/** Differences of lists through the string key of their elements. */
module KeyedDiff {
  import opened Lists

  ghost function Keys<T(!new)>(s: seq<T>, key: T -> string): set<string> {
    set t | t in s :: key(t)
  }

  ghost predicate DistinctKeys<T>(s: seq<T>, key: T -> string) {
    forall i, j :: 0 <= i < j < |s| ==> key(s[i]) != key(s[j])
  }

  /** `out` holds, once per key, an element of `a` for every key of `a` that `b` lacks. */
  ghost predicate KeyDifference<T(!new)>(out: seq<T>, a: seq<T>, b: seq<T>, key: T -> string) {
    && (forall t :: t in out ==> t in a)
    && Keys(out, key) == Keys(a, key) - Keys(b, key)
    && DistinctKeys(out, key)
  }

  /** A map from keys to elements of `s` bearing them, with all the keys of `s`. */
  ghost predicate Indexes<T(!new)>(index: map<string, T>, s: seq<T>, key: T -> string) {
    && index.Keys == Keys(s, key)
    && forall k :: k in index ==> index[k] in s && key(index[k]) == k
  }

  method Index<T(!new)>(s: seq<T>, key: T -> string) returns (index: map<string, T>)
    ensures Indexes(index, s, key)
  {
    index := map[];
    for i := 0 to |s|
      invariant Indexes(index, s[..i], key)
    {
      assert s[..i + 1] == s[..i] + [s[i]];
      assert Keys(s[..i + 1], key) == Keys(s[..i], key) + {key(s[i])};
      index := index[key(s[i]) := s[i]];
    }
    assert s[..|s|] == s;
  }

  lemma AddKey<T(!new)>(out: seq<T>, x: T, s: seq<T>, key: T -> string)
    requires (forall t :: t in out ==> t in s) && DistinctKeys(out, key) && x in s && key(x) !in Keys(out, key)
    ensures forall t :: t in out + [x] ==> t in s
    ensures DistinctKeys(out + [x], key)
    ensures Keys(out + [x], key) == Keys(out, key) + {key(x)}
  {
  }

  /** The elements of one index whose key the other lacks, in no particular order. */
  method Missing<T(!new)>(a: map<string, T>, b: map<string, T>, key: T -> string, ghost s: seq<T>, ghost t: seq<T>) returns (out: seq<T>)
    requires Indexes(a, s, key) && Indexes(b, t, key)
    ensures KeyDifference(out, s, t, key)
  {
    out := [];
    var pending := a.Keys;
    while pending != {}
      invariant pending <= a.Keys
      invariant forall x :: x in out ==> x in s
      invariant Keys(out, key) == (a.Keys - pending) - b.Keys
      invariant DistinctKeys(out, key)
    {
      var k :| k in pending;
      pending := pending - {k};
      if k !in b {
        AddKey(out, a[k], s, key);
        out := out + [a[k]];
      }
    }
  }

  method Diff<T(!new)>(current: seq<T>, desired: seq<T>, key: T -> string) returns (writes: seq<T>, deletes: seq<T>)
    ensures KeyDifference(writes, desired, current, key)
    ensures KeyDifference(deletes, current, desired, key)
  {
    var currentSet := Index(current, key);
    var desiredSet := Index(desired, key);
    writes := Missing(desiredSet, currentSet, key, desired, current);
    deletes := Missing(currentSet, desiredSet, key, current, desired);
  }

  /** The key tells the elements of `s` apart. */
  ghost predicate Faithful<T(!new)>(s: set<T>, key: T -> string) {
    forall t, u :: t in s && u in s && key(t) == key(u) ==> t == u
  }

  /** Where the key is faithful, the difference by key is the difference of the element sets. */
  lemma KeyDifferenceIsSetDifference<T(!new)>(out: seq<T>, a: seq<T>, b: seq<T>, key: T -> string)
    requires Faithful(Elements(a) + Elements(b), key) && KeyDifference(out, a, b, key)
    ensures Elements(out) == Elements(a) - Elements(b)
  {
    forall t ensures t in Elements(out) <==> t in Elements(a) - Elements(b) {
      if t in Elements(out) {
        assert key(t) in Keys(out, key);
      }
      if t in Elements(a) - Elements(b) {
        forall u | u in b ensures key(u) != key(t) {
          assert u in Elements(b);
        }
        assert key(t) in Keys(out, key);
        var u :| u in out && key(u) == key(t);
        assert u in Elements(a);
      }
    }
  }
}
