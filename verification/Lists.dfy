/** Elements and repetitions of sequences. */
module Lists {

  function Elements<T>(s: seq<T>): set<T> {
    set x | x in s
  }

  ghost predicate Distinct<T>(s: seq<T>) {
    forall i, j :: 0 <= i < j < |s| ==> s[i] != s[j]
  }

  lemma ElementsOfEmpty<T>(s: seq<T>)
    ensures s == [] <==> Elements(s) == {}
  {
    if s != [] {
      assert s[0] in Elements(s);
    }
  }

  lemma DistinctAppend<T>(s: seq<T>, t: seq<T>)
    ensures Distinct(s + t) <==> Distinct(s) && Distinct(t) && forall x :: x in s ==> x !in t
  {
    var st := s + t;
    if Distinct(st) {
      forall i, j | 0 <= i < j < |s| ensures s[i] != s[j] { assert st[i] == s[i] && st[j] == s[j]; }
      forall i, j | 0 <= i < j < |t| ensures t[i] != t[j] { assert st[|s| + i] == t[i] && st[|s| + j] == t[j]; }
      forall i, j | 0 <= i < |s| && 0 <= j < |t| ensures s[i] != t[j] { assert st[i] == s[i] && st[|s| + j] == t[j]; }
    } else {
      var i, j :| 0 <= i < j < |st| && st[i] == st[j];
      if i < |s| <= j {
        assert s[i] == t[j - |s|] && s[i] in s;
      }
    }
  }

  /** Lists without a common element join like their element sets. */
  lemma DisjointAppend<T>(s: seq<T>, t: seq<T>)
    requires Elements(s) !! Elements(t)
    ensures Elements(s + t) == Elements(s) + Elements(t)
    ensures Distinct(s + t) <==> Distinct(s) && Distinct(t)
  {
    DistinctAppend(s, t);
    forall x | x in s ensures x !in t {
      assert x in Elements(s);
    }
  }
}
