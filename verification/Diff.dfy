/** The two differences the service takes: of tuple lists, and of permission lists. */
module Diff {
  import opened Catalog
  import opened AuthModel
  import opened Compiler
  import opened Encoding
  import opened Lists
  import KeyedDiff

  method TupleDiff(current: seq<Tuple>, desired: seq<Tuple>) returns (writes: seq<Tuple>, deletes: seq<Tuple>)
    ensures KeyedDiff.KeyDifference(writes, desired, current, Key)
    ensures KeyedDiff.KeyDifference(deletes, current, desired, Key)
  {
    writes, deletes := KeyedDiff.Diff(current, desired, Key);
  }

  ghost predicate AllClean(s: set<Tuple>) {
    forall t :: t in s ==> CleanTuple(t)
  }

  /** Over clean identifiers the key tells tuples apart. */
  lemma KeyIsFaithful(s: set<Tuple>)
    requires AllClean(s)
    ensures KeyedDiff.Faithful(s, Key)
  {
    forall t, u | t in s && u in s && Key(t) == Key(u) ensures t == u {
      KeysDistinct(t, u);
    }
  }

  /** Writing the difference both ways turns the current tuples into the desired ones; no tuple is
      both written and deleted, and none is listed twice. */
  lemma DiffReachesDesired(current: seq<Tuple>, desired: seq<Tuple>, writes: seq<Tuple>, deletes: seq<Tuple>)
    requires AllClean(Elements(current)) && AllClean(Elements(desired))
    requires KeyedDiff.KeyDifference(writes, desired, current, Key) && KeyedDiff.KeyDifference(deletes, current, desired, Key)
    ensures Elements(writes) == Elements(desired) - Elements(current)
    ensures Elements(deletes) == Elements(current) - Elements(desired)
    ensures (Elements(current) - Elements(deletes)) + Elements(writes) == Elements(desired)
    ensures Distinct(writes) && Distinct(deletes)
  {
    KeyIsFaithful(Elements(desired) + Elements(current));
    assert Elements(desired) + Elements(current) == Elements(current) + Elements(desired);
    KeyedDiff.KeyDifferenceIsSetDifference(writes, desired, current, Key);
    KeyedDiff.KeyDifferenceIsSetDifference(deletes, current, desired, Key);
  }

  // ---------------------------------------------------------------- permission lists

  /** The order of Go strings. */
  predicate Less(a: string, b: string) {
    b != "" && (a == "" || a[0] < b[0] || (a[0] == b[0] && Less(a[1..], b[1..])))
  }

  lemma {:induction false} LessIsTransitive(a: string, b: string, c: string)
    requires Less(a, b) && Less(b, c)
    ensures Less(a, c)
  {
    if a != "" && a[0] == b[0] == c[0] {
      LessIsTransitive(a[1..], b[1..], c[1..]);
    }
  }

  lemma {:induction false} LessIsTotal(a: string, b: string)
    ensures a == b || Less(a, b) || Less(b, a)
    ensures !(Less(a, b) && Less(b, a))
  {
    if a != "" && b != "" && a[0] == b[0] {
      LessIsTotal(a[1..], b[1..]);
      assert a == [a[0]] + a[1..] && b == [b[0]] + b[1..];
    }
  }

  /** Listed by name, each name once. */
  predicate Sorted(s: seq<Permission>) {
    forall i, j :: 0 <= i < j < |s| ==> Less(PermissionName(s[i]), PermissionName(s[j]))
  }

  lemma SortedIsDistinct(s: seq<Permission>)
    requires Sorted(s)
    ensures Distinct(s)
  {
    forall i, j | 0 <= i < j < |s| ensures s[i] != s[j] {
      LessIsTotal(PermissionName(s[i]), PermissionName(s[j]));
    }
  }

  /** The head of a sorted list is its least element and does not recur. */
  lemma SortedHead(s: seq<Permission>)
    requires Sorted(s) && s != []
    ensures s[0] in Elements(s)
    ensures forall p :: p in Elements(s) && p != s[0] ==> Less(PermissionName(s[0]), PermissionName(p))
    ensures Sorted(s[1..]) && Elements(s[1..]) == Elements(s) - {s[0]}
  {
    SortedIsDistinct(s);
    hide PermissionName, Less;
    assert s == [s[0]] + s[1..];
    assert forall p :: p in Elements(s) <==> p == s[0] || p in s[1..];
  }

  /** A set of permissions has one sorted listing. */
  lemma {:induction false} SortedIsUnique(s: seq<Permission>, t: seq<Permission>)
    requires Sorted(s) && Sorted(t) && Elements(s) == Elements(t)
    ensures s == t
  {
    ElementsOfEmpty(s);
    ElementsOfEmpty(t);
    if s != [] {
      SortedHead(s);
      SortedHead(t);
      LessIsTotal(PermissionName(s[0]), PermissionName(t[0]));
      hide *;
      SortedIsUnique(s[1..], t[1..]);
      assert s == [s[0]] + s[1..] && t == [t[0]] + t[1..];
    }
  }

  /** Insertion of a new permission into a sorted list. */
  function Insert(p: Permission, s: seq<Permission>): (r: seq<Permission>)
    requires Sorted(s) && p !in s
    ensures Sorted(r) && Elements(r) == Elements(s) + {p}
  {
    if s == [] then [p]
    else if Less(PermissionName(p), PermissionName(s[0])) then
      InsertFirst(p, s);
      [p] + s
    else
      InsertLater(p, s);
      [s[0]] + Insert(p, s[1..])
  }

  lemma InsertFirst(p: Permission, s: seq<Permission>)
    requires Sorted(s) && s != [] && Less(PermissionName(p), PermissionName(s[0]))
    ensures Sorted([p] + s) && Elements([p] + s) == Elements(s) + {p}
  {
    forall i | 0 < i < |s| ensures Less(PermissionName(p), PermissionName(s[i])) {
      LessIsTransitive(PermissionName(p), PermissionName(s[0]), PermissionName(s[i]));
    }
  }

  lemma InsertLater(p: Permission, s: seq<Permission>)
    requires Sorted(s) && s != [] && p !in s && !Less(PermissionName(p), PermissionName(s[0]))
    ensures Sorted(s[1..]) && p !in s[1..]
    ensures forall r: seq<Permission> :: Sorted(r) && Elements(r) == Elements(s[1..]) + {p} ==>
              Sorted([s[0]] + r) && Elements([s[0]] + r) == Elements(s) + {p}
  {
    if PermissionName(p) == PermissionName(s[0]) {
      PermissionNamesDistinct(p, s[0]);
    }
    LessIsTotal(PermissionName(p), PermissionName(s[0]));
    forall r: seq<Permission> | Sorted(r) && Elements(r) == Elements(s[1..]) + {p}
      ensures Sorted([s[0]] + r) && Elements([s[0]] + r) == Elements(s) + {p}
    {
      forall q | q in r ensures Less(PermissionName(s[0]), PermissionName(q)) {
        assert q in Elements(r);
      }
      assert s == [s[0]] + s[1..];
    }
  }

  /** The rows of a set-valued table read back in name order. */
  method SortedList(s: set<Permission>) returns (list: seq<Permission>)
    ensures Sorted(list) && Elements(list) == s
  {
    list := [];
    var pending := s;
    while pending != {}
      invariant pending <= s && Sorted(list) && Elements(list) == s - pending
    {
      var p :| p in pending;
      assert p !in Elements(list);
      list := Insert(p, list);
      pending := pending - {p};
    }
  }

  method Unique(values: seq<Permission>) returns (result: seq<Permission>)
    ensures Sorted(result) && Elements(result) == Elements(values)
  {
    var seen: set<Permission> := {};
    var kept: seq<Permission> := [];
    for i := 0 to |values|
      invariant seen == Elements(values[..i]) == Elements(kept)
      invariant Distinct(kept)
    {
      assert values[..i + 1] == values[..i] + [values[i]];
      if values[i] in seen {
        continue;
      }
      seen := seen + {values[i]};
      assert values[i] !in Elements(kept);
      kept := kept + [values[i]];
    }
    assert values[..|values|] == values;
    result := SortDistinct(kept);
  }

  function SortDistinct(s: seq<Permission>): (r: seq<Permission>)
    requires Distinct(s)
    ensures Sorted(r) && Elements(r) == Elements(s)
  {
    if s == [] then []
    else
      assert s == [s[0]] + s[1..];
      var rest := SortDistinct(s[1..]);
      assert s[0] !in Elements(s[1..]);
      Insert(s[0], rest)
  }

  /** Added and removed permissions, each sorted. */
  method DiffPermissions(oldValues: seq<Permission>, newValues: seq<Permission>) returns (added: seq<Permission>, removed: seq<Permission>)
    ensures Sorted(added) && Elements(added) == Elements(newValues) - Elements(oldValues)
    ensures Sorted(removed) && Elements(removed) == Elements(oldValues) - Elements(newValues)
  {
    var oldSet := Collect(oldValues);
    var newSet := Collect(newValues);
    added := SortedList(newSet - oldSet);
    removed := SortedList(oldSet - newSet);
  }

  method Collect(values: seq<Permission>) returns (s: set<Permission>)
    ensures s == Elements(values)
  {
    s := {};
    for i := 0 to |values|
      invariant s == Elements(values[..i])
    {
      assert values[..i + 1] == values[..i] + [values[i]];
      s := s + {values[i]};
    }
    assert values[..|values|] == values;
  }
}
