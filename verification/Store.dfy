/** The mutable stores: the metadata database with its remembered projection, and the engine. */
module Store {
  import opened Catalog
  import opened AuthModel
  import opened Compiler
  import opened Lists
  import opened Metadata
  import opened ScopeRules
  import opened Encoding
  import opened Diff
  import opened Operations
  import Seed

  /** The key prefix of the one projection the service keeps. */
  const PREFIX := "all|"

  class Store {
    var users: map<string, string>
    var groups: map<string, string>
    var members: set<(string, string)>
    var roles: map<string, Role>
    var bindings: map<string, Binding>
    var resources: Resources
    var audit: seq<AuditEntry>
    var synced: map<string, Tuple>

    /** A freshly seeded store. */
    constructor ()
      ensures Meta() == Seed.SeedMetadata() && Synced() == {}
    {
      var seed := Seed.SeedMetadata();
      users, groups, members := seed.users, seed.groups, seed.members;
      roles, bindings, resources := seed.roles, seed.bindings, seed.resources;
      audit := seed.audit;
      synced := map[];
    }

    /** The metadata tables, as one value. */
    function Meta(): Metadata
      reads this
    {
      Metadata(users, groups, members, roles, bindings, resources, audit)
    }

    ghost function Synced(): set<Tuple>
      reads this
    {
      synced.Values
    }

    // -------------------------------------------------------------- the remembered projection

    /** The remembered tuples, in some order. */
    method ListSyncedTuples() returns (tuples: seq<Tuple>)
      ensures Elements(tuples) == Synced()
    {
      tuples := [];
      var pending := synced.Keys;
      while pending != {}
        invariant pending <= synced.Keys
        invariant Elements(tuples) == set k | k in synced.Keys - pending :: synced[k]
      {
        var k :| k in pending;
        assert Elements(tuples + [synced[k]]) == Elements(tuples) + {synced[k]};
        tuples := tuples + [synced[k]];
        pending := pending - {k};
      }
    }

    /** One transaction: drop the remembered tuples and insert the new ones. A repeated key breaks the
        primary key and rolls everything back, and so may a failure of the database. */
    method ReplaceSyncedTuples(tuples: seq<Tuple>, fails: bool) returns (ok: bool)
      requires AllClean(Elements(tuples))
      modifies this`synced
      ensures ok <==> !fails && Distinct(tuples)
      ensures Synced() == if ok then Elements(tuples) else old(Synced())
    {
      if fails {
        return false;
      }
      var table := InsertAll(tuples);
      if table.None? {
        return false;
      }
      synced := table.value;
      ok := true;
    }

    // -------------------------------------------------------------- the compatibility query

    method FindCompatibility(user: string, model: string) returns (id: Option<string>)
      ensures id.Some? <==> HasCompatibility(Meta(), user, model)
      ensures id.Some? ==> id.value in bindings && IsCompatibility(bindings[id.value], user, model)
    {
      var pending := bindings.Keys;
      while pending != {}
        invariant pending <= bindings.Keys
        invariant forall k :: k in bindings.Keys - pending ==> !IsCompatibility(bindings[k], user, model)
      {
        var k :| k in pending;
        if IsCompatibility(bindings[k], user, model) {
          return Some(k);
        }
        pending := pending - {k};
      }
      id := None;
    }
  }

  lemma SamePrefix(a: string, b: string)
    requires PREFIX + a == PREFIX + b
    ensures a == b
  {
    assert a == (PREFIX + a)[|PREFIX|..] && b == (PREFIX + b)[|PREFIX|..];
  }

  /** The table after inserting the tuples `done`, none of them twice. */
  ghost predicate Tabled(table: map<string, Tuple>, done: seq<Tuple>) {
    && table.Keys == (set t | t in done :: PREFIX + Key(t))
    && (forall k :: k in table ==> k == PREFIX + Key(table[k]))
    && table.Values == Elements(done)
    && Distinct(done)
  }

  lemma EmptyTable()
    ensures Tabled(map[], [])
  {
  }

  lemma TabledTuples(table: map<string, Tuple>, done: seq<Tuple>)
    requires Tabled(table, done)
    ensures table.Values == Elements(done) && Distinct(done)
  {
  }

  /** A key met twice means a tuple met twice. */
  lemma RepeatedKey(table: map<string, Tuple>, tuples: seq<Tuple>, i: nat)
    requires AllClean(Elements(tuples)) && i < |tuples| && Tabled(table, tuples[..i]) && PREFIX + Key(tuples[i]) in table
    ensures !Distinct(tuples)
  {
    hide Key, CleanTuple;
    assert PREFIX + Key(tuples[i]) in table.Keys;
    var t :| t in tuples[..i] && PREFIX + Key(t) == PREFIX + Key(tuples[i]);
    var j :| 0 <= j < i && tuples[..i][j] == t;
    SameKeySameTuple(tuples, j, i);
  }

  lemma SameKeySameTuple(tuples: seq<Tuple>, i: nat, j: nat)
    requires AllClean(Elements(tuples)) && i < |tuples| && j < |tuples| && PREFIX + Key(tuples[i]) == PREFIX + Key(tuples[j])
    ensures tuples[i] == tuples[j]
  {
    hide Key, CleanTuple;
    SamePrefix(Key(tuples[i]), Key(tuples[j]));
    assert tuples[i] in Elements(tuples) && tuples[j] in Elements(tuples);
    KeysDistinct(tuples[i], tuples[j]);
  }

  lemma TableGrows(table: map<string, Tuple>, done: seq<Tuple>, t: Tuple)
    requires Tabled(table, done) && PREFIX + Key(t) !in table
    ensures Tabled(table[PREFIX + Key(t) := t], done + [t])
  {
    var key := PREFIX + Key(t);
    hide Key;
    var grown := table[key := t];
    assert forall u :: u in done ==> PREFIX + Key(u) in table;
    forall x ensures x in grown.Values <==> x in Elements(done + [t]) {
      if x in table.Values {
        var k :| k in table && table[k] == x;
        assert k in grown && grown[k] == x;
      }
      assert key in grown && grown[key] == t;
    }
    DistinctAppend(done, [t]);
  }

  /** Insert the tuples one by one under their keys; fail on a key met twice. */
  method InsertAll(tuples: seq<Tuple>) returns (result: Option<map<string, Tuple>>)
    requires AllClean(Elements(tuples))
    ensures result.Some? <==> Distinct(tuples)
    ensures result.Some? ==> result.value.Values == Elements(tuples)
  {
    var table: map<string, Tuple> := map[];
    EmptyTable();
    TakeAll(tuples);
    hide *;
    for i := 0 to |tuples|
      invariant Tabled(table, tuples[..i])
    {
      var key := PREFIX + Key(tuples[i]);
      if key in table {
        RepeatedKey(table, tuples, i);
        return None;
      }
      TableGrows(table, tuples[..i], tuples[i]);
      TakeNext(tuples, i);
      table := table[key := tuples[i]];
    }
    TakeAll(tuples);
    TabledTuples(table, tuples);
    result := Some(table);
  }

  lemma TakeNext<T>(s: seq<T>, i: nat)
    requires i < |s|
    ensures s[..i + 1] == s[..i] + [s[i]]
  {
  }

  lemma TakeAll<T>(s: seq<T>)
    ensures s[..|s|] == s && s[..0] == []
  {
  }

  class Engine {
    var tuples: set<Tuple>

    constructor ()
      ensures tuples == {}
    {
      tuples := {};
    }

    /** One atomic write. An empty write is not sent. The engine takes only well-typed tuples; it
        ignores writing a tuple it has and deleting one it lacks. */
    method Write(writes: seq<Tuple>, deletes: seq<Tuple>, fails: bool) returns (ok: bool)
      requires forall t :: t in writes ==> WellTyped(t)
      modifies this
      ensures ok <==> !fails || (writes == [] && deletes == [])
      ensures tuples == if ok then (old(tuples) - Elements(deletes)) + Elements(writes) else old(tuples)
    {
      if |writes| == 0 && |deletes| == 0 {
        return true;
      }
      if fails {
        return false;
      }
      tuples := (tuples - Elements(deletes)) + Elements(writes);
      ok := true;
    }

    method Check(principal: string, permission: Permission, resource: Ref) returns (allowed: Result<bool, Error>)
      ensures allowed == if Supports(permission, resource.typ) then Success(Allowed(tuples, principal, RelationOf(permission), resource)) else Failure(Unsupported)
    {
      if !Supports(permission, resource.typ) {
        return Failure(Unsupported);
      }
      allowed := Success(Allowed(tuples, principal, RelationOf(permission), resource));
    }
  }
}
