/** The two climbs of the service: is a resource within a scope, and which scope manages it. */
module ScopeRules {
  import opened Catalog
  import opened AuthModel
  import opened Metadata

  datatype Error =
    | Forbidden      // the acting user is denied
    | Invalid        // the request is malformed
    | NotFound       // a named row does not exist
    | Conflict       // a uniqueness rule, a stale revision, or a resource with children
    | Rejected       // the store refuses a blank name
    | Unsupported    // the permission does not apply to the resource type
    | SyncFailed     // some binding does not compile, or a write failed

  /** Climb from `ref` until `scope` is met, the controller is passed, or a row is missing. */
  ghost function WithinScope(rs: Resources, ref: Ref, scope: Ref): Result<bool, Error>
    requires Hierarchy(rs)
    decreases Rank(ref.typ)
  {
    if ref == scope then Success(true)
    else if ref.typ == Controller then Success(false)
    else if ref !in rs then Failure(NotFound)
    else
      ParentRanksHigher(rs, ref);
      WithinScope(rs, rs[ref].parent.value, scope)
  }

  /** On stored resources the climb never misses a row, and it decides at-or-below. */
  lemma {:induction false} WithinScopeDecides(rs: Resources, ref: Ref, scope: Ref)
    requires Hierarchy(rs) && Known(rs, ref)
    ensures WithinScope(rs, ref, scope) == Success(AtOrBelow(rs, ref, scope))
    decreases Rank(ref.typ)
  {
    if ref in rs {
      ParentRanksHigher(rs, ref);
      WithinScopeDecides(rs, rs[ref].parent.value, scope);
    }
  }

  method IsWithinScope(rs: Resources, start: Ref, scope: Ref) returns (within: Result<bool, Error>)
    requires Hierarchy(rs)
    ensures within == WithinScope(rs, start, scope)
  {
    var ref := start;
    while true
      invariant WithinScope(rs, start, scope) == WithinScope(rs, ref, scope)
      decreases Rank(ref.typ)
    {
      if ref == scope {
        return Success(true);
      }
      if ref.typ == Controller {
        return Success(false);
      }
      if ref !in rs {
        return Failure(NotFound);
      }
      ParentRanksHigher(rs, ref);
      ref := rs[ref].parent.value;
    }
  }

  /** A scope at which policy is managed. */
  predicate IsPolicyScope(ref: Ref) {
    ref.typ == Controller || ref.typ == Model
  }

  /** Climb from `ref` to the first model or controller. */
  ghost function ManagementScope(rs: Resources, ref: Ref): Result<Ref, Error>
    requires Hierarchy(rs)
    decreases Rank(ref.typ)
  {
    if IsPolicyScope(ref) then Success(ref)
    else if ref !in rs then Failure(NotFound)
    else
      ParentRanksHigher(rs, ref);
      ManagementScope(rs, rs[ref].parent.value)
  }

  method FindManagementScope(rs: Resources, start: Ref) returns (scope: Result<Ref, Error>)
    requires Hierarchy(rs)
    ensures scope == ManagementScope(rs, start)
  {
    var ref := start;
    while ref.typ != Controller && ref.typ != Model
      invariant ManagementScope(rs, start) == ManagementScope(rs, ref)
      decreases Rank(ref.typ)
    {
      if ref !in rs {
        return Failure(NotFound);
      }
      ParentRanksHigher(rs, ref);
      ref := rs[ref].parent.value;
    }
    scope := Success(ref);
  }

  /** On stored resources the climb succeeds, ends on a stored model or the controller, at or above
      the start, and no policy scope lies strictly between. */
  lemma {:induction false} ManagementScopeIsNearest(rs: Resources, ref: Ref)
    requires Hierarchy(rs) && Known(rs, ref)
    ensures ManagementScope(rs, ref).Success?
    ensures var scope := ManagementScope(rs, ref).value;
            && Known(rs, scope) && IsPolicyScope(scope) && AtOrBelow(rs, ref, scope)
            && forall other :: IsPolicyScope(other) && AtOrBelow(rs, ref, other) ==> AtOrBelow(rs, scope, other)
    decreases Rank(ref.typ)
  {
    if !IsPolicyScope(ref) {
      ParentRanksHigher(rs, ref);
      ManagementScopeIsNearest(rs, rs[ref].parent.value);
    }
  }
}
