/** Concurrent role updates. Each client reads the role's row, then its permissions, then commits one
    transaction guarded by the revision; the steps of different clients interleave freely. */
module RoleRace {
  import opened Catalog
  import opened Metadata
  import opened Operations
  import opened Lists

  datatype Request = Request(actor: string, role: string, expected: int, description: string, permissions: set<Permission>)

  /** How far a client has come: its request is known; it has read the row; it has also read the
      permissions it will report as replaced and passed the checks; it has ended. */
  datatype Client =
    | Started(request: Request)
    | HasRow(request: Request, revision: int, builtIn: bool)
    | Ready(request: Request, replaced: set<Permission>)
    | Succeeded(request: Request)
    | Failed

  /** The role table, the audit log and the clients; `origin` remembers the permissions each role
      started from. */
  datatype State = State(roles: map<string, Role>, audit: seq<AuditEntry>, clients: map<nat, Client>, origin: map<string, set<Permission>>)

  datatype Action =
    | Create(id: string, role: Role)
    | Begin(client: nat, request: Request)
    | ReadRow(client: nat)
    | ReadPermissions(client: nat)
    | Commit(client: nat)
    | Abort(client: nat)

  function Move(st: State, client: nat, to: Client): State {
    st.(clients := st.clients[client := to])
  }

  function AfterReadRow(st: State, c: nat, q: Request): State {
    if q.role !in st.roles then Move(st, c, Failed)
    else Move(st, c, HasRow(q, st.roles[q.role].revision, st.roles[q.role].builtIn))
  }

  function AfterReadPermissions(st: State, c: nat, q: Request, revision: int, builtIn: bool): State {
    if q.role !in st.roles || builtIn || revision != q.expected then Move(st, c, Failed)
    else Move(st, c, Ready(q, st.roles[q.role].permissions))
  }

  /** The transaction: update where the revision is still the expected one, replace the permissions,
      and log the replacement; no row updated means a conflict and nothing written. */
  function AfterCommit(st: State, c: nat, q: Request, replaced: set<Permission>): State {
    if q.role !in st.roles || st.roles[q.role].revision != q.expected then Move(st, c, Failed)
    else
      var current := st.roles[q.role];
      var updated := current.(description := q.description, permissions := q.permissions, revision := current.revision + 1);
      var entry := AuditEntry(q.actor, q.role, replaced, q.permissions, current.revision + 1);
      Move(st.(roles := st.roles[q.role := updated], audit := st.audit + [entry]), c, Succeeded(q))
  }

  /** One step; an action that does not apply changes nothing. */
  function Apply(st: State, a: Action): State {
    match a
    case Create(id, role) =>
      if id in st.roles || role.revision != 1 then st
      else st.(roles := st.roles[id := role], origin := st.origin[id := role.permissions])
    case Begin(c, q) => if c in st.clients then st else Move(st, c, Started(q))
    case ReadRow(c) => if c in st.clients && st.clients[c].Started? then AfterReadRow(st, c, st.clients[c].request) else st
    case ReadPermissions(c) =>
      if c in st.clients && st.clients[c].HasRow?
      then AfterReadPermissions(st, c, st.clients[c].request, st.clients[c].revision, st.clients[c].builtIn) else st
    case Commit(c) =>
      if c in st.clients && st.clients[c].Ready? then AfterCommit(st, c, st.clients[c].request, st.clients[c].replaced) else st
    case Abort(c) =>
      if c in st.clients && !st.clients[c].Succeeded? then Move(st, c, Failed) else st
  }

  function Execute(st: State, actions: seq<Action>): State {
    if actions == [] then st
    else Apply(Execute(st, actions[..|actions| - 1]), actions[|actions| - 1])
  }

  // ---------------------------------------------------------------- the invariant

  /** The audit entries of one role, in order. */
  function History(audit: seq<AuditEntry>, role: string): seq<AuditEntry> {
    if audit == [] then []
    else
      var front := History(audit[..|audit| - 1], role);
      if audit[|audit| - 1].role == role then front + [audit[|audit| - 1]] else front
  }

  /** The entries lead from `first` to `current`, each starting where the one before ended, with
      revisions 2, 3, 4 and so on. */
  ghost predicate Chain(history: seq<AuditEntry>, first: set<Permission>, current: set<Permission>) {
    if history == [] then current == first
    else
      var n := |history| - 1;
      history[n].new_ == current && history[n].revision == n + 2 && Chain(history[..n], first, history[n].old_)
  }

  ghost predicate RoleOk(st: State, id: string) {
    && id in st.roles && id in st.origin
    && st.roles[id].revision == 1 + |History(st.audit, id)|
    && Chain(History(st.audit, id), st.origin[id], st.roles[id].permissions)
    && (st.roles[id].builtIn ==> History(st.audit, id) == [])
  }

  /** What a client knows is right as long as the revision it expects is still the current one. */
  ghost predicate ClientOk(st: State, c: Client) {
    match c
    case HasRow(q, revision, builtIn) =>
      q.role in st.roles && revision <= st.roles[q.role].revision && builtIn == st.roles[q.role].builtIn
    case Ready(q, replaced) =>
      && q.role in st.roles && q.expected <= st.roles[q.role].revision && !st.roles[q.role].builtIn
      && (q.expected == st.roles[q.role].revision ==> replaced == st.roles[q.role].permissions)
    case Succeeded(q) =>
      && q.role in st.roles && q.expected < st.roles[q.role].revision
      && Logged(st.audit, q)
    case _ => true
  }

  /** The log holds the entry of the request. */
  ghost predicate Logged(audit: seq<AuditEntry>, q: Request) {
    exists i :: 0 <= i < |audit| && audit[i].role == q.role && audit[i].actor == q.actor
                && audit[i].revision == q.expected + 1 && audit[i].new_ == q.permissions
  }

  ghost predicate SameRevision(c: Client, d: Client) {
    c.Succeeded? && d.Succeeded? && c.request.role == d.request.role && c.request.expected == d.request.expected
  }

  ghost predicate Consistent(st: State) {
    && (forall id :: id in st.roles ==> RoleOk(st, id))
    && (forall c :: c in st.clients ==> ClientOk(st, st.clients[c]))
    && (forall c, d :: c in st.clients && d in st.clients && SameRevision(st.clients[c], st.clients[d]) ==> c == d)
    && (forall i :: 0 <= i < |st.audit| ==> st.audit[i].role in st.roles)
  }

  lemma MoveKeeps(st: State, c: nat, to: Client)
    requires Consistent(st) && ClientOk(st, to) && !to.Succeeded?
    ensures Consistent(Move(st, c, to))
  {
    var st' := Move(st, c, to);
    hide History, Chain;
    assert forall id :: id in st.roles ==> RoleOk(st', id) == RoleOk(st, id);
    assert forall d :: ClientOk(st', d) == ClientOk(st, d);
  }

  lemma {:induction false} HistoryOfUnlogged(audit: seq<AuditEntry>, id: string)
    requires forall i :: 0 <= i < |audit| ==> audit[i].role != id
    ensures History(audit, id) == []
  {
    if audit != [] {
      HistoryOfUnlogged(audit[..|audit| - 1], id);
    }
  }

  lemma CreateKeeps(st: State, id: string, role: Role)
    requires Consistent(st) && id !in st.roles && role.revision == 1
    ensures Consistent(Apply(st, Create(id, role)))
  {
    var st' := Apply(st, Create(id, role));
    HistoryOfUnlogged(st.audit, id);
    assert Chain([], role.permissions, role.permissions);
    hide History, Chain;
    assert forall other :: other in st.roles ==> RoleOk(st, other);
    assert forall c :: c in st.clients ==> ClientOk(st, st.clients[c]);
  }

  lemma CommitKeepsRoles(st: State, c: nat, q: Request, replaced: set<Permission>, id: string)
    requires Consistent(st) && ClientOk(st, Ready(q, replaced))
    requires q.expected == st.roles[q.role].revision && id in st.roles
    ensures RoleOk(AfterCommit(st, c, q, replaced), id)
  {
    var st' := AfterCommit(st, c, q, replaced);
    assert st'.audit[..|st.audit|] == st.audit;
    assert RoleOk(st, id);
    if id == q.role {
      var history := History(st.audit, id);
      assert History(st'.audit, id)[..|history|] == history;
      assert st.roles[id].permissions == replaced;
    }
  }

  lemma LoggedSurvives(audit: seq<AuditEntry>, entry: AuditEntry, q: Request)
    requires Logged(audit, q)
    ensures Logged(audit + [entry], q)
  {
    var i :| 0 <= i < |audit| && audit[i].role == q.role && audit[i].actor == q.actor
             && audit[i].revision == q.expected + 1 && audit[i].new_ == q.permissions;
    assert (audit + [entry])[i] == audit[i];
  }

  lemma NewEntryIsLogged(audit: seq<AuditEntry>, entry: AuditEntry, q: Request)
    requires entry.role == q.role && entry.actor == q.actor && entry.revision == q.expected + 1 && entry.new_ == q.permissions
    ensures Logged(audit + [entry], q)
  {
    assert (audit + [entry])[|audit|] == entry;
  }

  lemma CommitKeepsClients(st: State, c: nat, q: Request, replaced: set<Permission>, d: nat)
    requires Consistent(st) && ClientOk(st, Ready(q, replaced)) && d in st.clients && d != c
    requires q.expected == st.roles[q.role].revision
    ensures ClientOk(AfterCommit(st, c, q, replaced), st.clients[d])
    ensures !SameRevision(Succeeded(q), st.clients[d])
  {
    var st' := AfterCommit(st, c, q, replaced);
    assert ClientOk(st, st.clients[d]);
    if st.clients[d].Succeeded? {
      LoggedSurvives(st.audit, st'.audit[|st.audit|], st.clients[d].request);
    }
  }

  lemma CommitKeeps(st: State, c: nat)
    requires Consistent(st) && c in st.clients && st.clients[c].Ready?
    ensures Consistent(Apply(st, Commit(c)))
  {
    hide History, Chain, RoleOk, Logged;
    var q, replaced := st.clients[c].request, st.clients[c].replaced;
    assert ClientOk(st, st.clients[c]);
    if st.roles[q.role].revision != q.expected {
      MoveKeeps(st, c, Failed);
    } else {
      var st' := AfterCommit(st, c, q, replaced);
      forall id | id in st.roles ensures RoleOk(st', id) {
        CommitKeepsRoles(st, c, q, replaced, id);
      }
      forall d | d in st.clients && d != c ensures ClientOk(st', st'.clients[d]) && !SameRevision(Succeeded(q), st'.clients[d]) {
        CommitKeepsClients(st, c, q, replaced, d);
      }
      NewEntryIsLogged(st.audit, AuditEntry(q.actor, q.role, replaced, q.permissions, q.expected + 1), q);
      assert ClientOk(st', st'.clients[c]);
    }
  }

  lemma ApplyKeeps(st: State, a: Action)
    requires Consistent(st)
    ensures Consistent(Apply(st, a))
  {
    hide RoleOk, Logged;
    match a
    case Create(id, role) => if id !in st.roles && role.revision == 1 { CreateKeeps(st, id, role); }
    case Begin(c, q) => if c !in st.clients { MoveKeeps(st, c, Started(q)); }
    case ReadRow(c) =>
      if c in st.clients && st.clients[c].Started? {
        var q := st.clients[c].request;
        MoveKeeps(st, c, if q.role in st.roles then HasRow(q, st.roles[q.role].revision, st.roles[q.role].builtIn) else Failed);
      }
    case ReadPermissions(c) =>
      if c in st.clients && st.clients[c].HasRow? {
        var q := st.clients[c].request;
        assert ClientOk(st, st.clients[c]);
        MoveKeeps(st, c, if st.clients[c].builtIn || st.clients[c].revision != q.expected then Failed else Ready(q, st.roles[q.role].permissions));
      }
    case Commit(c) => if c in st.clients && st.clients[c].Ready? { CommitKeeps(st, c); }
    case Abort(c) => if c in st.clients && !st.clients[c].Succeeded? { MoveKeeps(st, c, Failed); }
  }

  /** The role table as it starts: roles at revision 1, nothing logged, no clients. */
  ghost predicate Initial(st: State) {
    && st.audit == [] && st.clients == map[] && st.origin.Keys == st.roles.Keys
    && forall id :: id in st.roles ==> st.roles[id].revision == 1 && st.origin[id] == st.roles[id].permissions
  }

  lemma {:induction false} ExecutionIsConsistent(st: State, actions: seq<Action>)
    requires Initial(st)
    ensures Consistent(Execute(st, actions))
  {
    if actions != [] {
      ExecutionIsConsistent(st, actions[..|actions| - 1]);
      ApplyKeeps(Execute(st, actions[..|actions| - 1]), actions[|actions| - 1]);
    }
  }

  // ---------------------------------------------------------------- the results

  lemma {:induction false} ChainLinks(history: seq<AuditEntry>, first: set<Permission>, current: set<Permission>, i: nat)
    requires Chain(history, first, current) && i < |history|
    ensures history[i].revision == i + 2
    ensures history[i].old_ == if i == 0 then first else history[i - 1].new_
    ensures i == |history| - 1 ==> history[i].new_ == current
  {
    var n := |history| - 1;
    if i < n {
      ChainLinks(history[..n], first, history[n].old_, i);
    } else if n > 0 {
      ChainLinks(history[..n], first, history[n].old_, n - 1);
    }
  }

  /** A role's revision is one more than the number of its logged updates; its log is a chain, each
      entry replacing exactly what the entry before it wrote, from the permissions the role started
      with to those it has; and a built-in role has no log. */
  ghost predicate Unbroken(role: Role, origin: set<Permission>, history: seq<AuditEntry>) {
    && role.revision == 1 + |history|
    && (forall i :: 0 <= i < |history| ==>
          history[i].revision == i + 2 && history[i].old_ == if i == 0 then origin else history[i - 1].new_)
    && role.permissions == (if history == [] then origin else history[|history| - 1].new_)
    && (role.builtIn ==> history == [])
  }

  lemma ChainIsUnbroken(role: Role, origin: set<Permission>, history: seq<AuditEntry>)
    requires role.revision == 1 + |history| && Chain(history, origin, role.permissions) && (role.builtIn ==> history == [])
    ensures Unbroken(role, origin, history)
  {
    forall i | 0 <= i < |history|
      ensures history[i].revision == i + 2 && history[i].old_ == (if i == 0 then origin else history[i - 1].new_)
      ensures i == |history| - 1 ==> history[i].new_ == role.permissions
    {
      ChainLinks(history, origin, role.permissions, i);
    }
  }

  /** No update is lost, in any interleaving. */
  lemma NoLostUpdate(st: State, actions: seq<Action>, id: string)
    requires Initial(st) && id in Execute(st, actions).roles
    ensures id in Execute(st, actions).origin
    ensures Unbroken(Execute(st, actions).roles[id], Execute(st, actions).origin[id], History(Execute(st, actions).audit, id))
  {
    ExecutionIsConsistent(st, actions);
    var end := Execute(st, actions);
    assert RoleOk(end, id);
    ChainIsUnbroken(end.roles[id], end.origin[id], History(end.audit, id));
  }

  /** In every interleaving at most one client succeeds per role and expected revision, and each that
      succeeds has its own entry in the log. */
  lemma AtMostOneSuccess(st: State, actions: seq<Action>, c: nat, d: nat)
    requires Initial(st)
    requires c in Execute(st, actions).clients && d in Execute(st, actions).clients
    requires Execute(st, actions).clients[c].Succeeded? && Execute(st, actions).clients[d].Succeeded?
    requires Execute(st, actions).clients[c].request.role == Execute(st, actions).clients[d].request.role
    ensures Execute(st, actions).clients[c].request.expected == Execute(st, actions).clients[d].request.expected ==> c == d
    ensures Logged(Execute(st, actions).audit, Execute(st, actions).clients[c].request)
  {
    ExecutionIsConsistent(st, actions);
    var end := Execute(st, actions);
    assert ClientOk(end, end.clients[c]);
    hide Execute, RoleOk;
  }

  /** A client that runs alone does to the role table and the log what the service's role update does. */
  lemma AloneIsSequential(s: System, actor: string, role: string, expected: int, description: string, permissions: seq<string>)
    requires PlanUpdateRole(s, actor, role, expected, description, permissions).Success?
    ensures ParseAll(permissions).Some?
    ensures var m' := PlanUpdateRole(s, actor, role, expected, description, permissions).value;
            var q := Request(actor, role, expected, description, Elements(ParseAll(permissions).value));
            var st := State(s.meta.roles, s.meta.audit, map[], map[]);
            var end := Apply(Apply(Apply(Apply(st, Begin(0, q)), ReadRow(0)), ReadPermissions(0)), Commit(0));
            end.roles == m'.roles && end.audit == m'.audit && end.clients[0] == Succeeded(q)
  {
    hide Check, ParseAll, BindingsAccept;
  }
}
