/**
  The tenant session protocol (queryWithContext, backend/src/config/database.ts).

  One call runs a fixed statement script on one pooled connection:
  BEGIN, SET LOCAL ROLE, [SET LOCAL statement_timeout], four set_config calls, the schema query, SET LOCAL search_path,
  the caller's statement, COMMIT; on any error ROLLBACK; and always RESET ROLE before the client is released.
  Every statement may fail or lose the connection, and calls on different clients interleave freely.

  Assumptions: ROLLBACK and RESET ROLE fail only when the connection is lost, a lost connection stays lost, and the
  caller's statement neither ends the transaction nor changes session settings.
 */
module TenantSession {
  import opened Wrappers
  import opened Identifiers
  import opened SearchPath

  // ---- one PostgreSQL session ----

  datatype Role = LoginRole | FabricUser

  datatype Txn = NoTxn | InTxn | AbortedTxn

  datatype Claims = Claims(tenantId: string, username: string, internalRole: string)

  /** Transaction-local settings; None is the server default. */
  datatype Settings = Settings(timeout: Option<int>, tenantId: Option<string>, userName: Option<string>,
                               region: Option<string>, claims: Option<Claims>, searchPath: Option<string>)

  const NO_SETTINGS := Settings(None, None, None, None, None, None)

  datatype Session = Session(alive: bool, txn: Txn, role: Role, local: Settings)

  const FRESH := Session(true, NoTxn, LoginRole, NO_SETTINGS)
  const DEAD := Session(false, NoTxn, LoginRole, NO_SETTINGS)

  predicate Clean(s: Session) { s.txn == NoTxn && s.role == LoginRole && s.local == NO_SETTINGS }

  datatype Statement =
    | Begin | SetLocalRole | SetTimeout(ms: int) | SetTenant(t: string) | SetUser(u: string) | SetRegion(g: string)
    | SetClaims(c: Claims) | ListSchemas | SetSearchPath(path: string) | UserStatement | Commit | Rollback | ResetRole

  /** What the server does with one statement: completes it (with rows), rejects it, or the connection is lost. */
  datatype Outcome = Completed(rows: seq<string>) | Rejected | Lost(applied: bool)

  /** SET LOCAL and set_config(..., true) have no lasting effect outside a transaction. */
  function Effect(s: Session, st: Statement): Session
  {
    match st
    case Begin => s.(txn := InTxn)
    case Commit => FRESH
    case Rollback => FRESH
    case ResetRole => s.(role := LoginRole)
    case ListSchemas => s
    case UserStatement => s
    case _ =>
      if s.txn != InTxn then s else
      match st
      case SetLocalRole => s.(role := FabricUser)
      case SetTimeout(ms) => s.(local := s.local.(timeout := Some(ms)))
      case SetTenant(t) => s.(local := s.local.(tenantId := Some(t)))
      case SetUser(u) => s.(local := s.local.(userName := Some(u)))
      case SetRegion(g) => s.(local := s.local.(region := Some(g)))
      case SetClaims(c) => s.(local := s.local.(claims := Some(c)))
      case SetSearchPath(p) => s.(local := s.local.(searchPath := Some(p)))
      case _ => s
  }

  datatype Executed = Executed(session: Session, ok: bool)

  function Exec(s: Session, st: Statement, o: Outcome): Executed
  {
    if !s.alive then Executed(s, false)
    else match o
      case Lost(_) => Executed(DEAD, false)
      case Rejected =>
        Executed(if st == Commit then FRESH else if s.txn == InTxn then s.(txn := AbortedTxn) else s, false)
      case Completed(_) =>
        if s.txn == AbortedTxn && st != Commit && st != Rollback then Executed(s, false)
        else Executed(Effect(s, st), true)
  }

  /** A live server outside an aborted transaction: what BEGIN, COMMIT, ROLLBACK and RESET ROLE leave. */
  lemma {:induction false} ServerEffects(s: Session, rows: seq<string>)
    requires s.alive && s.txn != AbortedTxn
    ensures Exec(s, Begin, Completed(rows)) == Executed(Session(true, InTxn, s.role, s.local), true)
    ensures Exec(s, ResetRole, Completed(rows)) == Executed(Session(true, s.txn, LoginRole, s.local), true)
    ensures Exec(s, Commit, Completed(rows)) == Exec(s, Rollback, Completed(rows)) == Executed(FRESH, true)
    ensures FRESH == Session(true, NoTxn, LoginRole, Settings(None, None, None, None, None, None))
  {
  }

  // ---- the script of one call ----

  datatype Context = Context(tenantId: string, username: string, role: string, timeoutMs: Option<int>, region: string)

  datatype Pc =
    | AtBegin | AtRole | AtTimeout | AtTenant | AtUser | AtRegion | AtClaims | AtList | AtPath | AtStatement | AtCommit
    | AtRollback | AtReset | Returned | Threw | Leaked

  datatype Call = Call(ctx: Context, pc: Pc, rows: seq<string>, failed: bool)

  function Rank(pc: Pc): nat
  {
    match pc
    case AtBegin => 0 case AtRole => 1 case AtTimeout => 2 case AtTenant => 3 case AtUser => 4 case AtRegion => 5
    case AtClaims => 6 case AtList => 7 case AtPath => 8 case AtStatement => 9 case AtCommit => 10
    case AtRollback => 11 case AtReset => 12 case Returned => 13 case Threw => 13 case Leaked => 13
  }

  predicate Final(pc: Pc) { Rank(pc) == 13 }

  predicate InTry(pc: Pc) { Rank(pc) <= 10 }

  /** `if (policyTimeout && Number.isInteger(policyTimeout))` */
  predicate HasTimeout(ctx: Context) { ctx.timeoutMs.Some? && ctx.timeoutMs.value != 0 }

  /** `internal_role: context.role || 'USER'` */
  function ClaimsOf(ctx: Context): Claims
  {
    Claims(ctx.tenantId, ctx.username, if ctx.role == "" then "USER" else ctx.role)
  }

  function StatementAt(q: Call): Statement
    requires !Final(q.pc)
  {
    match q.pc
    case AtBegin => Begin
    case AtRole => SetLocalRole
    case AtTimeout => SetTimeout(if q.ctx.timeoutMs.Some? then q.ctx.timeoutMs.value else 0)
    case AtTenant => SetTenant(q.ctx.tenantId)
    case AtUser => SetUser(q.ctx.username)
    case AtRegion => SetRegion(q.ctx.region)
    case AtClaims => SetClaims(ClaimsOf(q.ctx))
    case AtList => ListSchemas
    case AtPath => SetSearchPath(TenantSearchPath(q.rows, q.ctx.tenantId))
    case AtStatement => UserStatement
    case AtCommit => Commit
    case AtRollback => Rollback
    case _ => ResetRole
  }

  function Successor(ctx: Context, pc: Pc): Pc
  {
    match pc
    case AtBegin => AtRole
    case AtRole => if HasTimeout(ctx) then AtTimeout else AtTenant
    case AtTimeout => AtTenant
    case AtTenant => AtUser
    case AtUser => AtRegion
    case AtRegion => AtClaims
    case AtClaims => AtList
    case AtList => AtPath
    case AtPath => AtStatement
    case AtStatement => AtCommit
    case _ => AtReset
  }

  /** try: next statement, or the catch block; catch: ROLLBACK, then finally; finally: RESET ROLE, then release. */
  function NextPc(q: Call, ok: bool): Pc
    requires !Final(q.pc)
  {
    if InTry(q.pc) then (if ok then Successor(q.ctx, q.pc) else AtRollback)
    else if q.pc == AtRollback then AtReset
    else if !ok then Leaked
    else if q.failed then Threw
    else Returned
  }

  datatype Stepped = Stepped(session: Session, call: Call)

  function CallStep(s: Session, q: Call, o: Outcome): (r: Stepped)
    requires !Final(q.pc)
    ensures Rank(r.call.pc) > Rank(q.pc) && r.call.ctx == q.ctx
  {
    var x := Exec(s, StatementAt(q), o);
    Stepped(x.session,
            q.(pc := NextPc(q, x.ok),
               rows := if q.pc == AtList && x.ok && o.Completed? then o.rows else q.rows,
               failed := q.failed || (InTry(q.pc) && !x.ok)))
  }

  /** The whole call with no interleaving, `oracle` choosing the outcome of each statement. */
  function Drive(s: Session, q: Call, oracle: Pc -> Outcome): Stepped
    decreases 13 - Rank(q.pc)
  {
    if Final(q.pc) then Stepped(s, q)
    else var n := CallStep(s, q, oracle(q.pc)); Drive(n.session, n.call, oracle)
  }

  // ---- what each program point knows about its session ----

  predicate Past(pc: Pc, p: Pc) { Rank(pc) > Rank(p) }

  function LocalAt(q: Call): Settings
  {
    Settings(
      if HasTimeout(q.ctx) && Past(q.pc, AtTimeout) then q.ctx.timeoutMs else None,
      if Past(q.pc, AtTenant) then Some(q.ctx.tenantId) else None,
      if Past(q.pc, AtUser) then Some(q.ctx.username) else None,
      if Past(q.pc, AtRegion) then Some(q.ctx.region) else None,
      if Past(q.pc, AtClaims) then Some(ClaimsOf(q.ctx)) else None,
      if Past(q.pc, AtPath) then Some(TenantSearchPath(q.rows, q.ctx.tenantId)) else None)
  }

  predicate Fits(s: Session, q: Call)
  {
    && (!s.alive ==> s == DEAD)
    && (q.pc == AtTimeout ==> HasTimeout(q.ctx))
    && (s.alive && InTry(q.pc) ==>
          s == Session(true, if q.pc == AtBegin then NoTxn else InTxn,
                       if Past(q.pc, AtRole) then FabricUser else LoginRole, LocalAt(q)))
    && (s.alive && Past(q.pc, AtRollback) ==> Clean(s))
    && (q.pc == Leaked ==> !s.alive)
    && (q.pc == Returned || q.pc == Threw ==> s.alive)
    && (InTry(q.pc) || q.pc == Returned ==> !q.failed)
    && (q.pc == AtRollback || q.pc == Threw ==> q.failed)
  }

  /** ROLLBACK and RESET ROLE are never rejected by a live server. */
  predicate Possible(pc: Pc, o: Outcome) { (pc == AtRollback || pc == AtReset) ==> o != Rejected }

  lemma {:induction false} OpeningStepKeepsFit(s: Session, q: Call, o: Outcome)
    requires Rank(q.pc) < Rank(AtTenant) && Fits(s, q) && Exec(s, StatementAt(q), o).ok
    ensures var n := CallStep(s, q, o); Fits(n.session, n.call)
  {
  }

  lemma {:induction false} IdentityStepKeepsFit(s: Session, q: Call, o: Outcome)
    requires Rank(AtTenant) <= Rank(q.pc) < Rank(AtList) && Fits(s, q) && Exec(s, StatementAt(q), o).ok
    ensures var n := CallStep(s, q, o); Fits(n.session, n.call)
  {
  }

  lemma {:induction false} ListStepKeepsFit(s: Session, q: Call, o: Outcome)
    requires q.pc == AtList && Fits(s, q) && Exec(s, StatementAt(q), o).ok
    ensures var n := CallStep(s, q, o); Fits(n.session, n.call)
  {
  }

  lemma {:induction false} PathStepKeepsFit(s: Session, q: Call, o: Outcome)
    requires q.pc == AtPath && Fits(s, q) && Exec(s, StatementAt(q), o).ok
    ensures var n := CallStep(s, q, o); Fits(n.session, n.call)
  {
  }

  lemma {:induction false} SettingsAreSet(q: Call, n: Call)
    requires Past(q.pc, AtPath) && Past(n.pc, AtPath) && n.ctx == q.ctx && n.rows == q.rows
    ensures LocalAt(n) == LocalAt(q)
  {
  }

  lemma {:induction false} StatementStepKeepsFit(s: Session, q: Call, o: Outcome)
    requires q.pc == AtStatement && Fits(s, q) && Exec(s, StatementAt(q), o).ok
    ensures var n := CallStep(s, q, o); Fits(n.session, n.call)
  {
    SettingsAreSet(q, CallStep(s, q, o).call);
  }

  lemma {:induction false} CommitStepKeepsFit(s: Session, q: Call, o: Outcome)
    requires q.pc == AtCommit && Fits(s, q) && Exec(s, StatementAt(q), o).ok
    ensures var n := CallStep(s, q, o); Fits(n.session, n.call)
  {
  }

  lemma {:induction false} FailedStepKeepsFit(s: Session, q: Call, o: Outcome)
    requires InTry(q.pc) && Fits(s, q) && !Exec(s, StatementAt(q), o).ok
    ensures var n := CallStep(s, q, o); Fits(n.session, n.call)
  {
  }

  lemma {:induction false} CleanUpStepKeepsFit(s: Session, q: Call, o: Outcome)
    requires !Final(q.pc) && !InTry(q.pc) && Fits(s, q) && Possible(q.pc, o)
    ensures var n := CallStep(s, q, o); Fits(n.session, n.call)
  {
  }

  lemma {:induction false} StepKeepsFit(s: Session, q: Call, o: Outcome)
    requires !Final(q.pc) && Fits(s, q) && Possible(q.pc, o)
    ensures var n := CallStep(s, q, o); Fits(n.session, n.call)
  {
    if !InTry(q.pc) { CleanUpStepKeepsFit(s, q, o); }
    else if !Exec(s, StatementAt(q), o).ok { FailedStepKeepsFit(s, q, o); }
    else if Rank(q.pc) < Rank(AtTenant) { OpeningStepKeepsFit(s, q, o); }
    else if Rank(q.pc) < Rank(AtList) { IdentityStepKeepsFit(s, q, o); }
    else if q.pc == AtList { ListStepKeepsFit(s, q, o); }
    else if q.pc == AtPath { PathStepKeepsFit(s, q, o); }
    else if q.pc == AtStatement { StatementStepKeepsFit(s, q, o); }
    else { CommitStepKeepsFit(s, q, o); }
  }

  /** A call leaks its client exactly when the connection died, and otherwise hands it back clean. */
  lemma {:induction false} DriveFits(s: Session, q: Call, oracle: Pc -> Outcome)
    requires Fits(s, q) && forall pc :: Possible(pc, oracle(pc))
    ensures var d := Drive(s, q, oracle);
            && Final(d.call.pc)
            && (d.call.pc == Leaked <==> !d.session.alive)
            && (d.session.alive ==> Clean(d.session))
    decreases 13 - Rank(q.pc)
  {
    if !Final(q.pc) {
      StepKeepsFit(s, q, oracle(q.pc));
      var n := CallStep(s, q, oracle(q.pc));
      DriveFits(n.session, n.call, oracle);
    }
  }

  // ---- the function itself ----

  class PgClient {
    var session: Session

    constructor ()
      ensures session == FRESH
    {
      session := FRESH;
    }

    method Query(st: Statement, o: Outcome) returns (ok: bool)
      modifies this
      ensures Executed(session, ok) == Exec(old(session), st, o)
    {
      var x := Exec(session, st, o);
      session, ok := x.session, x.ok;
    }
  }

  /** The call is at `pc` on this client, and finishing it from here gives `d`. */
  ghost predicate Heading(d: Stepped, s: Session, q: Call, oracle: Pc -> Outcome) { d == Drive(s, q, oracle) }

  /** BEGIN, SET LOCAL ROLE and the optional policy timeout; stops at the first error. */
  method OpenTransaction(client: PgClient, ctx: Context, oracle: Pc -> Outcome, ghost d: Stepped) returns (ok: bool)
    requires Heading(d, client.session, Call(ctx, AtBegin, [], false), oracle)
    modifies client
    ensures Heading(d, client.session, Call(ctx, if ok then AtTenant else AtRollback, [], !ok), oracle)
  {
    ok := client.Query(Begin, oracle(AtBegin));
    if !ok { return; }
    assert Heading(d, client.session, Call(ctx, AtRole, [], false), oracle);
    ok := client.Query(SetLocalRole, oracle(AtRole));
    if !ok { return; }
    if ctx.timeoutMs.Some? && ctx.timeoutMs.value != 0 {
      assert Heading(d, client.session, Call(ctx, AtTimeout, [], false), oracle);
      ok := client.Query(SetTimeout(ctx.timeoutMs.value), oracle(AtTimeout));
    }
  }

  /** Tenant and user, the first two set_config calls. */
  method InjectUser(client: PgClient, ctx: Context, oracle: Pc -> Outcome, ghost d: Stepped) returns (ok: bool)
    requires Heading(d, client.session, Call(ctx, AtTenant, [], false), oracle)
    modifies client
    ensures Heading(d, client.session, Call(ctx, if ok then AtRegion else AtRollback, [], !ok), oracle)
  {
    ok := client.Query(SetTenant(ctx.tenantId), oracle(AtTenant));
    if !ok { return; }
    assert Heading(d, client.session, Call(ctx, AtUser, [], false), oracle);
    ok := client.Query(SetUser(ctx.username), oracle(AtUser));
  }

  /** The four set_config calls. */
  method InjectIdentity(client: PgClient, ctx: Context, oracle: Pc -> Outcome, ghost d: Stepped) returns (ok: bool)
    requires Heading(d, client.session, Call(ctx, AtTenant, [], false), oracle)
    modifies client
    ensures Heading(d, client.session, Call(ctx, if ok then AtList else AtRollback, [], !ok), oracle)
  {
    ok := InjectUser(client, ctx, oracle, d);
    if !ok { return; }
    ok := client.Query(SetRegion(ctx.region), oracle(AtRegion));
    if !ok { return; }
    assert Heading(d, client.session, Call(ctx, AtClaims, [], false), oracle);
    var claims := Claims(ctx.tenantId, ctx.username, if ctx.role != "" then ctx.role else "USER");
    ok := client.Query(SetClaims(claims), oracle(AtClaims));
  }

  /** The schema query and SET LOCAL search_path. */
  method SetPath(client: PgClient, ctx: Context, oracle: Pc -> Outcome, ghost d: Stepped)
    returns (ok: bool, rows: seq<string>)
    requires Heading(d, client.session, Call(ctx, AtList, [], false), oracle)
    modifies client
    ensures Heading(d, client.session, Call(ctx, if ok then AtStatement else AtRollback, rows, !ok), oracle)
  {
    rows := [];
    ok := client.Query(ListSchemas, oracle(AtList));
    if !ok { return; }
    rows := oracle(AtList).rows;
    assert Heading(d, client.session, Call(ctx, AtPath, rows, false), oracle);
    ok := client.Query(SetSearchPath(TenantSearchPath(rows, ctx.tenantId)), oracle(AtPath));
  }

  /** The caller's statement and COMMIT. */
  method RunStatement(client: PgClient, ctx: Context, oracle: Pc -> Outcome, rows: seq<string>, ghost d: Stepped)
    returns (ok: bool)
    requires Heading(d, client.session, Call(ctx, AtStatement, rows, false), oracle)
    modifies client
    ensures Heading(d, client.session, Call(ctx, if ok then AtReset else AtRollback, rows, !ok), oracle)
  {
    ok := client.Query(UserStatement, oracle(AtStatement));
    if !ok { return; }
    assert Heading(d, client.session, Call(ctx, AtCommit, rows, false), oracle);
    ok := client.Query(Commit, oracle(AtCommit));
  }

  /** The catch and finally blocks. */
  method CleanUp(client: PgClient, ctx: Context, oracle: Pc -> Outcome, rows: seq<string>, failed: bool,
        ghost d: Stepped)
    returns (how: Pc)
    requires Heading(d, client.session, Call(ctx, if failed then AtRollback else AtReset, rows, failed), oracle)
    modifies client
    ensures client.session == d.session && how == d.call.pc
  {
    if failed {
      var _ := client.Query(Rollback, oracle(AtRollback));
    }
    assert Heading(d, client.session, Call(ctx, AtReset, rows, failed), oracle);
    var ok := client.Query(ResetRole, oracle(AtReset));
    how := if !ok then Leaked else if failed then Threw else Returned;
    assert Heading(d, client.session, Call(ctx, how, rows, failed), oracle);
  }

  /**
    queryWithContext on the client the pool handed out. It ends in the state the script machine ends in, so with
    DriveFits: a clean client comes back clean, and it is never released (Leaked) exactly when its connection broke.
   */
  method QueryWithContext(client: PgClient, ctx: Context, oracle: Pc -> Outcome) returns (how: Pc)
    modifies client
    ensures var d := Drive(old(client.session), Call(ctx, AtBegin, [], false), oracle);
            client.session == d.session && how == d.call.pc
  {
    ghost var d := Drive(client.session, Call(ctx, AtBegin, [], false), oracle);
    var rows := [];
    var ok := OpenTransaction(client, ctx, oracle, d);
    if ok { ok := InjectIdentity(client, ctx, oracle, d); }
    if ok { ok, rows := SetPath(client, ctx, oracle, d); }
    if ok { ok := RunStatement(client, ctx, oracle, rows, d); }
    how := CleanUp(client, ctx, oracle, rows, !ok, d);
  }

  // ---- many calls over one pool ----

  type ClientId = nat
  type CallId = nat

  datatype Held = Held(client: ClientId, call: Call)

  /** One execution of a caller's statement: who ran it and under which session state. */
  datatype Entry = Entry(id: CallId, seen: Session)

  /** `out` records which call took each client; a client that is never released stays there. */
  datatype Pool = Pool(sessions: map<ClientId, Session>, idle: set<ClientId>, out: map<ClientId, CallId>,
                       calls: map<CallId, Held>, log: seq<Entry>, committed: set<CallId>)

  datatype Event =
    | Open(c: ClientId)
    | IdleLoss(c: ClientId)
    | Connect(id: CallId, ctx: Context, c: ClientId)
    | Query(id: CallId, o: Outcome)

  predicate Enabled(w: Pool, e: Event)
  {
    match e
    case Open(c) => c !in w.sessions
    case IdleLoss(c) => c in w.idle && c in w.sessions
    case Connect(id, _, c) => id !in w.calls && c in w.idle && c in w.sessions
    case Query(id, o) =>
      && id in w.calls && w.calls[id].client in w.sessions
      && !Final(w.calls[id].call.pc) && Possible(w.calls[id].call.pc, o)
  }

  function Step(w: Pool, e: Event): Pool
    requires Enabled(w, e)
  {
    match e
    case Open(c) => w.(sessions := w.sessions[c := FRESH], idle := w.idle + {c})
    case IdleLoss(c) => w.(sessions := w.sessions[c := DEAD])
    case Connect(id, ctx, c) =>
      w.(idle := w.idle - {c}, out := w.out[c := id],
         calls := w.calls[id := Held(c, Call(ctx, AtBegin, [], false))])
    case Query(id, o) =>
      var h := w.calls[id];
      var s := w.sessions[h.client];
      var ran := s.alive && h.call.pc == AtStatement;
      var applied := s.alive && h.call.pc == AtCommit && s.txn == InTxn && (o.Completed? || (o.Lost? && o.applied));
      Advance(w, id, CallStep(s, h.call, o)).(
        log := if ran then w.log + [Entry(id, s)] else w.log,
        committed := if applied then w.committed + {id} else w.committed)
  }

  predicate Releases(pc: Pc) { pc == Returned || pc == Threw }

  /** Call `id` and its session move to `n`; a finished call puts its client back. */
  function Advance(w: Pool, id: CallId, n: Stepped): Pool
    requires id in w.calls
  {
    var c := w.calls[id].client;
    w.(sessions := w.sessions[c := n.session],
       idle := if Releases(n.call.pc) then w.idle + {c} else w.idle,
       out := if Releases(n.call.pc) then w.out - {c} else w.out,
       calls := w.calls[id := Held(c, n.call)])
  }

  predicate Legal(w: Pool, es: seq<Event>)
    decreases |es|
  {
    es == [] || (Enabled(w, es[0]) && Legal(Step(w, es[0]), es[1..]))
  }

  function Run(w: Pool, es: seq<Event>): Pool
    requires Legal(w, es)
    decreases |es|
  {
    if es == [] then w else Run(Step(w, es[0]), es[1..])
  }

  const EMPTY := Pool(map[], {}, map[], map[], [], {})

  predicate Active(w: Pool, id: CallId) { id in w.calls && !Final(w.calls[id].call.pc) }

  /** The statement of call `h` ran as fabric_user, in its own transaction, with its own identity and search path. */
  predicate RanAsOwn(seen: Session, h: Held)
  {
    seen == Session(true, InTxn, FabricUser, LocalAt(h.call.(pc := AtStatement)))
  }

  /** A checked-out client belongs to a call that is still running it, or that lost it with its connection. */
  predicate OwnedBy(s: Session, c: ClientId, h: Held)
  {
    h.client == c && Fits(s, h.call) && (!Final(h.call.pc) || h.call.pc == Leaked)
  }

  predicate PlacesInv(w: Pool)
  {
    w.idle !! w.out.Keys && w.sessions.Keys == w.idle + w.out.Keys
    && forall c | c in w.idle :: c in w.sessions && Clean(w.sessions[c])
  }

  predicate OwnersInv(w: Pool)
  {
    forall c | c in w.out :: c in w.sessions && w.out[c] in w.calls && OwnedBy(w.sessions[c], c, w.calls[w.out[c]])
  }

  predicate HoldersInv(w: Pool)
  {
    forall id | id in w.calls && Active(w, id) :: w.calls[id].client in w.out && w.out[w.calls[id].client] == id
  }

  predicate ClientsInv(w: Pool) { PlacesInv(w) && OwnersInv(w) && HoldersInv(w) }

  predicate LogInv(w: Pool)
  {
    && (forall i | 0 <= i < |w.log| :: w.log[i].id in w.calls && RanAsOwn(w.log[i].seen, w.calls[w.log[i].id])
                                       && Past(w.calls[w.log[i].id].call.pc, AtStatement))
    && (forall i, j | 0 <= i < j < |w.log| :: w.log[i].id != w.log[j].id)
  }

  predicate InLog(w: Pool, id: CallId) { exists i | 0 <= i < |w.log| :: w.log[i].id == id }

  predicate AliveFor(w: Pool, h: Held) { h.client in w.sessions && w.sessions[h.client].alive }

  /** How far a call got decides whether its statement ran and whether it is in the committed set. */
  predicate CommitOk(q: Call, alive: bool, inLog: bool, committed: bool)
  {
    && (q.pc == Returned || (q.pc == AtReset && !q.failed) ==> committed)
    && (q.pc == Threw ==> !committed)
    && (!Final(q.pc) && q.failed && alive ==> !committed)
    && (q.pc == AtCommit && alive ==> inLog)
    && (committed ==> inLog && Past(q.pc, AtCommit))
  }

  predicate CommitFits(w: Pool, id: CallId, h: Held)
  {
    CommitOk(h.call, AliveFor(w, h), InLog(w, id), id in w.committed)
  }

  predicate CommitInv(w: Pool)
  {
    w.committed <= w.calls.Keys && forall id | id in w.calls :: CommitFits(w, id, w.calls[id])
  }

  predicate Inv(w: Pool) { ClientsInv(w) && LogInv(w) && CommitInv(w) }

  lemma {:induction false} ReleasedIsClean(n: Stepped)
    requires Fits(n.session, n.call) && Releases(n.call.pc)
    ensures Clean(n.session)
  {
  }

  lemma {:induction false} AdvanceKeepsPlaces(w: Pool, id: CallId, n: Stepped)
    requires PlacesInv(w) && id in w.calls && w.calls[id].client in w.out
    requires Releases(n.call.pc) ==> Clean(n.session)
    ensures PlacesInv(Advance(w, id, n))
  {
    var w', c := Advance(w, id, n), w.calls[id].client;
    assert c in w.sessions && w'.sessions.Keys == w.sessions.Keys;
    if Releases(n.call.pc) { assert w'.out.Keys == w.out.Keys - {c}; }
  }

  lemma {:induction false} AdvanceKeepsOwners(w: Pool, id: CallId, n: Stepped)
    requires OwnersInv(w) && id in w.calls && w.calls[id].client in w.out && w.out[w.calls[id].client] == id
    requires Fits(n.session, n.call)
    ensures OwnersInv(Advance(w, id, n))
  {
    var w', c := Advance(w, id, n), w.calls[id].client;
    forall x | x in w'.out
      ensures x in w'.sessions && w'.out[x] in w'.calls && OwnedBy(w'.sessions[x], x, w'.calls[w'.out[x]])
    {
      assert x in w.out && w'.out[x] == w.out[x];
      assert OwnedBy(w.sessions[x], x, w.calls[w.out[x]]);
      if x == c { OwnerAfter(n, c); }
    }
  }

  lemma {:induction false} OwnerAfter(n: Stepped, c: ClientId)
    requires Fits(n.session, n.call) && !Releases(n.call.pc)
    ensures OwnedBy(n.session, c, Held(c, n.call))
  {
  }

  lemma {:induction false} AdvanceKeepsHolders(w: Pool, id: CallId, n: Stepped)
    requires HoldersInv(w) && id in w.calls && Active(w, id)
    ensures HoldersInv(Advance(w, id, n))
  {
    var w' := Advance(w, id, n);
    forall i | i in w'.calls && Active(w', i)
      ensures w'.calls[i].client in w'.out && w'.out[w'.calls[i].client] == i
    {
      assert Active(w, i);
    }
  }

  lemma {:induction false} AdvanceKeepsClients(w: Pool, id: CallId, n: Stepped)
    requires ClientsInv(w) && id in w.calls && Active(w, id) && Fits(n.session, n.call)
    ensures ClientsInv(Advance(w, id, n))
  {
    if Releases(n.call.pc) { ReleasedIsClean(n); }
    AdvanceKeepsPlaces(w, id, n);
    AdvanceKeepsOwners(w, id, n);
    AdvanceKeepsHolders(w, id, n);
  }

  lemma {:induction false} OpenKeepsClients(w: Pool, c: ClientId)
    requires ClientsInv(w) && c !in w.sessions
    ensures ClientsInv(Step(w, Open(c)))
  {
    var w' := Step(w, Open(c));
    assert forall id | id in w'.calls && Active(w', id) :: Active(w, id);
  }

  lemma {:induction false} IdleLossKeepsClients(w: Pool, c: ClientId)
    requires ClientsInv(w) && c in w.idle
    ensures ClientsInv(Step(w, IdleLoss(c)))
  {
    var w' := Step(w, IdleLoss(c));
    assert forall id | id in w'.calls && Active(w', id) :: Active(w, id);
  }

  lemma {:induction false} ConnectKeepsClients(w: Pool, id: CallId, ctx: Context, c: ClientId)
    requires ClientsInv(w) && id !in w.calls && c in w.idle
    ensures ClientsInv(Step(w, Connect(id, ctx, c)))
  {
    ConnectKeepsOwners(w, id, ctx, c);
    ConnectKeepsHolders(w, id, ctx, c);
  }

  lemma {:induction false} ConnectKeepsOwners(w: Pool, id: CallId, ctx: Context, c: ClientId)
    requires PlacesInv(w) && OwnersInv(w) && id !in w.calls && c in w.idle
    ensures OwnersInv(Step(w, Connect(id, ctx, c)))
  {
    var w' := Step(w, Connect(id, ctx, c));
    assert Fits(w.sessions[c], w'.calls[id].call);
    forall x | x in w'.out
      ensures x in w'.sessions && w'.out[x] in w'.calls && OwnedBy(w'.sessions[x], x, w'.calls[w'.out[x]])
    {
      if x != c { assert x in w.out && w'.calls[w.out[x]] == w.calls[w.out[x]]; }
    }
  }

  lemma {:induction false} ConnectKeepsHolders(w: Pool, id: CallId, ctx: Context, c: ClientId)
    requires PlacesInv(w) && HoldersInv(w) && id !in w.calls && c in w.idle
    ensures HoldersInv(Step(w, Connect(id, ctx, c)))
  {
    var w' := Step(w, Connect(id, ctx, c));
    forall i | i in w'.calls && Active(w', i)
      ensures w'.calls[i].client in w'.out && w'.out[w'.calls[i].client] == i
    {
      if i != id { assert Active(w, i); }
    }
  }

  lemma {:induction false} ClientsKept(w: Pool, e: Event)
    requires ClientsInv(w) && Enabled(w, e)
    ensures ClientsInv(Step(w, e))
  {
    match e
    case Open(c) => OpenKeepsClients(w, c);
    case IdleLoss(c) => IdleLossKeepsClients(w, c);
    case Connect(id, ctx, c) => ConnectKeepsClients(w, id, ctx, c);
    case Query(id, o) =>
      var h := w.calls[id];
      var s := w.sessions[h.client];
      StepKeepsFit(s, h.call, o);
      AdvanceKeepsClients(w, id, CallStep(s, h.call, o));
  }

  lemma {:induction false} LogKept(w: Pool, e: Event)
    requires ClientsInv(w) && LogInv(w) && Enabled(w, e)
    ensures LogInv(Step(w, e))
  {
    if e.Query? {
      var h := w.calls[e.id];
      var s := w.sessions[h.client];
      assert Active(w, e.id) && Fits(s, h.call);
      QueryKeepsLog(w, e.id, CallStep(s, h.call, e.o), s, s.alive && h.call.pc == AtStatement);
    }
  }

  lemma {:induction false} QueryKeepsLog(w: Pool, id: CallId, n: Stepped, s: Session, ran: bool)
    requires LogInv(w) && id in w.calls
    requires n.call.ctx == w.calls[id].call.ctx && Past(n.call.pc, w.calls[id].call.pc)
    requires Past(n.call.pc, AtPath) && w.calls[id].call.pc != AtList ==> n.call.rows == w.calls[id].call.rows
    requires ran ==> w.calls[id].call.pc == AtStatement && s.alive && Fits(s, w.calls[id].call)
    ensures LogInv(Advance(w, id, n).(log := if ran then w.log + [Entry(id, s)] else w.log))
  {
    var w' := Advance(w, id, n).(log := if ran then w.log + [Entry(id, s)] else w.log);
    forall i | 0 <= i < |w'.log|
      ensures w'.log[i].id in w'.calls && RanAsOwn(w'.log[i].seen, w'.calls[w'.log[i].id])
      ensures Past(w'.calls[w'.log[i].id].call.pc, AtStatement)
    {
      if i < |w.log| {
        assert w'.log[i] == w.log[i];
        EntryStaysOwn(w, id, n, w.log[i]);
      } else {
        FirstOwn(s, w.calls[id], Held(w.calls[id].client, n.call));
      }
    }
  }

  /** A logged statement stays the one of its call when some call moves on. */
  lemma {:induction false} EntryStaysOwn(w: Pool, id: CallId, n: Stepped, e: Entry)
    requires id in w.calls && e.id in w.calls && RanAsOwn(e.seen, w.calls[e.id])
    requires Past(w.calls[e.id].call.pc, AtStatement)
    requires n.call.ctx == w.calls[id].call.ctx && Past(n.call.pc, w.calls[id].call.pc)
    requires w.calls[id].call.pc != AtList && Past(n.call.pc, AtPath) ==> n.call.rows == w.calls[id].call.rows
    ensures var calls := Advance(w, id, n).calls;
      e.id in calls && RanAsOwn(e.seen, calls[e.id]) && Past(calls[e.id].call.pc, AtStatement)
  {
    if e.id == id { StaysOwn(e.seen, w.calls[id], Held(w.calls[id].client, n.call)); }
  }

  lemma {:induction false} StaysOwn(seen: Session, h: Held, h': Held)
    requires RanAsOwn(seen, h) && h'.call.ctx == h.call.ctx && h'.call.rows == h.call.rows
    ensures RanAsOwn(seen, h')
  {
  }

  lemma {:induction false} FirstOwn(s: Session, h: Held, h': Held)
    requires h.call.pc == AtStatement && s.alive && Fits(s, h.call)
    requires h'.call.ctx == h.call.ctx && h'.call.rows == h.call.rows
    ensures RanAsOwn(s, h')
  {
  }

  lemma {:induction false} LogGrows(w: Pool, e: Event, id: CallId)
    requires Enabled(w, e)
    ensures InLog(Step(w, e), id) <==> InLog(w, id) || (e.Query? && e.id == id && Step(w, e).log != w.log)
  {
    var w' := Step(w, e);
    assert w'.log == w.log || (e.Query? && |w'.log| == |w.log| + 1
                               && w'.log[|w.log|].id == e.id && w'.log[..|w.log|] == w.log);
    if InLog(w, id) {
      var i :| 0 <= i < |w.log| && w.log[i].id == id;
      assert w'.log[i].id == id;
    }
    if InLog(w', id) {
      var i :| 0 <= i < |w'.log| && w'.log[i].id == id;
      if i < |w.log| { assert w.log[i].id == id; }
    }
  }

  lemma {:induction false} CommitKept(w: Pool, e: Event)
    requires ClientsInv(w) && LogInv(w) && CommitInv(w) && Enabled(w, e)
    ensures CommitInv(Step(w, e))
  {
    var w' := Step(w, e);
    forall id | id in w'.calls ensures CommitFits(w', id, w'.calls[id]) {
      LogGrows(w, e, id);
      if e.Query? && id == e.id {
        QueryKeepsCommit(w, id, e.o);
      } else if id in w.calls {
        OthersKeepCommit(w, e, id);
      } else {
        NewCallFits(w, e, id);
      }
    }
  }

  predicate Applies(s: Session, q: Call, o: Outcome)
  {
    s.alive && q.pc == AtCommit && s.txn == InTxn && (o.Completed? || (o.Lost? && o.applied))
  }

  /** One statement of the script, seen from the log and the committed set. */
  lemma {:induction false} StepKeepsCommitOk(s: Session, q: Call, o: Outcome, inLog: bool, committed: bool)
    requires !Final(q.pc) && Fits(s, q) && Possible(q.pc, o) && CommitOk(q, s.alive, inLog, committed)
    ensures var n := CallStep(s, q, o);
      CommitOk(n.call, n.session.alive, inLog || (s.alive && q.pc == AtStatement), committed || Applies(s, q, o))
  {
  }

  lemma {:induction false} QueryKeepsCommit(w: Pool, id: CallId, o: Outcome)
    requires ClientsInv(w) && CommitInv(w) && Enabled(w, Query(id, o))
    requires InLog(Step(w, Query(id, o)), id) <==> InLog(w, id) || Step(w, Query(id, o)).log != w.log
    ensures var w' := Step(w, Query(id, o)); CommitFits(w', id, w'.calls[id])
  {
    var h := w.calls[id];
    var s := w.sessions[h.client];
    assert Active(w, id) && OwnedBy(s, h.client, h) && CommitFits(w, id, h);
    StepKeepsCommitOk(s, h.call, o, InLog(w, id), id in w.committed);
  }

  lemma {:induction false} NewCallFits(w: Pool, e: Event, id: CallId)
    requires CommitInv(w) && Enabled(w, e) && id !in w.calls && id in Step(w, e).calls
    ensures var w' := Step(w, e); CommitFits(w', id, w'.calls[id])
  {
    assert e.Connect? && e.id == id;
  }

  lemma {:induction false} OthersKeepCommit(w: Pool, e: Event, id: CallId)
    requires ClientsInv(w) && CommitInv(w) && Enabled(w, e) && id in w.calls && (e.Query? ==> e.id != id)
    requires InLog(w, id) <==> InLog(Step(w, e), id)
    ensures var w' := Step(w, e); id in w'.calls && CommitFits(w', id, w'.calls[id])
  {
    var w' := Step(w, e);
    var h := w.calls[id];
    assert CommitFits(w, id, h) && w'.calls[id] == h && (id in w'.committed <==> id in w.committed);
    if Active(w, id) { SessionUntouched(w, e, id); }
  }

  /** A step moves no other running call's session. */
  lemma {:induction false} SessionUntouched(w: Pool, e: Event, id: CallId)
    requires ClientsInv(w) && Enabled(w, e) && Active(w, id) && (e.Query? ==> e.id != id)
    ensures var c := w.calls[id].client;
      c in w.sessions && c in Step(w, e).sessions && Step(w, e).sessions[c] == w.sessions[c]
  {
    var c := w.calls[id].client;
    assert c in w.out && w.out[c] == id && c in w.sessions;
    if e.Query? { assert Active(w, e.id) && w.out[w.calls[e.id].client] == e.id; }
  }

  // ---- results over whole runs ----

  lemma {:induction false} InvOverRun(w: Pool, es: seq<Event>)
    requires Inv(w) && Legal(w, es)
    ensures Inv(Run(w, es))
    decreases |es|
  {
    if es != [] {
      ClientsKept(w, es[0]);
      LogKept(w, es[0]);
      CommitKept(w, es[0]);
      InvOverRun(Step(w, es[0]), es[1..]);
    }
  }

  /**
    fabric_user, in a transaction, with exactly this call's identity and policy timeout, and a path of the schemas that
    the schema query returned for its tenant id as stripped; those are the tenant's own when nothing is stripped.
   */
  ghost predicate Isolated(seen: Session, ctx: Context, rows: seq<string>)
  {
    && seen.txn == InTxn && seen.role == FabricUser
    && seen.local.tenantId == Some(ctx.tenantId) && seen.local.userName == Some(ctx.username)
    && seen.local.region == Some(ctx.region)
    && seen.local.claims.Some? && seen.local.claims.value.tenantId == ctx.tenantId
    && seen.local.claims.value.username == ctx.username
    && (ctx.role != "" ==> seen.local.claims.value.internalRole == ctx.role)
    && (ctx.role == "" ==> seen.local.claims.value.internalRole == "USER")
    && seen.local.timeout == (if ctx.timeoutMs == Some(0) then None else ctx.timeoutMs)
    && seen.local.searchPath.Some? && ReadPath(seen.local.searchPath.value).Some?
    && NamesOwnedRows(ReadPath(seen.local.searchPath.value).value, rows, ctx.tenantId)
    && (AllWord(ctx.tenantId) ==> NamesOwnOnly(rows, ctx.tenantId))
  }

  predicate NamesOwnOnly(rows: seq<string>, id: string)
  {
    forall name | name in PathSchemas(rows, id) :: BelongsToTenant(name, id)
  }

  lemma {:induction false} WordIdNamesOwn(rows: seq<string>, id: string)
    requires AllWord(id)
    ensures NamesOwnOnly(rows, id)
  {
    PathIsOwnIff(id);
  }

  lemma {:induction false} RanAsOwnIsIsolated(seen: Session, h: Held)
    requires RanAsOwn(seen, h)
    ensures Isolated(seen, h.call.ctx, h.call.rows)
  {
    PathNamesOwnedRows(h.call.rows, h.call.ctx.tenantId);
    if AllWord(h.call.ctx.tenantId) { WordIdNamesOwn(h.call.rows, h.call.ctx.tenantId); }
  }

  /**
    Isolation: whatever interleaving and whatever failures, every caller's statement ran as fabric_user inside a
    transaction carrying its own call's tenant, user, region and claims, with a search path that reads as schemas of
    its own tenant followed by `public` (see Isolated for ids that are stripped); and it ran at most once.
   */
  lemma {:induction false} StatementsRunIsolated(es: seq<Event>, w: Pool, i: nat)
    requires Legal(EMPTY, es) && w == Run(EMPTY, es) && i < |w.log|
    ensures w.log[i].id in w.calls
    ensures Isolated(w.log[i].seen, w.calls[w.log[i].id].call.ctx, w.calls[w.log[i].id].call.rows)
    ensures forall j | 0 <= j < |w.log| && w.log[j].id == w.log[i].id :: j == i
  {
    InvOverRun(EMPTY, es);
    RanAsOwnIsIsolated(w.log[i].seen, w.calls[w.log[i].id]);
  }

  /**
    Pool hygiene: every client in the pool has no transaction, the login role and no setting left, and a client that
    is in the pool no more is either running a call or was lost together with its connection.
   */
  lemma {:induction false} PoolStaysClean(es: seq<Event>, c: ClientId)
    requires Legal(EMPTY, es) && c in Run(EMPTY, es).sessions
    ensures var w := Run(EMPTY, es);
            && (c in w.idle ==> w.sessions[c].txn == NoTxn && w.sessions[c].role == LoginRole
                                && w.sessions[c].local == Settings(None, None, None, None, None, None))
            && (c !in w.idle ==> c in w.out && w.out[c] in w.calls && w.calls[w.out[c]].client == c
                                 && (Active(w, w.out[c])
                                     || (w.calls[w.out[c]].call.pc == Leaked && w.sessions[c] == DEAD)))
  {
    InvOverRun(EMPTY, es);
    var w := Run(EMPTY, es);
    assert c in w.idle + w.out.Keys;
    if c !in w.idle { assert OwnedBy(w.sessions[c], c, w.calls[w.out[c]]); }
  }

  /** No two running calls ever share a client. */
  lemma {:induction false} ClientsAreExclusive(es: seq<Event>, a: CallId, b: CallId)
    requires Legal(EMPTY, es) && Active(Run(EMPTY, es), a) && Active(Run(EMPTY, es), b)
    requires Run(EMPTY, es).calls[a].client == Run(EMPTY, es).calls[b].client
    ensures a == b
  {
    InvOverRun(EMPTY, es);
  }

  /** Atomicity: a call that returned committed the statement it ran; one that threw and released its client did not. */
  lemma {:induction false} ReturnMeansCommitted(es: seq<Event>, id: CallId)
    requires Legal(EMPTY, es) && id in Run(EMPTY, es).calls
    ensures var w := Run(EMPTY, es);
            && (w.calls[id].call.pc == Returned ==> id in w.committed && InLog(w, id))
            && (w.calls[id].call.pc == Threw ==> id !in w.committed)
  {
    InvOverRun(EMPTY, es);
    assert CommitFits(Run(EMPTY, es), id, Run(EMPTY, es).calls[id]);
  }
}
