/** Tenant-scoped sessions over row-level security (libs/dis-rls and migration 0011).

    Two settings scope a transaction: `app.user_type` and `app.tenant_id`. The policy lets a row be
    seen when its tenant is the scoped tenant or the user type is PLATFORM, and lets a row image be
    written only when its tenant is the scoped tenant. PostgreSQL checks DELETE against the reading
    half only. */
module Rls {
  import opened Wrappers
  import opened Uuids

  // ---------------------------------------------------------------- settings

  /** The value of one setting. `Blank` is the empty string a reset custom setting reads as. */
  datatype Setting = Unset | Blank | TenantId(id: Uuid) | UserType(name: string)

  /** A custom setting: its session-level value and the override of the open transaction. */
  datatype Guc = Guc(session: Setting, local: Option<Setting>) {
    function Current(): Setting {
      if local.Some? then local.value else session
    }

    /** `set_config(name, value, true)`. */
    function SetLocal(v: Setting): Guc {
      Guc(session, Some(v))
    }

    /** End of transaction: the override goes; a setting never given at session level reads as `''`. */
    function EndTransaction(): Guc {
      Guc(if session.Unset? && local.Some? then Blank else session, None)
    }
  }

  /** One pooled connection. */
  datatype Connection = Connection(userType: Guc, tenant: Guc) {
    function EndTransaction(): Connection {
      Connection(userType.EndTransaction(), tenant.EndTransaction())
    }
  }

  /** What decides the rows a statement may touch: the user type, the tenant after `NULLIF(..., '')::uuid`,
      and whether the role bypasses row-level security, which makes the policy void. */
  datatype Scope = Scope(platform: bool, tenant: Option<Uuid>, bypass: bool := false)

  function ScopeOf(c: Connection): Scope {
    Scope(c.userType.Current() == UserType("PLATFORM"),
          match c.tenant.Current() case TenantId(id) => Some(id) case _ => None)
  }

  // ---------------------------------------------------------------- policy and statements

  datatype Row = Row(tenant: Uuid, payload: string)

  /** USING. */
  predicate Visible(g: Scope, r: Row) {
    g.bypass || g.tenant == Some(r.tenant) || g.platform
  }

  /** WITH CHECK. */
  predicate Writable(g: Scope, r: Row) {
    g.bypass || g.tenant == Some(r.tenant)
  }

  /** A migration's role. It sets no tenant. */
  datatype Role = Role(bypassesRls: bool) {
    /** Under row-level security, forced on the owner too, it sees what an unscoped statement sees. */
    predicate Sees(rls: bool, tenant: Uuid) {
      !rls || Visible(Scope(false, None, bypassesRls), Row(tenant, ""))
    }
  }

  datatype Stmt =
    | Select(where: Row -> bool)
    | Insert(images: seq<Row>)
    | Update(where: Row -> bool, set_: Row -> Row)
    | Delete(where: Row -> bool)

  datatype Reply = Rows(rows: seq<Row>) | Affected(count: nat) | PolicyViolation

  predicate Target(g: Scope, w: Row -> bool, r: Row) {
    Visible(g, r) && w(r)
  }

  /** The targeted rows, in order. */
  function Targets(g: Scope, db: seq<Row>, w: Row -> bool): seq<Row> {
    if db == [] then []
    else
      var front, last := db[..|db| - 1], db[|db| - 1];
      if Target(g, w, last) then Targets(g, front, w) + [last] else Targets(g, front, w)
  }

  /** The rows a DELETE leaves. */
  function Survivors(g: Scope, db: seq<Row>, w: Row -> bool): seq<Row> {
    if db == [] then []
    else
      var front, last := db[..|db| - 1], db[|db| - 1];
      if Target(g, w, last) then Survivors(g, front, w) else Survivors(g, front, w) + [last]
  }

  /** The table after an UPDATE whose images are all admitted. */
  function Updated(g: Scope, db: seq<Row>, w: Row -> bool, f: Row -> Row): seq<Row> {
    if db == [] then []
    else
      var front, last := db[..|db| - 1], db[|db| - 1];
      Updated(g, front, w, f) + [if Target(g, w, last) then f(last) else last]
  }

  predicate ImagesAdmitted(g: Scope, images: seq<Row>) {
    forall i :: 0 <= i < |images| ==> Writable(g, images[i])
  }

  predicate UpdateAdmitted(g: Scope, targets: seq<Row>, f: Row -> Row) {
    forall i :: 0 <= i < |targets| ==> Writable(g, f(targets[i]))
  }

  function Execute(g: Scope, db: seq<Row>, stmt: Stmt): (seq<Row>, Reply) {
    match stmt
    case Select(w) => (db, Rows(Targets(g, db, w)))
    case Insert(images) =>
      if ImagesAdmitted(g, images) then (db + images, Affected(|images|)) else (db, PolicyViolation)
    case Update(w, f) =>
      if UpdateAdmitted(g, Targets(g, db, w), f) then (Updated(g, db, w, f), Affected(|Targets(g, db, w)|))
      else (db, PolicyViolation)
    case Delete(w) => (Survivors(g, db, w), Affected(|Targets(g, db, w)|))
  }

  // ---------------------------------------------------------------- transactions

  datatype Action = Do(stmt: Stmt) | Finish | Fail

  /** A caller: what it does next, given every reply so far. */
  type Client = seq<Reply> -> Action

  /** At most `n` actions of a transaction that began at `start`; the caller failing, the policy
      refusing or the actions running out rolls back. */
  function Transact(g: Scope, start: seq<Row>, db: seq<Row>, client: Client, replies: seq<Reply>, n: nat):
    (seq<Row>, seq<Reply>)
    decreases n
  {
    if n == 0 then (start, replies)
    else
      match client(replies)
      case Finish => (db, replies)
      case Fail => (start, replies)
      case Do(stmt) =>
        var (db', reply) := Execute(g, db, stmt);
        if reply.PolicyViolation? then (start, replies + [reply])
        else Transact(g, start, db', client, replies + [reply], n - 1)
  }

  // ---------------------------------------------------------------- sessions

  datatype Kind = TenantSession(tenant: Uuid) | PlatformSession(actedFor: Option<Uuid>)

  /** The tenant a session acts for. */
  function ActedFor(k: Kind): Option<Uuid> {
    match k
    case TenantSession(t) => Some(t)
    case PlatformSession(t) => t
  }

  /** The settings a session makes first, inside its transaction. */
  function Scoped(c: Connection, k: Kind): Connection {
    match k
    case TenantSession(t) =>
      Connection(c.userType.SetLocal(UserType("TENANT")), c.tenant.SetLocal(TenantId(t)))
    case PlatformSession(None) =>
      Connection(c.userType.SetLocal(UserType("PLATFORM")), c.tenant.SetLocal(Blank))
    case PlatformSession(Some(t)) =>
      Connection(c.userType.SetLocal(UserType("PLATFORM")), c.tenant.SetLocal(TenantId(t)))
  }

  /** What the role and database look like when a session opens. */
  datatype Posture = Posture(database: string, super_: bool, bypassRls: bool)

  const EXPECTED_DATABASE := "ithina_dis_db"

  /** `_check_posture`. */
  predicate Safe(p: Posture) {
    p.database == EXPECTED_DATABASE && !Bypasses(p)
  }

  /** Row-level security does not apply to the role. */
  predicate Bypasses(p: Posture) {
    p.super_ || p.bypassRls
  }

  datatype Session = Session(engine: nat, posture: Posture, kind: Kind, client: Client, actions: nat)

  datatype World = World(verified: set<nat>, conn: Connection, db: seq<Row>)

  datatype Log = Refused | Ran(replies: seq<Reply>)

  /** One session on the pooled connection: posture check on the engine's first use, scope, statements, end.
      The statements run under the posture the role has then, checked or not. */
  function RunSession(w: World, s: Session): (World, Log) {
    if s.engine !in w.verified && !Safe(s.posture) then (w, Refused)
    else
      var c := Scoped(w.conn, s.kind);
      var g := ScopeOf(c).(bypass := Bypasses(s.posture));
      var (db, replies) := Transact(g, w.db, w.db, s.client, [], s.actions);
      (World(w.verified + {s.engine}, c.EndTransaction(), db), Ran(replies))
  }

  function RunAll(w: World, ss: seq<Session>): (r: (World, seq<Log>))
    ensures |r.1| == |ss|
  {
    if ss == [] then (w, [])
    else
      var (mid, logs) := RunAll(w, ss[..|ss| - 1]);
      var (w', log) := RunSession(mid, ss[|ss| - 1]);
      (w', logs + [log])
  }

  /** Inside a session the scope is the session's own, whatever the connection carried before. */
  lemma ScopeIsTheSessions(c: Connection, k: Kind)
    ensures ScopeOf(Scoped(c, k)) == Scope(k.PlatformSession?, ActedFor(k))
  {
  }

  // ---------------------------------------------------------------- non-interference

  /** Tenant `t`'s rows, in order. */
  function Own(db: seq<Row>, t: Uuid): seq<Row> {
    if db == [] then []
    else
      var front, last := db[..|db| - 1], db[|db| - 1];
      if last.tenant == t then Own(front, t) + [last] else Own(front, t)
  }

  /** The row does not belong to the tenant the scope acts for. */
  predicate Foreign(g: Scope, r: Row) {
    g.tenant != Some(r.tenant)
  }

  /** The rows foreign to the scope, in order. */
  function Outside(g: Scope, db: seq<Row>): seq<Row> {
    if db == [] then []
    else
      var front, last := db[..|db| - 1], db[|db| - 1];
      if Foreign(g, last) then Outside(g, front) + [last] else Outside(g, front)
  }

  /** Everyone else's rows, in order. */
  function Others(db: seq<Row>, t: Uuid): seq<Row> {
    Outside(Scope(false, Some(t)), db)
  }

  lemma OwnSnoc(db: seq<Row>, r: Row, t: Uuid)
    ensures Own(db + [r], t) == if r.tenant == t then Own(db, t) + [r] else Own(db, t)
    ensures Others(db + [r], t) == if r.tenant == t then Others(db, t) else Others(db, t) + [r]
  {
    assert (db + [r])[..|db|] == db;
  }

  lemma {:induction false} OwnAppend(db: seq<Row>, more: seq<Row>, t: Uuid)
    ensures Own(db + more, t) == Own(db, t) + Own(more, t)
    ensures Others(db + more, t) == Others(db, t) + Others(more, t)
  {
    hide Own, Others;
    if more == [] {
      assert db + more == db;
      OwnEmpty(t);
    } else {
      var front, last := more[..|more| - 1], more[|more| - 1];
      OwnAppend(db, front, t);
      OwnSnoc(front, last, t);
      OwnSnoc(db + front, last, t);
      assert more == front + [last] && db + more == (db + front) + [last];
    }
  }

  lemma OwnEmpty(t: Uuid)
    ensures Own([], t) == [] && Others([], t) == []
  {
  }

  lemma {:induction false} OwnOfOwned(rows: seq<Row>, t: Uuid)
    requires forall i :: 0 <= i < |rows| ==> rows[i].tenant == t
    ensures Own(rows, t) == rows && Others(rows, t) == []
  {
    if rows != [] {
      OwnOfOwned(rows[..|rows| - 1], t);
    }
  }

  lemma {:induction false} TargetsAreOwn(db: seq<Row>, t: Uuid, w: Row -> bool)
    ensures
      var g := Scope(false, Some(t));
      Targets(g, db, w) == Targets(g, Own(db, t), w)
  {
    if db != [] {
      var g := Scope(false, Some(t));
      var front, last := db[..|db| - 1], db[|db| - 1];
      TargetsAreOwn(front, t, w);
      if last.tenant == t {
        assert Own(db, t)[..|Own(db, t)| - 1] == Own(front, t);
      }
    }
  }

  lemma SurvivorsSnoc(g: Scope, db: seq<Row>, r: Row, w: Row -> bool)
    ensures Survivors(g, db + [r], w) == if Target(g, w, r) then Survivors(g, db, w) else Survivors(g, db, w) + [r]
  {
    assert (db + [r])[..|db|] == db;
  }

  lemma {:induction false} DeleteStaysHome(db: seq<Row>, t: Uuid, w: Row -> bool)
    ensures
      var g := Scope(false, Some(t));
      && Own(Survivors(g, db, w), t) == Survivors(g, Own(db, t), w)
      && Others(Survivors(g, db, w), t) == Others(db, t)
  {
    if db != [] {
      hide Own, Others, Survivors;
      var g := Scope(false, Some(t));
      var front, last := db[..|db| - 1], db[|db| - 1];
      assert db == front + [last];
      DeleteStaysHome(front, t, w);
      OwnSnoc(front, last, t);
      OwnSnoc(Survivors(g, front, w), last, t);
      SurvivorsSnoc(g, front, last, w);
      SurvivorsSnoc(g, Own(front, t), last, w);
    }
  }

  /** Every targeted row of `db` gets an image the scope may write. */
  predicate AllAdmitted(g: Scope, db: seq<Row>, w: Row -> bool, f: Row -> Row) {
    forall i :: 0 <= i < |db| && Target(g, w, db[i]) ==> Writable(g, f(db[i]))
  }

  lemma {:induction false} AdmittedRows(g: Scope, db: seq<Row>, w: Row -> bool, f: Row -> Row)
    ensures UpdateAdmitted(g, Targets(g, db, w), f) <==> AllAdmitted(g, db, w, f)
  {
    if db != [] {
      var front, last := db[..|db| - 1], db[|db| - 1];
      AdmittedRows(g, front, w, f);
      var ts := Targets(g, front, w);
      assert db == front + [last];
      if Target(g, w, last) {
        assert Targets(g, db, w) == ts + [last];
        if UpdateAdmitted(g, ts + [last], f) {
          assert (ts + [last])[|ts|] == last;
          assert forall i :: 0 <= i < |ts| ==> (ts + [last])[i] == ts[i];
        }
      }
    }
  }

  lemma {:induction false} UpdateStaysHome(db: seq<Row>, t: Uuid, w: Row -> bool, f: Row -> Row)
    requires AllAdmitted(Scope(false, Some(t)), db, w, f)
    ensures
      var g := Scope(false, Some(t));
      && Own(Updated(g, db, w, f), t) == Updated(g, Own(db, t), w, f)
      && Others(Updated(g, db, w, f), t) == Others(db, t)
  {
    if db != [] {
      var g := Scope(false, Some(t));
      var front, last := db[..|db| - 1], db[|db| - 1];
      assert forall i :: 0 <= i < |front| ==> db[i] == front[i];
      assert db[|db| - 1] == last;
      UpdateStaysHome(front, t, w, f);
      OwnSnoc(Updated(g, front, w, f), if Target(g, w, last) then f(last) else last, t);
      if last.tenant == t {
        assert Own(db, t)[..|Own(db, t)| - 1] == Own(front, t);
      }
    }
  }

  /** One statement of a TENANT-`t` session sees and changes only `t`'s rows. */
  lemma StatementStaysHome(t: Uuid, db: seq<Row>, stmt: Stmt)
    ensures
      var g := Scope(false, Some(t));
      var (db', reply) := Execute(g, db, stmt);
      && (Own(db', t), reply) == Execute(g, Own(db, t), stmt)
      && Others(db', t) == Others(db, t)
  {
    var g := Scope(false, Some(t));
    match stmt
    case Select(w) => TargetsAreOwn(db, t, w);
    case Insert(images) =>
      if ImagesAdmitted(g, images) {
        OwnAppend(db, images, t);
        OwnOfOwned(images, t);
      }
    case Update(w, f) =>
      TargetsAreOwn(db, t, w);
      AdmittedRows(g, db, w, f);
      if AllAdmitted(g, db, w, f) { UpdateStaysHome(db, t, w, f); }
    case Delete(w) =>
      TargetsAreOwn(db, t, w);
      DeleteStaysHome(db, t, w);
  }

  lemma {:induction false} TransactionStaysHome(t: Uuid, start: seq<Row>, db: seq<Row>, client: Client, replies: seq<Reply>, n: nat)
    ensures
      var g := Scope(false, Some(t));
      var (db', out) := Transact(g, start, db, client, replies, n);
      && (Own(db', t), out) == Transact(g, Own(start, t), Own(db, t), client, replies, n)
      && (Others(start, t) == Others(db, t) ==> Others(db', t) == Others(db, t))
    decreases n
  {
    if n > 0 && client(replies).Do? {
      var g := Scope(false, Some(t));
      var stmt := client(replies).stmt;
      StatementStaysHome(t, db, stmt);
      var (db', reply) := Execute(g, db, stmt);
      TransactionStaysHome(t, start, db', client, replies + [reply], n - 1);
    }
  }

  predicate AllTenant(ss: seq<Session>, t: Uuid) {
    forall i :: 0 <= i < |ss| ==> ss[i].kind == TenantSession(t)
  }

  /** The scope of the session's statements, under a role that does not bypass the policy. */
  function SessionScope(s: Session): Scope {
    Scope(s.kind.PlatformSession?, ActedFor(s.kind))
  }

  /** The session gets past the posture check. */
  predicate Admits(verified: set<nat>, s: Session) {
    s.engine in verified || Safe(s.posture)
  }

  /** The engines verified after a sequence of sessions. */
  function VerifiedAfter(verified: set<nat>, ss: seq<Session>): set<nat> {
    if ss == [] then verified
    else
      var front, last := ss[..|ss| - 1], ss[|ss| - 1];
      var mid := VerifiedAfter(verified, front);
      if Admits(mid, last) then mid + {last.engine} else mid
  }

  /** From the two sets of verified engines, the posture check admits the same sessions. */
  predicate AdmittedAlike(a: set<nat>, b: set<nat>, ss: seq<Session>) {
    forall i :: 0 <= i < |ss| ==> (Admits(VerifiedAfter(a, ss[..i]), ss[i]) <==> Admits(VerifiedAfter(b, ss[..i]), ss[i]))
  }

  lemma AlikeSnoc(a: set<nat>, b: set<nat>, ss: seq<Session>)
    requires ss != []
    ensures
      var front, last := ss[..|ss| - 1], ss[|ss| - 1];
      AdmittedAlike(a, b, ss) <==>
      AdmittedAlike(a, b, front) && (Admits(VerifiedAfter(a, front), last) <==> Admits(VerifiedAfter(b, front), last))
  {
    hide VerifiedAfter, Admits;
    var front := ss[..|ss| - 1];
    assert forall i :: 0 <= i < |front| ==> front[..i] == ss[..i] && front[i] == ss[i];
  }

  lemma {:induction false} VerifiedIs(w: World, ss: seq<Session>)
    ensures RunAll(w, ss).0.verified == VerifiedAfter(w.verified, ss)
  {
    hide Transact;
    if ss != [] { VerifiedIs(w, ss[..|ss| - 1]); }
  }

  lemma SessionStaysHome(t: Uuid, a: World, b: World, s: Session)
    requires s.kind == TenantSession(t)
    requires Admits(a.verified, s) || Admits(b.verified, s) ==> !Bypasses(s.posture)
    ensures
      var (a', la) := RunSession(a, s);
      var (b', lb) := RunSession(b, s);
      && Others(a'.db, t) == Others(a.db, t)
      && (la == Refused <==> !Admits(a.verified, s))
      && (Own(a.db, t) == Own(b.db, t) && (Admits(a.verified, s) <==> Admits(b.verified, s)) ==>
            la == lb && Own(a'.db, t) == Own(b'.db, t))
  {
    ScopeIsTheSessions(a.conn, s.kind);
    ScopeIsTheSessions(b.conn, s.kind);
    TransactionStaysHome(t, a.db, a.db, s.client, [], s.actions);
    TransactionStaysHome(t, b.db, b.db, s.client, [], s.actions);
  }

  /** Every session the posture check admits has, while it runs, a posture that would pass the check. */
  predicate RunsSafely(verified: set<nat>, ss: seq<Session>) {
    forall i :: 0 <= i < |ss| && Admits(VerifiedAfter(verified, ss[..i]), ss[i]) ==> Safe(ss[i].posture)
  }

  lemma SafelySnoc(verified: set<nat>, ss: seq<Session>)
    requires ss != []
    ensures
      var front, last := ss[..|ss| - 1], ss[|ss| - 1];
      RunsSafely(verified, ss) <==>
      RunsSafely(verified, front) && (Admits(VerifiedAfter(verified, front), last) ==> Safe(last.posture))
  {
    hide VerifiedAfter, Admits, Safe;
    var front := ss[..|ss| - 1];
    assert forall i :: 0 <= i < |front| ==> front[..i] == ss[..i] && front[i] == ss[i];
  }

  /** Tenant non-interference. Take two databases that agree on tenant `t`'s rows, on connections left in any
      two states by earlier sessions, and TENANT-`t` sessions whose postures are safe whenever they run. Every
      adaptive sequence of them gets the same replies from both if and only if the posture check admits the
      same sessions on both; they then agree on `t`'s rows afterwards. Everyone else's rows are kept. */
  lemma {:induction false} TenantNonInterference(t: Uuid, a: World, b: World, ss: seq<Session>)
    requires AllTenant(ss, t) && Own(a.db, t) == Own(b.db, t)
    requires RunsSafely(a.verified, ss) && RunsSafely(b.verified, ss)
    ensures
      var (a', la) := RunAll(a, ss);
      var (b', lb) := RunAll(b, ss);
      && (la == lb <==> AdmittedAlike(a.verified, b.verified, ss))
      && (la == lb ==> Own(a'.db, t) == Own(b'.db, t))
      && Others(a'.db, t) == Others(a.db, t) && Others(b'.db, t) == Others(b.db, t)
  {
    hide RunSession, Own, Others, Admits, AdmittedAlike, VerifiedAfter, RunsSafely;
    if ss == [] {
      AlikeNothing(a.verified, b.verified);
    } else {
      var front, last := ss[..|ss| - 1], ss[|ss| - 1];
      SafelySnoc(a.verified, ss);
      SafelySnoc(b.verified, ss);
      TenantNonInterference(t, a, b, front);
      AlikeSnoc(a.verified, b.verified, ss);
      VerifiedIs(a, front);
      VerifiedIs(b, front);
      var (ma, la) := RunAll(a, front);
      var (mb, lb) := RunAll(b, front);
      SessionStaysHome(t, ma, mb, last);
      SessionStaysHome(t, mb, ma, last);
      SameLogs(la, RunSession(ma, last).1, lb, RunSession(mb, last).1);
    }
  }

  lemma AlikeNothing(a: set<nat>, b: set<nat>)
    ensures AdmittedAlike(a, b, [])
  {
  }

  lemma SameLogs(a: seq<Log>, x: Log, b: seq<Log>, y: Log)
    requires |a| == |b|
    ensures a + [x] == b + [y] <==> a == b && x == y
  {
    assert (a + [x])[..|a|] == a && (b + [y])[..|b|] == b;
    assert (a + [x])[|a|] == x && (b + [y])[|b|] == y;
  }

  // ---------------------------------------------------------------- what each kind may write

  /** Rows of tenants the scope does not act for can only disappear. */
  predicate OnlyLoses(before: seq<Row>, after: seq<Row>, u: Uuid) {
    multiset(Own(after, u)) <= multiset(Own(before, u))
  }

  /** Every row of `after` was in `before` or carries the scoped tenant. */
  predicate NewImagesScoped(g: Scope, before: seq<Row>, after: seq<Row>) {
    forall r :: r in after ==> r in before || Writable(g, r)
  }

  lemma {:induction false} DeleteOnlyLoses(g: Scope, db: seq<Row>, w: Row -> bool, u: Uuid)
    ensures OnlyLoses(db, Survivors(g, db, w), u)
  {
    if db != [] {
      var front, last := db[..|db| - 1], db[|db| - 1];
      DeleteOnlyLoses(g, front, w, u);
      OwnSnoc(Survivors(g, front, w), last, u);
    }
  }

  lemma {:induction false} DeleteAddsNothing(g: Scope, db: seq<Row>, w: Row -> bool)
    ensures forall r :: r in Survivors(g, db, w) ==> r in db
  {
    if db != [] {
      var front, last := db[..|db| - 1], db[|db| - 1];
      DeleteAddsNothing(g, front, w);
      assert db == front + [last];
    }
  }

  lemma {:induction false} UpdateOnlyLoses(g: Scope, db: seq<Row>, w: Row -> bool, f: Row -> Row, u: Uuid)
    requires AllAdmitted(g, db, w, f) && g.tenant != Some(u) && !g.bypass
    ensures OnlyLoses(db, Updated(g, db, w, f), u)
  {
    if db != [] {
      var front, last := db[..|db| - 1], db[|db| - 1];
      assert forall i :: 0 <= i < |front| ==> db[i] == front[i];
      assert db[|db| - 1] == last;
      UpdateOnlyLoses(g, front, w, f, u);
      OwnSnoc(Updated(g, front, w, f), if Target(g, w, last) then f(last) else last, u);
    }
  }

  lemma {:induction false} UpdateImagesScoped(g: Scope, db: seq<Row>, w: Row -> bool, f: Row -> Row)
    requires AllAdmitted(g, db, w, f)
    ensures NewImagesScoped(g, db, Updated(g, db, w, f))
  {
    if db != [] {
      var front, last := db[..|db| - 1], db[|db| - 1];
      assert forall i :: 0 <= i < |front| ==> db[i] == front[i];
      assert db[|db| - 1] == last && last in db;
      UpdateImagesScoped(g, front, w, f);
      forall r | r in Updated(g, db, w, f) ensures r in db || Writable(g, r) {
        if r in Updated(g, front, w, f) {
          assert r in front ==> r in db;
        }
      }
    }
  }

  lemma {:induction false} OwnOfOther(rows: seq<Row>, g: Scope, u: Uuid)
    requires ImagesAdmitted(g, rows) && g.tenant != Some(u) && !g.bypass
    ensures Own(rows, u) == []
  {
    if rows != [] {
      OwnOfOther(rows[..|rows| - 1], g, u);
    }
  }

  lemma StatementWritesScoped(g: Scope, db: seq<Row>, stmt: Stmt)
    requires !g.bypass
    ensures NewImagesScoped(g, db, Execute(g, db, stmt).0)
    ensures forall u :: g.tenant != Some(u) ==> OnlyLoses(db, Execute(g, db, stmt).0, u)
  {
    match stmt
    case Select(_) =>
    case Insert(images) =>
      forall u | g.tenant != Some(u) && ImagesAdmitted(g, images) ensures OnlyLoses(db, db + images, u) {
        OwnAppend(db, images, u);
        OwnOfOther(images, g, u);
      }
    case Update(w, f) =>
      AdmittedRows(g, db, w, f);
      if AllAdmitted(g, db, w, f) {
        UpdateImagesScoped(g, db, w, f);
        forall u | g.tenant != Some(u) ensures OnlyLoses(db, Updated(g, db, w, f), u) {
          UpdateOnlyLoses(g, db, w, f, u);
        }
      }
    case Delete(w) =>
      DeleteAddsNothing(g, db, w);
      forall u ensures OnlyLoses(db, Survivors(g, db, w), u) {
        DeleteOnlyLoses(g, db, w, u);
      }
  }

  lemma {:induction false} TransactionWritesScoped(g: Scope, start: seq<Row>, db: seq<Row>, client: Client, replies: seq<Reply>, n: nat)
    requires !g.bypass && NewImagesScoped(g, start, db)
    requires forall u :: g.tenant != Some(u) ==> OnlyLoses(start, db, u)
    ensures
      var db' := Transact(g, start, db, client, replies, n).0;
      && NewImagesScoped(g, start, db')
      && forall u :: g.tenant != Some(u) ==> OnlyLoses(start, db', u)
    decreases n
  {
    hide Execute;
    if n > 0 && client(replies).Do? {
      var (db', reply) := Execute(g, db, client(replies).stmt);
      StatementWritesScoped(g, db, client(replies).stmt);
      TransactionWritesScoped(g, start, db', client, replies + [reply], n - 1);
    }
  }

  /** Over any kind of session whose role does not bypass the policy if it runs: every row image it inserts or
      updates carries the tenant it acts for, and no other tenant gains a row. */
  lemma SessionWritesScoped(w: World, s: Session, u: Uuid, r: Row)
    requires Admits(w.verified, s) ==> !Bypasses(s.posture)
    requires ActedFor(s.kind) != Some(u)
    requires r in RunSession(w, s).0.db
    ensures r in w.db || ActedFor(s.kind) == Some(r.tenant)
    ensures multiset(Own(RunSession(w, s).0.db, u)) <= multiset(Own(w.db, u))
  {
    if Admits(w.verified, s) {
      ScopeIsTheSessions(w.conn, s.kind);
      TransactionWritesScoped(SessionScope(s), w.db, w.db, s.client, [], s.actions);
      assert NewImagesScoped(SessionScope(s), w.db, RunSession(w, s).0.db);
      assert OnlyLoses(w.db, RunSession(w, s).0.db, u);
    }
  }

  lemma {:induction false} NoTargetsNoUpdate(g: Scope, db: seq<Row>, w: Row -> bool, f: Row -> Row)
    requires Targets(g, db, w) == []
    ensures Updated(g, db, w, f) == db && Survivors(g, db, w) == db
  {
    if db != [] {
      NoTargetsNoUpdate(g, db[..|db| - 1], w, f);
    }
  }

  lemma {:induction false} SurvivorsAndTargets(g: Scope, db: seq<Row>, w: Row -> bool)
    ensures |Survivors(g, db, w)| + |Targets(g, db, w)| == |db|
  {
    if db != [] {
      SurvivorsAndTargets(g, db[..|db| - 1], w);
    }
  }

  /** A PLATFORM session with no tenant inserts and updates nothing; the one way it can change the
      table is a DELETE that targets at least one row. */
  lemma NoTenantChangesOnlyByDelete(db: seq<Row>, stmt: Stmt)
    ensures
      var g := Scope(true, None);
      && (Execute(g, db, stmt).0 != db <==> stmt.Delete? && Targets(g, db, stmt.where) != [])
      && (stmt.Insert? && stmt.images != [] ==> Execute(g, db, stmt).1 == PolicyViolation)
      && (stmt.Update? && Targets(g, db, stmt.where) != [] ==> Execute(g, db, stmt).1 == PolicyViolation)
  {
    var g := Scope(true, None);
    match stmt
    case Select(_) =>
    case Insert(images) =>
      if images != [] { assert !Writable(g, images[0]); } else { assert db + images == db; }
    case Update(w, f) =>
      var ts := Targets(g, db, w);
      if ts != [] { assert !Writable(g, f(ts[0])); } else { NoTargetsNoUpdate(g, db, w, f); }
    case Delete(w) =>
      SurvivorsAndTargets(g, db, w);
      if Targets(g, db, w) == [] { NoTargetsNoUpdate(g, db, w, r => r); }
  }

  /** That way is open: the see-all session can delete every tenant's rows. */
  lemma {:induction false} NoTenantDeleteReachesEveryone(db: seq<Row>)
    ensures Survivors(Scope(true, None), db, r => true) == []
  {
    if db != [] {
      NoTenantDeleteReachesEveryone(db[..|db| - 1]);
    }
  }

  lemma OneTargetedRow(g: Scope, r: Row, w: Row -> bool, f: Row -> Row)
    requires Target(g, w, r)
    ensures Targets(g, [r], w) == [r] && Updated(g, [r], w, f) == [f(r)]
  {
    assert [r][..0] == [];
  }

  /** And a session impersonating `t` can take over another tenant's row by rewriting its tenant. */
  lemma ImpersonationCanTakeOver(r: Row, t: Uuid, w: Row -> bool, f: Row -> Row)
    requires r.tenant != t && w(r) && f(r) == Row(t, r.payload)
    ensures Execute(Scope(true, Some(t)), [r], Update(w, f)) == ([Row(t, r.payload)], Affected(1))
  {
    hide Targets, Updated;
    OneTargetedRow(Scope(true, Some(t)), r, w, f);
  }

  // ---------------------------------------------------------------- exactly when others' rows change

  /** Everyone else's rows for a scope that acts for a tenant, and every row for one that does not. */
  lemma {:induction false} OutsideIs(g: Scope, db: seq<Row>)
    ensures Outside(g, db) == if g.tenant.Some? then Others(db, g.tenant.value) else db
  {
    if db != [] {
      OutsideIs(g, db[..|db| - 1]);
      assert db == db[..|db| - 1] + [db[|db| - 1]];
    }
  }

  predicate TargetsForeign(g: Scope, db: seq<Row>, w: Row -> bool) {
    exists i :: 0 <= i < |db| && Target(g, w, db[i]) && Foreign(g, db[i])
  }

  /** A DELETE, or an UPDATE the policy admits, that targets a foreign row. */
  predicate Trespass(g: Scope, db: seq<Row>, stmt: Stmt) {
    match stmt
    case Select(_) => false
    case Insert(_) => false
    case Update(w, f) => UpdateAdmitted(g, Targets(g, db, w), f) && TargetsForeign(g, db, w)
    case Delete(w) => TargetsForeign(g, db, w)
  }

  lemma TargetsForeignSnoc(g: Scope, db: seq<Row>, w: Row -> bool)
    requires db != []
    ensures
      var front, last := db[..|db| - 1], db[|db| - 1];
      TargetsForeign(g, db, w) <==> TargetsForeign(g, front, w) || (Target(g, w, last) && Foreign(g, last))
  {
    var front := db[..|db| - 1];
    if TargetsForeign(g, front, w) {
      var i :| 0 <= i < |front| && Target(g, w, front[i]) && Foreign(g, front[i]);
      assert db[i] == front[i];
    }
    if i :| 0 <= i < |db| && Target(g, w, db[i]) && Foreign(g, db[i]) && i < |front| {
      assert front[i] == db[i];
    }
  }

  lemma OutsideSnoc(g: Scope, db: seq<Row>, r: Row)
    ensures Outside(g, db + [r]) == if Foreign(g, r) then Outside(g, db) + [r] else Outside(g, db)
  {
    assert (db + [r])[..|db|] == db;
  }

  /** Foreign rows are kept exactly when none was touched, and otherwise there are fewer. */
  predicate KeptUnless(touched: bool, before: seq<Row>, after: seq<Row>) {
    if touched then |after| < |before| else after == before
  }

  lemma {:induction false} DeleteOutside(g: Scope, db: seq<Row>, w: Row -> bool)
    ensures KeptUnless(TargetsForeign(g, db, w), Outside(g, db), Outside(g, Survivors(g, db, w)))
  {
    if db != [] {
      var front, last := db[..|db| - 1], db[|db| - 1];
      DeleteOutside(g, front, w);
      TargetsForeignSnoc(g, db, w);
      OutsideSnoc(g, Survivors(g, front, w), last);
    }
  }

  lemma {:induction false} UpdateOutside(g: Scope, db: seq<Row>, w: Row -> bool, f: Row -> Row)
    requires !g.bypass && AllAdmitted(g, db, w, f)
    ensures KeptUnless(TargetsForeign(g, db, w), Outside(g, db), Outside(g, Updated(g, db, w, f)))
  {
    if db != [] {
      var front, last := db[..|db| - 1], db[|db| - 1];
      assert forall i :: 0 <= i < |front| ==> db[i] == front[i];
      assert db[|db| - 1] == last;
      UpdateOutside(g, front, w, f);
      TargetsForeignSnoc(g, db, w);
      OutsideSnoc(g, Updated(g, front, w, f), if Target(g, w, last) then f(last) else last);
    }
  }

  lemma {:induction false} InsertOutside(g: Scope, db: seq<Row>, images: seq<Row>)
    requires !g.bypass && ImagesAdmitted(g, images)
    ensures Outside(g, db + images) == Outside(g, db)
  {
    if images == [] {
      assert db + images == db;
    } else {
      var front, last := images[..|images| - 1], images[|images| - 1];
      InsertOutside(g, db, front);
      OutsideSnoc(g, db + front, last);
      assert db + images == (db + front) + [last];
    }
  }

  /** Under every scope the policy filters, one statement keeps the rows foreign to the scope if and only if it is no trespass. */
  lemma StatementKeepsOutsideIff(g: Scope, db: seq<Row>, stmt: Stmt)
    requires !g.bypass
    ensures KeptUnless(Trespass(g, db, stmt), Outside(g, db), Outside(g, Execute(g, db, stmt).0))
    ensures Outside(g, Execute(g, db, stmt).0) == Outside(g, db) <==> !Trespass(g, db, stmt)
  {
    hide Outside, Targets, Survivors, Updated, TargetsForeign;
    match stmt
    case Select(_) =>
    case Insert(images) =>
      if ImagesAdmitted(g, images) { InsertOutside(g, db, images); }
    case Update(w, f) =>
      AdmittedRows(g, db, w, f);
      if AllAdmitted(g, db, w, f) { UpdateOutside(g, db, w, f); }
    case Delete(w) => DeleteOutside(g, db, w);
  }

  /** An impersonating statement keeps every other tenant's rows if and only if it is neither a DELETE nor an
      admitted UPDATE that targets one of them. */
  lemma ImpersonationKeepsOthersIff(t: Uuid, db: seq<Row>, stmt: Stmt)
    ensures
      var g := Scope(true, Some(t));
      Others(Execute(g, db, stmt).0, t) == Others(db, t) <==> !Trespass(g, db, stmt)
  {
    hide Execute, Others, Outside, Trespass;
    var g := Scope(true, Some(t));
    OutsideIs(g, db);
    OutsideIs(g, Execute(g, db, stmt).0);
    StatementKeepsOutsideIff(g, db, stmt);
  }

  /** The caller finishes within its actions, with no statement refused. */
  predicate Commits(g: Scope, db: seq<Row>, client: Client, replies: seq<Reply>, n: nat)
    decreases n
  {
    n > 0 &&
    match client(replies)
    case Finish => true
    case Fail => false
    case Do(stmt) =>
      var (db', reply) := Execute(g, db, stmt);
      !reply.PolicyViolation? && Commits(g, db', client, replies + [reply], n - 1)
  }

  /** Some statement of the transaction is a trespass on the rows as it finds them. */
  predicate Trespasses(g: Scope, db: seq<Row>, client: Client, replies: seq<Reply>, n: nat)
    decreases n
  {
    n > 0 && client(replies).Do? &&
    var stmt := client(replies).stmt;
    var (db', reply) := Execute(g, db, stmt);
    Trespass(g, db, stmt) || (!reply.PolicyViolation? && Trespasses(g, db', client, replies + [reply], n - 1))
  }

  lemma {:induction false} TransactionKeepsOutsideIff(g: Scope, start: seq<Row>, db: seq<Row>, client: Client, replies: seq<Reply>, n: nat)
    requires !g.bypass
    ensures
      var db' := Transact(g, start, db, client, replies, n).0;
      if Commits(g, db, client, replies, n)
      then KeptUnless(Trespasses(g, db, client, replies, n), Outside(g, db), Outside(g, db'))
      else db' == start
    decreases n
  {
    hide Execute, Outside, Trespass;
    if n > 0 && client(replies).Do? {
      var stmt := client(replies).stmt;
      StatementKeepsOutsideIff(g, db, stmt);
      var (db', reply) := Execute(g, db, stmt);
      TransactionKeepsOutsideIff(g, start, db', client, replies + [reply], n - 1);
    }
  }

  /** The session runs, commits, and one of its statements is a trespass. */
  predicate SessionTrespasses(w: World, s: Session) {
    var g := SessionScope(s);
    && Admits(w.verified, s)
    && Commits(g, w.db, s.client, [], s.actions) && Trespasses(g, w.db, s.client, [], s.actions)
  }

  /** Over every session kind and every caller, if the role of a session that runs does not bypass the policy:
      the rows of tenants the session does not act for are kept as
      they were if and only if it does not commit a trespass. */
  lemma SessionKeepsOutsideIff(w: World, s: Session)
    requires Admits(w.verified, s) ==> !Bypasses(s.posture)
    ensures
      var g := SessionScope(s);
      Outside(g, RunSession(w, s).0.db) == Outside(g, w.db) <==> !SessionTrespasses(w, s)
  {
    hide Outside, Commits, Trespasses, Transact;
    ScopeIsTheSessions(w.conn, s.kind);
    TransactionKeepsOutsideIff(SessionScope(s), w.db, w.db, s.client, [], s.actions);
  }

  /** A statement of a TENANT scope never trespasses; under the scope with no tenant exactly the DELETEs that
      target a row do. */
  lemma WhoCanTrespass(g: Scope, db: seq<Row>, stmt: Stmt)
    requires !g.bypass
    ensures !g.platform ==> !Trespass(g, db, stmt)
    ensures g == Scope(true, None) ==> (Trespass(g, db, stmt) <==> stmt.Delete? && Targets(g, db, stmt.where) != [])
  {
    if g == Scope(true, None) {
      hide Outside, Targets;
      OutsideIs(g, db);
      OutsideIs(g, Execute(g, db, stmt).0);
      StatementKeepsOutsideIff(g, db, stmt);
      NoTenantChangesOnlyByDelete(db, stmt);
    }
  }

  /** A PLATFORM session with no tenant changes the table if and only if it commits a DELETE of some row. */
  lemma NoTenantSessionChangesOnlyByDelete(w: World, s: Session)
    requires s.kind == PlatformSession(None) && (Admits(w.verified, s) ==> !Bypasses(s.posture))
    ensures RunSession(w, s).0.db != w.db <==> SessionTrespasses(w, s)
  {
    hide Outside, RunSession, SessionTrespasses;
    SessionKeepsOutsideIff(w, s);
    OutsideIs(Scope(true, None), w.db);
    OutsideIs(Scope(true, None), RunSession(w, s).0.db);
  }

  // ---------------------------------------------------------------- reads, and statements outside a session

  /** PLATFORM reads see the rows of every tenant, in table order. */
  lemma {:induction false} PlatformReadsSeeAll(g: Scope, db: seq<Row>, w: Row -> bool)
    requires g.platform && forall r :: w(r)
    ensures Execute(g, db, Select(w)) == (db, Rows(db))
  {
    if db != [] {
      PlatformReadsSeeAll(g, db[..|db| - 1], w);
      assert db == db[..|db| - 1] + [db[|db| - 1]];
    }
  }

  /** A tenant's reads see that tenant's rows, all of them and no others. */
  lemma {:induction false} TenantReadsSeeOwn(t: Uuid, db: seq<Row>, w: Row -> bool)
    requires forall r :: w(r)
    ensures Execute(Scope(false, Some(t)), db, Select(w)) == (db, Rows(Own(db, t)))
  {
    if db != [] {
      TenantReadsSeeOwn(t, db[..|db| - 1], w);
    }
  }

  /** A tenant reads back what it inserts, after what it had; an image of another tenant refuses the lot. */
  lemma InsertedRowsAreRead(t: Uuid, db: seq<Row>, images: seq<Row>, w: Row -> bool)
    requires forall r :: w(r)
    ensures
      var g := Scope(false, Some(t));
      var (db', reply) := Execute(g, db, Insert(images));
      && (reply == PolicyViolation <==> exists i :: 0 <= i < |images| && images[i].tenant != t)
      && Execute(g, db', Select(w)).1 == Rows(if reply == PolicyViolation then Own(db, t) else Own(db, t) + images)
  {
    var db' := Execute(Scope(false, Some(t)), db, Insert(images)).0;
    TenantReadsSeeOwn(t, db', w);
    OwnAppend(db, images, t);
    if ImagesAdmitted(Scope(false, Some(t)), images) { OwnOfOwned(images, t); }
  }

  /** No transaction is open, and no session-level value was ever given. */
  predicate Idle(c: Connection) {
    && c.userType.local.None? && c.tenant.local.None?
    && (c.userType.session.Unset? || c.userType.session.Blank?)
    && (c.tenant.session.Unset? || c.tenant.session.Blank?)
  }

  /** Sessions leave nothing behind: after any sequence of them the pooled connection has no scope, so a
      statement outside a session, of a role the policy applies to, reads no row, changes nothing and can
      insert nothing. */
  lemma {:induction false} NoScopeOutsideSessions(w: World, ss: seq<Session>, stmt: Stmt)
    requires Idle(w.conn)
    ensures
      var w' := RunAll(w, ss).0;
      var (db', reply) := Execute(ScopeOf(w'.conn), w'.db, stmt);
      && Idle(w'.conn) && db' == w'.db
      && (stmt.Select? ==> reply == Rows([]))
      && (stmt.Insert? && stmt.images != [] ==> reply == PolicyViolation)
  {
    hide Transact, Execute;
    if ss != [] { NoScopeOutsideSessions(w, ss[..|ss| - 1], stmt); }
    UnscopedDoesNothing(RunAll(w, ss).0.db, stmt);
  }

  lemma {:induction false} UnscopedTargetsNothing(db: seq<Row>, w: Row -> bool)
    ensures Targets(Scope(false, None), db, w) == []
  {
    if db != [] { UnscopedTargetsNothing(db[..|db| - 1], w); }
  }

  lemma UnscopedDoesNothing(db: seq<Row>, stmt: Stmt)
    ensures
      var (db', reply) := Execute(Scope(false, None), db, stmt);
      && db' == db
      && (stmt.Select? ==> reply == Rows([]))
      && (stmt.Insert? && stmt.images != [] ==> reply == PolicyViolation)
  {
    var g := Scope(false, None);
    match stmt
    case Select(w) => UnscopedTargetsNothing(db, w);
    case Insert(images) =>
      if images != [] { assert !Writable(g, images[0]); } else { assert db + images == db; }
    case Update(w, f) =>
      UnscopedTargetsNothing(db, w);
      NoTargetsNoUpdate(g, db, w, f);
    case Delete(w) =>
      UnscopedTargetsNothing(db, w);
      NoTargetsNoUpdate(g, db, w, r => r);
  }

  // ---------------------------------------------------------------- statements, row by row

  /** The policy of the twelve tenant tables, spelled out: who sees a row, and who may write its image. */
  lemma PolicyIs(g: Scope, r: Row)
    ensures Visible(g, r) <==> g.bypass || g.platform || g.tenant == Some(r.tenant)
    ensures Writable(g, r) <==> g.bypass || g.tenant == Some(r.tenant)
  {
  }

  /** How often a row occurs. */
  function Count(rows: seq<Row>, r: Row): nat {
    multiset(rows)[r]
  }

  lemma CountSnoc(rows: seq<Row>, x: Row, r: Row)
    ensures Count(rows + [x], r) == Count(rows, r) + (if x == r then 1 else 0)
  {
  }

  /** A SELECT returns, and a DELETE removes, exactly the rows it may see that meet its condition, each as often
      as it is there. */
  lemma {:induction false} SelectAndDeleteExactly(g: Scope, db: seq<Row>, w: Row -> bool, r: Row)
    ensures
      var hit := (g.bypass || g.platform || g.tenant == Some(r.tenant)) && w(r);
      && Execute(g, db, Select(w)) == (db, Rows(Targets(g, db, w)))
      && Count(Targets(g, db, w), r) == (if hit then Count(db, r) else 0)
      && Count(Execute(g, db, Delete(w)).0, r) == (if hit then 0 else Count(db, r))
      && Execute(g, db, Delete(w)).1 == Affected(|Targets(g, db, w)|)
  {
    if db != [] {
      var front, last := db[..|db| - 1], db[|db| - 1];
      SelectAndDeleteExactly(g, front, w, r);
      assert db == front + [last];
      CountSnoc(front, last, r);
      CountSnoc(Targets(g, front, w), last, r);
      CountSnoc(Survivors(g, front, w), last, r);
    }
  }

  /** The row the statement leaves where `r` was. */
  function Image(g: Scope, w: Row -> bool, f: Row -> Row, r: Row): Row {
    if (g.bypass || g.platform || g.tenant == Some(r.tenant)) && w(r) then f(r) else r
  }

  lemma {:induction false} UpdatedAt(g: Scope, db: seq<Row>, w: Row -> bool, f: Row -> Row, i: nat)
    requires i < |db|
    ensures |Updated(g, db, w, f)| == |db| && Updated(g, db, w, f)[i] == Image(g, w, f, db[i])
  {
    var front := db[..|db| - 1];
    if i < |front| {
      UpdatedAt(g, front, w, f, i);
    } else if front != [] {
      UpdatedAt(g, front, w, f, 0);
    }
  }

  /** An UPDATE is admitted if and only if every new image carries the scope's tenant (or nothing is checked); it
      then rewrites exactly the rows it may see that meet its condition, in place. */
  lemma UpdateExactly(g: Scope, db: seq<Row>, w: Row -> bool, f: Row -> Row)
    ensures
      var (db', reply) := Execute(g, db, Update(w, f));
      var ok := forall r :: r in db && (g.bypass || g.platform || g.tenant == Some(r.tenant)) && w(r) ==>
                  g.bypass || g.tenant == Some(f(r).tenant);
      && reply == (if ok then Affected(|Targets(g, db, w)|) else PolicyViolation)
      && |db'| == |db|
      && (forall i :: 0 <= i < |db| ==> db'[i] == if ok then Image(g, w, f, db[i]) else db[i])
  {
    hide Updated, Targets;
    AdmittedRows(g, db, w, f);
    if AllAdmitted(g, db, w, f) {
      UpdatedNothing(g, w, f);
      forall i | 0 <= i < |db| ensures |Updated(g, db, w, f)| == |db| && Updated(g, db, w, f)[i] == Image(g, w, f, db[i]) {
        UpdatedAt(g, db, w, f, i);
      }
    } else {
      var i :| 0 <= i < |db| && Target(g, w, db[i]) && !Writable(g, f(db[i]));
      assert db[i] in db;
    }
  }

  lemma UpdatedNothing(g: Scope, w: Row -> bool, f: Row -> Row)
    ensures Updated(g, [], w, f) == []
  {
  }

  /** An INSERT appends its images if and only if each carries the scope's tenant (or nothing is checked). */
  lemma InsertExactly(g: Scope, db: seq<Row>, images: seq<Row>)
    ensures
      var ok := forall r :: r in images ==> g.bypass || g.tenant == Some(r.tenant);
      Execute(g, db, Insert(images)) == if ok then (db + images, Affected(|images|)) else (db, PolicyViolation)
  {
    if !ImagesAdmitted(g, images) {
      var i :| 0 <= i < |images| && !Writable(g, images[i]);
      assert images[i] in images;
    }
  }

  /** The scope a session's statements run under. */
  function ScopeFor(s: Session): Scope {
    var bypass := s.posture.super_ || s.posture.bypassRls;
    match s.kind
    case TenantSession(t) => Scope(false, Some(t), bypass)
    case PlatformSession(t) => Scope(true, t, bypass)
  }

  /** An admitted session whose caller runs one statement and finishes: its effect is committed and its reply returned,
      unless the policy refuses it; whose caller fails instead of finishing: nothing is committed. */
  lemma OneStatementSession(w: World, s: Session, stmt: Stmt)
    requires s.engine in w.verified || Safe(s.posture)
    requires s.client([]) == Do(stmt) && s.actions >= 2
    requires s.client([Execute(ScopeFor(s), w.db, stmt).1]) == Finish || s.client([Execute(ScopeFor(s), w.db, stmt).1]) == Fail
    ensures
      var (db, reply) := Execute(ScopeFor(s), w.db, stmt);
      var (w', log) := RunSession(w, s);
      && log == Ran([reply])
      && w'.db == (if reply == PolicyViolation || s.client([reply]) == Fail then w.db else db)
  {
    hide Execute;
    var g := ScopeOf(Scoped(w.conn, s.kind)).(bypass := Bypasses(s.posture));
    assert g == ScopeFor(s);
    var (db, reply) := Execute(g, w.db, stmt);
    assert [] + [reply] == [reply];
    if reply != PolicyViolation {
      assert Transact(g, w.db, db, s.client, [reply], s.actions - 1)
          == (if s.client([reply]) == Fail then w.db else db, [reply]);
    }
  }

  // ---------------------------------------------------------------- posture

  /** Engine `e` passed the posture check in one of the sessions. */
  predicate PassedIn(ss: seq<Session>, e: nat) {
    exists j :: 0 <= j < |ss| && ss[j].engine == e && Safe(ss[j].posture)
  }

  lemma {:induction false} VerifiedMeansChecked(w: World, ss: seq<Session>, e: nat)
    requires w.verified == {} && e in RunAll(w, ss).0.verified
    ensures PassedIn(ss, e)
  {
    var front, last := ss[..|ss| - 1], ss[|ss| - 1];
    if e in RunAll(w, front).0.verified {
      VerifiedMeansChecked(w, front, e);
      var j :| 0 <= j < |front| && front[j].engine == e && Safe(front[j].posture);
      assert ss[j] == front[j];
    } else {
      assert ss[|ss| - 1].engine == e && Safe(ss[|ss| - 1].posture);
    }
  }

  /** Every session that runs at all runs on an engine that, then or earlier, reached the expected database as a role
      that is no superuser and does not bypass row-level security. */
  lemma {:induction false} StatementsRunOnCheckedEngines(w: World, ss: seq<Session>, i: nat)
    requires w.verified == {} && i < |ss| && RunAll(w, ss).1[i].Ran?
    ensures exists j ::
      && 0 <= j <= i && ss[j].engine == ss[i].engine
      && ss[j].posture.database == "ithina_dis_db" && !ss[j].posture.super_ && !ss[j].posture.bypassRls
  {
    var front, last := ss[..|ss| - 1], ss[|ss| - 1];
    var (mid, logs) := RunAll(w, front);
    if i < |ss| - 1 {
      StatementsRunOnCheckedEngines(w, front, i);
      var j :| 0 <= j <= i && front[j].engine == front[i].engine && front[j].posture.database == "ithina_dis_db"
               && !front[j].posture.super_ && !front[j].posture.bypassRls;
      assert ss[j] == front[j];
    } else {
      VerifiedMeansChecked(w, ss, last.engine);
    }
  }

  /** The check itself. The first session on an engine runs if and only if it reached the expected database as a role
      that is no superuser and does not bypass row-level security; otherwise it is refused and nothing changes. Once
      it has run, the engine is not checked again. */
  lemma FirstUseIsChecked(w: World, s: Session)
    requires s.engine !in w.verified
    ensures
      var (w', log) := RunSession(w, s);
      && (log.Ran? <==> s.posture.database == "ithina_dis_db" && !s.posture.super_ && !s.posture.bypassRls)
      && (!log.Ran? ==> log == Refused && w' == w)
      && (log.Ran? ==> w'.verified == w.verified + {s.engine})
  {
    hide Transact;
  }

  /** A session on an engine verified earlier always runs, under the posture its role has by then. */
  lemma LaterUseIsNotChecked(w: World, s: Session)
    requires s.engine in w.verified
    ensures RunSession(w, s).1.Ran? && RunSession(w, s).0.verified == w.verified
  {
    hide Transact;
  }

  /** An engine that passed the check once passes it ever after: its role and database do not change. */
  predicate SafeOnceSafe(ss: seq<Session>) {
    forall j, i :: 0 <= j < i < |ss| && ss[j].engine == ss[i].engine && Safe(ss[j].posture) ==> Safe(ss[i].posture)
  }

  lemma {:induction false} VerifiedAfterIs(ss: seq<Session>, e: nat)
    ensures e in VerifiedAfter({}, ss) <==> PassedIn(ss, e)
  {
    if ss != [] {
      var front, last := ss[..|ss| - 1], ss[|ss| - 1];
      VerifiedAfterIs(front, e);
      VerifiedAfterIs(front, last.engine);
      PassedSnoc(ss, e);
    }
  }

  lemma PassedSnoc(ss: seq<Session>, e: nat)
    requires ss != []
    ensures PassedIn(ss, e) <==>
            PassedIn(ss[..|ss| - 1], e) || (ss[|ss| - 1].engine == e && Safe(ss[|ss| - 1].posture))
  {
    hide Safe;
    var front := ss[..|ss| - 1];
    if PassedIn(front, e) {
      var j :| 0 <= j < |front| && front[j].engine == e && Safe(front[j].posture);
      assert ss[j] == front[j];
    }
    if j :| 0 <= j < |ss| && ss[j].engine == e && Safe(ss[j].posture) && j < |front| {
      assert front[j] == ss[j];
    }
  }

  /** One check per engine is enough if and only if no engine turns unsafe after a safe use: then, and only
      then, every session that runs in a fresh process runs with a safe posture. */
  lemma OneCheckSufficesIff(ss: seq<Session>)
    ensures RunsSafely({}, ss) <==> SafeOnceSafe(ss)
  {
    hide Safe, VerifiedAfter;
    forall i | 0 <= i < |ss|
      ensures ss[i].engine in VerifiedAfter({}, ss[..i]) <==>
              exists j :: 0 <= j < i && ss[j].engine == ss[i].engine && Safe(ss[j].posture)
    {
      VerifiedAfterIs(ss[..i], ss[i].engine);
      if j :| 0 <= j < i && ss[j].engine == ss[i].engine && Safe(ss[j].posture) {
        assert ss[..i][j] == ss[j];
      }
    }
  }

  /** Isolation of a fresh process whose engines do not turn unsafe: whatever unsafe sessions try to open, two
      databases that agree on tenant `t`'s rows give its sessions the same replies, agree on them afterwards,
      and keep everyone else's rows. */
  lemma TenantsAreIsolated(t: Uuid, a: World, b: World, ss: seq<Session>)
    requires a.verified == {} && b.verified == {} && SafeOnceSafe(ss)
    requires AllTenant(ss, t) && Own(a.db, t) == Own(b.db, t)
    ensures
      var (a', la) := RunAll(a, ss);
      var (b', lb) := RunAll(b, ss);
      && la == lb && Own(a'.db, t) == Own(b'.db, t)
      && Others(a'.db, t) == Others(a.db, t) && Others(b'.db, t) == Others(b.db, t)
  {
    hide RunAll, Own, Others, RunsSafely, SafeOnceSafe;
    OneCheckSufficesIff(ss);
    TenantNonInterference(t, a, b, ss);
  }

  /** A role that bypasses the policy deletes every tenant's rows, whatever its session acts for. */
  lemma {:induction false} BypassReachesEveryone(g: Scope, db: seq<Row>, w: Row -> bool)
    requires g.bypass && forall r :: w(r)
    ensures Survivors(g, db, w) == []
  {
    if db != [] { BypassReachesEveryone(g, db[..|db| - 1], w); }
  }

  /** A session that deletes all it can and commits. */
  function Wipe(engine: nat, posture: Posture, t: Uuid, all: Row -> bool): Session {
    Session(engine, posture, TenantSession(t), (replies: seq<Reply>) => if replies == [] then Do(Delete(all)) else Finish, 2)
  }

  lemma WipeUnderBypass(w: World, engine: nat, posture: Posture, t: Uuid, all: Row -> bool)
    requires Bypasses(posture) && engine in w.verified && forall r :: all(r)
    ensures RunSession(w, Wipe(engine, posture, t, all)).0.db == []
  {
    var s := Wipe(engine, posture, t, all);
    var g := ScopeOf(Scoped(w.conn, s.kind)).(bypass := true);
    BypassReachesEveryone(g, w.db, all);
    var (db, reply) := Execute(g, w.db, Delete(all));
    assert s.client([reply]) == Finish;
    assert [] + [reply] == [reply];
    assert Transact(g, w.db, db, s.client, [reply], 1) == (db, [reply]);
    assert Transact(g, w.db, w.db, s.client, [], 2) == (db, [reply]);
  }

  /** The failing input: the role is made superuser, or to bypass row-level security, after the engine's first use.
      The second TENANT-`t` session is not checked and empties the table, everyone else's rows included; in a fresh
      process the same session is refused. */
  lemma AlteredRoleEscapes(w: World, engine: nat, t: Uuid, first: Session, altered: Posture, all: Row -> bool)
    requires w.verified == {} && first.engine == engine && first.posture == Posture("ithina_dis_db", false, false)
    requires altered.super_ || altered.bypassRls
    requires forall r :: all(r)
    ensures
      var second := Wipe(engine, altered, t, all);
      && RunAll(w, [first, second]).0.db == []
      && RunSession(w, second) == (w, Refused)
      && !SafeOnceSafe([first, second])
  {
    var second := Wipe(engine, altered, t, all);
    var ss := [first, second];
    assert ss[..1] == [first] && [first][..0] == [];
    var mid := RunSession(w, first).0;
    assert RunAll(w, [first]).0 == mid;
    WipeUnderBypass(mid, engine, altered, t, all);
    assert ss[0].engine == ss[1].engine && Safe(ss[0].posture) && !Safe(ss[1].posture);
  }

  // ---------------------------------------------------------------- the library's own form

  /** The library's process state: which engines were verified, and a pooled connection to a table. */
  class Database {
    var verified: set<nat>
    var conn: Connection
    var db: seq<Row>

    constructor (conn: Connection, db: seq<Row>)
      ensures verified == {} && this.conn == conn && this.db == db
    {
      verified, this.conn, this.db := {}, conn, db;
    }

    function View(): World
      reads this
    {
      World(verified, conn, db)
    }

    /** `rls_session` and `rls_platform_session` around the caller's statements. */
    method WithSession(s: Session) returns (log: Log)
      modifies this
      ensures (View(), log) == RunSession(old(View()), s)
    {
      if s.engine !in verified {
        if s.posture.database != EXPECTED_DATABASE { return Refused; }
        if s.posture.super_ || s.posture.bypassRls { return Refused; }
        verified := verified + {s.engine};
      }
      ghost var known := verified;
      assert verified == old(verified) + {s.engine};
      conn := Scoped(conn, s.kind);
      var scope := ScopeOf(conn).(bypass := Bypasses(s.posture));
      var start := db;
      var replies: seq<Reply> := [];
      var left := s.actions;
      var open := true;
      while open && left > 0
        invariant verified == known && conn == Scoped(old(conn), s.kind)
        invariant open ==> Transact(scope, start, db, s.client, replies, left)
                           == Transact(scope, start, start, s.client, [], s.actions)
        invariant !open ==> (db, replies) == Transact(scope, start, start, s.client, [], s.actions)
        decreases left, open
      {
        match s.client(replies)
        case Finish => open := false;
        case Fail => db := start; open := false;
        case Do(stmt) =>
          var reply;
          var (next, answer) := Execute(scope, db, stmt);
          db, reply := next, answer;
          replies := replies + [reply];
          if reply.PolicyViolation? {
            db := start;
            open := false;
          } else {
            left := left - 1;
          }
      }
      if open { db := start; }
      conn := conn.EndTransaction();
      log := Ran(replies);
    }
  }
}
