/**
 Primary keys and rotation links: what every interleaving of service calls keeps, wherever any of
 them stops.
 */
module KeyRing {
  import opened Basics
  import opened Directory

  // ---------- What never changes once written ----------

  /** Rows are only added; an identity's tenant and a key's owner and age are fixed; a primary key is never unset. */
  ghost predicate Grows(db: Db, db': Db) {
    && (forall k :: k in db.keys ==> k in db'.keys && db'.keys[k].identity == db.keys[k].identity
                                     && db'.keys[k].tenant == db.keys[k].tenant && db'.keys[k].ord == db.keys[k].ord)
    && (forall i :: i in db.identities ==> i in db'.identities && db'.identities[i].tenant == db.identities[i].tenant
                                           && (db.identities[i].primaryKey.Some? ==> db'.identities[i].primaryKey.Some?))
  }

  /** Inserts use fresh ids. */
  predicate FreshStmt(db: Db, stmt: Stmt) {
    && (stmt.NewKey? ==> stmt.id !in db.keys)
    && (stmt.NewIdentity? ==> stmt.id !in db.identities)
  }

  lemma ApplyGrows(db: Db, stmt: Stmt)
    requires FreshStmt(db, stmt)
    ensures Grows(db, Apply(db, stmt))
  {
    hide Ref;
  }

  lemma PlanFresh(db: Db, strict: bool, pc: Pc, w: World)
    ensures FreshStmt(db, Plan(db, strict, pc, w).0)
  {
    hide Ref, HasActive;
  }

  // ---------- The invariant ----------

  predicate OwnKey(db: Db, tenant: Id, id: Id, key: Id) {
    key in db.keys && db.keys[key].identity == id && db.keys[key].tenant == tenant
  }

  ghost predicate PrimariesOk(db: Db) {
    forall i :: i in db.identities && db.identities[i].primaryKey.Some? ==>
      OwnKey(db, db.identities[i].tenant, i, db.identities[i].primaryKey.value)
  }

  predicate Later(db: Db, k: Id, k': Id) {
    k in db.keys && k' in db.keys && db.keys[k].ord < db.keys[k'].ord
  }

  ghost predicate AgesOk(db: Db) {
    forall k :: k in db.keys ==> db.keys[k].ord < |db.keys|
  }

  ghost predicate RotationsOk(db: Db) {
    forall k :: k in db.keys && db.keys[k].rotatedTo.Some? ==> Later(db, k, db.keys[k].rotatedTo.value)
  }

  ghost predicate RowsOk(db: Db) {
    PrimariesOk(db) && AgesOk(db) && RotationsOk(db)
  }

  /** A call that is about to install a key holds a key of the identity it will install it for. */
  predicate PcOk(db: Db, pc: Pc) {
    match pc
    case Creating(tenant, CrPrimary(id, key)) => OwnKey(db, tenant, id, key)
    case Rotating(tenant, id, prior, r) => RotateOk(db, tenant, id, prior, r)
    case Registering(tenant, id, FrPrimary(key)) => OwnKey(db, tenant, id, key)
    case _ => true
  }

  predicate RotateOk(db: Db, tenant: Id, id: Id, prior: Id, r: RotateStep) {
    match r
    case RoPair(_, _) => prior in db.keys
    case RoKey(_, _, _) => prior in db.keys
    case RoMark(key) => OwnKey(db, tenant, id, key) && Later(db, prior, key)
    case RoIdentity(key) => OwnKey(db, tenant, id, key)
    case RoPrimary(key) => OwnKey(db, tenant, id, key)
    case _ => true
  }

  ghost predicate Inv(s: Sys) {
    RowsOk(s.db) && forall t :: t in s.calls ==> PcOk(s.db, s.calls[t])
  }

  lemma PcStable(db: Db, db': Db, pc: Pc)
    requires Grows(db, db') && PcOk(db, pc)
    ensures PcOk(db', pc)
  {
  }

  predicate StmtOk(db: Db, stmt: Stmt) {
    && FreshStmt(db, stmt)
    && (stmt.NewPrimary? ==> OwnKey(db, stmt.tenant, stmt.id, stmt.key))
    && (stmt.Rotate? ==> Later(db, stmt.prior, stmt.key))
  }

  lemma KeyCount(db: Db, stmt: Stmt)
    requires FreshStmt(db, stmt)
    ensures |Apply(db, stmt).keys| == |db.keys| + if stmt.NewKey? then 1 else 0
  {
    hide Ref, InsertIdentity, UpdateContent, UpdateStatus, SetPrimaryKey, Append, Generate;
    SameKeys(db, stmt);
    if stmt.NewKey? {
      assert Apply(db, stmt).keys.Keys == db.keys.Keys + {stmt.id};
    } else if stmt.Rotate? || stmt.Revoke? {
      assert Apply(db, stmt).keys.Keys == db.keys.Keys;
      assert |Apply(db, stmt).keys.Keys| == |db.keys.Keys|;
    }
  }

  lemma SameIdentities(db: Db, stmt: Stmt)
    ensures stmt.NewIdentity? || stmt.NewContent? || stmt.NewStatus? || stmt.NewPrimary? || Apply(db, stmt).identities == db.identities
  {
    hide Ref;
  }

  lemma SameKeys(db: Db, stmt: Stmt)
    ensures stmt.NewKey? || stmt.Rotate? || stmt.Revoke? || Apply(db, stmt).keys == db.keys
  {
    hide Ref;
  }

  lemma ApplyOk(db: Db, stmt: Stmt)
    requires RowsOk(db) && StmtOk(db, stmt)
    ensures RowsOk(Apply(db, stmt))
  {
    hide Apply, PrimariesOk, AgesOk, RotationsOk;
    ApplyPrimaries(db, stmt);
    ApplyAges(db, stmt);
    ApplyRotations(db, stmt);
  }

  lemma ApplyPrimaries(db: Db, stmt: Stmt)
    requires PrimariesOk(db) && StmtOk(db, stmt)
    ensures PrimariesOk(Apply(db, stmt))
  {
    hide Ref;
    SameIdentities(db, stmt);
    SameKeys(db, stmt);
  }

  lemma ApplyAges(db: Db, stmt: Stmt)
    requires AgesOk(db) && FreshStmt(db, stmt)
    ensures AgesOk(Apply(db, stmt))
  {
    hide Ref;
    KeyCount(db, stmt);
    SameKeys(db, stmt);
    hide InsertIdentity, UpdateContent, UpdateStatus, SetPrimaryKey, Append, Generate;
  }

  lemma ApplyRotations(db: Db, stmt: Stmt)
    requires AgesOk(db) && RotationsOk(db) && StmtOk(db, stmt)
    ensures RotationsOk(Apply(db, stmt))
  {
    SameKeys(db, stmt);
    hide Ref, InsertIdentity, UpdateContent, UpdateStatus, SetPrimaryKey, Append, Generate;
  }

  lemma PlanOk(db: Db, strict: bool, pc: Pc, w: World)
    requires PcOk(db, pc)
    ensures StmtOk(db, Plan(db, strict, pc, w).0)
  {
    hide Ref, HasActive, OwnKey, Later;
    PlanFresh(db, strict, pc, w);
  }

  lemma ExecPcOk(db: Db, strict: bool, pc: Pc, w: World)
    requires AgesOk(db) && PcOk(db, pc)
    ensures PcOk(Exec(db, strict, pc, w).0, Exec(db, strict, pc, w).1)
  {
    if pc.Rotating? {
      hide Plan, Apply;
      RotatePcOk(db, strict, pc, w);
    } else {
      var (stmt, pc') := Plan(db, strict, pc, w);
      hide Ref, CanInsertKey, Apply, OwnKey, Later, RotateOk, PlanRotate, AgesOk;
      PlanFresh(db, strict, pc, w);
      if stmt.NewKey? { NewKeyOk(db, stmt); }
    }
  }

  lemma RotatePcOk(db: Db, strict: bool, pc: Pc, w: World)
    requires pc.Rotating? && AgesOk(db) && PcOk(db, pc)
    ensures PcOk(Exec(db, strict, pc, w).0, Exec(db, strict, pc, w).1)
  {
    var (stmt, pc') := Plan(db, strict, pc, w);
    var db' := Apply(db, stmt);
    hide Ref, HasActive, Apply, OwnKey, Later, PlanCreate, PlanChange, PlanUpdate, PlanGenerate, PlanRevoke, PlanRegister;
    PlanFresh(db, strict, pc, w);
    if stmt.NewKey? {
      NewKeyOk(db, stmt);
    } else if pc'.Rotating? && (pc'.r.RoIdentity? || pc'.r.RoPrimary?) {
      ApplyGrows(db, stmt);
      OwnKeyStable(db, db', pc'.tenant, pc'.id, pc'.r.key);
    } else if pc'.Rotating? && (pc'.r.RoPair? || pc'.r.RoKey?) {
      SameKeys(db, stmt);
    }
  }

  lemma OwnKeyStable(db: Db, db': Db, tenant: Id, id: Id, key: Id)
    requires Grows(db, db') && OwnKey(db, tenant, id, key)
    ensures OwnKey(db', tenant, id, key)
  {
  }

  lemma NewKeyOk(db: Db, stmt: Stmt)
    requires AgesOk(db) && stmt.NewKey? && stmt.id !in db.keys
    ensures OwnKey(Apply(db, stmt), stmt.tenant, stmt.identity, stmt.id)
    ensures forall k :: k in db.keys ==> Later(Apply(db, stmt), k, stmt.id)
  {
  }

  lemma ExecGrows(db: Db, strict: bool, pc: Pc, w: World)
    ensures Grows(db, Exec(db, strict, pc, w).0)
  {
    hide Plan, Apply, Grows;
    PlanFresh(db, strict, pc, w);
    ApplyGrows(db, Plan(db, strict, pc, w).0);
  }

  lemma ExecRowsOk(db: Db, strict: bool, pc: Pc, w: World)
    requires RowsOk(db) && PcOk(db, pc)
    ensures RowsOk(Exec(db, strict, pc, w).0)
  {
    hide Plan, Apply, RowsOk, PcOk;
    PlanOk(db, strict, pc, w);
    ApplyOk(db, Plan(db, strict, pc, w).0);
  }

  lemma InvStep(s: Sys, strict: bool, a: Action)
    requires Inv(s) && Enabled(s, a)
    ensures Inv(Next(s, strict, a)) && Grows(s.db, Next(s, strict, a).db)
  {
    hide Exec, RowsOk, PcOk, Grows;
    match a
    case Begin(t, pc) => assert PcOk(s.db, pc) by { StartOk(s.db, pc); } GrowsRefl(s.db);
    case Do(t, w) =>
      var pc := s.calls[t];
      ExecRowsOk(s.db, strict, pc, w);
      RowsAges(s.db);
      ExecPcOk(s.db, strict, pc, w);
      ExecGrows(s.db, strict, pc, w);
      forall u | u in s.calls && u != t ensures PcOk(Exec(s.db, strict, pc, w).0, s.calls[u]) {
        PcStable(s.db, Exec(s.db, strict, pc, w).0, s.calls[u]);
      }
    case Drop(_) => GrowsRefl(s.db);
  }

  lemma RowsAges(db: Db)
    requires RowsOk(db)
    ensures AgesOk(db)
  {
  }

  lemma StartOk(db: Db, pc: Pc)
    requires IsStart(pc)
    ensures PcOk(db, pc)
  {
  }

  lemma GrowsRefl(db: Db)
    ensures Grows(db, db)
  {
  }

  lemma GrowsTrans(a: Db, b: Db, c: Db)
    requires Grows(a, b) && Grows(b, c)
    ensures Grows(a, c)
  {
  }

  lemma {:induction false} InvRun(s: Sys, strict: bool, acts: seq<Action>)
    requires Inv(s) && After(s, strict, acts).Some?
    ensures Inv(After(s, strict, acts).value)
    ensures Grows(s.db, After(s, strict, acts).value.db)
    decreases |acts|
  {
    hide Inv, Next, Grows;
    if acts == [] {
      GrowsRefl(s.db);
    } else {
      InvStep(s, strict, acts[0]);
      var s1 := Next(s, strict, acts[0]);
      InvRun(s1, strict, acts[1..]);
      GrowsTrans(s.db, s1.db, After(s1, strict, acts[1..]).value.db);
    }
  }

  // ---------- Main results ----------

  /**
   In every reachable state, with calls stopped anywhere: a set primary key names an existing key
   of that very identity and tenant, and every rotation link leads to a strictly later key.
   */
  lemma KeysInOrder(s: Sys, strict: bool)
    requires Reachable(s, strict)
    ensures Inv(s)
    ensures PrimariesOk(s.db) && RotationsOk(s.db)
  {
    var acts :| After(START, strict, acts) == Some(s);
    InvRun(START, strict, acts);
  }

  /** From any reachable state on, a primary key that is set stays set, and no key ever disappears. */
  lemma PrimaryNeverUnset(s: Sys, strict: bool, acts: seq<Action>, id: Id)
    requires Reachable(s, strict) && After(s, strict, acts).Some?
    requires id in s.db.identities && s.db.identities[id].primaryKey.Some?
    ensures var db' := After(s, strict, acts).value.db;
            && id in db'.identities && db'.identities[id].primaryKey.Some?
            && OwnKey(db', db'.identities[id].tenant, id, db'.identities[id].primaryKey.value)
            && s.db.keys.Keys <= db'.keys.Keys
  {
    KeysInOrder(s, strict);
    InvRun(s, strict, acts);
  }

  /** Following rotation links from any key ends, at a key that has not been rotated. */
  function Latest(db: Db, k: Id): (r: Id)
    requires AgesOk(db) && RotationsOk(db) && k in db.keys
    ensures r in db.keys && db.keys[r].rotatedTo.None?
    ensures r == k || Later(db, k, r)
    decreases |db.keys| - db.keys[k].ord
  {
    if db.keys[k].rotatedTo.None? then k else Latest(db, db.keys[k].rotatedTo.value)
  }

  // ---------- Rotation from start to end ----------

  lemma SoloStep(db: Db, strict: bool, pc: Pc, worlds: seq<World>) returns (db': Db, pc': Pc)
    requires worlds != [] && !pc.Finished?
    ensures (db', pc') == Exec(db, strict, pc, worlds[0])
    ensures Solo(db, strict, pc, worlds) == Solo(db', strict, pc', worlds[1..])
    ensures pc'.Finished? || |worlds| == 1 ==> Solo(db, strict, pc, worlds) == (db', pc')
  {
    var r := Exec(db, strict, pc, worlds[0]);
    db', pc' := r.0, r.1;
  }

  /** A call that succeeds and is not at its end has a statement to run. */
  lemma SuccessStep(db: Db, strict: bool, pc: Pc, worlds: seq<World>) returns (db': Db, pc': Pc)
    requires ResultOf(Solo(db, strict, pc, worlds).1) == Success && !pc.Finished? && !pc.Registering?
    ensures worlds != [] && (db', pc') == Exec(db, strict, pc, worlds[0])
    ensures Solo(db, strict, pc, worlds) == Solo(db', strict, pc', worlds[1..])
    ensures pc'.Finished? ==> Solo(db, strict, pc, worlds) == (db', pc')
  {
    hide Exec;
    db', pc' := SoloStep(db, strict, pc, worlds);
  }

  /**
   A rotation that succeeds, alone and with the partial unique index on or off, leaves the prior key
   retired and linked to the new one, and moves the primary pointer along exactly if it was there.
   */
  lemma RotationComplete(db: Db, strict: bool, tenant: Id, id: Id, prior: Id, worlds: seq<World>)
    requires ResultOf(Solo(db, strict, Rotating(tenant, id, prior, RoRead), worlds).1) == Success
    ensures |worlds| > 2
    ensures var db', key := Solo(db, strict, Rotating(tenant, id, prior, RoRead), worlds).0, worlds[2].id;
            && prior in db.keys && key !in db.keys && db'.keys.Keys == db.keys.Keys + {key}
            && db'.keys[prior].status == Rotated && db'.keys[prior].rotatedTo == Some(key)
            && OwnKey(db', tenant, id, key) && db'.keys[key].status == InUse
            && db'.keys[key].keyType == db.keys[prior].keyType && db'.keys[key].purpose == db.keys[prior].purpose
            && id in db.identities && id in db'.identities && db'.identities[id].primaryKey
               == (if db.identities[id].primaryKey == Some(prior) then Some(key) else db.identities[id].primaryKey)
  {
    hide Ref, HasActive, Solo, Exec;
    RotateInsert(db, strict, tenant, id, prior, worlds);
    var key := worlds[2].id;
    RotatePrimary(RotatedKeys(db, tenant, id, prior, key), strict, tenant, id, prior, key, worlds[4..]);
  }

  /** The database after the first four statements of a rotation. */
  function RotatedKeys(db: Db, tenant: Id, id: Id, prior: Id, key: Id): Db
    requires prior in db.keys
  {
    var k := db.keys[prior];
    var slot := Typed(tenant, id, k.keyType);
    MarkRotated(InsertKey(Generate(db, slot), key, tenant, id, k.keyType, k.purpose, Ref(slot), Some(db.pairs)), tenant, prior, key)
  }

  lemma RotateInsert(db: Db, strict: bool, tenant: Id, id: Id, prior: Id, worlds: seq<World>)
    requires ResultOf(Solo(db, strict, Rotating(tenant, id, prior, RoRead), worlds).1) == Success
    ensures |worlds| >= 4 && FindKey(db, tenant, prior).Some? && worlds[2].id !in db.keys && id in db.identities
    ensures Solo(db, strict, Rotating(tenant, id, prior, RoRead), worlds)
            == Solo(RotatedKeys(db, tenant, id, prior, worlds[2].id), strict, Rotating(tenant, id, prior, RoIdentity(worlds[2].id)), worlds[4..])
  {
    hide Ref, HasActive, Solo, InsertKey, MarkRotated;
    var d1, p1 := SuccessStep(db, strict, Rotating(tenant, id, prior, RoRead), worlds);
    var k := db.keys[prior];
    assert d1 == db && p1 == Rotating(tenant, id, prior, RoPair(k.keyType, k.purpose));
    var d2, p2 := SuccessStep(d1, strict, p1, worlds[1..]);
    assert p2 == Rotating(tenant, id, prior, RoKey(k.keyType, k.purpose, db.pairs));
    assert worlds[1..][1..] == worlds[2..];
    var d3, p3 := SuccessStep(d2, strict, p2, worlds[2..]);
    assert p3 == Rotating(tenant, id, prior, RoMark(worlds[2].id));
    assert worlds[2..][1..] == worlds[3..];
    var d4, p4 := SuccessStep(d3, strict, p3, worlds[3..]);
    assert worlds[3..][1..] == worlds[4..];
  }

  lemma RotatePrimary(db: Db, strict: bool, tenant: Id, id: Id, prior: Id, key: Id, worlds: seq<World>)
    requires ResultOf(Solo(db, strict, Rotating(tenant, id, prior, RoIdentity(key)), worlds).1) == Success
    ensures FindIdentity(db, tenant, id).Some?
    ensures var moved := if db.identities[id].primaryKey == Some(prior) then SetPrimaryKey(db, tenant, id, key) else db;
            Solo(db, strict, Rotating(tenant, id, prior, RoIdentity(key)), worlds).0 == Append(moved, AuditEvent(tenant, KeyRotated, OfKey, key))
  {
    hide Ref, HasActive, Solo, SetPrimaryKey, Append;
    var d1, p1 := SuccessStep(db, strict, Rotating(tenant, id, prior, RoIdentity(key)), worlds);
    var d2, p2 := SuccessStep(d1, strict, p1, worlds[1..]);
    if p2.Rotating? && p2.r.RoAudit? {
      var d3, p3 := SuccessStep(d2, strict, p2, worlds[1..][1..]);
    }
  }

  // ---------- Rotation within an identity ----------

  /**
   RotateKey does not compare the identity it is given with the prior key's. A rotation that succeeds
   links the prior key to one of the same identity exactly if it was given that key's identity.
   */
  lemma RotationOwnExact(db: Db, strict: bool, tenant: Id, id: Id, prior: Id, worlds: seq<World>)
    requires ResultOf(Solo(db, strict, Rotating(tenant, id, prior, RoRead), worlds).1) == Success
    ensures prior in db.keys
    ensures var db' := Solo(db, strict, Rotating(tenant, id, prior, RoRead), worlds).0;
            && prior in db'.keys && db'.keys[prior].rotatedTo.Some? && db'.keys[prior].rotatedTo.value in db'.keys
            && (db'.keys[db'.keys[prior].rotatedTo.value].identity == db'.keys[prior].identity <==> db.keys[prior].identity == id)
  {
    RotationComplete(db, strict, tenant, id, prior, worlds);
    hide Ref, HasActive, Solo, Exec;
    RotateInsert(db, strict, tenant, id, prior, worlds);
    RotatePrimary(RotatedKeys(db, tenant, id, prior, worlds[2].id), strict, tenant, id, prior, worlds[2].id, worlds[4..]);
  }

  ghost predicate LinksOwn(db: Db) {
    forall k :: k in db.keys && db.keys[k].rotatedTo.Some? && db.keys[k].rotatedTo.value in db.keys ==>
      db.keys[db.keys[k].rotatedTo.value].identity == db.keys[k].identity
  }

  /** A rotation past its read, with its link still to write, was given the identity of the key it replaces. */
  predicate RotatesOwn(db: Db, pc: Pc) {
    pc.Rotating? && (pc.r.RoPair? || pc.r.RoKey? || pc.r.RoMark?) ==>
      pc.prior in db.keys && db.keys[pc.prior].identity == pc.id
  }

  /** If the action is a rotation's read, the key it finds is the named identity's own. */
  predicate ReadsOwn(s: Sys, a: Action) {
    a.Do? && a.t in s.calls && s.calls[a.t].Rotating? && s.calls[a.t].r.RoRead? && s.calls[a.t].prior in s.db.keys
    ==> s.db.keys[s.calls[a.t].prior].identity == s.calls[a.t].id
  }

  ghost predicate OwnRun(s: Sys, strict: bool, acts: seq<Action>)
    decreases |acts|
  {
    acts == [] || (Enabled(s, acts[0]) && ReadsOwn(s, acts[0]) && OwnRun(Next(s, strict, acts[0]), strict, acts[1..]))
  }

  ghost predicate OwnInv(s: Sys) {
    Inv(s) && LinksOwn(s.db) && forall t :: t in s.calls ==> RotatesOwn(s.db, s.calls[t])
  }

  lemma ApplyLinks(db: Db, stmt: Stmt)
    requires RowsOk(db) && LinksOwn(db) && FreshStmt(db, stmt)
    requires stmt.Rotate? && stmt.prior in db.keys && stmt.key in db.keys ==> db.keys[stmt.prior].identity == db.keys[stmt.key].identity
    ensures LinksOwn(Apply(db, stmt))
  {
    SameKeys(db, stmt);
    hide Ref, InsertIdentity, UpdateContent, UpdateStatus, SetPrimaryKey, Append, Generate, PrimariesOk;
  }

  lemma PlanOwn(db: Db, strict: bool, pc: Pc, w: World)
    requires PcOk(db, pc) && RotatesOwn(db, pc)
    requires pc.Rotating? && pc.r.RoRead? && pc.prior in db.keys ==> db.keys[pc.prior].identity == pc.id
    ensures var (stmt, pc') := Plan(db, strict, pc, w);
            && RotatesOwn(db, pc')
            && (stmt.Rotate? && stmt.prior in db.keys && stmt.key in db.keys ==>
                  db.keys[stmt.prior].identity == db.keys[stmt.key].identity)
  {
    hide Ref, CanInsertKey;
  }

  lemma OwnStep(s: Sys, strict: bool, a: Action)
    requires OwnInv(s) && Enabled(s, a) && ReadsOwn(s, a)
    ensures OwnInv(Next(s, strict, a))
  {
    InvStep(s, strict, a);
    if a.Do? {
      var pc := s.calls[a.t];
      PlanOwn(s.db, strict, pc, a.w);
      PlanFresh(s.db, strict, pc, a.w);
      ApplyLinks(s.db, Plan(s.db, strict, pc, a.w).0);
    }
    hide Plan, Apply, PcOk, RowsOk, LinksOwn;
  }

  lemma {:induction false} OwnRunLinks(s: Sys, strict: bool, acts: seq<Action>)
    requires OwnInv(s) && OwnRun(s, strict, acts)
    ensures After(s, strict, acts).Some? && LinksOwn(After(s, strict, acts).value.db)
    decreases |acts|
  {
    hide Inv, Next, ReadsOwn, RotatesOwn;
    if acts != [] {
      OwnStep(s, strict, acts[0]);
      OwnRunLinks(Next(s, strict, acts[0]), strict, acts[1..]);
    }
  }

  /** In every run in which each rotation finds a key of the identity it was given, links stay within an identity. */
  lemma LinksStayOwn(strict: bool, acts: seq<Action>)
    requires OwnRun(START, strict, acts)
    ensures After(START, strict, acts).Some? && LinksOwn(After(START, strict, acts).value.db)
  {
    assert OwnInv(START);
    hide OwnInv, OwnRun;
    OwnRunLinks(START, strict, acts);
  }
}
