/**
 Identities, keys, the private-key store and the audit log (internal/identity,
 internal/identity/postgres, internal/crypto/local) at the grain of single repository
 statements. Every service call is a sequence of such statements; calls interleave freely and any
 call may stop after any statement.
 */
module Directory {
  import opened Basics

  type Id = string

  // ---------- Rows ----------

  datatype Status = Pending | Active | Suspended | Deactivated | Archived
  {
    predicate IsTerminal() { Deactivated? || Archived? }
  }

  /** What UpdateIdentity may change. */
  datatype Content = Content(displayName: string, attributes: seq<Byte>)

  datatype Identity = Identity(tenant: Id, content: Content, status: Status, primaryKey: Option<Id>,
                               version: int, deactivatedAt: Option<int>)

  datatype KeyType = Ed25519 | EcdsaP256 | EcdsaP384 | Rsa4096
  {
    function Name(): string {
      match this
      case Ed25519 => "ed25519"
      case EcdsaP256 => "ecdsa_p256"
      case EcdsaP384 => "ecdsa_p384"
      case Rsa4096 => "rsa_4096"
    }

    predicate Supported() { Ed25519? || EcdsaP256? }
  }

  datatype Purpose = Signing | Encryption | Authentication | Recovery

  datatype KeyStatus = InUse | Rotated | Revoked | Compromised
  {
    predicate IsTrusted() { InUse? || Rotated? }
  }

  /** The pair is the number of the generated key pair; a passkey's private half is not held here. */
  datatype Key = Key(identity: Id, tenant: Id, keyType: KeyType, purpose: Purpose, keyRef: string,
                     pair: Option<nat>, status: KeyStatus, rotatedTo: Option<Id>, ord: nat)

  datatype Entity = OfIdentity | OfKey | OfCredential

  datatype EventType = Created | Blank | ToActive | ToSuspended | ToDeactivated
                     | KeyCreated | KeyRotated | KeyRevoked | CredentialCreated

  datatype AuditEvent = AuditEvent(tenant: Id, kind: EventType, entity: Entity, entityId: Id)

  /** Who a private key is generated for: a new identity, or a tenant, identity and type. */
  datatype Slot = Initial(id: Id) | Typed(tenant: Id, identity: Id, keyType: KeyType)

  /** The effective writes, in commit order. Model-only: it lets statements about whole runs be made on one state. */
  datatype Write =
    | Inserted(id: Id, content: Content)
    | Updated(id: Id, content: Content, from: int)
    | StatusSet(id: Id, status: Status)
    | PrimarySet(id: Id, key: Id)
    | Generated(slot: Slot, pair: nat)

  datatype Db = Db(identities: map<Id, Identity>, keys: map<Id, Key>, keystore: map<string, nat>, pairs: nat,
                   log: seq<AuditEvent>, journal: seq<Write>)

  const EMPTY := Db(map[], map[], map[], 0, [], [])

  // ---------- Statements ----------

  function FindIdentity(db: Db, tenant: Id, id: Id): Option<Identity> {
    if id in db.identities && db.identities[id].tenant == tenant then Some(db.identities[id]) else None
  }

  function FindKey(db: Db, tenant: Id, id: Id): Option<Key> {
    if id in db.keys && db.keys[id].tenant == tenant then Some(db.keys[id]) else None
  }

  function Append(db: Db, e: AuditEvent): Db {
    db.(log := db.log + [e])
  }

  /** Insert and its audit event commit together. */
  function InsertIdentity(db: Db, tenant: Id, id: Id, content: Content): Db {
    var row := Identity(tenant, content, Pending, None, 1, None);
    Append(db.(identities := db.identities[id := row], journal := db.journal + [Inserted(id, content)]),
           AuditEvent(tenant, Created, OfIdentity, id))
  }

  /** UPDATE ... WHERE tenant_id AND id AND version: whether a row matches. */
  predicate VersionMatches(db: Db, tenant: Id, id: Id, version: int) {
    FindIdentity(db, tenant, id).Some? && db.identities[id].version == version
  }

  function UpdateContent(db: Db, tenant: Id, id: Id, content: Content, version: int): Db {
    if !VersionMatches(db, tenant, id, version) then db else
      var row := db.identities[id];
      db.(identities := db.identities[id := row.(content := content, version := row.version + 1)],
          journal := db.journal + [Updated(id, content, version)])
  }

  /** No guard on the current status; the deactivation time is set by a terminal status and never cleared. */
  function UpdateStatus(db: Db, tenant: Id, id: Id, status: Status, now: int): Db {
    match FindIdentity(db, tenant, id)
    case None => db
    case Some(row) =>
      var row' := row.(status := status, deactivatedAt := if status.IsTerminal() then Some(now) else row.deactivatedAt);
      db.(identities := db.identities[id := row'], journal := db.journal + [StatusSet(id, status)])
  }

  function SetPrimaryKey(db: Db, tenant: Id, id: Id, key: Id): Db {
    match FindIdentity(db, tenant, id)
    case None => db
    case Some(row) =>
      db.(identities := db.identities[id := row.(primaryKey := Some(key))], journal := db.journal + [PrimarySet(id, key)])
  }

  /** The partial unique index on (identity, purpose) of active keys. */
  predicate HasActive(db: Db, identity: Id, purpose: Purpose) {
    exists k :: k in db.keys && db.keys[k].identity == identity && db.keys[k].purpose == purpose && db.keys[k].status == InUse
  }

  /** Primary key, foreign key and, with the switch on, the partial unique index. */
  predicate CanInsertKey(db: Db, strict: bool, id: Id, identity: Id, purpose: Purpose) {
    id !in db.keys && identity in db.identities && (strict ==> !HasActive(db, identity, purpose))
  }

  function InsertKey(db: Db, id: Id, tenant: Id, identity: Id, keyType: KeyType, purpose: Purpose, keyRef: string, pair: Option<nat>): Db {
    db.(keys := db.keys[id := Key(identity, tenant, keyType, purpose, keyRef, pair, InUse, None, |db.keys|)])
  }

  function MarkRotated(db: Db, tenant: Id, prior: Id, next: Id): Db {
    match FindKey(db, tenant, prior)
    case None => db
    case Some(k) => db.(keys := db.keys[prior := k.(status := Rotated, rotatedTo := Some(next))])
  }

  function MarkRevoked(db: Db, tenant: Id, id: Id): Db {
    match FindKey(db, tenant, id)
    case None => db
    case Some(k) => db.(keys := db.keys[id := k.(status := Revoked)])
  }

  // ---------- The key store ----------

  /** The key id handed to the store: the identity's id, or "tenant/identity/type". */
  function KeyId(slot: Slot): string {
    match slot
    case Initial(id) => id
    case Typed(tenant, identity, keyType) => tenant + "/" + identity + "/" + keyType.Name()
  }

  function Ref(slot: Slot): string { "local://" + KeyId(slot) }

  /** A fresh key pair is generated and its private half saved under the reference. */
  function Generate(db: Db, slot: Slot): Db {
    db.(keystore := db.keystore[Ref(slot) := db.pairs], pairs := db.pairs + 1,
        journal := db.journal + [Generated(slot, db.pairs)])
  }

  // ---------- One statement as a value ----------

  datatype Stmt =
    | Nothing
    | NewIdentity(tenant: Id, id: Id, content: Content)
    | NewContent(tenant: Id, id: Id, content: Content, version: int)
    | NewStatus(tenant: Id, id: Id, status: Status, now: int)
    | NewPrimary(tenant: Id, id: Id, key: Id)
    | NewKey(id: Id, tenant: Id, identity: Id, keyType: KeyType, purpose: Purpose, keyRef: string, pair: Option<nat>)
    | Rotate(tenant: Id, prior: Id, key: Id)
    | Revoke(tenant: Id, key: Id)
    | NewPair(slot: Slot)
    | Audit(event: AuditEvent)

  function Apply(db: Db, stmt: Stmt): Db {
    match stmt
    case Nothing => db
    case NewIdentity(tenant, id, content) => InsertIdentity(db, tenant, id, content)
    case NewContent(tenant, id, content, version) => UpdateContent(db, tenant, id, content, version)
    case NewStatus(tenant, id, status, now) => UpdateStatus(db, tenant, id, status, now)
    case NewPrimary(tenant, id, key) => SetPrimaryKey(db, tenant, id, key)
    case NewKey(id, tenant, identity, keyType, purpose, keyRef, pair) =>
      InsertKey(db, id, tenant, identity, keyType, purpose, keyRef, pair)
    case Rotate(tenant, prior, key) => MarkRotated(db, tenant, prior, key)
    case Revoke(tenant, key) => MarkRevoked(db, tenant, key)
    case NewPair(slot) => Generate(db, slot)
    case Audit(event) => Append(db, event)
  }

  // ---------- Service calls ----------

  datatype Outcome = Success | Failure | NotFound | IdentityTerminal | IdentityInactive | VersionConflict
                   | KeyNotFound | KeyNotUsable | BadKeyType

  datatype Target = Suspend | Reactivate | Deactivate
  {
    function Status(): Status {
      match this case Suspend => Suspended case Reactivate => Active case Deactivate => Deactivated
    }

    function Event(): EventType {
      match this case Suspend => ToSuspended case Reactivate => ToActive case Deactivate => ToDeactivated
    }
  }

  /** The steps of CreateIdentity. */
  datatype CreateStep = CrInsert(content: Content) | CrPair(id: Id) | CrKey(id: Id, pair: nat) | CrPrimary(id: Id, key: Id)
                      | CrActivate(id: Id) | CrAudit(id: Id)

  /** The steps of SuspendIdentity, ReactivateIdentity and DeactivateIdentity. */
  datatype StatusStep = StGuard | StWrite | StAudit

  datatype UpdateStep = UpRead | UpWrite

  datatype GenerateStep = GeRead | GePair | GeKey(pair: nat) | GeAudit(key: Id)

  datatype RotateStep = RoRead | RoPair(keyType: KeyType, purpose: Purpose) | RoKey(keyType: KeyType, purpose: Purpose, pair: nat)
                      | RoMark(key: Id) | RoIdentity(key: Id) | RoPrimary(key: Id) | RoAudit(key: Id)

  datatype RevokeStep = RvRead | RvMark | RvAudit

  /** The steps of FinishRegistration, after the challenge and the attestation have been checked. */
  datatype RegisterStep = FrRead | FrKey(hasPrimary: bool) | FrPrimary(key: Id) | FrCredential | FrAudit(credential: Id)

  /** A call in flight: its arguments, and the statement it runs next with what it has read so far. */
  datatype Pc =
    | Creating(tenant: Id, c: CreateStep)
    | Changing(tenant: Id, id: Id, target: Target, s: StatusStep)
    | Updating(tenant: Id, id: Id, content: Content, version: int, u: UpdateStep)
    | Generating(tenant: Id, id: Id, keyType: KeyType, purpose: Purpose, g: GenerateStep)
    | Rotating(tenant: Id, id: Id, prior: Id, r: RotateStep)
    | Revoking(tenant: Id, key: Id, v: RevokeStep)
    | Registering(tenant: Id, id: Id, f: RegisterStep)
    | Finished(outcome: Outcome)

  predicate IsStart(pc: Pc) {
    match pc
    case Creating(_, c) => c.CrInsert?
    case Changing(_, _, _, s) => s == StGuard
    case Updating(_, _, _, _, u) => u == UpRead
    case Generating(_, _, _, _, g) => g == GeRead
    case Rotating(_, _, _, r) => r == RoRead
    case Revoking(_, _, v) => v == RvRead
    case Registering(_, _, f) => f == FrRead
    case Finished(_) => false
  }

  /** What the database supplies to a statement: a generated id and the time. */
  datatype World = World(id: Id, now: int)

  function PlanCreate(db: Db, strict: bool, tenant: Id, c: CreateStep, w: World): (Stmt, Pc) {
    match c
    case CrInsert(content) =>
      if w.id in db.identities then (Nothing, Finished(Failure))
      else (NewIdentity(tenant, w.id, content), Creating(tenant, CrPair(w.id)))
    case CrPair(id) =>
      if id == "" then (Nothing, Finished(Failure))
      else (NewPair(Initial(id)), Creating(tenant, CrKey(id, db.pairs)))
    case CrKey(id, pair) =>
      if !CanInsertKey(db, strict, w.id, id, Signing) then (Nothing, Finished(Failure))
      else (NewKey(w.id, tenant, id, Ed25519, Signing, Ref(Initial(id)), Some(pair)), Creating(tenant, CrPrimary(id, w.id)))
    case CrPrimary(id, key) => (NewPrimary(tenant, id, key), Creating(tenant, CrActivate(id)))
    case CrActivate(id) => (NewStatus(tenant, id, Active, w.now), Creating(tenant, CrAudit(id)))
    case CrAudit(id) => (Audit(AuditEvent(tenant, Blank, OfIdentity, id)), Finished(Success))
  }

  function PlanChange(db: Db, tenant: Id, id: Id, target: Target, s: StatusStep, w: World): (Stmt, Pc) {
    match s
    case StGuard =>
      (match FindIdentity(db, tenant, id)
       case None => (Nothing, Finished(NotFound))
       case Some(row) =>
         (Nothing, if row.status.IsTerminal() then Finished(IdentityTerminal) else Changing(tenant, id, target, StWrite)))
    case StWrite => (NewStatus(tenant, id, target.Status(), w.now), Changing(tenant, id, target, StAudit))
    case StAudit => (Audit(AuditEvent(tenant, target.Event(), OfIdentity, id)), Finished(Success))
  }

  function PlanUpdate(db: Db, tenant: Id, id: Id, content: Content, version: int, u: UpdateStep): (Stmt, Pc) {
    match u
    case UpRead =>
      (Nothing, if FindIdentity(db, tenant, id).None? then Finished(NotFound) else Updating(tenant, id, content, version, UpWrite))
    case UpWrite =>
      if VersionMatches(db, tenant, id, version) then (NewContent(tenant, id, content, version), Finished(Success))
      else (Nothing, Finished(VersionConflict))
  }

  function PlanGenerate(db: Db, strict: bool, tenant: Id, id: Id, keyType: KeyType, purpose: Purpose, g: GenerateStep, w: World): (Stmt, Pc) {
    match g
    case GeRead =>
      (match FindIdentity(db, tenant, id)
       case None => (Nothing, Finished(NotFound))
       case Some(row) =>
         (Nothing, if row.status != Active then Finished(IdentityInactive)
                   else if !keyType.Supported() then Finished(BadKeyType)
                   else Generating(tenant, id, keyType, purpose, GePair)))
    case GePair =>
      (NewPair(Typed(tenant, id, keyType)), Generating(tenant, id, keyType, purpose, GeKey(db.pairs)))
    case GeKey(pair) =>
      if !CanInsertKey(db, strict, w.id, id, purpose) then (Nothing, Finished(Failure))
      else (NewKey(w.id, tenant, id, keyType, purpose, Ref(Typed(tenant, id, keyType)), Some(pair)),
            Generating(tenant, id, keyType, purpose, GeAudit(w.id)))
    case GeAudit(key) => (Audit(AuditEvent(tenant, KeyCreated, OfKey, key)), Finished(Success))
  }

  function PlanRotate(db: Db, strict: bool, tenant: Id, id: Id, prior: Id, r: RotateStep, w: World): (Stmt, Pc) {
    match r
    case RoRead =>
      (match FindKey(db, tenant, prior)
       case None => (Nothing, Finished(KeyNotFound))
       case Some(k) =>
         (Nothing, if !k.status.IsTrusted() then Finished(KeyNotUsable)
                   else if !k.keyType.Supported() then Finished(BadKeyType)
                   else Rotating(tenant, id, prior, RoPair(k.keyType, k.purpose))))
    case RoPair(keyType, purpose) =>
      (NewPair(Typed(tenant, id, keyType)), Rotating(tenant, id, prior, RoKey(keyType, purpose, db.pairs)))
    case RoKey(keyType, purpose, pair) =>
      if !CanInsertKey(db, strict, w.id, id, purpose) then (Nothing, Finished(Failure))
      else (NewKey(w.id, tenant, id, keyType, purpose, Ref(Typed(tenant, id, keyType)), Some(pair)),
            Rotating(tenant, id, prior, RoMark(w.id)))
    case RoMark(key) => (Rotate(tenant, prior, key), Rotating(tenant, id, prior, RoIdentity(key)))
    case RoIdentity(key) =>
      (match FindIdentity(db, tenant, id)
       case None => (Nothing, Finished(NotFound))
       case Some(row) => (Nothing, Rotating(tenant, id, prior, if row.primaryKey == Some(prior) then RoPrimary(key) else RoAudit(key))))
    case RoPrimary(key) => (NewPrimary(tenant, id, key), Rotating(tenant, id, prior, RoAudit(key)))
    case RoAudit(key) => (Audit(AuditEvent(tenant, KeyRotated, OfKey, key)), Finished(Success))
  }

  function PlanRevoke(db: Db, tenant: Id, key: Id, v: RevokeStep): (Stmt, Pc) {
    match v
    case RvRead => (Nothing, if FindKey(db, tenant, key).None? then Finished(KeyNotFound) else Revoking(tenant, key, RvMark))
    case RvMark => (Revoke(tenant, key), Revoking(tenant, key, RvAudit))
    case RvAudit => (Audit(AuditEvent(tenant, KeyRevoked, OfKey, key)), Finished(Success))
  }

  function PlanRegister(db: Db, strict: bool, tenant: Id, id: Id, f: RegisterStep, w: World): (Stmt, Pc) {
    match f
    case FrRead =>
      (match FindIdentity(db, tenant, id)
       case None => (Nothing, Finished(NotFound))
       case Some(row) => (Nothing, Registering(tenant, id, FrKey(row.primaryKey.Some?))))
    case FrKey(hasPrimary) =>
      if !CanInsertKey(db, strict, w.id, id, Authentication) then (Nothing, Finished(Failure))
      else (NewKey(w.id, tenant, id, EcdsaP256, Authentication, "", None),
            Registering(tenant, id, if hasPrimary then FrCredential else FrPrimary(w.id)))
    case FrPrimary(key) => (NewPrimary(tenant, id, key), Registering(tenant, id, FrCredential))
    case FrCredential => (Nothing, Registering(tenant, id, FrAudit(w.id)))
    case FrAudit(credential) => (Audit(AuditEvent(tenant, CredentialCreated, OfCredential, credential)), Finished(Success))
  }

  /** The statement a call runs next, given what it finds in the database, and where it goes on. */
  function Plan(db: Db, strict: bool, pc: Pc, w: World): (Stmt, Pc) {
    match pc
    case Creating(tenant, c) => PlanCreate(db, strict, tenant, c, w)
    case Changing(tenant, id, target, s) => PlanChange(db, tenant, id, target, s, w)
    case Updating(tenant, id, content, version, u) => PlanUpdate(db, tenant, id, content, version, u)
    case Generating(tenant, id, keyType, purpose, g) => PlanGenerate(db, strict, tenant, id, keyType, purpose, g, w)
    case Rotating(tenant, id, prior, r) => PlanRotate(db, strict, tenant, id, prior, r, w)
    case Revoking(tenant, key, v) => PlanRevoke(db, tenant, key, v)
    case Registering(tenant, id, f) => PlanRegister(db, strict, tenant, id, f, w)
    case Finished(_) => (Nothing, pc)
  }

  function Exec(db: Db, strict: bool, pc: Pc, w: World): (Db, Pc) {
    var (stmt, pc') := Plan(db, strict, pc, w);
    (Apply(db, stmt), pc')
  }

  // ---------- Interleaved runs ----------

  datatype Sys = Sys(db: Db, calls: map<nat, Pc>)

  datatype Action = Begin(t: nat, pc: Pc) | Do(t: nat, w: World) | Drop(t: nat)

  predicate Enabled(s: Sys, a: Action) {
    match a
    case Begin(t, pc) => t !in s.calls && IsStart(pc)
    case Do(t, _) => t in s.calls
    case Drop(t) => t in s.calls
  }

  function Next(s: Sys, strict: bool, a: Action): Sys
    requires Enabled(s, a)
  {
    match a
    case Begin(t, pc) => s.(calls := s.calls[t := pc])
    case Do(t, w) =>
      var (db', pc') := Exec(s.db, strict, s.calls[t], w);
      Sys(db', s.calls[t := pc'])
    case Drop(t) => s.(calls := s.calls - {t})
  }

  function After(s: Sys, strict: bool, acts: seq<Action>): Option<Sys>
    decreases |acts|
  {
    if acts == [] then Some(s)
    else if !Enabled(s, acts[0]) then None
    else After(Next(s, strict, acts[0]), strict, acts[1..])
  }

  const START := Sys(EMPTY, map[])

  ghost predicate Reachable(s: Sys, strict: bool) {
    exists acts :: After(START, strict, acts) == Some(s)
  }

  lemma AfterOne(s: Sys, strict: bool, a: Action)
    requires Enabled(s, a)
    ensures After(s, strict, [a]) == Some(Next(s, strict, a))
  {
    assert [a][1..] == [];
    assert After(Next(s, strict, a), strict, []) == Some(Next(s, strict, a));
  }

  lemma {:induction false} AfterConcat(s: Sys, strict: bool, a: seq<Action>, b: seq<Action>)
    requires After(s, strict, a).Some?
    ensures After(s, strict, a + b) == After(After(s, strict, a).value, strict, b)
    decreases |a|
  {
    if a == [] {
      assert a + b == b;
    } else {
      hide Next;
      assert (a + b)[1..] == a[1..] + b;
      AfterConcat(Next(s, strict, a[0]), strict, a[1..], b);
    }
  }

  lemma FreeSlot(calls: map<nat, Pc>) returns (t: nat)
    ensures t !in calls
  {
    t := Bound(calls.Keys);
  }

  lemma {:induction false} Bound(ts: set<nat>) returns (t: nat)
    ensures forall u <- ts :: u < t
  {
    if ts == {} {
      t := 0;
    } else {
      var u :| u in ts;
      t := Bound(ts - {u});
      t := if u < t then t else u + 1;
      assert forall v <- ts :: v == u || v in ts - {u};
    }
  }

  // ---------- A call on its own ----------

  /**
   A call that runs alone. Each statement takes one of the given worlds; when they run out, the next
   statement fails and the call returns there.
   */
  function Solo(db: Db, strict: bool, pc: Pc, worlds: seq<World>): (Db, Pc)
    decreases |worlds|
  {
    if worlds == [] || pc.Finished? then (db, pc) else
      var (db', pc') := Exec(db, strict, pc, worlds[0]);
      Solo(db', strict, pc', worlds[1..])
  }

  /**
   What the caller sees: the call's own result, or a failure if it was cut short. FinishRegistration
   alone ignores an error of its audit insert.
   */
  function ResultOf(pc: Pc): Outcome {
    if pc.Finished? then pc.outcome
    else if pc.Registering? && pc.f.FrAudit? then Success
    else Failure
  }
}
