/**
 IdentityService and KeyService as the source writes them: repository calls in order, returning at
 the first that fails. Each method is proved against the statement machine of module Directory, run
 alone, so everything proved of its reachable states holds after any calls.
 */
module Services {
  import opened Basics
  import opened Directory

  // ---------- Runs of whole calls are runs of the machine ----------

  ghost predicate ReachableDb(db: Db, strict: bool) {
    exists calls :: Reachable(Sys(db, calls), strict)
  }

  lemma ReachableNext(s: Sys, strict: bool, a: Action)
    requires Reachable(s, strict) && Enabled(s, a)
    ensures Reachable(Next(s, strict, a), strict)
  {
    hide Next, Enabled;
    var acts :| After(START, strict, acts) == Some(s);
    AfterConcat(START, strict, acts, [a]);
    AfterOne(s, strict, a);
  }

  lemma {:induction false} SoloReachable(s: Sys, strict: bool, t: nat, worlds: seq<World>)
    requires Reachable(s, strict) && t in s.calls
    ensures ReachableDb(Solo(s.db, strict, s.calls[t], worlds).0, strict)
    decreases |worlds|
  {
    if worlds == [] || s.calls[t].Finished? {
      assert s == Sys(s.db, s.calls);
    } else {
      hide Exec;
      ReachableNext(s, strict, Do(t, worlds[0]));
      SoloReachable(Next(s, strict, Do(t, worlds[0])), strict, t, worlds[1..]);
    }
  }

  lemma SoleCall(db: Db, strict: bool, pc: Pc, worlds: seq<World>)
    requires ReachableDb(db, strict) && IsStart(pc)
    ensures ReachableDb(Solo(db, strict, pc, worlds).0, strict)
  {
    hide Solo, Reachable, IsStart;
    var calls :| Reachable(Sys(db, calls), strict);
    var s := Sys(db, calls);
    var t := FreeSlot(calls);
    ReachableNext(s, strict, Begin(t, pc));
    SoloReachable(Next(s, strict, Begin(t, pc)), strict, t, worlds);
  }

  /** One statement of a call that runs alone. */
  lemma Unroll(db: Db, strict: bool, pc: Pc, worlds: seq<World>)
    ensures Solo(db, strict, pc, worlds)
            == if worlds == [] || pc.Finished? then (db, pc) else
                 var (db', pc') := Exec(db, strict, pc, worlds[0]);
                 if pc'.Finished? then (db', pc') else Solo(db', strict, pc', worlds[1..])
  {
    hide Exec;
  }

  /** The store refuses an empty key id. */
  predicate Storable(slot: Slot) { slot.Initial? ==> slot.id != "" }

  // ---------- Repositories ----------

  class Repositories {
    const strict: bool
    var db: Db
    // Ids and times for the coming statements; once they run out, statements fail.
    var worlds: seq<World>

    constructor (strict: bool, worlds: seq<World>)
      ensures this.strict == strict && db == EMPTY && this.worlds == worlds && Valid()
    {
      this.strict := strict;
      this.db := EMPTY;
      this.worlds := worlds;
      new;
      assert After(START, strict, []) == Some(START);
      assert Reachable(Sys(EMPTY, map[]), strict);
    }

    /** The database is one the machine can reach. */
    ghost predicate Valid()
      reads this
    {
      ReachableDb(db, strict)
    }

    method GetIdentity(tenant: Id, id: Id) returns (r: Result<Identity, Outcome>)
      modifies `worlds
      ensures old(worlds) == [] ==> r == Err(Failure) && worlds == []
      ensures old(worlds) != [] ==> worlds == old(worlds)[1..]
      ensures old(worlds) != [] ==> r == match FindIdentity(db, tenant, id) case Some(row) => Ok(row) case None => Err(NotFound)
    {
      if worlds == [] {
        return Err(Failure);
      }
      worlds := worlds[1..];
      match FindIdentity(db, tenant, id)
      case Some(row) => r := Ok(row);
      case None => r := Err(NotFound);
    }

    method GetKey(tenant: Id, id: Id) returns (r: Result<Key, Outcome>)
      modifies `worlds
      ensures old(worlds) == [] ==> r == Err(Failure) && worlds == []
      ensures old(worlds) != [] ==> worlds == old(worlds)[1..]
      ensures old(worlds) != [] ==> r == match FindKey(db, tenant, id) case Some(row) => Ok(row) case None => Err(KeyNotFound)
    {
      if worlds == [] {
        return Err(Failure);
      }
      worlds := worlds[1..];
      match FindKey(db, tenant, id)
      case Some(row) => r := Ok(row);
      case None => r := Err(KeyNotFound);
    }

    method CreateIdentity(tenant: Id, content: Content) returns (r: Option<Id>)
      modifies `db, `worlds
      ensures r.Some? <==> old(worlds) != [] && old(worlds)[0].id !in old(db).identities
      ensures r.Some? ==> r.value == old(worlds)[0].id && db == InsertIdentity(old(db), tenant, r.value, content)
      ensures r.None? ==> db == old(db)
      ensures old(worlds) != [] ==> worlds == old(worlds)[1..]
    {
      if worlds == [] {
        return None;
      }
      var id := worlds[0].id;
      worlds := worlds[1..];
      if id in db.identities {
        return None;
      }
      db := InsertIdentity(db, tenant, id, content);
      r := Some(id);
    }

    method CreateKey(tenant: Id, identity: Id, keyType: KeyType, purpose: Purpose, keyRef: string, pair: Option<nat>)
        returns (r: Option<Id>)
      modifies `db, `worlds
      ensures r.Some? <==> old(worlds) != [] && CanInsertKey(old(db), strict, old(worlds)[0].id, identity, purpose)
      ensures r.Some? ==> r.value == old(worlds)[0].id && db == InsertKey(old(db), r.value, tenant, identity, keyType, purpose, keyRef, pair)
      ensures r.None? ==> db == old(db)
      ensures old(worlds) != [] ==> worlds == old(worlds)[1..]
    {
      if worlds == [] {
        return None;
      }
      var id := worlds[0].id;
      worlds := worlds[1..];
      if !CanInsertKey(db, strict, id, identity, purpose) {
        return None;
      }
      db := InsertKey(db, id, tenant, identity, keyType, purpose, keyRef, pair);
      r := Some(id);
    }

    /** A statement that changes the rows its WHERE clause matches, if any, and reports no count. */
    method Write(stmt: Stmt) returns (ok: bool)
      modifies `db, `worlds
      ensures ok <==> old(worlds) != []
      ensures ok ==> db == Apply(old(db), stmt) && worlds == old(worlds)[1..]
      ensures !ok ==> db == old(db)
    {
      ok := worlds != [];
      if ok {
        db := Apply(db, stmt);
        worlds := worlds[1..];
      }
    }

    method UpdateStatus(tenant: Id, id: Id, status: Status) returns (ok: bool)
      modifies `db, `worlds
      ensures ok <==> old(worlds) != []
      ensures ok ==> db == Directory.UpdateStatus(old(db), tenant, id, status, old(worlds)[0].now) && worlds == old(worlds)[1..]
      ensures !ok ==> db == old(db)
    {
      ok := worlds != [];
      if ok {
        db := Directory.UpdateStatus(db, tenant, id, status, worlds[0].now);
        worlds := worlds[1..];
      }
    }

    /** The optimistic lock: no row matched means a version conflict. */
    method UpdateContent(tenant: Id, id: Id, content: Content, version: int) returns (r: Outcome)
      modifies `db, `worlds
      ensures r == (if old(worlds) == [] then Failure else if VersionMatches(old(db), tenant, id, version) then Success else VersionConflict)
      ensures db == if r == Success then Directory.UpdateContent(old(db), tenant, id, content, version) else old(db)
    {
      if worlds == [] {
        return Failure;
      }
      worlds := worlds[1..];
      if !VersionMatches(db, tenant, id, version) {
        return VersionConflict;
      }
      db := Directory.UpdateContent(db, tenant, id, content, version);
      r := Success;
    }

    /** The crypto service: a new pair, its private half stored under the slot's reference. */
    method GeneratePair(slot: Slot) returns (r: Option<nat>)
      modifies `db, `worlds
      ensures r.Some? <==> old(worlds) != [] && Storable(slot)
      ensures r.Some? ==> r.value == old(db).pairs && db == Generate(old(db), slot)
      ensures r.None? ==> db == old(db)
      ensures old(worlds) != [] ==> worlds == old(worlds)[1..]
    {
      if worlds == [] {
        return None;
      }
      worlds := worlds[1..];
      if KeyId(slot) == "" {
        return None;
      }
      r := Some(db.pairs);
      db := Generate(db, slot);
    }
  }

  // ---------- Services ----------

  class IdentityService {
    const repos: Repositories

    constructor (repos: Repositories)
      ensures this.repos == repos
    {
      this.repos := repos;
    }

    method CreateIdentity(tenant: Id, content: Content) returns (r: Outcome)
      requires repos.Valid()
      modifies repos
      ensures repos.Valid()
      ensures var end := Solo(old(repos.db), repos.strict, Creating(tenant, CrInsert(content)), old(repos.worlds));
              repos.db == end.0 && r == ResultOf(end.1)
    {
      hide Ref, KeyId, CanInsertKey, InsertIdentity, InsertKey, Generate, Append, ReachableDb, Solo;
      hide PlanChange, PlanUpdate, PlanGenerate, PlanRotate, PlanRevoke, PlanRegister;
      SoleCall(repos.db, repos.strict, Creating(tenant, CrInsert(content)), repos.worlds);
      Unroll(repos.db, repos.strict, Creating(tenant, CrInsert(content)), repos.worlds);
      var created := repos.CreateIdentity(tenant, content);
      if created.None? {
        return Failure;
      }
      var id := created.value;
      Unroll(repos.db, repos.strict, Creating(tenant, CrPair(id)), repos.worlds);
      var pair := repos.GeneratePair(Initial(id));
      if pair.None? {
        return Failure;
      }
      Unroll(repos.db, repos.strict, Creating(tenant, CrKey(id, pair.value)), repos.worlds);
      var key := repos.CreateKey(tenant, id, Ed25519, Signing, Ref(Initial(id)), pair);
      if key.None? {
        return Failure;
      }
      r := Activate(tenant, id, key.value);
    }

    /** The second half of CreateIdentity: set the primary key, activate, record. */
    method Activate(tenant: Id, id: Id, key: Id) returns (r: Outcome)
      modifies repos
      ensures var end := Solo(old(repos.db), repos.strict, Creating(tenant, CrPrimary(id, key)), old(repos.worlds));
              repos.db == end.0 && r == ResultOf(end.1)
    {
      hide Directory.UpdateStatus, SetPrimaryKey, Append, Solo;
      hide PlanChange, PlanUpdate, PlanGenerate, PlanRotate, PlanRevoke, PlanRegister;
      Unroll(repos.db, repos.strict, Creating(tenant, CrPrimary(id, key)), repos.worlds);
      var ok := repos.Write(NewPrimary(tenant, id, key));
      if !ok {
        return Failure;
      }
      Unroll(repos.db, repos.strict, Creating(tenant, CrActivate(id)), repos.worlds);
      ok := repos.UpdateStatus(tenant, id, Active);
      if !ok {
        return Failure;
      }
      Unroll(repos.db, repos.strict, Creating(tenant, CrAudit(id)), repos.worlds);
      ok := repos.Write(Audit(AuditEvent(tenant, Blank, OfIdentity, id)));
      r := if ok then Success else Failure;
    }

    /** SuspendIdentity, ReactivateIdentity and DeactivateIdentity. */
    method ChangeStatus(tenant: Id, id: Id, target: Target) returns (r: Outcome)
      requires repos.Valid()
      modifies repos
      ensures repos.Valid()
      ensures var end := Solo(old(repos.db), repos.strict, Changing(tenant, id, target, StGuard), old(repos.worlds));
              repos.db == end.0 && r == ResultOf(end.1)
    {
      hide Directory.UpdateStatus, Directory.UpdateContent, VersionMatches, MarkRevoked, Append, ReachableDb, Solo;
      hide PlanCreate, PlanUpdate, PlanGenerate, PlanRotate, PlanRevoke, PlanRegister;
      SoleCall(repos.db, repos.strict, Changing(tenant, id, target, StGuard), repos.worlds);
      Unroll(repos.db, repos.strict, Changing(tenant, id, target, StGuard), repos.worlds);
      var row := repos.GetIdentity(tenant, id);
      if row.Err? {
        return row.error;
      }
      if row.value.status.IsTerminal() {
        return IdentityTerminal;
      }
      Unroll(repos.db, repos.strict, Changing(tenant, id, target, StWrite), repos.worlds);
      var ok := repos.UpdateStatus(tenant, id, target.Status());
      if !ok {
        return Failure;
      }
      Unroll(repos.db, repos.strict, Changing(tenant, id, target, StAudit), repos.worlds);
      ok := repos.Write(Audit(AuditEvent(tenant, target.Event(), OfIdentity, id)));
      r := if ok then Success else Failure;
    }

    method UpdateIdentity(tenant: Id, id: Id, content: Content, version: int) returns (r: Outcome)
      requires repos.Valid()
      modifies repos
      ensures repos.Valid()
      ensures var end := Solo(old(repos.db), repos.strict, Updating(tenant, id, content, version, UpRead), old(repos.worlds));
              repos.db == end.0 && r == ResultOf(end.1)
    {
      hide Directory.UpdateStatus, Directory.UpdateContent, VersionMatches, MarkRevoked, Append, ReachableDb, Solo;
      hide PlanCreate, PlanChange, PlanGenerate, PlanRotate, PlanRevoke, PlanRegister;
      SoleCall(repos.db, repos.strict, Updating(tenant, id, content, version, UpRead), repos.worlds);
      Unroll(repos.db, repos.strict, Updating(tenant, id, content, version, UpRead), repos.worlds);
      var row := repos.GetIdentity(tenant, id);
      if row.Err? {
        return row.error;
      }
      Unroll(repos.db, repos.strict, Updating(tenant, id, content, version, UpWrite), repos.worlds);
      r := repos.UpdateContent(tenant, id, content, version);
    }
  }

  class KeyService {
    const repos: Repositories

    constructor (repos: Repositories)
      ensures this.repos == repos
    {
      this.repos := repos;
    }

    method GenerateKey(tenant: Id, id: Id, keyType: KeyType, purpose: Purpose) returns (r: Outcome)
      requires repos.Valid()
      modifies repos
      ensures repos.Valid()
      ensures var end := Solo(old(repos.db), repos.strict, Generating(tenant, id, keyType, purpose, GeRead), old(repos.worlds));
              repos.db == end.0 && r == ResultOf(end.1)
    {
      hide Ref, KeyId, CanInsertKey, InsertIdentity, InsertKey, Generate, Append, ReachableDb, Solo;
      hide PlanCreate, PlanChange, PlanUpdate, PlanRotate, PlanRevoke, PlanRegister;
      SoleCall(repos.db, repos.strict, Generating(tenant, id, keyType, purpose, GeRead), repos.worlds);
      Unroll(repos.db, repos.strict, Generating(tenant, id, keyType, purpose, GeRead), repos.worlds);
      var row := repos.GetIdentity(tenant, id);
      if row.Err? {
        return row.error;
      }
      if row.value.status != Active {
        return IdentityInactive;
      }
      if !keyType.Supported() {
        return BadKeyType;
      }
      r := StoreNewKey(tenant, id, keyType, purpose);
    }

    /** The second half of GenerateKey: make the pair, insert the key, record. */
    method StoreNewKey(tenant: Id, id: Id, keyType: KeyType, purpose: Purpose) returns (r: Outcome)
      modifies repos
      ensures var end := Solo(old(repos.db), repos.strict, Generating(tenant, id, keyType, purpose, GePair), old(repos.worlds));
              repos.db == end.0 && r == ResultOf(end.1)
    {
      hide Ref, KeyId, CanInsertKey, InsertKey, Generate, Append, Solo;
      hide PlanCreate, PlanChange, PlanUpdate, PlanRotate, PlanRevoke, PlanRegister;
      var slot := Typed(tenant, id, keyType);
      Unroll(repos.db, repos.strict, Generating(tenant, id, keyType, purpose, GePair), repos.worlds);
      var pair := repos.GeneratePair(slot);
      if pair.None? {
        return Failure;
      }
      Unroll(repos.db, repos.strict, Generating(tenant, id, keyType, purpose, GeKey(pair.value)), repos.worlds);
      var key := repos.CreateKey(tenant, id, keyType, purpose, Ref(slot), pair);
      if key.None? {
        return Failure;
      }
      Unroll(repos.db, repos.strict, Generating(tenant, id, keyType, purpose, GeAudit(key.value)), repos.worlds);
      var ok := repos.Write(Audit(AuditEvent(tenant, KeyCreated, OfKey, key.value)));
      r := if ok then Success else Failure;
    }

    method RotateKey(tenant: Id, id: Id, prior: Id) returns (r: Outcome)
      requires repos.Valid()
      modifies repos
      ensures repos.Valid()
      ensures var end := Solo(old(repos.db), repos.strict, Rotating(tenant, id, prior, RoRead), old(repos.worlds));
              repos.db == end.0 && r == ResultOf(end.1)
    {
      hide Ref, KeyId, CanInsertKey, InsertIdentity, InsertKey, Generate, Append, ReachableDb, Solo;
      hide PlanCreate, PlanChange, PlanUpdate, PlanGenerate, PlanRevoke, PlanRegister;
      SoleCall(repos.db, repos.strict, Rotating(tenant, id, prior, RoRead), repos.worlds);
      Unroll(repos.db, repos.strict, Rotating(tenant, id, prior, RoRead), repos.worlds);
      var k := repos.GetKey(tenant, prior);
      if k.Err? {
        return k.error;
      }
      if !k.value.status.IsTrusted() {
        return KeyNotUsable;
      }
      if !k.value.keyType.Supported() {
        return BadKeyType;
      }
      r := StoreRotated(tenant, id, prior, k.value.keyType, k.value.purpose);
    }

    /** The middle of RotateKey: make the pair and insert the key. */
    method StoreRotated(tenant: Id, id: Id, prior: Id, keyType: KeyType, purpose: Purpose) returns (r: Outcome)
      modifies repos
      ensures var end := Solo(old(repos.db), repos.strict, Rotating(tenant, id, prior, RoPair(keyType, purpose)), old(repos.worlds));
              repos.db == end.0 && r == ResultOf(end.1)
    {
      hide Ref, KeyId, CanInsertKey, InsertKey, Generate, Append, Solo;
      hide PlanCreate, PlanChange, PlanUpdate, PlanGenerate, PlanRevoke, PlanRegister;
      var slot := Typed(tenant, id, keyType);
      Unroll(repos.db, repos.strict, Rotating(tenant, id, prior, RoPair(keyType, purpose)), repos.worlds);
      var pair := repos.GeneratePair(slot);
      if pair.None? {
        return Failure;
      }
      Unroll(repos.db, repos.strict, Rotating(tenant, id, prior, RoKey(keyType, purpose, pair.value)), repos.worlds);
      var key := repos.CreateKey(tenant, id, keyType, purpose, Ref(slot), pair);
      if key.None? {
        return Failure;
      }
      r := MarkAndMove(tenant, id, prior, key.value);
    }

    /** The end of RotateKey: retire the prior key, follow the primary pointer, record. */
    method MarkAndMove(tenant: Id, id: Id, prior: Id, key: Id) returns (r: Outcome)
      modifies repos
      ensures var end := Solo(old(repos.db), repos.strict, Rotating(tenant, id, prior, RoMark(key)), old(repos.worlds));
              repos.db == end.0 && r == ResultOf(end.1)
    {
      hide MarkRotated, SetPrimaryKey, Append, Solo;
      hide PlanCreate, PlanChange, PlanUpdate, PlanGenerate, PlanRevoke, PlanRegister;
      Unroll(repos.db, repos.strict, Rotating(tenant, id, prior, RoMark(key)), repos.worlds);
      var ok := repos.Write(Rotate(tenant, prior, key));
      if !ok {
        return Failure;
      }
      Unroll(repos.db, repos.strict, Rotating(tenant, id, prior, RoIdentity(key)), repos.worlds);
      var row := repos.GetIdentity(tenant, id);
      if row.Err? {
        return row.error;
      }
      if row.value.primaryKey == Some(prior) {
        Unroll(repos.db, repos.strict, Rotating(tenant, id, prior, RoPrimary(key)), repos.worlds);
        ok := repos.Write(NewPrimary(tenant, id, key));
        if !ok {
          return Failure;
        }
      }
      Unroll(repos.db, repos.strict, Rotating(tenant, id, prior, RoAudit(key)), repos.worlds);
      ok := repos.Write(Audit(AuditEvent(tenant, KeyRotated, OfKey, key)));
      r := if ok then Success else Failure;
    }

    method RevokeKey(tenant: Id, key: Id) returns (r: Outcome)
      requires repos.Valid()
      modifies repos
      ensures repos.Valid()
      ensures var end := Solo(old(repos.db), repos.strict, Revoking(tenant, key, RvRead), old(repos.worlds));
              repos.db == end.0 && r == ResultOf(end.1)
    {
      hide Directory.UpdateStatus, Directory.UpdateContent, VersionMatches, MarkRevoked, Append, ReachableDb, Solo;
      hide PlanCreate, PlanChange, PlanUpdate, PlanGenerate, PlanRotate, PlanRegister;
      SoleCall(repos.db, repos.strict, Revoking(tenant, key, RvRead), repos.worlds);
      Unroll(repos.db, repos.strict, Revoking(tenant, key, RvRead), repos.worlds);
      var k := repos.GetKey(tenant, key);
      if k.Err? {
        return k.error;
      }
      Unroll(repos.db, repos.strict, Revoking(tenant, key, RvMark), repos.worlds);
      var ok := repos.Write(Revoke(tenant, key));
      if !ok {
        return Failure;
      }
      Unroll(repos.db, repos.strict, Revoking(tenant, key, RvAudit), repos.worlds);
      ok := repos.Write(Audit(AuditEvent(tenant, KeyRevoked, OfKey, key)));
      r := if ok then Success else Failure;
    }
  }
}
