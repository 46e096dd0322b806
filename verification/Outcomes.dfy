/**
 What each service call answers and leaves behind, on its own and for every point at which the
 database may fail it, stated on the rows it finds. worlds[k] is what the database supplies to the
 call's statement k; a call with too few of them fails at the first it lacks.
 */
module Outcomes {
  import opened Basics
  import opened Directory
  import opened Services

  /** UpdateIdentity: the optimistic lock decides, and nothing but a success changes anything. */
  lemma UpdateOutcome(db: Db, strict: bool, tenant: Id, id: Id, content: Content, version: int, worlds: seq<World>)
    ensures var end := Solo(db, strict, Updating(tenant, id, content, version, UpRead), worlds);
            var r, n := ResultOf(end.1), |worlds|;
            var found := id in db.identities && db.identities[id].tenant == tenant;
            && (r == NotFound <==> n >= 1 && !found)
            && (r == Success <==> n >= 2 && found && db.identities[id].version == version)
            && (r == VersionConflict <==> n >= 2 && found && db.identities[id].version != version)
            && (r == Failure <==> n == 0 || (n == 1 && found))
            && (r != Success ==> end.0 == db)
            && (r == Success ==>
                  var row := db.identities[id];
                  && end.0.identities == db.identities[id := Identity(tenant, content, row.status, row.primaryKey,
                                                                      version + 1, row.deactivatedAt)]
                  && end.0.keys == db.keys && end.0.keystore == db.keystore && end.0.log == db.log)
  {
    hide PlanCreate, PlanChange, PlanGenerate, PlanRotate, PlanRevoke, PlanRegister, Solo;
    Unroll(db, strict, Updating(tenant, id, content, version, UpRead), worlds);
    if worlds != [] {
      Unroll(db, strict, Updating(tenant, id, content, version, UpWrite), worlds[1..]);
    }
  }

  /** Suspend, Reactivate and Deactivate: a terminal identity is refused, every other is changed. */
  lemma StatusOutcome(db: Db, strict: bool, tenant: Id, id: Id, target: Target, worlds: seq<World>)
    ensures var end := Solo(db, strict, Changing(tenant, id, target, StGuard), worlds);
            var r, n := ResultOf(end.1), |worlds|;
            var found := id in db.identities && db.identities[id].tenant == tenant;
            var terminal := found && (db.identities[id].status == Deactivated || db.identities[id].status == Archived);
            && (r == NotFound <==> n >= 1 && !found)
            && (r == IdentityTerminal <==> n >= 1 && terminal)
            && (r == Success <==> n >= 3 && found && !terminal)
            && (r == Failure <==> n == 0 || (n <= 2 && found && !terminal))
            && end.0.keys == db.keys && end.0.keystore == db.keystore
            && (n <= 1 || !found || terminal ==> end.0 == db)
            && (n >= 2 && found && !terminal ==>
                  var row := db.identities[id];
                  var (status, kind) :=
                    if target == Suspend then (Suspended, ToSuspended)
                    else if target == Reactivate then (Active, ToActive) else (Deactivated, ToDeactivated);
                  var at := if target == Deactivate then Some(worlds[1].now) else row.deactivatedAt;
                  && end.0.identities == db.identities[id := row.(status := status, deactivatedAt := at)]
                  && end.0.log == if n == 2 then db.log else db.log + [AuditEvent(tenant, kind, OfIdentity, id)])
  {
    hide PlanCreate, PlanUpdate, PlanGenerate, PlanRotate, PlanRevoke, PlanRegister, Solo;
    Unroll(db, strict, Changing(tenant, id, target, StGuard), worlds);
    if |worlds| >= 1 && id in db.identities && db.identities[id].tenant == tenant {
      StatusRest(db, strict, tenant, id, target, worlds[1..]);
    }
  }

  /** A status call past its guard. */
  lemma StatusRest(db: Db, strict: bool, tenant: Id, id: Id, target: Target, worlds: seq<World>)
    requires id in db.identities && db.identities[id].tenant == tenant
    ensures var end := Solo(db, strict, Changing(tenant, id, target, StWrite), worlds);
            var n, row := |worlds|, db.identities[id];
            var (status, kind) :=
              if target == Suspend then (Suspended, ToSuspended)
              else if target == Reactivate then (Active, ToActive) else (Deactivated, ToDeactivated);
            && ResultOf(end.1) == (if n >= 2 then Success else Failure)
            && end.0.keys == db.keys && end.0.keystore == db.keystore
            && (n == 0 ==> end.0 == db)
            && (n >= 1 ==>
                  var at := if target == Deactivate then Some(worlds[0].now) else row.deactivatedAt;
                  end.0.identities == db.identities[id := row.(status := status, deactivatedAt := at)])
            && end.0.log == if n >= 2 then db.log + [AuditEvent(tenant, kind, OfIdentity, id)] else db.log
  {
    hide PlanCreate, PlanUpdate, PlanGenerate, PlanRotate, PlanRevoke, PlanRegister, Solo;
    Unroll(db, strict, Changing(tenant, id, target, StWrite), worlds);
    if |worlds| >= 1 {
      var db' := UpdateStatus(db, tenant, id, target.Status(), worlds[0].now);
      Unroll(db', strict, Changing(tenant, id, target, StAudit), worlds[1..]);
    }
  }

  /** RevokeKey: any key of the tenant, whatever its status, ends up revoked. */
  lemma RevokeOutcome(db: Db, strict: bool, tenant: Id, key: Id, worlds: seq<World>)
    ensures var end := Solo(db, strict, Revoking(tenant, key, RvRead), worlds);
            var r, n := ResultOf(end.1), |worlds|;
            var found := key in db.keys && db.keys[key].tenant == tenant;
            && (r == KeyNotFound <==> n >= 1 && !found)
            && (r == Success <==> n >= 3 && found)
            && (r == Failure <==> n == 0 || (n <= 2 && found))
            && end.0.identities == db.identities && end.0.keystore == db.keystore
            && (n <= 1 || !found ==> end.0 == db)
            && (n >= 2 && found ==>
                  && end.0.keys == db.keys[key := db.keys[key].(status := Revoked)]
                  && end.0.log == if n == 2 then db.log else db.log + [AuditEvent(tenant, KeyRevoked, OfKey, key)])
  {
    hide PlanCreate, PlanChange, PlanUpdate, PlanGenerate, PlanRotate, PlanRegister, Solo;
    Unroll(db, strict, Revoking(tenant, key, RvRead), worlds);
    if |worlds| >= 1 {
      Unroll(db, strict, Revoking(tenant, key, RvMark), worlds[1..]);
      if |worlds| >= 2 {
        Unroll(MarkRevoked(db, tenant, key), strict, Revoking(tenant, key, RvAudit), worlds[1..][1..]);
      }
    }
  }

  /** No key blocks the insertion: a new id and, with the unique index on, no key in use for the purpose. */
  ghost predicate Insertable(db: Db, strict: bool, key: Id, identity: Id, purpose: Purpose) {
    && key !in db.keys
    && (strict ==> forall k :: k in db.keys ==>
          !(db.keys[k].identity == identity && db.keys[k].purpose == purpose && db.keys[k].status == InUse))
  }

  lemma CanInsert(db: Db, strict: bool, key: Id, identity: Id, purpose: Purpose)
    requires identity in db.identities
    ensures CanInsertKey(db, strict, key, identity, purpose) <==> Insertable(db, strict, key, identity, purpose)
  {
  }

  lemma RefText(tenant: Id, id: Id, keyType: KeyType)
    requires keyType == Ed25519 || keyType == EcdsaP256
    ensures Ref(Typed(tenant, id, keyType))
            == "local://" + (tenant + "/" + id + "/" + (if keyType == Ed25519 then "ed25519" else "ecdsa_p256"))
  {
  }

  /** GenerateKey: only an active identity, only the two supported types, only where the index permits. */
  lemma GenerateOutcome(db: Db, strict: bool, tenant: Id, id: Id, keyType: KeyType, purpose: Purpose,
                        worlds: seq<World>)
    ensures var end := Solo(db, strict, Generating(tenant, id, keyType, purpose, GeRead), worlds);
            var r, n := ResultOf(end.1), |worlds|;
            var found := id in db.identities && db.identities[id].tenant == tenant;
            var active := found && db.identities[id].status == Active;
            var known := keyType == Ed25519 || keyType == EcdsaP256;
            var name := if keyType == Ed25519 then "ed25519" else "ecdsa_p256";
            var ref := "local://" + (tenant + "/" + id + "/" + name);
            && (r == NotFound <==> n >= 1 && !found)
            && (r == IdentityInactive <==> n >= 1 && found && !active)
            && (r == BadKeyType <==> n >= 1 && active && !known)
            && (r == Success <==> n >= 4 && active && known && Insertable(db, strict, worlds[2].id, id, purpose))
            && end.0.identities == db.identities
            && (n <= 1 || !active || !known ==> end.0 == db)
            && (n >= 2 && active && known ==> end.0.keystore == db.keystore[ref := db.pairs])
            && (r != Success ==> end.0.log == db.log)
            && (r == Success ==>
                  var key := Key(id, tenant, keyType, purpose, ref, Some(db.pairs), InUse, None, |db.keys|);
                  && end.0.keys == db.keys[worlds[2].id := key]
                  && end.0.log == db.log + [AuditEvent(tenant, KeyCreated, OfKey, worlds[2].id)])
  {
    hide PlanCreate, PlanChange, PlanUpdate, PlanRotate, PlanRevoke, PlanRegister, Solo, Insertable;
    Unroll(db, strict, Generating(tenant, id, keyType, purpose, GeRead), worlds);
    if |worlds| >= 1 && (keyType == Ed25519 || keyType == EcdsaP256) && id in db.identities {
      RefText(tenant, id, keyType);
      hide Ref;
      GenerateRest(db, strict, tenant, id, keyType, purpose, worlds[1..]);
    }
  }

  /** GenerateKey past its guards. */
  lemma GenerateRest(db: Db, strict: bool, tenant: Id, id: Id, keyType: KeyType, purpose: Purpose, worlds: seq<World>)
    requires id in db.identities
    ensures var end := Solo(db, strict, Generating(tenant, id, keyType, purpose, GePair), worlds);
            var r, n, ref := ResultOf(end.1), |worlds|, Ref(Typed(tenant, id, keyType));
            && (r == Success || r == Failure)
            && (r == Success <==> n >= 3 && Insertable(db, strict, worlds[1].id, id, purpose))
            && end.0.identities == db.identities
            && (n == 0 ==> end.0 == db)
            && (n >= 1 ==> end.0.keystore == db.keystore[ref := db.pairs])
            && (r != Success ==> end.0.log == db.log)
            && (r == Success ==>
                  var key := Key(id, tenant, keyType, purpose, ref, Some(db.pairs), InUse, None, |db.keys|);
                  && end.0.keys == db.keys[worlds[1].id := key]
                  && end.0.log == db.log + [AuditEvent(tenant, KeyCreated, OfKey, worlds[1].id)])
  {
    hide PlanCreate, PlanChange, PlanUpdate, PlanRotate, PlanRevoke, PlanRegister, Solo, CanInsertKey, Ref, Insertable;
    Unroll(db, strict, Generating(tenant, id, keyType, purpose, GePair), worlds);
    if |worlds| >= 1 {
      var d1, w1 := Generate(db, Typed(tenant, id, keyType)), worlds[1..];
      Unroll(d1, strict, Generating(tenant, id, keyType, purpose, GeKey(db.pairs)), w1);
      if |w1| >= 1 {
        var key := w1[0].id;
        SameInsertable(db, d1, strict, key, id, purpose);
        var d2 := InsertKey(d1, key, tenant, id, keyType, purpose, Ref(Typed(tenant, id, keyType)), Some(db.pairs));
        Unroll(d2, strict, Generating(tenant, id, keyType, purpose, GeAudit(key)), w1[1..]);
      }
    }
  }

  lemma SameInsertable(db: Db, db': Db, strict: bool, key: Id, identity: Id, purpose: Purpose)
    requires db'.keys == db.keys && identity in db'.identities
    ensures CanInsertKey(db', strict, key, identity, purpose) <==> Insertable(db, strict, key, identity, purpose)
  {
    CanInsert(db', strict, key, identity, purpose);
  }

  /** CreateIdentity: the row, its first key and both events, for a new id; the key is the primary one. */
  lemma CreateOutcome(db: Db, strict: bool, tenant: Id, content: Content, worlds: seq<World>)
    ensures var end := Solo(db, strict, Creating(tenant, CrInsert(content)), worlds);
            var r, n := ResultOf(end.1), |worlds|;
            && (r == Success || r == Failure)
            && (r == Success <==>
                  && n >= 6 && worlds[0].id !in db.identities && worlds[0].id != ""
                  && Insertable(db, strict, worlds[2].id, worlds[0].id, Signing))
            && (r == Success ==>
                  var id, key := worlds[0].id, worlds[2].id;
                  var first := Key(id, tenant, Ed25519, Signing, "local://" + id, Some(db.pairs), InUse, None, |db.keys|);
                  && end.0.identities == db.identities[id := Identity(tenant, content, Active, Some(key), 1, None)]
                  && end.0.keys == db.keys[key := first]
                  && end.0.keystore == db.keystore["local://" + id := db.pairs]
                  && end.0.log == db.log + [AuditEvent(tenant, Created, OfIdentity, id)]
                                  + [AuditEvent(tenant, Blank, OfIdentity, id)])
  {
    hide Solo, Insertable, Exec;
    CreateFirst(db, strict, tenant, content, worlds);
    if |worlds| >= 1 && worlds[0].id !in db.identities {
      var id := worlds[0].id;
      var d1 := InsertIdentity(db, tenant, id, content);
      CreateKeyed(d1, strict, tenant, id, worlds[1..]);
      var active := Identity(tenant, content, Active, if |worlds| > 2 then Some(worlds[2].id) else None, 1, None);
      assert d1.identities[id := active] == db.identities[id := active];
      FirstRef(id);
      hide Ref;
      if |worlds| >= 3 { InsertableSame(db, d1, strict, worlds[2].id, id, Signing); }
    }
  }

  /** A CreateIdentity that fails adds at most its row, in the given content, and its first event. */
  lemma CreateFailed(db: Db, strict: bool, tenant: Id, content: Content, worlds: seq<World>)
    requires ResultOf(Solo(db, strict, Creating(tenant, CrInsert(content)), worlds).1) == Failure
    ensures var db' := Solo(db, strict, Creating(tenant, CrInsert(content)), worlds).0;
            if worlds == [] || worlds[0].id in db.identities then db' == db else
              var id := worlds[0].id;
              && id in db'.identities && db'.identities == db.identities[id := db'.identities[id]]
              && db'.identities[id].content == content && db'.identities[id].tenant == tenant
              && db'.identities[id].version == 1 && db'.identities[id].deactivatedAt == None
              && db'.log == db.log + [AuditEvent(tenant, Created, OfIdentity, id)]
  {
    hide Solo, Insertable, Exec, Ref;
    CreateFirst(db, strict, tenant, content, worlds);
    if |worlds| >= 1 && worlds[0].id !in db.identities {
      var id := worlds[0].id;
      var d1 := InsertIdentity(db, tenant, id, content);
      CreateKeyed(d1, strict, tenant, id, worlds[1..]);
      var row := Solo(d1, strict, Creating(tenant, CrPair(id)), worlds[1..]).0.identities[id];
      assert d1.identities[id := row] == db.identities[id := row];
    }
  }

  lemma CreateFirst(db: Db, strict: bool, tenant: Id, content: Content, worlds: seq<World>)
    ensures var end := Solo(db, strict, Creating(tenant, CrInsert(content)), worlds);
            if worlds == [] || worlds[0].id in db.identities then end.0 == db && ResultOf(end.1) == Failure
            else
              var id := worlds[0].id;
              end == Solo(InsertIdentity(db, tenant, id, content), strict, Creating(tenant, CrPair(id)), worlds[1..])
  {
    hide PlanChange, PlanUpdate, PlanGenerate, PlanRotate, PlanRevoke, PlanRegister, Solo, InsertIdentity;
    Unroll(db, strict, Creating(tenant, CrInsert(content)), worlds);
  }

  lemma InsertableSame(db: Db, db': Db, strict: bool, key: Id, identity: Id, purpose: Purpose)
    requires db'.keys == db.keys
    ensures Insertable(db', strict, key, identity, purpose) <==> Insertable(db, strict, key, identity, purpose)
  {
  }

  /** CreateIdentity after its first statement. */
  lemma CreateKeyed(db: Db, strict: bool, tenant: Id, id: Id, worlds: seq<World>)
    requires id in db.identities && db.identities[id].tenant == tenant
    ensures var end := Solo(db, strict, Creating(tenant, CrPair(id)), worlds);
            var r, n, row := ResultOf(end.1), |worlds|, db.identities[id];
            && (r == Success || r == Failure)
            && (r == Success <==> n >= 5 && id != "" && Insertable(db, strict, worlds[1].id, id, Signing))
            && id in end.0.identities && end.0.identities == db.identities[id := end.0.identities[id]]
            && end.0.identities[id].content == row.content && end.0.identities[id].tenant == row.tenant
            && end.0.identities[id].version == row.version && end.0.identities[id].deactivatedAt == row.deactivatedAt
            && (r == Failure ==> end.0.log == db.log)
            && (r == Success ==>
                  var key := Key(id, tenant, Ed25519, Signing, Ref(Initial(id)), Some(db.pairs), InUse, None, |db.keys|);
                  && end.0.identities == db.identities[id := row.(primaryKey := Some(worlds[1].id), status := Active)]
                  && end.0.keys == db.keys[worlds[1].id := key]
                  && end.0.keystore == db.keystore[Ref(Initial(id)) := db.pairs]
                  && end.0.log == db.log + [AuditEvent(tenant, Blank, OfIdentity, id)])
  {
    hide PlanChange, PlanUpdate, PlanGenerate, PlanRotate, PlanRevoke, PlanRegister, Solo, CanInsertKey, Insertable, Ref;
    Unroll(db, strict, Creating(tenant, CrPair(id)), worlds);
    assert db.identities[id := db.identities[id]] == db.identities;
    if |worlds| >= 1 && id != "" {
      var d1 := Generate(db, Initial(id));
      Unroll(d1, strict, Creating(tenant, CrKey(id, db.pairs)), worlds[1..]);
      if |worlds| >= 2 {
        var key := worlds[1].id;
        SameInsertable(db, d1, strict, key, id, Signing);
        if Insertable(db, strict, key, id, Signing) {
          var d2 := InsertKey(d1, key, tenant, id, Ed25519, Signing, Ref(Initial(id)), Some(db.pairs));
          CreateRest(d2, strict, tenant, id, key, worlds[1..][1..]);
        }
      }
    }
  }

  lemma FirstRef(id: Id)
    ensures Ref(Initial(id)) == "local://" + id
  {
  }

  /** The last three statements of CreateIdentity. */
  lemma CreateRest(db: Db, strict: bool, tenant: Id, id: Id, key: Id, worlds: seq<World>)
    requires id in db.identities && db.identities[id].tenant == tenant
    ensures var end := Solo(db, strict, Creating(tenant, CrPrimary(id, key)), worlds);
            var n, row := |worlds|, db.identities[id];
            && ResultOf(end.1) == (if n >= 3 then Success else Failure)
            && end.0.keys == db.keys && end.0.keystore == db.keystore
            && end.0.identities == db.identities[id := row.(primaryKey := if n >= 1 then Some(key) else row.primaryKey,
                                                            status := if n >= 2 then Active else row.status)]
            && end.0.log == if n >= 3 then db.log + [AuditEvent(tenant, Blank, OfIdentity, id)] else db.log
  {
    hide PlanChange, PlanUpdate, PlanGenerate, PlanRotate, PlanRevoke, PlanRegister, Solo, CanInsertKey;
    Unroll(db, strict, Creating(tenant, CrPrimary(id, key)), worlds);
    assert db.identities[id := db.identities[id]] == db.identities;
    if |worlds| >= 1 {
      var d1, w1 := SetPrimaryKey(db, tenant, id, key), worlds[1..];
      Unroll(d1, strict, Creating(tenant, CrActivate(id)), w1);
      if |w1| >= 1 {
        var d2 := UpdateStatus(d1, tenant, id, Active, w1[0].now);
        Unroll(d2, strict, Creating(tenant, CrAudit(id)), w1[1..]);
      }
    }
  }

  /**
   RotateKey: a key in use or rotated before, of a supported type, for an identity of the tenant. A
   revoked or compromised key is refused and nothing changes; so is a key of another type.
   */
  lemma RotateOutcome(db: Db, strict: bool, tenant: Id, id: Id, prior: Id, worlds: seq<World>)
    ensures var end := Solo(db, strict, Rotating(tenant, id, prior, RoRead), worlds);
            var r, n := ResultOf(end.1), |worlds|;
            var found := prior in db.keys && db.keys[prior].tenant == tenant;
            var usable := found && (db.keys[prior].status == InUse || db.keys[prior].status == Rotated);
            var known := found && (db.keys[prior].keyType == Ed25519 || db.keys[prior].keyType == EcdsaP256);
            var there := id in db.identities && db.identities[id].tenant == tenant;
            && (r == KeyNotFound <==> n >= 1 && !found)
            && (r == KeyNotUsable <==>
                  n >= 1 && found && (db.keys[prior].status == Revoked || db.keys[prior].status == Compromised))
            && (r == BadKeyType <==> n >= 1 && usable && !known)
            && (n <= 1 || !usable || !known ==> end.0 == db)
            && (r == Success <==>
                  && usable && known && there
                  && n >= (if db.identities[id].primaryKey == Some(prior) then 7 else 6)
                  && Insertable(db, strict, worlds[2].id, id, db.keys[prior].purpose))
            && (r != Success ==> end.0.log == db.log)
            && (r == Success ==> end.0.log == db.log + [AuditEvent(tenant, KeyRotated, OfKey, worlds[2].id)])
  {
    hide PlanCreate, PlanChange, PlanUpdate, PlanGenerate, PlanRevoke, PlanRegister, Solo, CanInsertKey, Insertable, Ref;
    Unroll(db, strict, Rotating(tenant, id, prior, RoRead), worlds);
    if |worlds| >= 1 && FindKey(db, tenant, prior).Some? {
      var k := db.keys[prior];
      Unroll(db, strict, Rotating(tenant, id, prior, RoPair(k.keyType, k.purpose)), worlds[1..]);
      if |worlds| >= 2 && k.status.IsTrusted() && k.keyType.Supported() {
        var d1 := Generate(db, Typed(tenant, id, k.keyType));
        Unroll(d1, strict, Rotating(tenant, id, prior, RoKey(k.keyType, k.purpose, db.pairs)), worlds[1..][1..]);
        if |worlds| >= 3 {
          if id in db.identities { SameInsertable(db, d1, strict, worlds[2].id, id, k.purpose); }
          if CanInsertKey(d1, strict, worlds[2].id, id, k.purpose) {
            var ref := Ref(Typed(tenant, id, k.keyType));
            var d2 := InsertKey(d1, worlds[2].id, tenant, id, k.keyType, k.purpose, ref, Some(db.pairs));
            RotateRest(d2, strict, tenant, id, prior, worlds[2].id, worlds[1..][1..][1..]);
          } else {
            Missing(d1, strict, worlds[2].id, id, k.purpose);
          }
        }
      }
    }
  }

  lemma Missing(db: Db, strict: bool, key: Id, identity: Id, purpose: Purpose)
    ensures CanInsertKey(db, strict, key, identity, purpose) ==> identity in db.identities
  {
  }

  /** The statements of RotateKey after its insertion. */
  lemma RotateRest(db: Db, strict: bool, tenant: Id, id: Id, prior: Id, key: Id, worlds: seq<World>)
    ensures var end := Solo(db, strict, Rotating(tenant, id, prior, RoMark(key)), worlds);
            var r, n := ResultOf(end.1), |worlds|;
            var there := id in db.identities && db.identities[id].tenant == tenant;
            && (r == Success || r == Failure || r == NotFound)
            && (r == Success <==> there && n >= (if db.identities[id].primaryKey == Some(prior) then 4 else 3))
            && end.0.log == if r == Success then db.log + [AuditEvent(tenant, KeyRotated, OfKey, key)] else db.log
  {
    hide PlanCreate, PlanChange, PlanUpdate, PlanGenerate, PlanRevoke, PlanRegister, Solo;
    Unroll(db, strict, Rotating(tenant, id, prior, RoMark(key)), worlds);
    if |worlds| >= 1 {
      var d1 := MarkRotated(db, tenant, prior, key);
      assert d1.identities == db.identities && d1.log == db.log;
      hide MarkRotated;
      RotateEnd(d1, strict, tenant, id, prior, key, worlds[1..]);
    }
  }

  lemma RotateEnd(db: Db, strict: bool, tenant: Id, id: Id, prior: Id, key: Id, worlds: seq<World>)
    ensures var end := Solo(db, strict, Rotating(tenant, id, prior, RoIdentity(key)), worlds);
            var r, n := ResultOf(end.1), |worlds|;
            var there := id in db.identities && db.identities[id].tenant == tenant;
            && (r == Success || r == Failure || r == NotFound)
            && (r == Success <==> there && n >= (if db.identities[id].primaryKey == Some(prior) then 3 else 2))
            && end.0.log == if r == Success then db.log + [AuditEvent(tenant, KeyRotated, OfKey, key)] else db.log
  {
    hide PlanCreate, PlanChange, PlanUpdate, PlanGenerate, PlanRevoke, PlanRegister, Solo;
    Unroll(db, strict, Rotating(tenant, id, prior, RoIdentity(key)), worlds);
    if |worlds| >= 1 && FindIdentity(db, tenant, id).Some? {
      var w1 := worlds[1..];
      if db.identities[id].primaryKey == Some(prior) {
        Unroll(db, strict, Rotating(tenant, id, prior, RoPrimary(key)), w1);
        if |w1| >= 1 {
          Unroll(SetPrimaryKey(db, tenant, id, key), strict, Rotating(tenant, id, prior, RoAudit(key)), w1[1..]);
        }
      } else {
        Unroll(db, strict, Rotating(tenant, id, prior, RoAudit(key)), w1);
      }
    }
  }

  /**
   FinishRegistration after its checks: a P-256 authentication key without a server-held half, made
   primary exactly if the identity had none; only the audit event may fail without failing the call.
   */
  lemma RegisterOutcome(db: Db, strict: bool, tenant: Id, id: Id, worlds: seq<World>)
    ensures var end := Solo(db, strict, Registering(tenant, id, FrRead), worlds);
            var r, n := ResultOf(end.1), |worlds|;
            var found := id in db.identities && db.identities[id].tenant == tenant;
            && (r == NotFound <==> n >= 1 && !found)
            && (r == Success <==>
                  && found && n >= (if db.identities[id].primaryKey == None then 4 else 3)
                  && Insertable(db, strict, worlds[1].id, id, Authentication))
            && end.0.keystore == db.keystore
            && (r == Success ==>
                  var row := db.identities[id];
                  var primary := if row.primaryKey == None then Some(worlds[1].id) else row.primaryKey;
                  var key := Key(id, tenant, EcdsaP256, Authentication, "", None, InUse, None, |db.keys|);
                  && end.0.keys == db.keys[worlds[1].id := key]
                  && end.0.identities == db.identities[id := row.(primaryKey := primary)])
  {
    hide PlanCreate, PlanChange, PlanUpdate, PlanGenerate, PlanRotate, PlanRevoke, Solo, CanInsertKey, Insertable;
    Unroll(db, strict, Registering(tenant, id, FrRead), worlds);
    if |worlds| >= 1 && FindIdentity(db, tenant, id).Some? {
      var has := db.identities[id].primaryKey.Some?;
      var w1 := worlds[1..];
      Unroll(db, strict, Registering(tenant, id, FrKey(has)), w1);
      if |w1| >= 1 {
        var key := w1[0].id;
        SameInsertable(db, db, strict, key, id, Authentication);
        var d1 := InsertKey(db, key, tenant, id, EcdsaP256, Authentication, "", None);
        if has {
          assert db.identities[id := db.identities[id].(primaryKey := db.identities[id].primaryKey)] == db.identities;
          RegisterRest(d1, strict, tenant, id, w1[1..]);
        } else {
          Unroll(d1, strict, Registering(tenant, id, FrPrimary(key)), w1[1..]);
          if |w1| >= 2 { RegisterRest(SetPrimaryKey(d1, tenant, id, key), strict, tenant, id, w1[1..][1..]); }
        }
      }
    }
  }

  lemma RegisterRest(db: Db, strict: bool, tenant: Id, id: Id, worlds: seq<World>)
    ensures var end := Solo(db, strict, Registering(tenant, id, FrCredential), worlds);
            && ResultOf(end.1) == (if |worlds| >= 1 then Success else Failure)
            && end.0.keys == db.keys && end.0.identities == db.identities && end.0.keystore == db.keystore
  {
    hide PlanCreate, PlanChange, PlanUpdate, PlanGenerate, PlanRotate, PlanRevoke, Solo, CanInsertKey;
    Unroll(db, strict, Registering(tenant, id, FrCredential), worlds);
    if |worlds| >= 1 { Unroll(db, strict, Registering(tenant, id, FrAudit(worlds[0].id)), worlds[1..]); }
  }
}
