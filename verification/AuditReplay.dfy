/**
 The audit log as a record of the lifecycle. The log only grows at its end; and in every run in
 which a status write is followed by its own audit event before the next status write of the same
 identity, and no call stops between the two, folding an identity's events gives its stored status.
 */
module AuditReplay {
  import opened Basics
  import opened Directory
  import opened KeyRing
  import opened Lifecycle

  /** What a lifecycle event says the status became; CreateIdentity's activation event has a blank type. */
  function Told(kind: EventType): Option<Status> {
    match kind
    case Created => Some(Pending)
    case Blank => Some(Active)
    case ToActive => Some(Active)
    case ToSuspended => Some(Suspended)
    case ToDeactivated => Some(Deactivated)
    case _ => None
  }

  function Fold(log: seq<AuditEvent>, id: Id): Option<Status> {
    if log == [] then None else
      var e := log[|log| - 1];
      if e.entity == OfIdentity && e.entityId == id && Told(e.kind).Some? then Told(e.kind) else Fold(log[..|log| - 1], id)
  }

  lemma FoldLast(log: seq<AuditEvent>, e: AuditEvent, id: Id)
    ensures Fold(log + [e], id)
            == if e.entity == OfIdentity && e.entityId == id && Told(e.kind).Some? then Told(e.kind) else Fold(log, id)
  {
    assert (log + [e])[..|log|] == log;
  }

  // ---------- Append only ----------

  lemma ApplyLog(db: Db, stmt: Stmt)
    ensures Apply(db, stmt).log
            == match stmt
               case NewIdentity(tenant, id, _) => db.log + [AuditEvent(tenant, Created, OfIdentity, id)]
               case Audit(event) => db.log + [event]
               case _ => db.log
  {
    hide Ref;
  }

  /** No statement of any call, in any interleaving, removes or changes an event already written. */
  lemma {:induction false} LogOnlyGrows(s: Sys, strict: bool, acts: seq<Action>)
    requires After(s, strict, acts).Some?
    ensures s.db.log <= After(s, strict, acts).value.db.log
    decreases |acts|
  {
    if acts != [] {
      hide Apply, Plan;
      var a := acts[0];
      if a.Do? { ApplyLog(s.db, Plan(s.db, strict, s.calls[a.t], a.w).0); }
      LogOnlyGrows(Next(s, strict, a), strict, acts[1..]);
    }
  }

  // ---------- Orderly runs ----------

  /** The status this call has written and not yet recorded. */
  predicate Owes(pc: Pc, id: Id) {
    (pc.Changing? && pc.s == StAudit && pc.id == id) || (pc.Creating? && pc.c == CrAudit(id))
  }

  function Owed(pc: Pc): Status
    requires exists id :: Owes(pc, id)
  {
    if pc.Changing? then pc.target.Status() else Active
  }

  predicate WritesStatus(pc: Pc, id: Id) {
    (pc.Changing? && pc.s == StWrite && pc.id == id) || (pc.Creating? && pc.c == CrActivate(id))
  }

  ghost predicate Orderly(s: Sys, a: Action)
    requires Enabled(s, a)
  {
    match a
    case Begin(_, _) => true
    case Do(t, _) => forall id, u :: u in s.calls && WritesStatus(s.calls[t], id) ==> !Owes(s.calls[u], id)
    case Drop(t) => forall id :: !Owes(s.calls[t], id)
  }

  ghost predicate OrderlyRun(s: Sys, strict: bool, acts: seq<Action>)
    decreases |acts|
  {
    acts == [] || (Enabled(s, acts[0]) && Orderly(s, acts[0]) && OrderlyRun(Next(s, strict, acts[0]), strict, acts[1..]))
  }

  /** Calls that do not overlap are orderly, as long as none is dropped between its status write and its audit event. */
  lemma LoneOrderly(s: Sys, t: nat, w: World)
    requires t in s.calls && forall u :: u in s.calls && u != t ==> s.calls[u].Finished?
    ensures Orderly(s, Do(t, w))
  {
  }

  // ---------- The invariant ----------

  ghost predicate OnRecord(s: Sys, id: Id) {
    forall t :: t in s.calls ==> !Owes(s.calls[t], id)
  }

  ghost predicate LogOk(s: Sys) {
    && (forall id, t :: id in s.db.identities && t in s.calls && Owes(s.calls[t], id) ==> s.db.identities[id].status == Owed(s.calls[t]))
    && (forall id :: id in s.db.identities && OnRecord(s, id) ==> Fold(s.db.log, id) == Some(s.db.identities[id].status))
  }

  /** A call comes to owe an event exactly by writing the status the event will tell; no other statement changes a status. */
  lemma PlanOwes(db: Db, strict: bool, pc: Pc, w: World, id: Id)
    requires Anchored(db, pc) && id in db.identities
    ensures var (stmt, pc') := Plan(db, strict, pc, w);
            && id in Apply(db, stmt).identities
            && (Owes(pc', id) <==> WritesStatus(pc, id))
            && (WritesStatus(pc, id) ==> Apply(db, stmt).identities[id].status == Owed(pc'))
            && (!WritesStatus(pc, id) ==> Apply(db, stmt).identities[id].status == db.identities[id].status)
  {
    hide Plan, Apply;
    if pc.Creating? {
      CreateOwes(db, strict, pc, w, id);
    } else if pc.Changing? {
      ChangeOwes(db, strict, pc, w, id);
    } else {
      PlanOther(db, strict, pc, w);
      StatusKept(db, Plan(db, strict, pc, w).0, id);
    }
  }

  lemma CreateOwes(db: Db, strict: bool, pc: Pc, w: World, id: Id)
    requires pc.Creating? && Anchored(db, pc) && id in db.identities
    ensures var (stmt, pc') := Plan(db, strict, pc, w);
            && id in Apply(db, stmt).identities
            && (Owes(pc', id) <==> WritesStatus(pc, id))
            && Apply(db, stmt).identities[id].status == if WritesStatus(pc, id) then Owed(pc') else db.identities[id].status
  {
    hide Ref, CanInsertKey, InsertKey, Generate;
    hide PlanChange, PlanUpdate, PlanGenerate, PlanRotate, PlanRevoke, PlanRegister;
    SameIdentities(db, Plan(db, strict, pc, w).0);
  }

  lemma ChangeOwes(db: Db, strict: bool, pc: Pc, w: World, id: Id)
    requires pc.Changing? && Anchored(db, pc) && id in db.identities
    ensures var (stmt, pc') := Plan(db, strict, pc, w);
            && id in Apply(db, stmt).identities
            && (Owes(pc', id) <==> WritesStatus(pc, id))
            && Apply(db, stmt).identities[id].status == if WritesStatus(pc, id) then Owed(pc') else db.identities[id].status
  {
    hide PlanCreate, PlanUpdate, PlanGenerate, PlanRotate, PlanRevoke, PlanRegister;
  }

  /** The folded log of an identity changes exactly when a call pays what it owes. */
  lemma PlanPays(db: Db, strict: bool, pc: Pc, w: World, id: Id)
    requires id in db.identities
    ensures Fold(Apply(db, Plan(db, strict, pc, w).0).log, id) == if Owes(pc, id) then Some(Owed(pc)) else Fold(db.log, id)
  {
    hide Ref, HasActive, Apply, Fold;
    var stmt := Plan(db, strict, pc, w).0;
    ApplyLog(db, stmt);
    if stmt.Audit? { FoldLast(db.log, stmt.event, id); }
    if stmt.NewIdentity? { FoldLast(db.log, AuditEvent(stmt.tenant, Created, OfIdentity, stmt.id), id); }
  }

  lemma PlanInserts(db: Db, strict: bool, pc: Pc, w: World, id: Id)
    requires Anchored(db, pc) && id !in db.identities && id in Exec(db, strict, pc, w).0.identities
    ensures var (db', pc') := Exec(db, strict, pc, w);
            Fold(db'.log, id) == Some(db'.identities[id].status) && !Owes(pc', id)
  {
    hide Ref, HasActive, InsertKey, MarkRotated, MarkRevoked, Generate, Fold;
    var stmt := Plan(db, strict, pc, w).0;
    SameIdentities(db, stmt);
    if stmt.NewIdentity? { FoldLast(db.log, AuditEvent(stmt.tenant, Created, OfIdentity, stmt.id), id); }
  }

  /** Starting a call, or dropping one that owes nothing, settles no debt. */
  lemma SameRecord(s: Sys, strict: bool, a: Action, id: Id)
    requires Enabled(s, a) && Orderly(s, a) && !a.Do? && OnRecord(Next(s, strict, a), id)
    ensures OnRecord(s, id)
  {
    var s' := Next(s, strict, a);
    forall u | u in s.calls ensures !Owes(s.calls[u], id) {
      assert u != a.t ==> u in s'.calls && s'.calls[u] == s.calls[u];
    }
  }

  lemma LogStep(s: Sys, strict: bool, a: Action)
    requires Fit(s) && LogOk(s) && Enabled(s, a) && Orderly(s, a)
    ensures LogOk(Next(s, strict, a))
  {
    hide Plan, Apply, RowsFit, Fold;
    var s' := Next(s, strict, a);
    match a
    case Begin(t, pc) =>
      assert forall id :: !Owes(pc, id);
      forall id | OnRecord(s', id) ensures OnRecord(s, id) { SameRecord(s, strict, a, id); }
    case Drop(t) =>
      forall id | OnRecord(s', id) ensures OnRecord(s, id) { SameRecord(s, strict, a, id); }
    case Do(t, w) =>
      var pc := s.calls[t];
      assert Anchored(s.db, pc);
      forall id | id in s'.db.identities
        ensures forall u :: u in s'.calls && Owes(s'.calls[u], id) ==> s'.db.identities[id].status == Owed(s'.calls[u])
        ensures OnRecord(s', id) ==> Fold(s'.db.log, id) == Some(s'.db.identities[id].status)
      {
        if id in s.db.identities {
          PlanOwes(s.db, strict, pc, w, id);
          PlanPays(s.db, strict, pc, w, id);
          DoKnown(s, strict, t, w, id);
        } else {
          PlanInserts(s.db, strict, pc, w, id);
          forall u | u in s.calls ensures !Owes(s.calls[u], id) {
            assert Anchored(s.db, s.calls[u]);
          }
        }
      }
  }

  lemma DoKnown(s: Sys, strict: bool, t: nat, w: World, id: Id)
    requires LogOk(s) && t in s.calls && Orderly(s, Do(t, w)) && id in s.db.identities
    requires var (stmt, pc') := Plan(s.db, strict, s.calls[t], w);
             && id in Apply(s.db, stmt).identities
             && (Owes(pc', id) <==> WritesStatus(s.calls[t], id))
             && (WritesStatus(s.calls[t], id) ==> Apply(s.db, stmt).identities[id].status == Owed(pc'))
             && (!WritesStatus(s.calls[t], id) ==> Apply(s.db, stmt).identities[id].status == s.db.identities[id].status)
             && (Fold(Apply(s.db, stmt).log, id) == if Owes(s.calls[t], id) then Some(Owed(s.calls[t])) else Fold(s.db.log, id))
    ensures var s' := Next(s, strict, Do(t, w));
            && (forall u :: u in s'.calls && Owes(s'.calls[u], id) ==> s'.db.identities[id].status == Owed(s'.calls[u]))
            && (OnRecord(s', id) ==> Fold(s'.db.log, id) == Some(s'.db.identities[id].status))
  {
    hide Plan, Apply, Fold;
    var s' := Next(s, strict, Do(t, w));
    if OnRecord(s', id) {
      assert t in s'.calls && !Owes(s'.calls[t], id);
      if !Owes(s.calls[t], id) {
        forall u | u in s.calls ensures !Owes(s.calls[u], id) {
          assert u != t ==> s'.calls[u] == s.calls[u];
          assert u in s'.calls;
        }
        assert OnRecord(s, id);
      }
    }
  }

  lemma {:induction false} LogRun(s: Sys, strict: bool, acts: seq<Action>)
    requires Fit(s) && LogOk(s) && OrderlyRun(s, strict, acts)
    ensures After(s, strict, acts).Some? && LogOk(After(s, strict, acts).value)
    decreases |acts|
  {
    if acts != [] {
      hide Fit, LogOk, Next, Orderly;
      LogStep(s, strict, acts[0]);
      FitStep(s, strict, acts[0]);
      LogRun(Next(s, strict, acts[0]), strict, acts[1..]);
    }
  }

  /** After every orderly run from an empty directory the folded log is the stored status of each identity on record. */
  lemma ReplayYieldsStatus(strict: bool, acts: seq<Action>, id: Id)
    requires OrderlyRun(START, strict, acts)
    ensures After(START, strict, acts).Some?
    ensures var s := After(START, strict, acts).value;
            id in s.db.identities && OnRecord(s, id) ==> Fold(s.db.log, id) == Some(s.db.identities[id].status)
  {
    assert Fit(START) && LogOk(START);
    hide Fit;
    LogRun(START, strict, acts);
  }

  /**
   Out of order the fold is wrong: from every state with an identity that is not deactivated, a
   Suspend and a Reactivate that pass their guards together, write one after the other and record
   the other way round leave it active with the log saying suspended.
   */
  lemma DisorderWitness(s: Sys, strict: bool, tenant: Id, id: Id, t: nat, u: nat, w: World)
    requires Located(s.db, tenant, id) && !Terminal(s.db, id) && t != u && t !in s.calls && u !in s.calls
    ensures var s1 := Next(Next(s, strict, Begin(t, Changing(tenant, id, Suspend, StGuard))), strict, Do(t, w));
            var s2 := Next(Next(s1, strict, Begin(u, Changing(tenant, id, Reactivate, StGuard))), strict, Do(u, w));
            var s3 := Next(Next(s2, strict, Do(t, w)), strict, Do(u, w));
            var s4 := Next(Next(s3, strict, Do(u, w)), strict, Do(t, w));
            && id in s4.db.identities && s4.db.identities[id].status == Active && Fold(s4.db.log, id) == Some(Suspended)
            && s4.calls == s.calls[t := Finished(Success)][u := Finished(Success)]
  {
    hide Fold, Exec;
    BeginStatus(s, strict, t, w, tenant, id, Suspend);
    var s1 := s.(calls := s.calls[t := Changing(tenant, id, Suspend, StWrite)]);
    BeginStatus(s1, strict, u, w, tenant, id, Reactivate);
    var s2 := s1.(calls := s1.calls[u := Changing(tenant, id, Reactivate, StWrite)]);
    WriteStep(s2, strict, t, w, tenant, id, Suspend);
    var m := Sys(UpdateStatus(s.db, tenant, id, Suspended, w.now), s2.calls[t := Changing(tenant, id, Suspend, StAudit)]);
    WriteStep(m, strict, u, w, tenant, id, Reactivate);
    var s3 := Sys(UpdateStatus(m.db, tenant, id, Active, w.now), m.calls[u := Changing(tenant, id, Reactivate, StAudit)]);
    assert s3.db.identities[id].status == Active;
    hide UpdateStatus;
    AuditStep(s3, strict, u, w, tenant, id, Reactivate);
    var n := Sys(Append(s3.db, AuditEvent(tenant, ToActive, OfIdentity, id)), s3.calls[u := Finished(Success)]);
    AuditStep(n, strict, t, w, tenant, id, Suspend);
    FoldLast(n.db.log, AuditEvent(tenant, ToSuspended, OfIdentity, id), id);
    assert n.calls[t := Finished(Success)] == s.calls[t := Finished(Success)][u := Finished(Success)];
  }
}
