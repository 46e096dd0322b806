/**
 The identity lifecycle. Status guards live in the service, not in the UPDATE, so at statement
 grain a deactivated identity can come back; it stays deactivated exactly when no call that has
 passed its guard, and no unfinished CreateIdentity, is still about to write its status.
 */
module Lifecycle {
  import opened Basics
  import opened Directory
  import opened KeyRing

  predicate Terminal(db: Db, id: Id) {
    id in db.identities && db.identities[id].status.IsTerminal()
  }

  predicate Located(db: Db, tenant: Id, id: Id) { FindIdentity(db, tenant, id).Some? }

  // ---------- The invariant ----------

  /** Archived is never written, and a terminal identity always carries its deactivation time. */
  ghost predicate RowsFit(db: Db) {
    forall id :: id in db.identities ==>
      && db.identities[id].status != Archived
      && (db.identities[id].status.IsTerminal() ==> db.identities[id].deactivatedAt.Some?)
  }

  /** The id CreateIdentity has obtained, once it has one. */
  function NewId(c: CreateStep): Option<Id> { if c.CrInsert? then None else Some(c.id) }

  /** A call about to write a status, now or later, has seen the row it will write. */
  predicate Anchored(db: Db, pc: Pc) {
    && (pc.Changing? && pc.s != StGuard ==> Located(db, pc.tenant, pc.id))
    && (pc.Creating? && NewId(pc.c).Some? ==> Located(db, pc.tenant, NewId(pc.c).value))
  }

  ghost predicate Fit(s: Sys) {
    RowsFit(s.db) && forall t :: t in s.calls ==> Anchored(s.db, s.calls[t])
  }

  lemma ApplyFit(db: Db, stmt: Stmt)
    requires RowsFit(db) && (stmt.NewStatus? ==> stmt.status != Archived)
    ensures RowsFit(Apply(db, stmt))
  {
    hide Ref;
  }

  lemma PlanFit(db: Db, strict: bool, pc: Pc, w: World)
    requires Anchored(db, pc)
    ensures var (stmt, pc') := Plan(db, strict, pc, w);
            && (stmt.NewStatus? ==> stmt.status != Archived)
            && Anchored(Apply(db, stmt), pc')
  {
    hide Plan, Apply;
    if pc.Creating? {
      CreateFit(db, strict, pc, w);
    } else if pc.Changing? {
      ChangeFit(db, strict, pc, w);
    } else {
      PlanOther(db, strict, pc, w);
    }
  }

  lemma CreateFit(db: Db, strict: bool, pc: Pc, w: World)
    requires pc.Creating? && Anchored(db, pc)
    ensures var (stmt, pc') := Plan(db, strict, pc, w);
            && (stmt.NewStatus? ==> stmt.status != Archived)
            && Anchored(Apply(db, stmt), pc')
  {
    hide Ref, CanInsertKey, InsertKey, Generate;
    hide PlanChange, PlanUpdate, PlanGenerate, PlanRotate, PlanRevoke, PlanRegister;
    SameIdentities(db, Plan(db, strict, pc, w).0);
  }

  lemma ChangeFit(db: Db, strict: bool, pc: Pc, w: World)
    requires pc.Changing? && Anchored(db, pc)
    ensures var (stmt, pc') := Plan(db, strict, pc, w);
            && (stmt.NewStatus? ==> stmt.status != Archived)
            && Anchored(Apply(db, stmt), pc')
  {
    hide PlanCreate, PlanUpdate, PlanGenerate, PlanRotate, PlanRevoke, PlanRegister;
  }

  /** Only CreateIdentity inserts identities, and only it and the status calls write a status. */
  lemma PlanOther(db: Db, strict: bool, pc: Pc, w: World)
    requires !pc.Creating? && !pc.Changing?
    ensures var (stmt, pc') := Plan(db, strict, pc, w);
            !pc'.Creating? && !pc'.Changing? && !stmt.NewStatus? && !stmt.NewIdentity?
  {
    hide Ref, CanInsertKey;
  }

  /** Other statements leave every status, tenant and deactivation time as it is. */
  lemma StatusKept(db: Db, stmt: Stmt, id: Id)
    requires !stmt.NewStatus? && !stmt.NewIdentity? && id in db.identities
    ensures id in Apply(db, stmt).identities
    ensures var a, b := Apply(db, stmt).identities[id], db.identities[id];
            a.status == b.status && a.tenant == b.tenant && a.deactivatedAt == b.deactivatedAt
  {
    hide Ref, InsertKey, Generate, MarkRotated, MarkRevoked;
    SameIdentities(db, stmt);
  }

  lemma AnchoredStable(db: Db, db': Db, pc: Pc)
    requires Grows(db, db') && Anchored(db, pc)
    ensures Anchored(db', pc)
  {
  }

  lemma FitStep(s: Sys, strict: bool, a: Action)
    requires Fit(s) && Enabled(s, a)
    ensures Fit(Next(s, strict, a))
  {
    hide RowsFit, Anchored, Plan, Apply, Grows;
    match a
    case Begin(t, pc) => StartAnchored(s.db, pc);
    case Do(t, w) =>
      var pc := s.calls[t];
      PlanFit(s.db, strict, pc, w);
      ApplyFit(s.db, Plan(s.db, strict, pc, w).0);
      ExecGrows(s.db, strict, pc, w);
      forall u | u in s.calls && u != t ensures Anchored(Exec(s.db, strict, pc, w).0, s.calls[u]) {
        AnchoredStable(s.db, Exec(s.db, strict, pc, w).0, s.calls[u]);
      }
    case Drop(_) =>
  }

  lemma StartAnchored(db: Db, pc: Pc)
    requires IsStart(pc)
    ensures Anchored(db, pc)
  {
  }

  lemma {:induction false} FitRun(s: Sys, strict: bool, acts: seq<Action>)
    requires Fit(s) && After(s, strict, acts).Some?
    ensures Fit(After(s, strict, acts).value)
    decreases |acts|
  {
    if acts != [] {
      hide Fit, Next;
      FitStep(s, strict, acts[0]);
      FitRun(Next(s, strict, acts[0]), strict, acts[1..]);
    }
  }

  /** In every reachable state no identity is archived, and every terminal one has its deactivation time. */
  lemma LifecycleRows(s: Sys, strict: bool)
    requires Reachable(s, strict)
    ensures Fit(s)
    ensures forall id :: id in s.db.identities ==> s.db.identities[id].status != Archived
    ensures forall id :: Terminal(s.db, id) ==> s.db.identities[id].deactivatedAt.Some?
  {
    var acts :| After(START, strict, acts) == Some(s);
    FitRun(START, strict, acts);
  }

  // ---------- When deactivation is final ----------

  /** The call will write a non-terminal status to the identity without looking at it again. */
  predicate Revives(pc: Pc, id: Id) {
    || (pc.Changing? && pc.id == id && pc.s == StWrite && pc.target != Deactivate)
    || (pc.Creating? && NewId(pc.c) == Some(id) && !pc.c.CrAudit?)
  }

  ghost predicate Settled(s: Sys, id: Id) {
    forall t :: t in s.calls ==> !Revives(s.calls[t], id)
  }

  lemma TerminalExec(db: Db, strict: bool, pc: Pc, w: World, id: Id)
    requires Terminal(db, id) && !Revives(pc, id)
    ensures Terminal(Exec(db, strict, pc, w).0, id)
    ensures !Revives(Exec(db, strict, pc, w).1, id)
  {
    hide Ref, HasActive, InsertKey, MarkRotated, MarkRevoked, Generate;
    SameIdentities(db, Plan(db, strict, pc, w).0);
  }

  lemma SettledStep(s: Sys, strict: bool, a: Action, id: Id)
    requires Terminal(s.db, id) && Settled(s, id) && Enabled(s, a)
    ensures Terminal(Next(s, strict, a).db, id) && Settled(Next(s, strict, a), id)
  {
    hide Exec;
    if a.Do? { TerminalExec(s.db, strict, s.calls[a.t], a.w, id); }
  }

  lemma {:induction false} SettledRun(s: Sys, strict: bool, acts: seq<Action>, id: Id)
    requires Terminal(s.db, id) && Settled(s, id) && After(s, strict, acts).Some?
    ensures Terminal(After(s, strict, acts).value.db, id)
    decreases |acts|
  {
    if acts != [] {
      hide Next, Settled;
      SettledStep(s, strict, acts[0], id);
      SettledRun(Next(s, strict, acts[0]), strict, acts[1..], id);
    }
  }

  ghost predicate ForGood(s: Sys, strict: bool, id: Id) {
    forall acts :: After(s, strict, acts).Some? ==> Terminal(After(s, strict, acts).value.db, id)
  }

  /** A string longer than all those in a finite set. */
  lemma {:induction false} FreshId(ids: set<Id>) returns (name: Id)
    ensures |name| >= 1 && forall x <- ids :: |x| < |name|
    decreases |ids|
  {
    name := "x";
    if ids != {} {
      var x :| x in ids;
      var rest := FreshId(ids - {x});
      name := rest + x;
      assert forall y <- ids :: y == x || y in ids - {x};
    }
  }

  function Rank(pc: Pc): nat {
    if !pc.Creating? then 0 else
      match pc.c
      case CrPair(_) => 4
      case CrKey(_, _) => 3
      case CrPrimary(_, _) => 2
      case CrActivate(_) => 1
      case _ => 0
  }

  function ActiveKeys(db: Db, identity: Id, purpose: Purpose): set<Id> {
    set k | k in db.keys && db.keys[k].identity == identity && db.keys[k].purpose == purpose && db.keys[k].status == InUse
  }

  /** Calls go on, and only calls that write no status start. */
  predicate StatusFree(acts: seq<Action>) {
    forall a <- acts :: a.Do? || (a.Begin? && !a.pc.Creating? && !a.pc.Changing?)
  }

  /** A RevokeKey of a key, started and run up to its write. */
  lemma RevokeRun(s: Sys, strict: bool, u: nat, k: Id) returns (acts: seq<Action>, s': Sys)
    requires u !in s.calls && k in s.db.keys
    ensures After(s, strict, acts) == Some(s') && s'.db == s.db.(keys := s.db.keys[k := s.db.keys[k].(status := Revoked)])
    ensures u in s'.calls && s'.calls == s.calls[u := s'.calls[u]] && s'.calls[u].Revoking? && StatusFree(acts)
  {
    hide PlanCreate, PlanChange, PlanUpdate, PlanGenerate, PlanRotate, PlanRegister;
    var tenant, w := s.db.keys[k].tenant, World("", 0);
    var s1 := Next(s, strict, Begin(u, Revoking(tenant, k, RvRead)));
    var s2 := Next(s1, strict, Do(u, w));
    assert s2.db == s.db && s2.calls[u] == Revoking(tenant, k, RvMark);
    s' := Next(s2, strict, Do(u, w));
    acts := [Begin(u, Revoking(tenant, k, RvRead))] + ([Do(u, w)] + [Do(u, w)]);
    hide Next;
    AfterOne(s2, strict, Do(u, w));
    AfterOne(s1, strict, Do(u, w));
    AfterConcat(s1, strict, [Do(u, w)], [Do(u, w)]);
    AfterOne(s, strict, Begin(u, Revoking(tenant, k, RvRead)));
    AfterConcat(s, strict, [Begin(u, Revoking(tenant, k, RvRead))], [Do(u, w)] + [Do(u, w)]);
  }

  /** New RevokeKey calls can clear the unique index's way for any key. */
  lemma {:induction false} Unblock(s: Sys, strict: bool, id: Id, purpose: Purpose) returns (acts: seq<Action>, s': Sys)
    requires Fit(s)
    ensures After(s, strict, acts) == Some(s') && Fit(s') && !HasActive(s'.db, id, purpose)
    ensures s'.db.identities == s.db.identities && StatusFree(acts)
    ensures forall t :: t in s.calls ==> t in s'.calls && s'.calls[t] == s.calls[t]
    ensures forall t :: t in s'.calls && t !in s.calls ==> s'.calls[t].Revoking?
    decreases |ActiveKeys(s.db, id, purpose)|
  {
    var keys := ActiveKeys(s.db, id, purpose);
    if keys == {} {
      acts, s' := [], s;
      assert forall k :: k in s.db.keys ==> k !in keys;
    } else {
      var k :| k in keys;
      var u := FreeSlot(s.calls);
      var first, s1 := RevokeRun(s, strict, u, k);
      assert ActiveKeys(s1.db, id, purpose) == keys - {k};
      assert Fit(s1);
      hide Fit, After;
      var rest;
      rest, s' := Unblock(s1, strict, id, purpose);
      acts := first + rest;
      AfterConcat(s, strict, first, rest);
    }
  }

  /** One statement of such a call, nothing blocking it: the identity is revived, or the call is one statement closer. */
  lemma ReviveStep(s: Sys, strict: bool, t: nat, id: Id, w: World)
    requires Fit(s) && id != "" && t in s.calls && Revives(s.calls[t], id) && w.id !in s.db.keys && !HasActive(s.db, id, Signing)
    ensures var s' := Next(s, strict, Do(t, w));
            !Terminal(s'.db, id) || (Revives(s'.calls[t], id) && Rank(s'.calls[t]) < Rank(s.calls[t]))
  {
    hide Ref, HasActive, InsertKey, RowsFit, MarkRotated, MarkRevoked;
    assert Anchored(s.db, s.calls[t]);
  }

  lemma {:induction false} Revival(s: Sys, strict: bool, t: nat, id: Id) returns (acts: seq<Action>)
    requires Fit(s) && id != "" && t in s.calls && Revives(s.calls[t], id)
    ensures After(s, strict, acts).Some? && !Terminal(After(s, strict, acts).value.db, id)
    decreases Rank(s.calls[t])
  {
    hide Fit, Revives, Rank, Terminal, HasActive;
    var clear, s0 := Unblock(s, strict, id, Signing);
    var key := FreshId(s0.db.keys.Keys);
    var a := Do(t, World(key, 0));
    var s' := Next(s0, strict, a);
    ReviveStep(s0, strict, t, id, a.w);
    FitStep(s0, strict, a);
    AfterOne(s0, strict, a);
    hide Next;
    AfterConcat(s, strict, clear, [a]);
    acts := clear + [a];
    if Terminal(s'.db, id) {
      var rest := Revival(s', strict, t, id);
      AfterConcat(s, strict, acts, rest);
      acts := acts + rest;
    }
  }

  /** Settled states are final. */
  lemma DeactivationFinal(s: Sys, strict: bool, id: Id)
    requires Terminal(s.db, id) && Settled(s, id)
    ensures ForGood(s, strict, id)
  {
    forall acts | After(s, strict, acts).Some? ensures Terminal(After(s, strict, acts).value.db, id) {
      SettledRun(s, strict, acts, id);
    }
  }

  /**
   From a reachable state, a deactivated identity stays so in every continuation exactly when no
   call in flight is past its guard with another status to write, nor an unfinished CreateIdentity
   of it; with the partial unique index on or off.
   */
  lemma DeactivationExact(s: Sys, strict: bool, id: Id)
    requires Reachable(s, strict) && Terminal(s.db, id) && id != ""
    ensures ForGood(s, strict, id) <==> Settled(s, id)
  {
    hide After, Terminal, Revives;
    LifecycleRows(s, strict);
    if Settled(s, id) {
      DeactivationFinal(s, strict, id);
    } else {
      var t :| t in s.calls && Revives(s.calls[t], id);
      var acts := Revival(s, strict, t, id);
    }
  }

  // ---------- Whole calls, one at a time ----------

  /** The deactivation time is set for terminal identities and for no others. */
  ghost predicate TimesExact(db: Db) {
    forall id :: id in db.identities ==> (db.identities[id].status.IsTerminal() <==> db.identities[id].deactivatedAt.Some?)
  }

  /** Running alone, what a call saw at its guard is still so at its write; a new identity is pending until activated. */
  predicate Undisturbed(db: Db, pc: Pc) {
    && (pc.Changing? && pc.s == StWrite ==> Located(db, pc.tenant, pc.id) && !Terminal(db, pc.id))
    && (pc.Creating? && NewId(pc.c).Some? ==>
          && Located(db, pc.tenant, NewId(pc.c).value)
          && db.identities[NewId(pc.c).value].status == if pc.c.CrAudit? then Active else Pending)
  }

  lemma UndisturbedStep(db: Db, strict: bool, pc: Pc, w: World)
    requires TimesExact(db) && Undisturbed(db, pc)
    ensures var (db', pc') := Exec(db, strict, pc, w);
            && TimesExact(db') && Undisturbed(db', pc')
            && forall id :: Terminal(db, id) ==> Terminal(db', id)
  {
    TimesStep(db, strict, pc, w);
    hide TimesExact, Terminal, Plan, Apply;
    if pc.Creating? {
      CreateUndisturbed(db, strict, pc, w);
    } else if pc.Changing? {
      ChangeUndisturbed(db, strict, pc, w);
    } else {
      PlanOther(db, strict, pc, w);
    }
  }

  lemma CreateUndisturbed(db: Db, strict: bool, pc: Pc, w: World)
    requires pc.Creating? && Undisturbed(db, pc)
    ensures Undisturbed(Exec(db, strict, pc, w).0, Exec(db, strict, pc, w).1)
    ensures Exec(db, strict, pc, w).1.Creating? || Exec(db, strict, pc, w).1.Finished?
  {
    hide Ref, CanInsertKey, InsertKey, Generate;
    hide PlanChange, PlanUpdate, PlanGenerate, PlanRotate, PlanRevoke, PlanRegister;
    SameIdentities(db, Plan(db, strict, pc, w).0);
  }

  lemma ChangeUndisturbed(db: Db, strict: bool, pc: Pc, w: World)
    requires pc.Changing? && Undisturbed(db, pc)
    ensures Undisturbed(Exec(db, strict, pc, w).0, Exec(db, strict, pc, w).1)
  {
    hide PlanCreate, PlanUpdate, PlanGenerate, PlanRotate, PlanRevoke, PlanRegister;
  }

  lemma TimesStep(db: Db, strict: bool, pc: Pc, w: World)
    requires TimesExact(db) && Undisturbed(db, pc)
    ensures TimesExact(Exec(db, strict, pc, w).0)
    ensures forall id :: Terminal(db, id) ==> Terminal(Exec(db, strict, pc, w).0, id)
  {
    hide Ref, HasActive, InsertKey, MarkRotated, MarkRevoked, Generate;
    PlanFresh(db, strict, pc, w);
    var stmt := Plan(db, strict, pc, w).0;
    assert stmt.NewStatus? ==> !Terminal(db, stmt.id);
    hide Plan;
    ApplyTimes(db, stmt);
  }

  lemma ApplyTimes(db: Db, stmt: Stmt)
    requires TimesExact(db) && FreshStmt(db, stmt) && (stmt.NewStatus? ==> !Terminal(db, stmt.id))
    ensures TimesExact(Apply(db, stmt))
    ensures forall id :: Terminal(db, id) ==> Terminal(Apply(db, stmt), id)
  {
    hide Ref;
  }

  /**
   Calls that run whole, or are cut short anywhere, but do not overlap: terminal is absorbing and
   the deactivation time is set exactly for terminal identities.
   */
  lemma {:induction false} AtomicLifecycle(db: Db, strict: bool, pc: Pc, worlds: seq<World>)
    requires TimesExact(db) && Undisturbed(db, pc)
    ensures TimesExact(Solo(db, strict, pc, worlds).0)
    ensures Undisturbed(Solo(db, strict, pc, worlds).0, Solo(db, strict, pc, worlds).1)
    ensures forall id :: Terminal(db, id) ==> Terminal(Solo(db, strict, pc, worlds).0, id)
    decreases |worlds|
  {
    if worlds != [] && !pc.Finished? {
      hide Exec, TimesExact, Undisturbed, Terminal;
      UndisturbedStep(db, strict, pc, worlds[0]);
      var (db', pc') := Exec(db, strict, pc, worlds[0]);
      AtomicLifecycle(db', strict, pc', worlds[1..]);
    }
  }

  /** What a CreateIdentity that stopped leaves behind: pending before its activation, active once it reached its audit step. */
  lemma CreateLeavesPending(db: Db, strict: bool, tenant: Id, content: Content, worlds: seq<World>)
    ensures var end := Solo(db, strict, Creating(tenant, CrInsert(content)), worlds);
            end.1.Creating? && NewId(end.1.c).Some? ==>
              && NewId(end.1.c).value in end.0.identities
              && (end.0.identities[NewId(end.1.c).value].status == Active <==> end.1.c.CrAudit?)
  {
    CreateAlone(db, strict, Creating(tenant, CrInsert(content)), worlds);
    hide Solo;
  }

  lemma {:induction false} CreateAlone(db: Db, strict: bool, pc: Pc, worlds: seq<World>)
    requires (pc.Creating? || pc.Finished?) && Undisturbed(db, pc)
    ensures Undisturbed(Solo(db, strict, pc, worlds).0, Solo(db, strict, pc, worlds).1)
    decreases |worlds|
  {
    if worlds != [] && !pc.Finished? {
      CreateUndisturbed(db, strict, pc, worlds[0]);
      hide Exec, Undisturbed;
      var (db', pc') := Exec(db, strict, pc, worlds[0]);
      CreateAlone(db', strict, pc', worlds[1..]);
    }
  }

  // ---------- The steps of a status call ----------

  /** The guard passes on an identity that is not terminal, and changes nothing. */
  lemma GuardStep(s: Sys, strict: bool, t: nat, w: World, tenant: Id, id: Id, target: Target)
    requires t in s.calls && s.calls[t] == Changing(tenant, id, target, StGuard)
    requires Located(s.db, tenant, id) && !Terminal(s.db, id)
    ensures Next(s, strict, Do(t, w)) == s.(calls := s.calls[t := Changing(tenant, id, target, StWrite)])
  {
    hide PlanCreate, PlanUpdate, PlanGenerate, PlanRotate, PlanRevoke, PlanRegister;
  }

  lemma WriteStep(s: Sys, strict: bool, t: nat, w: World, tenant: Id, id: Id, target: Target)
    requires t in s.calls && s.calls[t] == Changing(tenant, id, target, StWrite)
    ensures Next(s, strict, Do(t, w))
            == Sys(UpdateStatus(s.db, tenant, id, target.Status(), w.now), s.calls[t := Changing(tenant, id, target, StAudit)])
  {
    hide PlanCreate, PlanUpdate, PlanGenerate, PlanRotate, PlanRevoke, PlanRegister, UpdateStatus;
  }

  lemma AuditStep(s: Sys, strict: bool, t: nat, w: World, tenant: Id, id: Id, target: Target)
    requires t in s.calls && s.calls[t] == Changing(tenant, id, target, StAudit)
    ensures Next(s, strict, Do(t, w))
            == Sys(Append(s.db, AuditEvent(tenant, target.Event(), OfIdentity, id)), s.calls[t := Finished(Success)])
  {
    hide PlanCreate, PlanUpdate, PlanGenerate, PlanRotate, PlanRevoke, PlanRegister, Append;
  }

  /** Starting a status call on an identity that is not terminal and passing its guard. */
  lemma BeginStatus(s: Sys, strict: bool, t: nat, w: World, tenant: Id, id: Id, target: Target)
    requires t !in s.calls && Located(s.db, tenant, id) && !Terminal(s.db, id)
    ensures var s' := Next(s, strict, Begin(t, Changing(tenant, id, target, StGuard)));
            Next(s', strict, Do(t, w)) == s.(calls := s.calls[t := Changing(tenant, id, target, StWrite)])
  {
    var s' := Next(s, strict, Begin(t, Changing(tenant, id, target, StGuard)));
    GuardStep(s', strict, t, w, tenant, id, target);
    hide Exec;
    assert s'.calls[t := Changing(tenant, id, target, StWrite)] == s.calls[t := Changing(tenant, id, target, StWrite)];
  }

  // ---------- The plain statement fails ----------

  /** Reactivate passes its guard, Deactivate runs to its end, Reactivate writes: the identity is active again. */
  lemma ComebackWitness(s: Sys, strict: bool, tenant: Id, id: Id, t: nat, u: nat, w: World)
    requires Located(s.db, tenant, id) && s.db.identities[id].status == Suspended
    requires t != u && t !in s.calls && u !in s.calls
    ensures var s1 := Next(s, strict, Begin(t, Changing(tenant, id, Reactivate, StGuard)));
            var s2 := Next(s1, strict, Do(t, w));
            var s3 := Next(s2, strict, Begin(u, Changing(tenant, id, Deactivate, StGuard)));
            var s4 := Next(Next(Next(s3, strict, Do(u, w)), strict, Do(u, w)), strict, Do(u, w));
            var s5 := Next(s4, strict, Do(t, w));
            && s4.calls[u] == Finished(Success) && Terminal(s4.db, id)
            && s5.db.identities[id].status == Active && s5.db.identities[id].deactivatedAt == Some(w.now)
  {
    var s2 := s.(calls := s.calls[t := Changing(tenant, id, Reactivate, StWrite)]);
    BeginStatus(s, strict, t, w, tenant, id, Reactivate);
    var s3 := s2.(calls := s2.calls[u := Changing(tenant, id, Deactivate, StWrite)]);
    BeginStatus(s2, strict, u, w, tenant, id, Deactivate);
    WriteStep(s3, strict, u, w, tenant, id, Deactivate);
    var m := Sys(UpdateStatus(s.db, tenant, id, Deactivated, w.now), s3.calls[u := Changing(tenant, id, Deactivate, StAudit)]);
    AuditStep(m, strict, u, w, tenant, id, Deactivate);
    var s4 := Sys(Append(m.db, AuditEvent(tenant, ToDeactivated, OfIdentity, id)), m.calls[u := Finished(Success)]);
    assert s4.calls[t] == Changing(tenant, id, Reactivate, StWrite);
    WriteStep(s4, strict, t, w, tenant, id, Reactivate);
    hide Exec;
  }
}
