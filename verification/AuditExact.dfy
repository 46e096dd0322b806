/**
 When the audit log can be relied on. From a reachable state, the calls in flight may go on in any
 order, and calls that write no status may join them; whenever no event is outstanding the folded
 log is the status, exactly if the debts and the log agree with the status now and all calls that
 can still write it are bound for the same status.
 */
module AuditExact {
  import opened Basics
  import opened Directory
  import opened KeyRing
  import opened Lifecycle
  import opened AuditReplay

  // ---------- Continuations of the calls in flight ----------

  ghost predicate Leads(s: Sys, strict: bool, s': Sys) {
    exists acts :: StatusFree(acts) && After(s, strict, acts) == Some(s')
  }

  lemma LeadsSelf(s: Sys, strict: bool)
    ensures Leads(s, strict, s)
  {
    assert StatusFree([]) && After(s, strict, []) == Some(s);
  }

  /** A first step and a continuation make a continuation. */
  lemma LeadsVia(s: Sys, strict: bool, t: nat, w: World, s': Sys)
    requires t in s.calls && Leads(Next(s, strict, Do(t, w)), strict, s')
    ensures Leads(s, strict, s')
  {
    hide Next;
    var rest :| StatusFree(rest) && After(Next(s, strict, Do(t, w)), strict, rest) == Some(s');
    var acts := [Do(t, w)] + rest;
    assert acts[1..] == rest;
    assert StatusFree(acts) && After(s, strict, acts) == Some(s');
  }

  /** Whenever nothing is outstanding, in this state and in all its continuations, the fold is the status. */
  ghost predicate Reliable(s: Sys, strict: bool, id: Id) {
    forall s' :: Leads(s, strict, s') ==> Matches(s', id)
  }

  ghost predicate Matches(s: Sys, id: Id) {
    id in s.db.identities && OnRecord(s, id) ==> Fold(s.db.log, id) == Some(s.db.identities[id].status)
  }

  // ---------- The condition ----------

  /** The status a call on an identity writes, or has written. */
  function Aim(pc: Pc): Status { if pc.Changing? then pc.target.Status() else Active }

  /** A CreateIdentity of the identity before its activation. */
  predicate Rising(pc: Pc, id: Id) {
    pc.Creating? && (pc.c.CrPair? || pc.c.CrKey? || pc.c.CrPrimary?) && pc.c.id == id
  }

  /** A status call before its guard that can still pass it. */
  ghost predicate Waiting(s: Sys, pc: Pc, id: Id) {
    pc.Changing? && pc.s == StGuard && pc.id == id && Located(s.db, pc.tenant, id) && (!Terminal(s.db, id) || !Settled(s, id))
  }

  predicate Ready(pc: Pc, id: Id) { Owes(pc, id) || WritesStatus(pc, id) }

  /** The call has a status event of the identity to write, or may come to. */
  ghost predicate Concerned(s: Sys, t: nat, id: Id) {
    t in s.calls && (Ready(s.calls[t], id) || Rising(s.calls[t], id) || Waiting(s, s.calls[t], id))
  }

  ghost predicate DebtsRight(s: Sys, id: Id) {
    id in s.db.identities && forall t :: t in s.calls && Owes(s.calls[t], id) ==> Aim(s.calls[t]) == s.db.identities[id].status
  }

  ghost predicate OneAim(s: Sys, id: Id) {
    forall t, u :: Concerned(s, t, id) && Concerned(s, u, id) ==> Aim(s.calls[t]) == Aim(s.calls[u])
  }

  ghost predicate Agreed(s: Sys, id: Id) {
    DebtsRight(s, id) && Matches(s, id) && OneAim(s, id)
  }

  // ---------- One statement ----------

  /** What a statement does to the status, the fold and the debts of an identity. */
  lemma DoEffect(s: Sys, strict: bool, t: nat, w: World, id: Id)
    requires Fit(s) && t in s.calls && id in s.db.identities
    ensures var s', pc := Next(s, strict, Do(t, w)), s.calls[t];
            && Fit(s') && s'.calls == s.calls[t := s'.calls[t]] && id in s'.db.identities
            && s'.db.identities[id].tenant == s.db.identities[id].tenant
            && s'.db.identities[id].status == (if WritesStatus(pc, id) then Aim(pc) else s.db.identities[id].status)
            && (Owes(s'.calls[t], id) <==> WritesStatus(pc, id)) && (WritesStatus(pc, id) ==> Aim(s'.calls[t]) == Aim(pc))
            && Fold(s'.db.log, id) == (if Owes(pc, id) then Some(Aim(pc)) else Fold(s.db.log, id))
  {
    var pc := s.calls[t];
    FitStep(s, strict, Do(t, w));
    assert Anchored(s.db, pc);
    hide Plan, Apply, Fit, Fold;
    PlanOwes(s.db, strict, pc, w, id);
    PlanPays(s.db, strict, pc, w, id);
    ExecGrows(s.db, strict, pc, w);
    AimKept(s.db, strict, pc, w, id);
  }

  lemma AimKept(db: Db, strict: bool, pc: Pc, w: World, id: Id)
    ensures WritesStatus(pc, id) ==> Aim(Plan(db, strict, pc, w).1) == Aim(pc)
  {
    hide PlanUpdate, PlanGenerate, PlanRotate, PlanRevoke, PlanRegister, CanInsertKey, Ref;
  }

  /** How a call comes to be about to write the status, or to be on its way there. */
  lemma OwnStep(db: Db, strict: bool, pc: Pc, w: World, id: Id)
    requires id in db.identities
    ensures var pc' := Plan(db, strict, pc, w).1;
            && (WritesStatus(pc', id) ==>
                  && (Rising(pc, id) || (pc.Changing? && pc.s == StGuard && pc.id == id && Located(db, pc.tenant, id) && !Terminal(db, id)))
                  && Aim(pc') == Aim(pc))
            && (Rising(pc', id) ==> Rising(pc, id)) && !(pc'.Changing? && pc'.s == StGuard)
  {
    hide PlanUpdate, PlanGenerate, PlanRotate, PlanRevoke, PlanRegister, CanInsertKey, Ref;
    if !pc.Creating? && !pc.Changing? { PlanOther(db, strict, pc, w); }
  }

  // ---------- The condition suffices ----------

  /** No statement adds to the calls that matter or changes what they aim for. */
  lemma ConcernShrinks(s: Sys, strict: bool, t: nat, w: World, id: Id, u: nat)
    requires Fit(s) && t in s.calls && id in s.db.identities && Concerned(Next(s, strict, Do(t, w)), u, id)
    ensures Concerned(s, u, id) && Aim(Next(s, strict, Do(t, w)).calls[u]) == Aim(s.calls[u])
  {
    DoEffect(s, strict, t, w, id);
    OwnStep(s.db, strict, s.calls[t], w, id);
    if Terminal(s.db, id) && Settled(s, id) { SettledStep(s, strict, Do(t, w), id); }
    hide Plan, Apply, Fit, Fold, Settled, Revives;
  }

  lemma AgreedStep(s: Sys, strict: bool, t: nat, w: World, id: Id)
    requires Fit(s) && t in s.calls && Agreed(s, id)
    ensures Agreed(Next(s, strict, Do(t, w)), id)
  {
    var s' := Next(s, strict, Do(t, w));
    DoEffect(s, strict, t, w, id);
    forall u | Concerned(s', u, id) ensures Concerned(s, u, id) && Aim(s'.calls[u]) == Aim(s.calls[u]) { ConcernShrinks(s, strict, t, w, id, u); }
    hide Next, Fit, Fold, Rising, Waiting;
    if OnRecord(s', id) && !Owes(s.calls[t], id) {
      assert !Owes(s'.calls[t], id);
      forall u | u in s.calls ensures !Owes(s.calls[u], id) { assert u in s'.calls && (u != t ==> s'.calls[u] == s.calls[u]); }
    }
    forall u | u in s'.calls && Owes(s'.calls[u], id) ensures Aim(s'.calls[u]) == s'.db.identities[id].status {
      if u != t && WritesStatus(s.calls[t], id) { assert Concerned(s, t, id) && Concerned(s, u, id); }
    }
  }

  lemma AgreedBegin(s: Sys, strict: bool, a: Action, id: Id)
    requires Agreed(s, id) && Enabled(s, a) && a.Begin? && !a.pc.Creating? && !a.pc.Changing?
    ensures Agreed(Next(s, strict, a), id)
  {
    hide Fold;
    var s' := Next(s, strict, a);
    forall u | u in s.calls ensures u in s'.calls && s'.calls[u] == s.calls[u] { }
    assert Settled(s', id) <==> Settled(s, id);
    forall u | Concerned(s', u, id) ensures Concerned(s, u, id) && Aim(s'.calls[u]) == Aim(s.calls[u]) { }
  }

  lemma {:induction false} AgreedRun(s: Sys, strict: bool, acts: seq<Action>, id: Id)
    requires Fit(s) && Agreed(s, id) && StatusFree(acts) && After(s, strict, acts).Some?
    ensures Agreed(After(s, strict, acts).value, id)
    decreases |acts|
  {
    if acts != [] {
      assert acts[0] in acts;
      if acts[0].Begin? { AgreedBegin(s, strict, acts[0], id); }
      hide Fit, Agreed, Next;
      if acts[0].Do? { AgreedStep(s, strict, acts[0].t, acts[0].w, id); }
      FitStep(s, strict, acts[0]);
      AgreedRun(Next(s, strict, acts[0]), strict, acts[1..], id);
    }
  }

  // ---------- The condition is needed ----------

  lemma LeadsTrans(s: Sys, strict: bool, s1: Sys, s2: Sys)
    requires Leads(s, strict, s1) && Leads(s1, strict, s2)
    ensures Leads(s, strict, s2)
  {
    hide After;
    var a :| StatusFree(a) && After(s, strict, a) == Some(s1);
    var b :| StatusFree(b) && After(s1, strict, b) == Some(s2);
    AfterConcat(s, strict, a, b);
    assert StatusFree(a + b);
  }

  function Debtors(s: Sys, id: Id): set<nat> { set t | t in s.calls && Owes(s.calls[t], id) }

  const ANY := World("", 0)

  /** If a call owes another status than the stored one, its event may come last. */
  lemma {:induction false} PayLast(s: Sys, strict: bool, id: Id, t: nat) returns (s': Sys)
    requires Fit(s) && id in s.db.identities && t in s.calls && Owes(s.calls[t], id) && Aim(s.calls[t]) != s.db.identities[id].status
    ensures Leads(s, strict, s') && !Matches(s', id)
    decreases |Debtors(s, id)|
  {
    hide Next, Fit, Fold, Leads;
    if u :| u in Debtors(s, id) && u != t {
      var s1 := Next(s, strict, Do(u, ANY));
      DoEffect(s, strict, u, ANY, id);
      assert Debtors(s1, id) == Debtors(s, id) - {u};
      s' := PayLast(s1, strict, id, t);
      LeadsVia(s, strict, u, ANY, s');
    } else {
      s' := Next(s, strict, Do(t, ANY));
      DoEffect(s, strict, t, ANY, id);
      assert forall u :: u in s.calls && Owes(s.calls[u], id) ==> u in Debtors(s, id);
      LeadsSelf(s', strict);
      LeadsVia(s, strict, t, ANY, s');
    }
  }

  /** A call about to write and one bound elsewhere that owes or is about to write. */
  lemma ClashWriter(s: Sys, strict: bool, id: Id, x: nat, y: nat) returns (s': Sys)
    requires Fit(s) && id in s.db.identities && x in s.calls && y in s.calls
    requires WritesStatus(s.calls[x], id) && Ready(s.calls[y], id) && Aim(s.calls[x]) != Aim(s.calls[y])
    ensures Leads(s, strict, s') && !Matches(s', id)
  {
    hide Next, Fit, Fold, Leads, Matches;
    var s1 := Next(s, strict, Do(x, ANY));
    DoEffect(s, strict, x, ANY, id);
    if Owes(s.calls[y], id) {
      s' := PayLast(s1, strict, id, y);
    } else {
      var s2 := Next(s1, strict, Do(y, ANY));
      DoEffect(s1, strict, y, ANY, id);
      s' := PayLast(s2, strict, id, x);
      LeadsVia(s1, strict, y, ANY, s');
    }
    LeadsVia(s, strict, x, ANY, s');
  }

  lemma Clash(s: Sys, strict: bool, id: Id, x: nat, y: nat) returns (s': Sys)
    requires Fit(s) && id in s.db.identities && x in s.calls && y in s.calls
    requires Ready(s.calls[x], id) && Ready(s.calls[y], id) && Aim(s.calls[x]) != Aim(s.calls[y])
    ensures Leads(s, strict, s') && !Matches(s', id)
  {
    hide Fit, Leads, Matches;
    if WritesStatus(s.calls[x], id) {
      s' := ClashWriter(s, strict, id, x, y);
    } else if WritesStatus(s.calls[y], id) {
      s' := ClashWriter(s, strict, id, y, x);
    } else {
      s' := PayLast(s, strict, id, if Aim(s.calls[x]) != s.db.identities[id].status then x else y);
    }
  }

  /** Same status and tenant of the identity; of its calls only this one has moved, and key revocations have joined. */
  ghost predicate Moved(s: Sys, s': Sys, id: Id, t: nat) {
    && id in s.db.identities && id in s'.db.identities && t in s.calls && t in s'.calls
    && (forall u :: u in s.calls && u != t ==> u in s'.calls && s'.calls[u] == s.calls[u])
    && (forall u :: u in s'.calls && u !in s.calls ==> s'.calls[u].Revoking?)
    && s'.db.identities[id].status == s.db.identities[id].status
    && s'.db.identities[id].tenant == s.db.identities[id].tenant
  }

  lemma MovedTrans(s: Sys, s1: Sys, s2: Sys, id: Id, t: nat)
    requires Moved(s, s1, id, t) && Moved(s1, s2, id, t)
    ensures Moved(s, s2, id, t)
  {
  }

  lemma RiseStep(db: Db, strict: bool, pc: Pc, w: World, id: Id)
    requires Rising(pc, id) && id != "" && id in db.identities && w.id !in db.keys && !HasActive(db, id, Signing)
    ensures var pc' := Plan(db, strict, pc, w).1;
            (Rising(pc', id) || WritesStatus(pc', id)) && Rank(pc') < Rank(pc) && pc'.Creating?
  {
    hide Ref, HasActive, PlanChange, PlanUpdate, PlanGenerate, PlanRotate, PlanRevoke, PlanRegister;
  }

  lemma {:induction false} Raise(s: Sys, strict: bool, id: Id, t: nat) returns (s': Sys)
    requires Fit(s) && id != "" && id in s.db.identities && t in s.calls && Rising(s.calls[t], id)
    ensures Leads(s, strict, s') && Fit(s') && Moved(s, s', id, t)
    ensures s'.calls[t].Creating? && WritesStatus(s'.calls[t], id)
    decreases Rank(s.calls[t])
  {
    var s0 := Clear(s, strict, id, t);
    var key := FreshId(s0.db.keys.Keys);
    var w := World(key, 0);
    var s1 := Next(s0, strict, Do(t, w));
    DoEffect(s0, strict, t, w, id);
    RiseStep(s0.db, strict, s0.calls[t], w, id);
    hide Plan, Apply, Fit, Fold, Leads, Rank, HasActive;
    assert Moved(s0, s1, id, t);
    hide Moved;
    MovedTrans(s, s0, s1, id, t);
    if WritesStatus(s1.calls[t], id) {
      s' := s1;
      LeadsSelf(s1, strict);
    } else {
      s' := Raise(s1, strict, id, t);
      MovedTrans(s, s1, s', id, t);
    }
    LeadsVia(s0, strict, t, w, s');
    LeadsTrans(s, strict, s0, s');
  }

  /** Revokes the keys that could hold up the insertion of the identity's first one. */
  lemma Clear(s: Sys, strict: bool, id: Id, t: nat) returns (s': Sys)
    requires Fit(s) && id in s.db.identities && t in s.calls
    ensures Leads(s, strict, s') && Fit(s') && Moved(s, s', id, t) && s'.calls[t] == s.calls[t]
    ensures !HasActive(s'.db, id, Signing)
  {
    hide After, Fit, HasActive, StatusFree;
    var acts;
    acts, s' := Unblock(s, strict, id, Signing);
  }

  /** Brings a call that matters, unless it waits for a terminal identity, to owe or be about to write. */
  lemma ArmOne(s: Sys, strict: bool, id: Id, t: nat) returns (s': Sys)
    requires Fit(s) && id != "" && id in s.db.identities && Concerned(s, t, id)
    requires Terminal(s.db, id) ==> !Waiting(s, s.calls[t], id)
    ensures Leads(s, strict, s') && Fit(s') && Moved(s, s', id, t)
    ensures Ready(s'.calls[t], id) && Aim(s'.calls[t]) == Aim(s.calls[t])
    ensures Revives(s.calls[t], id) ==> WritesStatus(s'.calls[t], id) && Revives(s'.calls[t], id)
    ensures s' == s || !Terminal(s.db, id) || Revives(s'.calls[t], id)
  {
    hide Leads, Fit;
    var pc := s.calls[t];
    if Ready(pc, id) {
      s' := s;
      LeadsSelf(s, strict);
    } else if Rising(pc, id) {
      s' := Raise(s, strict, id, t);
    } else {
      s' := Next(s, strict, Do(t, ANY));
      GuardStep(s, strict, t, ANY, pc.tenant, id, pc.target);
      FitStep(s, strict, Do(t, ANY));
      LeadsSelf(s', strict);
      LeadsVia(s, strict, t, ANY, s');
      hide Exec;
    }
  }

  /** Other calls that matter still do. */
  lemma ConcernKept(s: Sys, s': Sys, id: Id, t: nat, u: nat)
    requires Moved(s, s', id, t) && (s' == s || !Terminal(s.db, id) || Revives(s'.calls[t], id))
    requires Concerned(s, u, id) && u != t
    ensures Concerned(s', u, id) && s'.calls[u] == s.calls[u] && Terminal(s'.db, id) == Terminal(s.db, id)
    ensures Waiting(s', s'.calls[u], id) <==> Waiting(s, s.calls[u], id)
  {
    assert s' != s && Waiting(s, s.calls[u], id) && Terminal(s.db, id) ==> !Settled(s', id);
    hide Revives;
  }

  /** Two calls bound for different statuses can be brought to clash. */
  lemma AimsClash(s: Sys, strict: bool, id: Id, x: nat, y: nat) returns (s': Sys)
    requires Fit(s) && id != "" && id in s.db.identities
    requires Concerned(s, x, id) && Concerned(s, y, id) && Aim(s.calls[x]) != Aim(s.calls[y])
    ensures Leads(s, strict, s') && !Matches(s', id)
  {
    hide Leads, Fit, Matches;
    if Terminal(s.db, id) && (Waiting(s, s.calls[x], id) || Waiting(s, s.calls[y], id)) {
      var r :| r in s.calls && Revives(s.calls[r], id);
      s' := ReviverClash(s, strict, id, r, if Aim(s.calls[r]) != Aim(s.calls[x]) then x else y);
    } else {
      var s1 := ArmOne(s, strict, id, x);
      ConcernKept(s, s1, id, x, y);
      hide Concerned, Waiting, Rising, Revives, Ready;
      var s2 := ArmOne(s1, strict, id, y);
      s' := Clash(s2, strict, id, x, y);
      LeadsTrans(s1, strict, s2, s');
      LeadsTrans(s, strict, s1, s');
    }
  }

  lemma ReviverClash(s: Sys, strict: bool, id: Id, r: nat, z: nat) returns (s': Sys)
    requires Fit(s) && id != "" && id in s.db.identities
    requires r in s.calls && Revives(s.calls[r], id) && Concerned(s, z, id) && Aim(s.calls[r]) != Aim(s.calls[z])
    ensures Leads(s, strict, s') && !Matches(s', id)
  {
    hide Leads, Fit, Matches;
    assert Concerned(s, r, id) && !Waiting(s, s.calls[r], id);
    var s1 := ArmOne(s, strict, id, r);
    ConcernKept(s, s1, id, r, z);
    if Terminal(s1.db, id) && Waiting(s1, s1.calls[z], id) {
      var s2 := Next(s1, strict, Do(r, ANY));
      DoEffect(s1, strict, r, ANY, id);
      hide Next;
      assert Waiting(s2, s2.calls[z], id) && !Terminal(s2.db, id);
      var s3 := ArmOne(s2, strict, id, z);
      s' := Clash(s3, strict, id, r, z);
      LeadsTrans(s2, strict, s3, s');
      LeadsVia(s1, strict, r, ANY, s');
    } else {
      var s3 := ArmOne(s1, strict, id, z);
      s' := Clash(s3, strict, id, r, z);
      LeadsTrans(s1, strict, s3, s');
    }
    LeadsTrans(s, strict, s1, s');
  }

  // ---------- Main result ----------

  /**
   From a reachable state, in every way the calls in flight may go on among new calls that write no
   status, the fold is the status whenever nothing is outstanding, exactly if what is owed and what
   is told now is the status and all calls that can still write it are bound for one status.
   */
  lemma ReliableExact(s: Sys, strict: bool, id: Id)
    requires Reachable(s, strict) && id in s.db.identities && id != ""
    ensures Reliable(s, strict, id) <==> Agreed(s, id)
  {
    hide After, Fold, Rising, Waiting, Ready;
    LifecycleRows(s, strict);
    if Agreed(s, id) {
      forall s' | Leads(s, strict, s') ensures Matches(s', id) {
        var acts :| StatusFree(acts) && After(s, strict, acts) == Some(s');
        AgreedRun(s, strict, acts, id);
      }
    } else if !Matches(s, id) {
      LeadsSelf(s, strict);
    } else if !DebtsRight(s, id) {
      var t :| t in s.calls && Owes(s.calls[t], id) && Aim(s.calls[t]) != s.db.identities[id].status;
      var s' := PayLast(s, strict, id, t);
    } else {
      var x, y :| Concerned(s, x, id) && Concerned(s, y, id) && Aim(s.calls[x]) != Aim(s.calls[y]);
      var s' := AimsClash(s, strict, id, x, y);
    }
  }
}
