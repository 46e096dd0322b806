/**
 Runs of whole session operations, as timed traces. The per-identity index is compared with the
 plain scan it stands for: the exact condition is that the index key has not lapsed, that is, no
 full TTL has passed without a Create for the identity, since the session was created.
 */
module SessionRuns {
  import opened Basics
  import opened Keyspace
  import opened Sessions

  ghost predicate Monotone(tr: seq<Event>) {
    forall i, j :: 0 <= i < j < |tr| ==> tr[i].at <= tr[j].at
  }

  /** Session ids are never issued twice. */
  ghost predicate Fresh(tr: seq<Event>) {
    forall i, j :: 0 <= i < j < |tr| && tr[i].op.Create? && tr[j].op.Create?
      ==> tr[i].op.data.sessionId != tr[j].op.data.sessionId
  }

  ghost predicate Trace(tr: seq<Event>, now: int) {
    Monotone(tr) && Fresh(tr) && (tr != [] ==> tr[|tr| - 1].at <= now)
  }

  predicate Creates(e: Event, id: Id) { e.op.Create? && e.op.data.sessionId == id }

  predicate CreatesFor(e: Event, who: Id) { e.op.Create? && e.op.data.identityId == who }

  function TimeAt(tr: seq<Event>, p: nat, now: int): int { if p < |tr| then tr[p].at else now }

  /** At position p every earlier Create for the identity is at least a full TTL in the past. */
  ghost predicate LapsedAt(tr: seq<Event>, who: Id, ttl: int, p: nat, now: int)
    requires p <= |tr|
  {
    forall j :: 0 <= j < p && CreatesFor(tr[j], who) ==> tr[j].at + ttl <= TimeAt(tr, p, now)
  }

  /** The identity's index key has lapsed at some point after event i. */
  ghost predicate Lapsed(tr: seq<Event>, i: nat, who: Id, ttl: int, now: int) {
    exists p :: i < p <= |tr| && LapsedAt(tr, who, ttl, p, now)
  }

  // ---------- Ownership ----------

  function Owner(tr: seq<Event>, id: Id): Option<Id> {
    if tr == [] then None
    else if Creates(tr[|tr| - 1], id) then Some(tr[|tr| - 1].op.data.identityId)
    else Owner(tr[..|tr| - 1], id)
  }

  ghost predicate SessionsOwned(tr: seq<Event>, st: Stores) {
    forall id :: id in st.sessions ==>
      st.sessions[id].data.sessionId == id && Owner(tr, id) == Some(st.sessions[id].data.identityId)
  }

  ghost predicate IndexOwned(tr: seq<Event>, st: Stores) {
    forall who, id :: who in st.index && id in st.index[who].ids ==> Owner(tr, id) == Some(who)
  }

  ghost predicate Owned(tr: seq<Event>, st: Stores) {
    SessionsOwned(tr, st) && IndexOwned(tr, st)
  }

  lemma {:induction false} OwnerAt(tr: seq<Event>, i: nat)
    requires Fresh(tr) && i < |tr| && tr[i].op.Create?
    ensures Owner(tr, tr[i].op.data.sessionId) == Some(tr[i].op.data.identityId)
  {
    var n := |tr| - 1;
    if i < n { OwnerAt(tr[..n], i); }
  }

  lemma {:induction false} OwnerFrom(tr: seq<Event>, id: Id) returns (i: nat)
    requires Owner(tr, id).Some?
    ensures i < |tr| && Creates(tr[i], id) && Owner(tr, id) == Some(tr[i].op.data.identityId)
  {
    var n := |tr| - 1;
    if Creates(tr[n], id) { i := n; } else { i := OwnerFrom(tr[..n], id); }
  }

  lemma OwnerMonotone(tr: seq<Event>, id: Id)
    requires tr != [] && Fresh(tr) && Owner(tr[..|tr| - 1], id).Some?
    ensures Owner(tr, id) == Owner(tr[..|tr| - 1], id)
  {
    var i := OwnerFrom(tr[..|tr| - 1], id);
  }

  ghost predicate Extends(pre: seq<Event>, tr: seq<Event>) {
    forall id :: Owner(pre, id).Some? ==> Owner(tr, id) == Owner(pre, id)
  }

  /** A step stores the session it creates; every other stored session keeps its identity. */
  lemma SessionGrowth(st: Stores, ttl: int, e: Event, id: Id)
    requires id in Step(st, ttl, e.op, e.at).sessions
    ensures var data := Step(st, ttl, e.op, e.at).sessions[id].data;
            if Creates(e, id) then data == e.op.data
            else id in st.sessions && data == st.sessions[id].data.(lastSeenAt := data.lastSeenAt)
  {
  }

  /** A step links at most the session it creates. */
  lemma IndexGrowth(st: Stores, ttl: int, e: Event, who: Id, id: Id)
    requires who in Step(st, ttl, e.op, e.at).index && id in Step(st, ttl, e.op, e.at).index[who].ids
    ensures (who in st.index && id in st.index[who].ids) || (Creates(e, id) && e.op.data.identityId == who)
  {
  }

  lemma OwnedStep(pre: seq<Event>, tr: seq<Event>, st: Stores, ttl: int, e: Event)
    requires Owned(pre, st) && Extends(pre, tr)
    requires e.op.Create? ==> Owner(tr, e.op.data.sessionId) == Some(e.op.data.identityId)
    ensures Owned(tr, Step(st, ttl, e.op, e.at))
  {
    hide Owner, Step;
    var st' := Step(st, ttl, e.op, e.at);
    forall id | id in st'.sessions
      ensures st'.sessions[id].data.sessionId == id && Owner(tr, id) == Some(st'.sessions[id].data.identityId)
    {
      SessionGrowth(st, ttl, e, id);
    }
    forall who, id | who in st'.index && id in st'.index[who].ids ensures Owner(tr, id) == Some(who) {
      IndexGrowth(st, ttl, e, who, id);
    }
  }

  lemma {:induction false} RunOwned(tr: seq<Event>, ttl: int)
    requires Fresh(tr)
    ensures Owned(tr, Run(tr, ttl))
  {
    if tr != [] {
      hide Step, Owned;
      var n := |tr| - 1;
      RunOwned(tr[..n], ttl);
      forall id | Owner(tr[..n], id).Some? ensures Owner(tr, id) == Owner(tr[..n], id) {
        OwnerMonotone(tr, id);
      }
      OwnedStep(tr[..n], tr, Run(tr[..n], ttl), ttl, tr[n]);
    } else {
      assert Owned([], EMPTY);
    }
  }

  /** Whatever is linked in an identity's index and still live is a session of that identity. */
  lemma IndexedBelongs(tr: seq<Event>, ttl: int, now: int, who: Id, id: Id)
    requires Trace(tr, now)
    requires id in Indexed(Run(tr, ttl), now, who) && Live(Run(tr, ttl), now, id)
    ensures Run(tr, ttl).sessions[id].data.identityId == who
  {
    hide Run;
    RunOwned(tr, ttl);
  }

  // ---------- Exact coverage ----------

  /** Only its own Create brings a session to life; everything else can at most keep it alive. */
  lemma LiveBack(st: Stores, ttl: int, e: Event, id: Id)
    requires !Creates(e, id) && id in Step(st, ttl, e.op, e.at).sessions
    ensures id in st.sessions
    ensures Live(Step(st, ttl, e.op, e.at), e.at, id) ==> Live(st, e.at, id)
  {
  }

  /** An event that creates nothing for the identity neither links nor unlinks its live sessions, DeleteAll apart. */
  lemma IndexedFrame(st: Stores, ttl: int, e: Event, who: Id, id: Id, now: int)
    requires ttl > 0 && e.at <= now && !CreatesFor(e, who) && e.op != DeleteAll(who)
    requires Live(st, e.at, id) && Live(Step(st, ttl, e.op, e.at), e.at, id)
    ensures id in Indexed(Step(st, ttl, e.op, e.at), now, who) <==> id in Indexed(st, now, who)
  {
  }

  lemma IndexedCreate(st: Stores, ttl: int, data: SessionData, at: int, now: int)
    requires ttl > 0 && at <= now
    ensures Indexed(CreateStep(st, ttl, data, at), now, data.identityId)
            == if now < at + ttl then Indexed(st, at, data.identityId) + {data.sessionId} else {}
  {
  }

  /** Events that create nothing for the identity do not change whether it has lapsed. */
  lemma LapsedFrame(tr: seq<Event>, i: nat, who: Id, ttl: int, now: int)
    requires tr != [] && i < |tr| - 1 && tr[|tr| - 1].at <= now && !CreatesFor(tr[|tr| - 1], who)
    ensures Lapsed(tr, i, who, ttl, now) <==> Lapsed(tr[..|tr| - 1], i, who, ttl, now)
  {
    var n := |tr| - 1;
    var pre := tr[..n];
    if Lapsed(pre, i, who, ttl, now) {
      var p :| i < p <= n && LapsedAt(pre, who, ttl, p, now);
      var q := if p == n then n + 1 else p;
      assert LapsedAt(tr, who, ttl, q, now);
    }
    if Lapsed(tr, i, who, ttl, now) {
      var p :| i < p <= n + 1 && LapsedAt(tr, who, ttl, p, now);
      var q := if p > n then n else p;
      assert forall j :: 0 <= j < q ==> tr[j] == pre[j];
      assert LapsedAt(pre, who, ttl, q, now);
    }
  }

  /** A lapse before or at the last event stays a lapse; after a Create only its own TTL counts. */
  lemma LapsedCreate(tr: seq<Event>, i: nat, who: Id, ttl: int, now: int)
    requires Monotone(tr) && tr != [] && i < |tr| - 1
    ensures Lapsed(tr[..|tr| - 1], i, who, ttl, tr[|tr| - 1].at) ==> Lapsed(tr, i, who, ttl, now)
    ensures CreatesFor(tr[|tr| - 1], who) ==>
      (Lapsed(tr, i, who, ttl, now)
       <==> Lapsed(tr[..|tr| - 1], i, who, ttl, tr[|tr| - 1].at) || tr[|tr| - 1].at + ttl <= now)
  {
    var n := |tr| - 1;
    var pre, t := tr[..n], tr[n].at;
    if Lapsed(pre, i, who, ttl, t) {
      var p :| i < p <= n && LapsedAt(pre, who, ttl, p, t);
      assert LapsedAt(tr, who, ttl, p, now);
    }
    if CreatesFor(tr[n], who) {
      if t + ttl <= now {
        assert LapsedAt(tr, who, ttl, n + 1, now);
      }
      if Lapsed(tr, i, who, ttl, now) {
        var p :| i < p <= n + 1 && LapsedAt(tr, who, ttl, p, now);
        if p <= n {
          assert forall j :: 0 <= j < p ==> tr[j] == pre[j];
          assert LapsedAt(pre, who, ttl, p, t);
        }
      }
    }
  }

  lemma LapsedSelf(tr: seq<Event>, who: Id, ttl: int, now: int)
    requires Monotone(tr) && tr != [] && CreatesFor(tr[|tr| - 1], who)
    ensures Lapsed(tr, |tr| - 1, who, ttl, now) <==> tr[|tr| - 1].at + ttl <= now
  {
    if tr[|tr| - 1].at + ttl <= now {
      assert LapsedAt(tr, who, ttl, |tr|, now);
    }
  }

  /**
   A session still alive at the last event is in its identity's index, at any later instant,
   exactly when the index key has not lapsed since the session was created.
   */
  lemma {:induction false} CoverageAt(tr: seq<Event>, ttl: int, i: nat, now: int)
    requires ttl > 0 && Trace(tr, now) && i < |tr| && tr[i].op.Create?
    requires Live(Run(tr, ttl), tr[|tr| - 1].at, tr[i].op.data.sessionId)
    ensures tr[i].op.data.sessionId in Indexed(Run(tr, ttl), now, tr[i].op.data.identityId)
            <==> !Lapsed(tr, i, tr[i].op.data.identityId, ttl, now)
  {
    hide Lapsed, Indexed, CreateStep;
    var n := |tr| - 1;
    var pre, e := tr[..n], tr[n];
    var st := Run(pre, ttl);
    var id, who := tr[i].op.data.sessionId, tr[i].op.data.identityId;
    if i == n {
      IndexedCreate(st, ttl, e.op.data, e.at, now);
      LapsedSelf(tr, who, ttl, now);
    } else {
      assert pre[i] == tr[i] && !Creates(e, id);
      LiveBack(st, ttl, e, id);
      assert Live(st, pre[n - 1].at, id);
      LapsedCreate(tr, i, who, ttl, now);
      if CreatesFor(e, who) {
        CoverageAt(pre, ttl, i, e.at);
        IndexedCreate(st, ttl, e.op.data, e.at, now);
      } else if e.op == DeleteAll(who) && Indexed(st, e.at, who) != {} {
        CoverageAt(pre, ttl, i, e.at);
        DeleteAllEmpties(st, who, e.at, now);
      } else {
        CoverageAt(pre, ttl, i, now);
        LapsedFrame(tr, i, who, ttl, now);
        if e.op != DeleteAll(who) {
          IndexedFrame(st, ttl, e, who, id, now);
        }
      }
    }
  }

  lemma DeleteAllEmpties(st: Stores, who: Id, at: int, now: int)
    requires Indexed(st, at, who) != {}
    ensures Indexed(DeleteAllStep(st, who, at), now, who) == {}
    ensures forall id :: id in Indexed(st, at, who) ==> id !in DeleteAllStep(st, who, at).sessions
  {
  }

  /** Exact index coverage for sessions live now. */
  lemma Coverage(tr: seq<Event>, ttl: int, i: nat, now: int)
    requires ttl > 0 && Trace(tr, now) && i < |tr| && tr[i].op.Create?
    requires Live(Run(tr, ttl), now, tr[i].op.data.sessionId)
    ensures tr[i].op.data.sessionId in Indexed(Run(tr, ttl), now, tr[i].op.data.identityId)
            <==> !Lapsed(tr, i, tr[i].op.data.identityId, ttl, now)
  {
    hide Run, Lapsed, Indexed;
    CoverageAt(tr, ttl, i, now);
  }

  // ---------- The scan the index stands for ----------

  function Scan(st: Stores, now: int, who: Id): set<Id> {
    set id | id in st.sessions && Live(st, now, id) && st.sessions[id].data.identityId == who
  }

  function Reached(st: Stores, now: int, who: Id): set<Id> {
    set id | id in Indexed(st, now, who) && Live(st, now, id)
  }

  ghost predicate NoLapse(tr: seq<Event>, ttl: int, now: int, who: Id) {
    forall i :: 0 <= i < |tr| && CreatesFor(tr[i], who) && Live(Run(tr, ttl), now, tr[i].op.data.sessionId)
      ==> !Lapsed(tr, i, who, ttl, now)
  }

  /** What the index reaches is always part of the scan, and is all of it exactly when nothing lapsed. */
  lemma IndexRefinesScan(tr: seq<Event>, ttl: int, now: int, who: Id)
    requires ttl > 0 && Trace(tr, now)
    ensures Reached(Run(tr, ttl), now, who) <= Scan(Run(tr, ttl), now, who)
    ensures Reached(Run(tr, ttl), now, who) == Scan(Run(tr, ttl), now, who) <==> NoLapse(tr, ttl, now, who)
  {
    hide Run, Lapsed, Indexed;
    var st := Run(tr, ttl);
    RunOwned(tr, ttl);
    forall id | id in Reached(st, now, who) ensures id in Scan(st, now, who) {
      IndexedBelongs(tr, ttl, now, who, id);
    }
    forall i | 0 <= i < |tr| && CreatesFor(tr[i], who) && Live(st, now, tr[i].op.data.sessionId)
      ensures tr[i].op.data.sessionId in Scan(st, now, who)
      ensures tr[i].op.data.sessionId in Reached(st, now, who) <==> !Lapsed(tr, i, who, ttl, now)
    {
      OwnerAt(tr, i);
      Coverage(tr, ttl, i, now);
    }
    if NoLapse(tr, ttl, now, who) {
      forall id | id in Scan(st, now, who) ensures id in Reached(st, now, who) {
        var i := OwnerFrom(tr, id);
      }
    }
  }

  /** ListByIdentity returns the scanned sessions, no more, and all of them exactly when nothing lapsed. */
  lemma ListExact(tr: seq<Event>, ttl: int, now: int, who: Id)
    requires ttl > 0 && Trace(tr, now)
    ensures var st := Run(tr, ttl);
            var scanned := set id | id in Scan(st, now, who) :: st.sessions[id].data;
            && Listed(st, now, who) <= scanned
            && (Listed(st, now, who) == scanned <==> NoLapse(tr, ttl, now, who))
  {
    hide Run, NoLapse, Indexed;
    var st := Run(tr, ttl);
    RunOwned(tr, ttl);
    IndexRefinesScan(tr, ttl, now, who);
    var scanned := set id | id in Scan(st, now, who) :: st.sessions[id].data;
    assert Listed(st, now, who) == set id | id in Reached(st, now, who) :: st.sessions[id].data;
    if Listed(st, now, who) == scanned {
      forall id | id in Scan(st, now, who) ensures id in Reached(st, now, who) {
        assert st.sessions[id].data in scanned;
        var x :| x in Reached(st, now, who) && st.sessions[x].data == st.sessions[id].data;
      }
    }
  }

  /** The clean-up in ListByIdentity leaves of the identity's index exactly the live ids, and touches nothing else. */
  lemma ListUnlinksDead(st: Stores, now: int, who: Id, other: Id)
    ensures Indexed(ListStep(st, who, now), now, who) == set id | id in Indexed(st, now, who) && Live(st, now, id)
    ensures other != who ==> Indexed(ListStep(st, who, now), now, other) == Indexed(st, now, other)
    ensures ListStep(st, who, now).sessions == st.sessions && ListStep(st, who, now).challenges == st.challenges
  {
    assert Indexed(st, now, who) - Stale(st, now, who) == set id | id in Indexed(st, now, who) && Live(st, now, id);
  }

  /** DeleteAll never touches another identity, and logs the identity out everywhere exactly when nothing lapsed. */
  lemma DeleteAllExact(tr: seq<Event>, ttl: int, now: int, who: Id)
    requires ttl > 0 && Trace(tr, now)
    ensures var st, after := Run(tr, ttl), DeleteAllStep(Run(tr, ttl), who, now);
            && (forall id :: id in st.sessions && Owner(tr, id) != Some(who) ==> id in after.sessions && after.sessions[id] == st.sessions[id])
            && (forall other :: other != who ==> Indexed(after, now, other) == Indexed(st, now, other))
            && (Scan(after, now, who) == {} <==> NoLapse(tr, ttl, now, who))
  {
    hide Run, NoLapse, Owner;
    var st, after := Run(tr, ttl), DeleteAllStep(Run(tr, ttl), who, now);
    RunOwned(tr, ttl);
    IndexRefinesScan(tr, ttl, now, who);
    assert Scan(after, now, who) == Scan(st, now, who) - Indexed(st, now, who);
    var rest := Scan(st, now, who) - Reached(st, now, who);
    assert Scan(st, now, who) - Indexed(st, now, who) == rest;
    assert Scan(st, now, who) == Reached(st, now, who) + rest;
    assert rest == {} ==> Scan(st, now, who) == Reached(st, now, who);
  }

  /** The plain statement fails: a session kept alive by Get outlives its index entry and survives DeleteAll. */
  lemma LapseWitness(data: SessionData, ttl: int)
    requires ttl > 1
    ensures var tr := [Event(Create(data), 0), Event(Get(data.sessionId), ttl - 1)];
            && Trace(tr, ttl)
            && Live(Run(tr, ttl), ttl, data.sessionId)
            && Listed(Run(tr, ttl), ttl, data.identityId) == {}
            && Live(DeleteAllStep(Run(tr, ttl), data.identityId, ttl), ttl, data.sessionId)
  {
    var e0, e1 := Event(Create(data), 0), Event(Get(data.sessionId), ttl - 1);
    var tr := [e0, e1];
    assert tr[..1] == [e0] && [e0][..0] == [];
    assert Run([], ttl) == EMPTY;
    var s1 := Run([e0], ttl);
    assert s1 == CreateStep(EMPTY, ttl, data, 0);
    var s2 := Run(tr, ttl);
    assert s2 == GetStep(s1, ttl, data.sessionId, ttl - 1);
    assert Indexed(s2, ttl, data.identityId) == {};
  }

  // ---------- Revocation ----------

  /** Once an issued session is out of the store, no continuation of the run brings it back. */
  lemma {:induction false} RevocationFinal(tr: seq<Event>, more: seq<Event>, ttl: int, id: Id)
    requires Fresh(tr + more)
    requires Owner(tr, id).Some? && id !in Run(tr, ttl).sessions
    ensures id !in Run(tr + more, ttl).sessions
    decreases |more|
  {
    if more == [] {
      assert tr + more == tr;
    } else {
      var n := |more| - 1;
      var front := tr + more[..n];
      assert (tr + more)[..|tr| + n] == front && (tr + more)[|tr| + n] == more[n];
      RevocationFinal(tr, more[..n], ttl, id);
      var i := OwnerFrom(tr, id);
      assert (tr + more)[i] == tr[i];
      assert !Creates(more[n], id);
      if id in Run(tr + more, ttl).sessions {
        LiveBack(Run(front, ttl), ttl, more[n], id);
      }
    }
  }

  /** Delete of a live session, and DeleteAll of an identity whose index reaches it, take it out of the store. */
  lemma RevocationRemoves(st: Stores, now: int, id: Id, who: Id)
    ensures Live(st, now, id) ==> id !in DeleteStep(st, id, now).sessions
    ensures id in Indexed(st, now, who) ==> id !in DeleteAllStep(st, who, now).sessions
  {
  }

  // ---------- Answers ----------

  lemma {:induction false} AnswerAt(tr: seq<Event>, ttl: int, n: nat)
    requires n < |tr|
    ensures |Answers(tr, ttl)| == |tr| && Answers(tr, ttl)[n] == Respond(Run(tr[..n], ttl), tr[n].op, tr[n].at)
    decreases |tr|
  {
    hide Respond, Step;
    var m := |tr| - 1;
    if n < m {
      AnswerAt(tr[..m], ttl, n);
      assert tr[..m][..n] == tr[..n] && tr[..m][n] == tr[n];
    } else if m > 0 {
      AnswerAt(tr[..m], ttl, 0);
    }
  }

  /** In every run Delete answers Done exactly for a live session, and NotFound for every other. */
  lemma DeleteAnswered(tr: seq<Event>, ttl: int, n: nat, id: Id)
    requires n < |tr| && tr[n].op == Delete(id)
    ensures |Answers(tr, ttl)| == |tr|
    ensures var st := Run(tr[..n], ttl);
            Answers(tr, ttl)[n] == if id in st.sessions && tr[n].at < st.sessions[id].deadline then Done else NotFound
  {
    AnswerAt(tr, ttl, n);
    hide Run, Answers;
  }

  /**
   A session is read back as it was written, seen at the time of reading, until a TTL after it was
   last created or read, and not after its deletion.
   */
  lemma ReadBack(st: Stores, ttl: int, data: SessionData, id: Id, now: int, later: int)
    requires now <= later
    ensures Respond(CreateStep(st, ttl, data, now), Get(data.sessionId), later)
            == if later < now + ttl then Found(data.(lastSeenAt := later)) else NotFound
    ensures Live(st, now, id) ==>
      Respond(GetStep(st, ttl, id, now), Get(id), later)
      == if later < now + ttl then Found(st.sessions[id].data.(lastSeenAt := later)) else NotFound
    ensures !Live(st, now, id) ==> GetStep(st, ttl, id, now) == st && Respond(st, Get(id), now) == NotFound
    ensures Respond(DeleteStep(st, id, now), Get(id), later) == NotFound
  {
  }
}
