/**
 The session operations at the grain of single Redis commands. Pipelines are not transactions, so
 commands of different requests interleave freely and any request may stop half-way. Revocation is
 final exactly when no write of the revoked session is still on its way.
 */
module SessionSteps {
  import opened Basics
  import opened Keyspace
  import opened Sessions

  /** The next command of a request in flight, with the values it has read so far. */
  datatype Pc =
    | CreateSet(data: SessionData) | CreateAdd(data: SessionData) | CreateExpire(data: SessionData)
    | GetRead(id: Id) | GetWrite(id: Id, data: SessionData)
    | DelRead(id: Id) | DelKey(id: Id, who: Id) | DelUnlink(id: Id, who: Id)
    | AllRead(who: Id) | AllDel(who: Id, todo: set<Id>) | AllIndex(who: Id)
    | ListRead(who: Id) | ListGet(who: Id, todo: set<Id>) | ListUnlink(who: Id, todo: set<Id>, id: Id)
    | Finished

  function Start(op: Op): Pc
    requires !op.PutChallenge? && !op.TakeChallenge?
  {
    match op
    case Create(data) => CreateSet(data)
    case Get(id) => GetRead(id)
    case Delete(id) => DelRead(id)
    case DeleteAll(who) => AllRead(who)
    case List(who) => ListRead(who)
  }

  function AfterDel(who: Id, todo: set<Id>): Pc {
    if todo == {} then AllIndex(who) else AllDel(who, todo)
  }

  function AfterList(who: Id, todo: set<Id>): Pc {
    if todo == {} then Finished else ListGet(who, todo)
  }

  /** One command. The pick is the set member whose turn it is, where the request loops over one. */
  function Exec(st: Stores, ttl: int, now: int, pc: Pc, pick: Id): (Stores, Pc) {
    match pc
    case CreateSet(data) => (SetSession(st, data.sessionId, data, now + ttl), CreateAdd(data))
    case CreateAdd(data) => (SAdd(st, now, data.identityId, data.sessionId), CreateExpire(data))
    case CreateExpire(data) => (Expire(st, now, data.identityId, now + ttl), Finished)
    case GetRead(id) =>
      (match Session(st, now, id) case None => (st, Finished) case Some(d) => (st, GetWrite(id, d.(lastSeenAt := now))))
    case GetWrite(id, data) => (SetSession(st, id, data, now + ttl), Finished)
    case DelRead(id) =>
      (match Session(st, now, id) case None => (st, Finished) case Some(d) => (st, DelKey(id, d.identityId)))
    case DelKey(id, who) => (DelSession(st, id), DelUnlink(id, who))
    case DelUnlink(id, who) => (SRem(st, now, who, id), Finished)
    case AllRead(who) =>
      var ids := Indexed(st, now, who);
      (st, if ids == {} then Finished else AllDel(who, ids))
    case AllDel(who, todo) =>
      if pick in todo then (DelSession(st, pick), AfterDel(who, todo - {pick})) else (st, pc)
    case AllIndex(who) => (DelIndex(st, who), Finished)
    case ListRead(who) => (st, AfterList(who, Indexed(st, now, who)))
    case ListGet(who, todo) =>
      if pick !in todo then (st, pc)
      else if Live(st, now, pick) then (st, AfterList(who, todo - {pick}))
      else (st, ListUnlink(who, todo - {pick}, pick))
    case ListUnlink(who, todo, id) => (SRem(st, now, who, id), AfterList(who, todo))
    case Finished => (st, Finished)
  }

  // ---------- Interleaved runs ----------

  datatype Sys = Sys(st: Stores, now: int, owner: map<Id, Id>, threads: map<nat, Pc>)

  datatype Action = Begin(t: nat, op: Op) | Do(t: nat, pick: Id) | Drop(t: nat) | Tick(dt: nat)

  /** A request may start at any time; session ids handed to Create are fresh. */
  predicate Enabled(s: Sys, a: Action) {
    match a
    case Begin(t, op) =>
      t !in s.threads && !op.PutChallenge? && !op.TakeChallenge? && (op.Create? ==> op.data.sessionId !in s.owner)
    case Do(t, _) => t in s.threads
    case Drop(t) => t in s.threads
    case Tick(_) => true
  }

  function Next(s: Sys, ttl: int, a: Action): Sys
    requires Enabled(s, a)
  {
    match a
    case Begin(t, op) =>
      var owner' := if op.Create? then s.owner[op.data.sessionId := op.data.identityId] else s.owner;
      s.(threads := s.threads[t := Start(op)], owner := owner')
    case Do(t, pick) =>
      var (st', pc') := Exec(s.st, ttl, s.now, s.threads[t], pick);
      s.(st := st', threads := s.threads[t := pc'])
    case Drop(t) => s.(threads := s.threads - {t})
    case Tick(dt) => s.(now := s.now + dt)
  }

  /** The state after a sequence of actions, if each is enabled in turn. */
  function After(s: Sys, ttl: int, acts: seq<Action>): Option<Sys>
    decreases |acts|
  {
    if acts == [] then Some(s)
    else if !Enabled(s, acts[0]) then None
    else After(Next(s, ttl, acts[0]), ttl, acts[1..])
  }

  const START := Sys(EMPTY, 0, map[], map[])

  ghost predicate Reachable(s: Sys, ttl: int) {
    exists acts :: After(START, ttl, acts) == Some(s)
  }

  // ---------- Ownership at command grain ----------

  predicate Owns(owner: map<Id, Id>, who: Id, id: Id) {
    id in owner && owner[id] == who
  }

  ghost predicate AllOwn(owner: map<Id, Id>, who: Id, ids: set<Id>) {
    forall id <- ids :: Owns(owner, who, id)
  }

  predicate DataOk(owner: map<Id, Id>, id: Id, data: SessionData) {
    data.sessionId == id && Owns(owner, data.identityId, id)
  }

  ghost predicate PcOk(owner: map<Id, Id>, pc: Pc) {
    match pc
    case CreateSet(d) => DataOk(owner, d.sessionId, d)
    case CreateAdd(d) => DataOk(owner, d.sessionId, d)
    case CreateExpire(d) => DataOk(owner, d.sessionId, d)
    case GetWrite(id, d) => DataOk(owner, id, d)
    case DelKey(id, who) => Owns(owner, who, id)
    case DelUnlink(id, who) => Owns(owner, who, id)
    case AllDel(who, todo) => AllOwn(owner, who, todo)
    case ListGet(who, todo) => AllOwn(owner, who, todo)
    case ListUnlink(who, todo, id) => AllOwn(owner, who, todo) && Owns(owner, who, id)
    case _ => true
  }

  ghost predicate StoreOk(owner: map<Id, Id>, st: Stores) {
    && (forall id :: id in st.sessions ==> DataOk(owner, id, st.sessions[id].data))
    && (forall who :: who in st.index ==> AllOwn(owner, who, st.index[who].ids))
  }

  ghost predicate Inv(s: Sys) {
    StoreOk(s.owner, s.st) && forall t :: t in s.threads ==> PcOk(s.owner, s.threads[t])
  }

  lemma ExecOk(owner: map<Id, Id>, st: Stores, ttl: int, now: int, pc: Pc, pick: Id)
    requires StoreOk(owner, st) && PcOk(owner, pc)
    ensures StoreOk(owner, Exec(st, ttl, now, pc, pick).0)
    ensures PcOk(owner, Exec(st, ttl, now, pc, pick).1)
  {
  }

  lemma OwnerGrows(s: Sys, id: Id, who: Id)
    requires Inv(s) && id !in s.owner
    ensures StoreOk(s.owner[id := who], s.st)
    ensures forall t :: t in s.threads ==> PcOk(s.owner[id := who], s.threads[t])
  {
  }

  lemma InvStep(s: Sys, ttl: int, a: Action)
    requires Inv(s) && Enabled(s, a)
    ensures Inv(Next(s, ttl, a))
  {
    hide Exec, StoreOk, PcOk;
    match a
    case Begin(t, op) =>
      if op.Create? {
        OwnerGrows(s, op.data.sessionId, op.data.identityId);
      }
      StartOk(Next(s, ttl, a).owner, op);
    case Do(t, pick) => ExecOk(s.owner, s.st, ttl, s.now, s.threads[t], pick);
    case _ =>
  }

  lemma StartOk(owner: map<Id, Id>, op: Op)
    requires !op.PutChallenge? && !op.TakeChallenge?
    requires op.Create? ==> Owns(owner, op.data.identityId, op.data.sessionId)
    ensures PcOk(owner, Start(op))
  {
  }

  lemma {:induction false} InvRun(s: Sys, ttl: int, acts: seq<Action>)
    requires Inv(s) && After(s, ttl, acts).Some?
    ensures Inv(After(s, ttl, acts).value)
    decreases |acts|
  {
    if acts != [] {
      hide Inv, Next;
      InvStep(s, ttl, acts[0]);
      InvRun(Next(s, ttl, acts[0]), ttl, acts[1..]);
    }
  }

  /**
   In every interleaving: an index never names another identity's session, and a deletion issued
   by DeleteAll for one identity leaves every other identity's sessions as they are.
   */
  lemma OwnersSeparate(s: Sys, ttl: int, t: nat, pick: Id, id: Id)
    requires Reachable(s, ttl) && t in s.threads
    requires id in s.owner
    ensures forall who :: id in Indexed(s.st, s.now, who) ==> s.owner[id] == who
    ensures id in s.st.sessions ==> s.st.sessions[id].data.identityId == s.owner[id]
    ensures s.threads[t].AllDel? && s.owner[id] != s.threads[t].who ==>
      Session(Next(s, ttl, Do(t, pick)).st, s.now, id) == Session(s.st, s.now, id)
  {
    var acts :| After(START, ttl, acts) == Some(s);
    assert Inv(START);
    InvRun(START, ttl, acts);
    assert PcOk(s.owner, s.threads[t]);
  }

  // ---------- Revocation ----------

  /** The pending command stores the session. */
  predicate Writes(pc: Pc, id: Id) {
    (pc.GetWrite? && pc.id == id) || (pc.CreateSet? && pc.data.sessionId == id)
  }

  ghost predicate Quiet(s: Sys, id: Id) {
    forall t :: t in s.threads ==> !Writes(s.threads[t], id)
  }

  ghost predicate Gone(s: Sys, id: Id) {
    id in s.owner && !Live(s.st, s.now, id) && Quiet(s, id)
  }

  /** A command that is not a write of the session neither revives it nor makes its request about to write it. */
  lemma GoneExec(st: Stores, ttl: int, now: int, pc: Pc, pick: Id, id: Id)
    requires !Live(st, now, id) && !Writes(pc, id)
    ensures !Live(Exec(st, ttl, now, pc, pick).0, now, id)
    ensures !Writes(Exec(st, ttl, now, pc, pick).1, id)
  {
  }

  lemma GoneStep(s: Sys, ttl: int, a: Action, id: Id)
    requires Gone(s, id) && Enabled(s, a)
    ensures Gone(Next(s, ttl, a), id)
  {
    hide Exec;
    match a
    case Begin(t, op) =>
    case Do(t, pick) => GoneExec(s.st, ttl, s.now, s.threads[t], pick, id);
    case _ =>
  }

  lemma {:induction false} GoneRun(s: Sys, ttl: int, acts: seq<Action>, id: Id)
    requires Gone(s, id) && After(s, ttl, acts).Some?
    ensures Gone(After(s, ttl, acts).value, id)
    decreases |acts|
  {
    if acts != [] {
      hide Gone, Next;
      GoneStep(s, ttl, acts[0], id);
      GoneRun(Next(s, ttl, acts[0]), ttl, acts[1..], id);
    }
  }

  /** Dead for good: no continuation of the run makes the session readable again. */
  ghost predicate Final(s: Sys, ttl: int, id: Id) {
    forall acts :: After(s, ttl, acts).Some? ==> !Live(After(s, ttl, acts).value.st, After(s, ttl, acts).value.now, id)
  }

  /**
   Revocation is final exactly when no request sits between its read of the session and its
   write-back, and no Create of it has yet to issue its SET.
   */
  lemma RevocationExact(s: Sys, ttl: int, id: Id)
    requires ttl > 0 && id in s.owner && !Live(s.st, s.now, id)
    ensures Final(s, ttl, id) <==> Quiet(s, id)
  {
    if Quiet(s, id) {
      forall acts | After(s, ttl, acts).Some?
        ensures !Live(After(s, ttl, acts).value.st, After(s, ttl, acts).value.now, id)
      {
        GoneRun(s, ttl, acts, id);
      }
    } else {
      var t :| t in s.threads && Writes(s.threads[t], id);
      var a := Do(t, "");
      var s' := Next(s, ttl, a);
      assert After(s, ttl, [a]) == Some(s') by {
        assert [a][1..] == [];
        assert After(s', ttl, []) == Some(s');
      }
      assert Live(s'.st, s'.now, id);
    }
  }

  /** The two commands that delete a session leave it dead, so the above applies right after them. */
  lemma DeletionKills(s: Sys, ttl: int, t: nat, pick: Id)
    requires t in s.threads
    ensures s.threads[t].DelKey? ==> !Live(Next(s, ttl, Do(t, pick)).st, s.now, s.threads[t].id)
    ensures s.threads[t].AllDel? && pick in s.threads[t].todo ==> !Live(Next(s, ttl, Do(t, pick)).st, s.now, pick)
  {
  }

  /** A read that finds an index entry stale, with no write on its way, unlinks an id that stays dead. */
  lemma CleanupUnlinksDead(s: Sys, ttl: int, t: nat, pick: Id, acts: seq<Action>)
    requires ttl > 0 && t in s.threads && s.threads[t].ListGet? && pick in s.threads[t].todo
    requires !Live(s.st, s.now, pick) && pick in s.owner && Quiet(s, pick)
    requires After(Next(s, ttl, Do(t, pick)), ttl, acts).Some?
    ensures Next(s, ttl, Do(t, pick)).threads[t].ListUnlink?
    ensures var s' := After(Next(s, ttl, Do(t, pick)), ttl, acts).value; !Live(s'.st, s'.now, pick)
  {
    GoneStep(s, ttl, Do(t, pick), pick);
    GoneRun(Next(s, ttl, Do(t, pick)), ttl, acts, pick);
  }

  ghost predicate Path(states: seq<Sys>, ttl: int, acts: seq<Action>) {
    && |states| == |acts| + 1
    && forall i :: 0 <= i < |acts| ==> Enabled(states[i], acts[i]) && states[i + 1] == Next(states[i], ttl, acts[i])
  }

  lemma {:induction false} AfterPath(states: seq<Sys>, ttl: int, acts: seq<Action>)
    requires Path(states, ttl, acts)
    ensures After(states[0], ttl, acts) == Some(states[|acts|])
    decreases |acts|
  {
    if acts != [] {
      hide Next, Enabled;
      assert Path(states[1..], ttl, acts[1..]);
      AfterPath(states[1..], ttl, acts[1..]);
    }
  }

  /** The schedule in which Get reads, Delete runs to its end and Get then writes back. */
  function Race(id: Id, t: nat, u: nat): seq<Action> {
    [Begin(t, Get(id)), Do(t, ""), Begin(u, Delete(id)), Do(u, ""), Do(u, ""), Do(u, ""), Do(t, "")]
  }

  lemma RaceRead(s: Sys, ttl: int, id: Id, t: nat) returns (s1: Sys, s2: Sys)
    requires Live(s.st, s.now, id) && t !in s.threads
    ensures Enabled(s, Begin(t, Get(id))) && s1 == Next(s, ttl, Begin(t, Get(id)))
    ensures Enabled(s1, Do(t, "")) && s2 == Next(s1, ttl, Do(t, ""))
    ensures s2 == s.(threads := s.threads[t := GetWrite(id, s.st.sessions[id].data.(lastSeenAt := s.now))])
  {
    s1 := Next(s, ttl, Begin(t, Get(id)));
    s2 := Next(s1, ttl, Do(t, ""));
    assert s2.threads == s.threads[t := GetWrite(id, s.st.sessions[id].data.(lastSeenAt := s.now))];
  }

  lemma RaceDelete(s: Sys, ttl: int, id: Id, u: nat) returns (s1: Sys, s2: Sys, s3: Sys, s4: Sys)
    requires Live(s.st, s.now, id) && u !in s.threads
    ensures Enabled(s, Begin(u, Delete(id))) && s1 == Next(s, ttl, Begin(u, Delete(id)))
    ensures Enabled(s1, Do(u, "")) && s2 == Next(s1, ttl, Do(u, ""))
    ensures Enabled(s2, Do(u, "")) && s3 == Next(s2, ttl, Do(u, ""))
    ensures Enabled(s3, Do(u, "")) && s4 == Next(s3, ttl, Do(u, ""))
    ensures s4 == s.(st := DeleteStep(s.st, id, s.now), threads := s.threads[u := Finished])
  {
    var who := s.st.sessions[id].data.identityId;
    s1 := Next(s, ttl, Begin(u, Delete(id)));
    s2 := Next(s1, ttl, Do(u, ""));
    assert s2 == s.(threads := s.threads[u := DelKey(id, who)]);
    s3 := Next(s2, ttl, Do(u, ""));
    assert s3 == s.(st := DelSession(s.st, id), threads := s.threads[u := DelUnlink(id, who)]);
    s4 := Next(s3, ttl, Do(u, ""));
    assert s4.threads == s.threads[u := Finished];
  }

  lemma RaceWrite(s: Sys, ttl: int, before: Stores, id: Id, t: nat) returns (s1: Sys)
    requires ttl > 0 && Live(before, s.now, id) && s.st == DeleteStep(before, id, s.now)
    requires t in s.threads && s.threads[t] == GetWrite(id, before.sessions[id].data.(lastSeenAt := s.now))
    ensures Enabled(s, Do(t, "")) && s1 == Next(s, ttl, Do(t, ""))
    ensures Live(s1.st, s.now, id) && id !in Indexed(s1.st, s.now, before.sessions[id].data.identityId)
  {
    s1 := Next(s, ttl, Do(t, ""));
    assert s1.st == SetSession(s.st, id, before.sessions[id].data.(lastSeenAt := s.now), s.now + ttl);
  }

  /** The plain statement fails: the deleted session is readable again, and no longer linked in its index. */
  lemma Resurrection(s: Sys, ttl: int, id: Id, t: nat, u: nat)
    requires ttl > 0 && Live(s.st, s.now, id) && t != u && t !in s.threads && u !in s.threads
    ensures var end := After(s, ttl, Race(id, t, u));
            end.Some? && Live(end.value.st, s.now, id)
            && id !in Indexed(end.value.st, s.now, s.st.sessions[id].data.identityId)
  {
    var s1, s2 := RaceRead(s, ttl, id, t);
    var s3, s4, s5, s6 := RaceDelete(s2, ttl, id, u);
    assert s6.threads[t] == GetWrite(id, s.st.sessions[id].data.(lastSeenAt := s.now));
    assert s6.st == DeleteStep(s.st, id, s.now) && s6.now == s.now;
    var s7 := RaceWrite(s6, ttl, s.st, id, t);
    hide Next, Enabled, Live, Indexed;
    assert Path([s, s1, s2, s3, s4, s5, s6, s7], ttl, Race(id, t, u));
    AfterPath([s, s1, s2, s3, s4, s5, s6, s7], ttl, Race(id, t, u));
  }

  // ---------- Uninterrupted requests are the atomic operations ----------

  function Solo(st: Stores, ttl: int, now: int, pc: Pc, picks: seq<Id>): (Stores, Pc)
    decreases |picks|
  {
    if picks == [] then (st, pc) else
      var (st', pc') := Exec(st, ttl, now, pc, picks[0]);
      Solo(st', ttl, now, pc', picks[1..])
  }

  /** What an uninterrupted request in this state will have done when it finishes. */
  function Goal(st: Stores, ttl: int, now: int, pc: Pc): Stores {
    match pc
    case CreateSet(data) => CreateStep(st, ttl, data, now)
    case CreateAdd(data) => Expire(SAdd(st, now, data.identityId, data.sessionId), now, data.identityId, now + ttl)
    case CreateExpire(data) => Expire(st, now, data.identityId, now + ttl)
    case GetRead(id) => GetStep(st, ttl, id, now)
    case GetWrite(id, data) => SetSession(st, id, data, now + ttl)
    case DelRead(id) => DeleteStep(st, id, now)
    case DelKey(id, who) => SRem(DelSession(st, id), now, who, id)
    case DelUnlink(id, who) => SRem(st, now, who, id)
    case AllRead(who) => DeleteAllStep(st, who, now)
    case AllDel(who, todo) => DelIndex(st.(sessions := st.sessions - todo), who)
    case AllIndex(who) => DelIndex(st, who)
    case ListRead(who) => ListStep(st, who, now)
    case ListGet(who, todo) => Unlink(st, now, who, set id | id in todo && !Live(st, now, id))
    case ListUnlink(who, todo, id) => Unlink(st, now, who, (set x | x in todo && !Live(st, now, x)) + {id})
    case Finished => st
  }

  lemma UnlinkMore(st: Stores, now: int, who: Id, id: Id, gone: set<Id>)
    ensures Unlink(SRem(st, now, who, id), now, who, gone) == Unlink(st, now, who, gone + {id})
  {
    if IndexLive(st, now, who) {
      var ids := st.index[who].ids;
      assert ids - {id} - gone == ids - (gone + {id});
      assert ids - {id} <= gone <==> ids <= gone + {id};
      assert gone == {} ==> gone + {id} == {id};
    }
  }

  lemma ListGetGoal(st: Stores, ttl: int, now: int, who: Id, todo: set<Id>, pick: Id)
    requires pick in todo
    ensures var (st', pc') := Exec(st, ttl, now, ListGet(who, todo), pick);
            Goal(st', ttl, now, pc') == Goal(st, ttl, now, ListGet(who, todo))
  {
    hide Unlink;
    var dead := set id | id in todo && !Live(st, now, id);
    var rest := set id | id in todo - {pick} && !Live(st, now, id);
    assert dead == if Live(st, now, pick) then rest else rest + {pick};
    assert todo - {pick} == {} ==> rest == {};
    UnlinkNone(st, now, who);
  }

  lemma ListUnlinkGoal(st: Stores, ttl: int, now: int, who: Id, todo: set<Id>, id: Id, pick: Id)
    ensures var (st', pc') := Exec(st, ttl, now, ListUnlink(who, todo, id), pick);
            Goal(st', ttl, now, pc') == Goal(st, ttl, now, ListUnlink(who, todo, id))
  {
    var dead := set x | x in todo && !Live(st, now, x);
    var st' := SRem(st, now, who, id);
    assert st'.sessions == st.sessions;
    hide SRem, Unlink;
    assert dead == set x | x in todo && !Live(st', now, x);
    assert todo == {} ==> dead == {};
    UnlinkMore(st, now, who, id, dead);
    UnlinkNone(st', now, who);
  }

  lemma UnlinkNone(st: Stores, now: int, who: Id)
    ensures Unlink(st, now, who, {}) == st
  {
  }

  lemma ListReadGoal(st: Stores, ttl: int, now: int, who: Id, pick: Id)
    ensures var (st', pc') := Exec(st, ttl, now, ListRead(who), pick);
            && Goal(st', ttl, now, pc') == Goal(st, ttl, now, ListRead(who))
            && (pc'.AllDel? || pc'.ListGet? ==> pc'.todo != {})
  {
    hide SRem, SAdd, Expire, Unlink, Indexed;
    assert Stale(st, now, who) == set id | id in Indexed(st, now, who) && !Live(st, now, id);
    assert Indexed(st, now, who) == {} ==> Stale(st, now, who) == {};
    UnlinkNone(st, now, who);
  }

  lemma GoalStep(st: Stores, ttl: int, now: int, pc: Pc, pick: Id)
    requires ttl > 0
    requires pc.AllDel? || pc.ListGet? ==> pc.todo != {}
    ensures var (st', pc') := Exec(st, ttl, now, pc, pick);
            && Goal(st', ttl, now, pc') == Goal(st, ttl, now, pc)
            && (pc'.AllDel? || pc'.ListGet? ==> pc'.todo != {})
  {
    hide SRem, SAdd, Expire, Unlink, Indexed;
    match pc
    case AllDel(who, todo) =>
      if pick in todo {
        assert st.sessions - {pick} - (todo - {pick}) == st.sessions - todo;
      }
    case ListRead(who) => ListReadGoal(st, ttl, now, who, pick);
    case ListGet(who, todo) =>
      if pick in todo { ListGetGoal(st, ttl, now, who, todo, pick); }
    case ListUnlink(who, todo, id) => ListUnlinkGoal(st, ttl, now, who, todo, id, pick);
    case _ =>
  }

  lemma {:induction false} SoloGoal(st: Stores, ttl: int, now: int, pc: Pc, picks: seq<Id>)
    requires ttl > 0
    requires pc.AllDel? || pc.ListGet? ==> pc.todo != {}
    ensures var (st', pc') := Solo(st, ttl, now, pc, picks); Goal(st', ttl, now, pc') == Goal(st, ttl, now, pc)
    decreases |picks|
  {
    if picks != [] {
      hide Exec, Goal;
      GoalStep(st, ttl, now, pc, picks[0]);
      var (st', pc') := Exec(st, ttl, now, pc, picks[0]);
      SoloGoal(st', ttl, now, pc', picks[1..]);
    }
  }

  /** A request that runs alone, visiting set members in any order, does exactly its atomic step. */
  lemma SoloIsAtomic(st: Stores, ttl: int, now: int, op: Op, picks: seq<Id>)
    requires ttl > 0 && !op.PutChallenge? && !op.TakeChallenge?
    requires Solo(st, ttl, now, Start(op), picks).1 == Finished
    ensures Solo(st, ttl, now, Start(op), picks).0 == Step(st, ttl, op, now)
  {
    SoloGoal(st, ttl, now, Start(op), picks);
    hide Solo;
  }

  // ---------- Index coverage at command grain ----------

  /** A Create of the session has its SADD still to come. */
  ghost predicate Adding(threads: map<nat, Pc>, id: Id) {
    exists t :: t in threads && (threads[t].CreateSet? || threads[t].CreateAdd?) && threads[t].data.sessionId == id
  }

  /** If the session is live, its owner's index names it, or its Create is about to put it there. */
  ghost predicate Covered(s: Sys, id: Id) {
    id in s.owner && Live(s.st, s.now, id) && !Adding(s.threads, id) ==> id in Indexed(s.st, s.now, s.owner[id])
  }

  /**
   The action takes a live session out of its index, or makes one live that is not in it: an unlink
   or a DEL of the index while the session lives, a write-back while the index does not name it, a
   Create that stops before its SADD, or time that ends the index and not the session.
   */
  ghost predicate Uncovers(s: Sys, a: Action, id: Id)
    requires Enabled(s, a)
  {
    if id !in s.owner then false else
      var who := s.owner[id];
      match a
      case Do(t, pick) =>
        !Adding(s.threads, id) &&
        (match s.threads[t]
         case DelUnlink(x, _) => x == id && Live(s.st, s.now, id)
         case ListUnlink(_, _, x) => x == id && Live(s.st, s.now, id)
         case AllIndex(w) => w == who && Live(s.st, s.now, id)
         case GetWrite(x, _) => x == id && id !in Indexed(s.st, s.now, who)
         case _ => false)
      case Tick(dt) => !Adding(s.threads, id) && Live(s.st, s.now + dt, id) && id !in Indexed(s.st, s.now + dt, who)
      case Drop(t) =>
        Adding(s.threads, id) && !Adding(s.threads - {t}, id) && Live(s.st, s.now, id) && id !in Indexed(s.st, s.now, who)
      case Begin(_, _) => false
  }

  /** What one command does to the Creates on their way. */
  lemma AddingExec(s: Sys, ttl: int, t: nat, pick: Id, id: Id)
    requires t in s.threads
    ensures var threads' := Next(s, ttl, Do(t, pick)).threads;
            var pc := s.threads[t];
            && (Adding(threads', id) ==> Adding(s.threads, id))
            && (Adding(s.threads, id) && !Adding(threads', id) ==> pc.CreateAdd? && pc.data.sessionId == id)
  {
    var threads' := Next(s, ttl, Do(t, pick)).threads;
    if Adding(s.threads, id) {
      var u :| u in s.threads && (s.threads[u].CreateSet? || s.threads[u].CreateAdd?) && s.threads[u].data.sessionId == id;
      assert u in threads' && (u != t ==> threads'[u] == s.threads[u]);
    }
    if Adding(threads', id) {
      var u :| u in threads' && (threads'[u].CreateSet? || threads'[u].CreateAdd?) && threads'[u].data.sessionId == id;
      assert u in s.threads && (u != t ==> threads'[u] == s.threads[u]);
    }
  }

  lemma CoverageExec(s: Sys, ttl: int, t: nat, pick: Id, id: Id)
    requires ttl > 0 && t in s.threads && PcOk(s.owner, s.threads[t]) && Covered(s, id)
    ensures Covered(Next(s, ttl, Do(t, pick)), id) <==> !Uncovers(s, Do(t, pick), id)
  {
    AddingExec(s, ttl, t, pick, id);
    if !Adding(s.threads, id) {
      assert s.threads[t].CreateSet? || s.threads[t].CreateAdd? ==> s.threads[t].data.sessionId != id;
    }
    hide Adding;
  }

  /** From a covered state of a run, one action leaves the session covered exactly if it does not uncover it. */
  lemma CoverageStep(s: Sys, ttl: int, a: Action, id: Id)
    requires ttl > 0 && Inv(s) && Enabled(s, a) && Covered(s, id)
    ensures Covered(Next(s, ttl, a), id) <==> !Uncovers(s, a, id)
  {
    if a.Do? {
      assert PcOk(s.owner, s.threads[a.t]);
      CoverageExec(s, ttl, a.t, a.pick, id);
    } else if a.Begin? {
      BeginAdding(s, ttl, a, id);
    } else if a.Drop? {
      assert Adding(s.threads - {a.t}, id) ==> Adding(s.threads, id);
    }
  }

  lemma BeginAdding(s: Sys, ttl: int, a: Action, id: Id)
    requires Inv(s) && Enabled(s, a) && a.Begin? && Covered(s, id)
    ensures Covered(Next(s, ttl, a), id)
  {
    var s' := Next(s, ttl, a);
    if a.op.Create? && a.op.data.sessionId == id {
      assert s'.threads[a.t] == CreateSet(a.op.data);
      assert Adding(s'.threads, id);
    } else if Adding(s.threads, id) {
      var u :| u in s.threads && (s.threads[u].CreateSet? || s.threads[u].CreateAdd?) && s.threads[u].data.sessionId == id;
      assert s'.threads[u] == s.threads[u];
    }
  }

  /** The session is covered in every state of the run. */
  ghost predicate AlwaysCovered(s: Sys, ttl: int, acts: seq<Action>, id: Id)
    requires After(s, ttl, acts).Some?
    decreases |acts|
  {
    Covered(s, id) && (acts == [] || AlwaysCovered(Next(s, ttl, acts[0]), ttl, acts[1..], id))
  }

  /** No action of the run uncovers the session. */
  ghost predicate NeverUncovered(s: Sys, ttl: int, acts: seq<Action>, id: Id)
    requires After(s, ttl, acts).Some?
    decreases |acts|
  {
    acts == [] || (!Uncovers(s, acts[0], id) && NeverUncovered(Next(s, ttl, acts[0]), ttl, acts[1..], id))
  }

  lemma {:induction false} CoveredRun(s: Sys, ttl: int, acts: seq<Action>, id: Id)
    requires ttl > 0 && Inv(s) && Covered(s, id) && After(s, ttl, acts).Some?
    ensures AlwaysCovered(s, ttl, acts, id) <==> NeverUncovered(s, ttl, acts, id)
    decreases |acts|
  {
    if acts != [] {
      hide Inv, Next, Covered, Uncovers, Enabled;
      InvStep(s, ttl, acts[0]);
      CoverageStep(s, ttl, acts[0], id);
      if Covered(Next(s, ttl, acts[0]), id) { CoveredRun(Next(s, ttl, acts[0]), ttl, acts[1..], id); }
    }
  }

  /** Over every interleaving, a session's index names it whenever it is live exactly if no action uncovers it. */
  lemma CoverageExact(ttl: int, acts: seq<Action>, id: Id)
    requires ttl > 0 && After(START, ttl, acts).Some?
    ensures AlwaysCovered(START, ttl, acts, id) <==> NeverUncovered(START, ttl, acts, id)
  {
    assert Inv(START) && Covered(START, id);
    hide Inv, Covered, After, AlwaysCovered, NeverUncovered;
    CoveredRun(START, ttl, acts, id);
  }
}
