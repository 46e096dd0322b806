/**
 The command-grain machine on the Redis keyspace itself. Command by command, and over every
 interleaving, it simulates the machine on the three separate stores, so revocation is final on the
 keyspace under the same condition.
 */
module SessionCommands {
  import opened Basics
  import opened Keyspace
  import opened Sessions
  import opened SessionSteps

  /** One Redis command of a request in flight. A WRONGTYPE answer ends the request. */
  function FlatExec(db: Db, json: Json, ttl: int, now: int, pc: Pc, pick: Id): (Db, Pc) {
    match pc
    case CreateSet(data) => (SetCmd(db, SessionKey(data.sessionId), json.encode(data), now + ttl), CreateAdd(data))
    case CreateAdd(data) => (SAddCmd(db, now, IndexKey(data.identityId), data.sessionId), CreateExpire(data))
    case CreateExpire(data) => (ExpireCmd(db, now, IndexKey(data.identityId), now + ttl), Finished)
    case GetRead(id) =>
      (match ReadSession(db, json, id, now) case Found(d) => (db, GetWrite(id, d.(lastSeenAt := now))) case _ => (db, Finished))
    case GetWrite(id, data) => (SetCmd(db, SessionKey(id), json.encode(data), now + ttl), Finished)
    case DelRead(id) =>
      (match ReadSession(db, json, id, now) case Found(d) => (db, DelKey(id, d.identityId)) case _ => (db, Finished))
    case DelKey(id, who) => (DelCmd(db, SessionKey(id)), DelUnlink(id, who))
    case DelUnlink(id, who) => (SRemCmd(db, now, IndexKey(who), id), Finished)
    case AllRead(who) =>
      (match SMembersCmd(db, now, IndexKey(who))
       case Got(ids) => (db, if ids == {} then Finished else AllDel(who, ids))
       case _ => (db, Finished))
    case AllDel(who, todo) =>
      if pick in todo then (DelCmd(db, SessionKey(pick)), AfterDel(who, todo - {pick})) else (db, pc)
    case AllIndex(who) => (DelCmd(db, IndexKey(who)), Finished)
    case ListRead(who) =>
      (match SMembersCmd(db, now, IndexKey(who)) case Got(ids) => (db, AfterList(who, ids)) case _ => (db, Finished))
    case ListGet(who, todo) =>
      if pick !in todo then (db, pc)
      else (match GetCmd(db, now, SessionKey(pick))
            case Nil => (db, ListUnlink(who, todo - {pick}, pick))
            case Got(_) => (db, AfterList(who, todo - {pick}))
            case WrongType => (db, Finished))
    case ListUnlink(who, todo, id) => (SRemCmd(db, now, IndexKey(who), id), AfterList(who, todo))
    case Finished => (db, Finished)
  }

  datatype FlatSys = FlatSys(db: Db, now: int, owner: map<Id, Id>, threads: map<nat, Pc>)

  /** The states of the two machines that belong together. */
  ghost predicate Same(f: FlatSys, s: Sys, json: Json) {
    Rep(f.db, s.st, json) && f.now == s.now && f.owner == s.owner && f.threads == s.threads
  }

  predicate FlatEnabled(f: FlatSys, a: Action) { Enabled(Sys(EMPTY, f.now, f.owner, f.threads), a) }

  function FlatNext(f: FlatSys, json: Json, ttl: int, a: Action): FlatSys
    requires FlatEnabled(f, a)
  {
    match a
    case Begin(t, op) =>
      var owner' := if op.Create? then f.owner[op.data.sessionId := op.data.identityId] else f.owner;
      f.(threads := f.threads[t := Start(op)], owner := owner')
    case Do(t, pick) =>
      var (db', pc') := FlatExec(f.db, json, ttl, f.now, f.threads[t], pick);
      f.(db := db', threads := f.threads[t := pc'])
    case Drop(t) => f.(threads := f.threads - {t})
    case Tick(dt) => f.(now := f.now + dt)
  }

  function FlatAfter(f: FlatSys, json: Json, ttl: int, acts: seq<Action>): Option<FlatSys>
    decreases |acts|
  {
    if acts == [] then Some(f)
    else if !FlatEnabled(f, acts[0]) then None
    else FlatAfter(FlatNext(f, json, ttl, acts[0]), json, ttl, acts[1..])
  }

  const FLAT_START := FlatSys(map[], 0, map[], map[])

  // ---------- Simulation ----------

  /** Every command has the same effect, and leaves the request in the same place, as on the separate stores. */
  lemma ExecRep(db: Db, st: Stores, json: Json, ttl: int, now: int, pc: Pc, pick: Id)
    requires json.Law() && Rep(db, st, json)
    ensures var (db', pc') := FlatExec(db, json, ttl, now, pc, pick);
            Rep(db', Exec(st, ttl, now, pc, pick).0, json) && pc' == Exec(st, ttl, now, pc, pick).1
  {
    hide Rep, SessionKey, IndexKey, SetCmd, DelCmd, SAddCmd, SRemCmd, ExpireCmd, SMembersCmd, GetCmd, ReadSession, SetSession, DelSession, DelIndex, SAdd, SRem, Expire, Indexed;
    match pc
    case CreateSet(data) => RepSessionWrite(db, st, json, data.sessionId, data, now + ttl);
    case CreateAdd(data) => RepSAdd(db, st, json, now, data.identityId, data.sessionId);
    case CreateExpire(data) => RepExpire(db, st, json, now, data.identityId, now + ttl);
    case GetRead(id) => ReadSessionRep(db, st, json, id, now);
    case GetWrite(id, data) => RepSessionWrite(db, st, json, id, data, now + ttl);
    case DelRead(id) => ReadSessionRep(db, st, json, id, now);
    case DelKey(id, who) => DelSessionRep(db, st, json, id);
    case DelUnlink(id, who) => RepSRem(db, st, json, now, who, id);
    case AllRead(who) => RepReads(db, st, json, now, who);
    case AllDel(who, todo) => DelSessionRep(db, st, json, pick);
    case AllIndex(who) => RepIndexWrite(db, st, json, who, IndexCell({}, None));
    case ListRead(who) => RepReads(db, st, json, now, who);
    case ListGet(who, todo) => RepReads(db, st, json, now, pick);
    case ListUnlink(who, todo, id) => RepSRem(db, st, json, now, who, id);
    case Finished =>
  }

  lemma DelSessionRep(db: Db, st: Stores, json: Json, id: Id)
    requires Rep(db, st, json)
    ensures Rep(DelCmd(db, SessionKey(id)), DelSession(st, id), json)
  {
    hide Rep, SessionKey;
    RepSessionWrite(db, st, json, id, SessionData("", "", "", "", 0, 0, "", ""), 0);
  }

  lemma NextRep(f: FlatSys, s: Sys, json: Json, ttl: int, a: Action)
    requires json.Law() && Same(f, s, json)
    ensures FlatEnabled(f, a) <==> Enabled(s, a)
    ensures Enabled(s, a) ==> Same(FlatNext(f, json, ttl, a), Next(s, ttl, a), json)
  {
    hide Rep, FlatExec, Exec;
    if a.Do? && Enabled(s, a) { ExecRep(f.db, s.st, json, ttl, f.now, f.threads[a.t], a.pick); }
  }

  /** Every interleaving on the keyspace is the one on the separate stores: same requests, same answers read, same time. */
  lemma {:induction false} CommandsSimulate(f: FlatSys, s: Sys, json: Json, ttl: int, acts: seq<Action>)
    requires json.Law() && Same(f, s, json)
    ensures FlatAfter(f, json, ttl, acts).Some? <==> After(s, ttl, acts).Some?
    ensures After(s, ttl, acts).Some? ==> Same(FlatAfter(f, json, ttl, acts).value, After(s, ttl, acts).value, json)
    decreases |acts|
  {
    if acts != [] {
      hide Same, FlatNext, Next, Enabled, FlatEnabled;
      NextRep(f, s, json, ttl, acts[0]);
      if Enabled(s, acts[0]) {
        CommandsSimulate(FlatNext(f, json, ttl, acts[0]), Next(s, ttl, acts[0]), json, ttl, acts[1..]);
      }
    }
  }

  // ---------- Revocation on the keyspace ----------

  /** In no continuation does a GET of the session's key find it. */
  ghost predicate FlatFinal(f: FlatSys, json: Json, ttl: int, id: Id) {
    forall acts :: FlatAfter(f, json, ttl, acts).Some? ==>
      var f' := FlatAfter(f, json, ttl, acts).value; !Readable(f'.db, json, f'.now, id)
  }

  ghost predicate FlatQuiet(f: FlatSys, id: Id) {
    forall t :: t in f.threads ==> !Writes(f.threads[t], id)
  }

  lemma ReadableLive(f: FlatSys, s: Sys, json: Json, id: Id)
    requires json.Law() && Same(f, s, json)
    ensures Readable(f.db, json, f.now, id) <==> Live(s.st, s.now, id)
  {
    hide Rep, ReadSession;
    ReadSessionRep(f.db, s.st, json, id, f.now);
  }

  lemma ReadableAfter(f: FlatSys, s: Sys, json: Json, ttl: int, acts: seq<Action>, id: Id)
    requires json.Law() && Same(f, s, json)
    ensures FlatAfter(f, json, ttl, acts).Some? <==> After(s, ttl, acts).Some?
    ensures After(s, ttl, acts).Some? ==>
      var f', s' := FlatAfter(f, json, ttl, acts).value, After(s, ttl, acts).value;
      Readable(f'.db, json, f'.now, id) <==> Live(s'.st, s'.now, id)
  {
    hide FlatAfter, After, Readable, Live, Same;
    CommandsSimulate(f, s, json, ttl, acts);
    if After(s, ttl, acts).Some? {
      ReadableLive(FlatAfter(f, json, ttl, acts).value, After(s, ttl, acts).value, json, id);
    }
  }

  lemma FinalSame(f: FlatSys, s: Sys, json: Json, ttl: int, id: Id)
    requires json.Law() && Same(f, s, json)
    ensures FlatFinal(f, json, ttl, id) <==> Final(s, ttl, id)
  {
    hide FlatAfter, After, Readable, Live, Same;
    if Final(s, ttl, id) {
      forall acts | FlatAfter(f, json, ttl, acts).Some?
        ensures var f' := FlatAfter(f, json, ttl, acts).value; !Readable(f'.db, json, f'.now, id)
      {
        ReadableAfter(f, s, json, ttl, acts, id);
      }
    } else {
      var acts :| After(s, ttl, acts).Some? && Live(After(s, ttl, acts).value.st, After(s, ttl, acts).value.now, id);
      ReadableAfter(f, s, json, ttl, acts, id);
    }
  }

  /** On the keyspace too, an unreadable session stays so in every continuation exactly when no write of it is on its way. */
  lemma FlatRevocationExact(acts: seq<Action>, json: Json, ttl: int, id: Id)
    requires json.Law() && ttl > 0 && FlatAfter(FLAT_START, json, ttl, acts).Some?
    requires var f := FlatAfter(FLAT_START, json, ttl, acts).value; id in f.owner && !Readable(f.db, json, f.now, id)
    ensures var f := FlatAfter(FLAT_START, json, ttl, acts).value; FlatFinal(f, json, ttl, id) <==> FlatQuiet(f, id)
  {
    StartSame(json);
    hide FlatAfter, After, Readable, Live, Rep, FlatFinal, Final;
    CommandsSimulate(FLAT_START, START, json, ttl, acts);
    var f, s := FlatAfter(FLAT_START, json, ttl, acts).value, After(START, ttl, acts).value;
    ReadableLive(f, s, json, id);
    RevocationExact(s, ttl, id);
    FinalSame(f, s, json, ttl, id);
    assert f.threads == s.threads;
    assert FlatQuiet(f, id) <==> Quiet(s, id);
  }

  lemma StartSame(json: Json)
    ensures Same(FLAT_START, START, json)
  {
    hide SessionKey, IndexKey, ChallengeKey;
  }
}
