/**
 The operations of SessionStore and RedisStore (internal/store), each taken as one atomic step:
 once over the flat keyspace as the source writes them, and once over the three logical stores.
 Runs of the two agree step by step.
 */
module Sessions {
  import opened Basics
  import opened Keyspace

  datatype Op =
    | Create(data: SessionData)
    | Get(id: Id)
    | Delete(id: Id)
    | DeleteAll(who: Id)
    | List(who: Id)
    | PutChallenge(challenge: Id, payload: seq<Byte>, life: int)
    | TakeChallenge(challenge: Id)

  datatype Answer = Done | NotFound | Failed | Found(data: SessionData) | Listing(sessions: set<SessionData>) | Payload(bytes: seq<Byte>)

  datatype Event = Event(op: Op, at: int)

  // ---------- Over the three stores ----------

  function CreateStep(st: Stores, ttl: int, data: SessionData, now: int): Stores {
    var set' := SetSession(st, data.sessionId, data, now + ttl);
    Expire(SAdd(set', now, data.identityId, data.sessionId), now, data.identityId, now + ttl)
  }

  /** Sliding expiry: the session's deadline moves, the index's does not. */
  function GetStep(st: Stores, ttl: int, id: Id, now: int): Stores {
    match Session(st, now, id)
    case None => st
    case Some(d) => SetSession(st, id, d.(lastSeenAt := now), now + ttl)
  }

  function DeleteStep(st: Stores, id: Id, now: int): Stores {
    match Session(st, now, id)
    case None => st
    case Some(d) => SRem(DelSession(st, id), now, d.identityId, id)
  }

  function DeleteAllStep(st: Stores, who: Id, now: int): Stores {
    var ids := Indexed(st, now, who);
    if ids == {} then st else DelIndex(st.(sessions := st.sessions - ids), who)
  }

  /** Index entries whose session is gone. */
  function Stale(st: Stores, now: int, who: Id): set<Id> {
    set id | id in Indexed(st, now, who) && !Live(st, now, id)
  }

  function Unlink(st: Stores, now: int, who: Id, gone: set<Id>): Stores {
    if gone == {} || !IndexLive(st, now, who) then st
    else if st.index[who].ids <= gone then DelIndex(st, who)
    else st.(index := st.index[who := st.index[who].(ids := st.index[who].ids - gone)])
  }

  function ListStep(st: Stores, who: Id, now: int): Stores {
    Unlink(st, now, who, Stale(st, now, who))
  }

  function Listed(st: Stores, now: int, who: Id): set<SessionData> {
    set id | id in Indexed(st, now, who) && Live(st, now, id) :: st.sessions[id].data
  }

  function Step(st: Stores, ttl: int, op: Op, now: int): Stores {
    match op
    case Create(data) => CreateStep(st, ttl, data, now)
    case Get(id) => GetStep(st, ttl, id, now)
    case Delete(id) => DeleteStep(st, id, now)
    case DeleteAll(who) => DeleteAllStep(st, who, now)
    case List(who) => ListStep(st, who, now)
    case PutChallenge(id, payload, life) => SetChallenge(st, id, payload, now + life)
    case TakeChallenge(id) => if Challenge(st, now, id).Some? then DelChallenge(st, id) else st
  }

  function Respond(st: Stores, op: Op, now: int): Answer {
    match op
    case Create(_) => Done
    case Get(id) => (match Session(st, now, id) case None => NotFound case Some(d) => Found(d.(lastSeenAt := now)))
    case Delete(id) => if Live(st, now, id) then Done else NotFound
    case DeleteAll(_) => Done
    case List(who) => Listing(Listed(st, now, who))
    case PutChallenge(_, _, _) => Done
    case TakeChallenge(id) => (match Challenge(st, now, id) case None => NotFound case Some(p) => Payload(p))
  }

  function Run(tr: seq<Event>, ttl: int): Stores {
    if tr == [] then EMPTY else
      var n := |tr| - 1;
      Step(Run(tr[..n], ttl), ttl, tr[n].op, tr[n].at)
  }

  function Answers(tr: seq<Event>, ttl: int): seq<Answer> {
    if tr == [] then [] else
      var n := |tr| - 1;
      Answers(tr[..n], ttl) + [Respond(Run(tr[..n], ttl), tr[n].op, tr[n].at)]
  }

  // ---------- Over the flat keyspace ----------

  function ReadSession(db: Db, json: Json, id: Id, now: int): Answer {
    match GetCmd(db, now, SessionKey(id))
    case Nil => NotFound
    case WrongType => Failed
    case Got(bytes) => match json.decode(bytes) case None => Failed case Some(d) => Found(d)
  }

  function FlatCreate(db: Db, json: Json, ttl: int, data: SessionData, now: int): Db {
    var index := IndexKey(data.identityId);
    var set' := SetCmd(db, SessionKey(data.sessionId), json.encode(data), now + ttl);
    ExpireCmd(SAddCmd(set', now, index, data.sessionId), now, index, now + ttl)
  }

  function FlatGet(db: Db, json: Json, ttl: int, id: Id, now: int): Db {
    match ReadSession(db, json, id, now)
    case Found(d) => SetCmd(db, SessionKey(id), json.encode(d.(lastSeenAt := now)), now + ttl)
    case _ => db
  }

  function FlatDelete(db: Db, json: Json, id: Id, now: int): Db {
    match ReadSession(db, json, id, now)
    case Found(d) => SRemCmd(DelCmd(db, SessionKey(id)), now, IndexKey(d.identityId), id)
    case _ => db
  }

  function DelAllCmd(db: Db, ids: set<Id>): Db {
    db - set id | id in ids :: SessionKey(id)
  }

  function FlatDeleteAll(db: Db, who: Id, now: int): Db {
    match SMembersCmd(db, now, IndexKey(who))
    case Got(ids) => if ids == {} then db else DelCmd(DelAllCmd(db, ids), IndexKey(who))
    case _ => db
  }

  function FlatStale(db: Db, now: int, ids: set<Id>): set<Id> {
    set id | id in ids && GetCmd(db, now, SessionKey(id)).Nil?
  }

  function FlatUnlink(db: Db, now: int, key: string, gone: set<Id>): Db {
    match Find(db, now, key)
    case Some(Entry(Members(ids), deadline)) =>
      if gone == {} then db
      else if ids <= gone then db - {key}
      else db[key := Entry(Members(ids - gone), deadline)]
    case _ => db
  }

  predicate Readable(db: Db, json: Json, now: int, id: Id) {
    ReadSession(db, json, id, now).Found?
  }

  predicate Broken(db: Db, now: int, ids: set<Id>) {
    exists id <- ids :: GetCmd(db, now, SessionKey(id)).WrongType?
  }

  function FlatStep(db: Db, json: Json, ttl: int, op: Op, now: int): Db {
    match op
    case Create(data) => FlatCreate(db, json, ttl, data, now)
    case Get(id) => FlatGet(db, json, ttl, id, now)
    case Delete(id) => FlatDelete(db, json, id, now)
    case DeleteAll(who) => FlatDeleteAll(db, who, now)
    case List(who) =>
      (match SMembersCmd(db, now, IndexKey(who))
       case Got(ids) => FlatUnlink(db, now, IndexKey(who), FlatStale(db, now, ids))
       case _ => db)
    case PutChallenge(id, payload, life) => SetCmd(db, ChallengeKey(id), payload, now + life)
    case TakeChallenge(id) => if GetCmd(db, now, ChallengeKey(id)).Got? then DelCmd(db, ChallengeKey(id)) else db
  }

  function FlatRespond(db: Db, json: Json, ttl: int, op: Op, now: int): Answer {
    match op
    case Create(data) =>
      var set' := SetCmd(db, SessionKey(data.sessionId), json.encode(data), now + ttl);
      if SMembersCmd(set', now, IndexKey(data.identityId)).WrongType? then Failed else Done
    case Get(id) => (match ReadSession(db, json, id, now) case Found(d) => Found(d.(lastSeenAt := now)) case a => a)
    case Delete(id) => (match ReadSession(db, json, id, now) case Found(_) => Done case a => a)
    case DeleteAll(who) => if SMembersCmd(db, now, IndexKey(who)).WrongType? then Failed else Done
    case List(who) =>
      (match SMembersCmd(db, now, IndexKey(who))
       case Got(ids) =>
         if Broken(db, now, ids) then Failed
         else Listing(set id | id in ids && Readable(db, json, now, id) :: ReadSession(db, json, id, now).data)
       case _ => Failed)
    case PutChallenge(_, _, _) => Done
    case TakeChallenge(id) =>
      (match GetCmd(db, now, ChallengeKey(id)) case Nil => NotFound case Got(p) => Payload(p) case WrongType => Failed)
  }

  function FlatRun(tr: seq<Event>, json: Json, ttl: int): Db {
    if tr == [] then map[] else
      var n := |tr| - 1;
      FlatStep(FlatRun(tr[..n], json, ttl), json, ttl, tr[n].op, tr[n].at)
  }

  function FlatAnswers(tr: seq<Event>, json: Json, ttl: int): seq<Answer> {
    if tr == [] then [] else
      var n := |tr| - 1;
      FlatAnswers(tr[..n], json, ttl) + [FlatRespond(FlatRun(tr[..n], json, ttl), json, ttl, tr[n].op, tr[n].at)]
  }

  // ---------- Simulation ----------

  lemma ReadSessionRep(db: Db, st: Stores, json: Json, id: Id, now: int)
    requires json.Law() && Rep(db, st, json)
    ensures ReadSession(db, json, id, now)
            == match Session(st, now, id) case None => NotFound case Some(d) => Found(d)
  {
    hide Rep, SessionKey, IndexKey, ChallengeKey;
    RepReads(db, st, json, now, id);
  }

  lemma CreateRep(db: Db, st: Stores, json: Json, ttl: int, data: SessionData, now: int)
    requires Rep(db, st, json)
    ensures Rep(FlatCreate(db, json, ttl, data, now), CreateStep(st, ttl, data, now), json)
    ensures FlatRespond(db, json, ttl, Create(data), now) == Done
  {
    hide Rep, SessionKey, IndexKey, ChallengeKey, SetCmd, SAddCmd, ExpireCmd, SetSession, SAdd, Expire, SMembersCmd;
    var who := data.identityId;
    RepSessionWrite(db, st, json, data.sessionId, data, now + ttl);
    var db1, st1 := SetCmd(db, SessionKey(data.sessionId), json.encode(data), now + ttl), SetSession(st, data.sessionId, data, now + ttl);
    RepReads(db1, st1, json, now, who);
    RepSAdd(db1, st1, json, now, who, data.sessionId);
    RepExpire(SAddCmd(db1, now, IndexKey(who), data.sessionId), SAdd(st1, now, who, data.sessionId), json, now, who, now + ttl);
  }

  lemma GetRep(db: Db, st: Stores, json: Json, ttl: int, id: Id, now: int)
    requires json.Law() && Rep(db, st, json)
    ensures Rep(FlatGet(db, json, ttl, id, now), GetStep(st, ttl, id, now), json)
  {
    hide Rep, ReadSession, SessionKey, IndexKey, ChallengeKey, SetCmd, SetSession;
    ReadSessionRep(db, st, json, id, now);
    match Session(st, now, id)
    case None =>
    case Some(d) => RepSessionWrite(db, st, json, id, d.(lastSeenAt := now), now + ttl);
  }

  lemma DeleteRep(db: Db, st: Stores, json: Json, id: Id, now: int)
    requires json.Law() && Rep(db, st, json)
    ensures Rep(FlatDelete(db, json, id, now), DeleteStep(st, id, now), json)
  {
    hide Rep, ReadSession, SessionKey, IndexKey, ChallengeKey, DelCmd, DelSession, SRemCmd, SRem;
    ReadSessionRep(db, st, json, id, now);
    match Session(st, now, id)
    case None =>
    case Some(d) =>
      RepSessionWrite(db, st, json, id, d, 0);
      RepSRem(DelCmd(db, SessionKey(id)), DelSession(st, id), json, now, d.identityId, id);
  }

  lemma DelAllStep(db: Db, rest: set<Id>, id: Id)
    ensures DelAllCmd(db, rest + {id}) == DelCmd(DelAllCmd(db, rest), SessionKey(id))
  {
    hide SessionKey;
    assert (set x | x in rest + {id} :: SessionKey(x)) == (set x | x in rest :: SessionKey(x)) + {SessionKey(id)};
  }

  lemma {:induction false} DelAllRep(db: Db, st: Stores, json: Json, ids: set<Id>)
    requires Rep(db, st, json)
    ensures Rep(DelAllCmd(db, ids), st.(sessions := st.sessions - ids), json)
    decreases |ids|
  {
    hide Rep, SessionKey;
    if ids == {} {
      assert DelAllCmd(db, ids) == db;
      assert st.sessions - ids == st.sessions;
    } else {
      hide DelAllCmd, DelCmd;
      var id :| id in ids;
      var rest := ids - {id};
      DelAllRep(db, st, json, rest);
      var st' := st.(sessions := st.sessions - rest);
      RepSessionWrite(DelAllCmd(db, rest), st', json, id, SessionData("", "", "", "", 0, 0, "", ""), 0);
      assert ids == rest + {id};
      DelAllStep(db, rest, id);
      assert st'.sessions - {id} == st.sessions - ids;
    }
  }

  lemma DeleteAllRep(db: Db, st: Stores, json: Json, who: Id, now: int)
    requires Rep(db, st, json)
    ensures Rep(FlatDeleteAll(db, who, now), DeleteAllStep(st, who, now), json)
    ensures SMembersCmd(db, now, IndexKey(who)).Got?
  {
    hide Rep, SessionKey, IndexKey, ChallengeKey, DelAllCmd, DelCmd, DelIndex, SMembersCmd;
    RepReads(db, st, json, now, who);
    var ids := Indexed(st, now, who);
    DelAllRep(db, st, json, ids);
    RepIndexWrite(DelAllCmd(db, ids), st.(sessions := st.sessions - ids), json, who, IndexCell({}, None));
  }

  lemma UnlinkRep(db: Db, st: Stores, json: Json, who: Id, now: int, gone: set<Id>)
    requires Rep(db, st, json)
    ensures Rep(FlatUnlink(db, now, IndexKey(who), gone), Unlink(st, now, who, gone), json)
  {
    hide Rep, SessionKey, IndexKey, ChallengeKey;
    IndexFind(db, st, json, now, who);
    if IndexLive(st, now, who) {
      RepIndexWrite(db, st, json, who, st.index[who].(ids := st.index[who].ids - gone));
    }
  }

  lemma ListRep(db: Db, st: Stores, json: Json, ttl: int, who: Id, now: int)
    requires json.Law() && Rep(db, st, json)
    ensures Rep(FlatStep(db, json, ttl, List(who), now), ListStep(st, who, now), json)
    ensures FlatRespond(db, json, ttl, List(who), now) == Listing(Listed(st, now, who))
  {
    hide Rep, SessionKey, IndexKey, ChallengeKey, GetCmd, SMembersCmd, FlatUnlink, Unlink;
    var ids := Indexed(st, now, who);
    RepReads(db, st, json, now, who);
    forall id ensures GetCmd(db, now, SessionKey(id))
                      == match Session(st, now, id) case None => Nil case Some(d) => Got(json.encode(d)) {
      RepReads(db, st, json, now, id);
    }
    assert FlatStale(db, now, ids) == Stale(st, now, who);
    UnlinkRep(db, st, json, who, now, Stale(st, now, who));
    assert forall id :: ReadSession(db, json, id, now) == match Session(st, now, id) case None => NotFound case Some(d) => Found(d);
    assert !Broken(db, now, ids);
    assert (set id | id in ids && Readable(db, json, now, id) :: ReadSession(db, json, id, now).data) == Listed(st, now, who);
  }

  lemma ChallengeRep(db: Db, st: Stores, json: Json, ttl: int, op: Op, now: int)
    requires Rep(db, st, json)
    requires op.PutChallenge? || op.TakeChallenge?
    ensures Rep(FlatStep(db, json, ttl, op, now), Step(st, ttl, op, now), json)
    ensures FlatRespond(db, json, ttl, op, now) == Respond(st, op, now)
  {
    hide Rep, SessionKey, IndexKey, ChallengeKey, GetCmd, SetCmd, DelCmd, SetChallenge, DelChallenge;
    RepReads(db, st, json, now, op.challenge);
    RepChallengeWrite(db, st, json, op.challenge, if op.PutChallenge? then op.payload else [], if op.PutChallenge? then now + op.life else 0);
  }

  lemma StepRep(db: Db, st: Stores, json: Json, ttl: int, op: Op, now: int)
    requires json.Law() && Rep(db, st, json)
    ensures Rep(FlatStep(db, json, ttl, op, now), Step(st, ttl, op, now), json)
    ensures FlatRespond(db, json, ttl, op, now) == Respond(st, op, now)
  {
    hide Rep, ReadSession, CreateStep, GetStep, DeleteStep, DeleteAllStep, ListStep, SessionKey, IndexKey, ChallengeKey,
      FlatCreate, FlatGet, FlatDelete, FlatDeleteAll, SMembersCmd, GetCmd;
    match op
    case Create(data) => CreateRep(db, st, json, ttl, data, now);
    case Get(id) => GetRep(db, st, json, ttl, id, now); ReadSessionRep(db, st, json, id, now);
    case Delete(id) => DeleteRep(db, st, json, id, now); ReadSessionRep(db, st, json, id, now);
    case DeleteAll(who) => DeleteAllRep(db, st, json, who, now);
    case List(who) => ListRep(db, st, json, ttl, who, now);
    case _ => ChallengeRep(db, st, json, ttl, op, now);
  }

  /** Every run over the one keyspace matches the run over three independent stores, answer by answer. */
  lemma {:induction false} RunSimulates(tr: seq<Event>, json: Json, ttl: int)
    requires json.Law()
    ensures Rep(FlatRun(tr, json, ttl), Run(tr, ttl), json)
    ensures FlatAnswers(tr, json, ttl) == Answers(tr, ttl)
  {
    if tr == [] {
    } else {
      hide Rep, FlatStep, Step, FlatRespond, Respond;
      var n := |tr| - 1;
      RunSimulates(tr[..n], json, ttl);
      StepRep(FlatRun(tr[..n], json, ttl), Run(tr[..n], ttl), json, ttl, tr[n].op, tr[n].at);
    }
  }
}
