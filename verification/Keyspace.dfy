/**
 One flat Redis keyspace (strings and sets with deadlines) and the three logical stores it
 carries: sessions, per-identity session indexes and WebAuthn challenges. Every command on the
 flat keyspace simulates the command of the same name on the separate stores.
 */
module Keyspace {
  import opened Basics

  type Id = string

  // ---------- Redis ----------

  datatype Value = Text(bytes: seq<Byte>) | Members(ids: set<Id>)

  datatype Entry = Entry(value: Value, deadline: Option<int>)

  type Db = map<string, Entry>

  predicate Alive(deadline: Option<int>, now: int) {
    deadline.None? || now < deadline.value
  }

  /** A key past its deadline is absent to every command. */
  function Find(db: Db, now: int, key: string): Option<Entry> {
    if key in db && Alive(db[key].deadline, now) then Some(db[key]) else None
  }

  /** What GET answers: nil, a string, or WRONGTYPE. */
  datatype Reply<T> = Nil | Got(value: T) | WrongType

  function GetCmd(db: Db, now: int, key: string): Reply<seq<Byte>> {
    match Find(db, now, key)
    case None => Nil
    case Some(Entry(Text(bytes), _)) => Got(bytes)
    case Some(_) => WrongType
  }

  function SetCmd(db: Db, key: string, bytes: seq<Byte>, deadline: int): Db {
    db[key := Entry(Text(bytes), Some(deadline))]
  }

  function DelCmd(db: Db, key: string): Db {
    db - {key}
  }

  function SMembersCmd(db: Db, now: int, key: string): Reply<set<Id>> {
    match Find(db, now, key)
    case None => Got({})
    case Some(Entry(Members(ids), _)) => Got(ids)
    case Some(_) => WrongType
  }

  function SAddCmd(db: Db, now: int, key: string, member: Id): Db {
    match Find(db, now, key)
    case None => db[key := Entry(Members({member}), None)]
    case Some(Entry(Members(ids), deadline)) => db[key := Entry(Members(ids + {member}), deadline)]
    case Some(_) => db
  }

  /** Removing the last member removes the key. */
  function SRemCmd(db: Db, now: int, key: string, member: Id): Db {
    match Find(db, now, key)
    case Some(Entry(Members(ids), deadline)) =>
      if ids <= {member} then db - {key} else db[key := Entry(Members(ids - {member}), deadline)]
    case _ => db
  }

  function ExpireCmd(db: Db, now: int, key: string, deadline: int): Db {
    match Find(db, now, key)
    case None => db
    case Some(e) => db[key := e.(deadline := Some(deadline))]
  }

  // ---------- The key scheme ----------

  function SessionKey(id: Id): string { "session:" + id }

  function IndexKey(id: Id): string { "sessions:identity:" + id }

  function ChallengeKey(id: Id): string { "webauthn:challenge:" + id }

  /** For arbitrary id strings the three families are injective and never meet. */
  lemma KeysDistinct()
    ensures forall a, b {:trigger SessionKey(a), SessionKey(b)} :: SessionKey(a) == SessionKey(b) ==> a == b
    ensures forall a, b {:trigger IndexKey(a), IndexKey(b)} :: IndexKey(a) == IndexKey(b) ==> a == b
    ensures forall a, b {:trigger ChallengeKey(a), ChallengeKey(b)} :: ChallengeKey(a) == ChallengeKey(b) ==> a == b
    ensures forall a, b {:trigger SessionKey(a), IndexKey(b)} :: SessionKey(a) != IndexKey(b)
    ensures forall a, b {:trigger SessionKey(a), ChallengeKey(b)} :: SessionKey(a) != ChallengeKey(b)
    ensures forall a, b {:trigger IndexKey(a), ChallengeKey(b)} :: IndexKey(a) != ChallengeKey(b)
  {
    assert forall a :: SessionKey(a)[8..] == a && SessionKey(a)[7] == ':' && SessionKey(a)[0] == 's';
    assert forall a :: IndexKey(a)[18..] == a && IndexKey(a)[7] == 's' && IndexKey(a)[0] == 's';
    assert forall a :: ChallengeKey(a)[19..] == a && ChallengeKey(a)[0] == 'w';
  }

  // ---------- The three stores ----------

  datatype SessionData = SessionData(sessionId: Id, identityId: Id, tenantId: Id, handle: string,
                                     createdAt: int, lastSeenAt: int, deviceInfo: string, ipAddress: string)

  datatype SessionCell = SessionCell(data: SessionData, deadline: int)

  datatype IndexCell = IndexCell(ids: set<Id>, deadline: Option<int>)

  datatype ChallengeCell = ChallengeCell(payload: seq<Byte>, deadline: int)

  datatype Stores = Stores(sessions: map<Id, SessionCell>, index: map<Id, IndexCell>, challenges: map<Id, ChallengeCell>)

  const EMPTY := Stores(map[], map[], map[])

  predicate Live(st: Stores, now: int, id: Id) {
    id in st.sessions && now < st.sessions[id].deadline
  }

  function Session(st: Stores, now: int, id: Id): Option<SessionData> {
    if Live(st, now, id) then Some(st.sessions[id].data) else None
  }

  function SetSession(st: Stores, id: Id, data: SessionData, deadline: int): Stores {
    st.(sessions := st.sessions[id := SessionCell(data, deadline)])
  }

  function DelSession(st: Stores, id: Id): Stores {
    st.(sessions := st.sessions - {id})
  }

  predicate IndexLive(st: Stores, now: int, who: Id) {
    who in st.index && Alive(st.index[who].deadline, now)
  }

  /** SMEMBERS of an identity's index. */
  function Indexed(st: Stores, now: int, who: Id): set<Id> {
    if IndexLive(st, now, who) then st.index[who].ids else {}
  }

  function SAdd(st: Stores, now: int, who: Id, id: Id): Stores {
    if IndexLive(st, now, who)
    then st.(index := st.index[who := st.index[who].(ids := st.index[who].ids + {id})])
    else st.(index := st.index[who := IndexCell({id}, None)])
  }

  function SRem(st: Stores, now: int, who: Id, id: Id): Stores {
    if !IndexLive(st, now, who) then st
    else if st.index[who].ids <= {id} then st.(index := st.index - {who})
    else st.(index := st.index[who := st.index[who].(ids := st.index[who].ids - {id})])
  }

  function Expire(st: Stores, now: int, who: Id, deadline: int): Stores {
    if !IndexLive(st, now, who) then st
    else st.(index := st.index[who := st.index[who].(deadline := Some(deadline))])
  }

  function DelIndex(st: Stores, who: Id): Stores {
    st.(index := st.index - {who})
  }

  function Challenge(st: Stores, now: int, id: Id): Option<seq<Byte>> {
    if id in st.challenges && now < st.challenges[id].deadline then Some(st.challenges[id].payload) else None
  }

  function SetChallenge(st: Stores, id: Id, payload: seq<Byte>, deadline: int): Stores {
    st.(challenges := st.challenges[id := ChallengeCell(payload, deadline)])
  }

  function DelChallenge(st: Stores, id: Id): Stores {
    st.(challenges := st.challenges - {id})
  }

  // ---------- Representation ----------

  /** encoding/json on SessionData. */
  datatype Json = Json(encode: SessionData -> seq<Byte>, decode: seq<Byte> -> Option<SessionData>)
  {
    ghost predicate Law() {
      forall d :: decode(encode(d)) == Some(d)
    }
  }

  function SessionEntry(json: Json, cell: SessionCell): Entry {
    Entry(Text(json.encode(cell.data)), Some(cell.deadline))
  }

  function IndexEntry(cell: IndexCell): Entry {
    Entry(Members(cell.ids), cell.deadline)
  }

  function ChallengeEntry(cell: ChallengeCell): Entry {
    Entry(Text(cell.payload), Some(cell.deadline))
  }

  ghost predicate SessionsRep(db: Db, sessions: map<Id, SessionCell>, json: Json) {
    forall id {:trigger SessionKey(id)} {:trigger id in sessions} ::
      && (SessionKey(id) in db <==> id in sessions)
      && (id in sessions ==> db[SessionKey(id)] == SessionEntry(json, sessions[id]))
  }

  ghost predicate IndexRep(db: Db, index: map<Id, IndexCell>) {
    forall id {:trigger IndexKey(id)} {:trigger id in index} ::
      && (IndexKey(id) in db <==> id in index)
      && (id in index ==> db[IndexKey(id)] == IndexEntry(index[id]))
  }

  ghost predicate ChallengesRep(db: Db, challenges: map<Id, ChallengeCell>) {
    forall id {:trigger ChallengeKey(id)} {:trigger id in challenges} ::
      && (ChallengeKey(id) in db <==> id in challenges)
      && (id in challenges ==> db[ChallengeKey(id)] == ChallengeEntry(challenges[id]))
  }

  /** The flat keyspace holds exactly the cells of the three stores under their keys. */
  ghost predicate Rep(db: Db, st: Stores, json: Json) {
    SessionsRep(db, st.sessions, json) && IndexRep(db, st.index) && ChallengesRep(db, st.challenges)
  }

  lemma RepReads(db: Db, st: Stores, json: Json, now: int, id: Id)
    requires Rep(db, st, json)
    ensures GetCmd(db, now, SessionKey(id))
            == match Session(st, now, id) case None => Nil case Some(d) => Got(json.encode(d))
    ensures SMembersCmd(db, now, IndexKey(id)) == Got(Indexed(st, now, id))
    ensures GetCmd(db, now, ChallengeKey(id))
            == match Challenge(st, now, id) case None => Nil case Some(p) => Got(p)
  {
    hide SessionKey, IndexKey, ChallengeKey;
  }

  lemma SessionsRepWrite(db: Db, m: map<Id, SessionCell>, json: Json, id: Id, cell: SessionCell)
    requires SessionsRep(db, m, json)
    ensures SessionsRep(db[SessionKey(id) := SessionEntry(json, cell)], m[id := cell], json)
    ensures SessionsRep(db - {SessionKey(id)}, m - {id}, json)
  {
    SessionKeysDistinct(id);
    hide SessionKey, IndexKey, ChallengeKey, SessionEntry;
  }

  lemma SessionKeysDistinct(id: Id)
    ensures forall b {:trigger SessionKey(b)} :: SessionKey(b) == SessionKey(id) ==> b == id
  {
    KeysDistinct();
    hide SessionKey, IndexKey, ChallengeKey;
  }

  lemma SessionsRepFrame(db: Db, m: map<Id, SessionCell>, json: Json, key: string, e: Entry)
    requires SessionsRep(db, m, json) && forall id :: SessionKey(id) != key
    ensures SessionsRep(db[key := e], m, json)
    ensures SessionsRep(db - {key}, m, json)
  {
    hide SessionKey, IndexKey, ChallengeKey;
  }

  lemma IndexRepWrite(db: Db, m: map<Id, IndexCell>, id: Id, cell: IndexCell)
    requires IndexRep(db, m)
    ensures IndexRep(db[IndexKey(id) := IndexEntry(cell)], m[id := cell])
    ensures IndexRep(db - {IndexKey(id)}, m - {id})
  {
    IndexKeysDistinct(id);
    hide SessionKey, IndexKey, ChallengeKey, IndexEntry;
  }

  lemma IndexKeysDistinct(id: Id)
    ensures forall b {:trigger IndexKey(b)} :: IndexKey(b) == IndexKey(id) ==> b == id
  {
    KeysDistinct();
    hide SessionKey, IndexKey, ChallengeKey;
  }

  lemma IndexRepFrame(db: Db, m: map<Id, IndexCell>, key: string, e: Entry)
    requires IndexRep(db, m) && forall id :: IndexKey(id) != key
    ensures IndexRep(db[key := e], m)
    ensures IndexRep(db - {key}, m)
  {
    hide SessionKey, IndexKey, ChallengeKey;
  }

  lemma ChallengesRepWrite(db: Db, m: map<Id, ChallengeCell>, id: Id, cell: ChallengeCell)
    requires ChallengesRep(db, m)
    ensures ChallengesRep(db[ChallengeKey(id) := ChallengeEntry(cell)], m[id := cell])
    ensures ChallengesRep(db - {ChallengeKey(id)}, m - {id})
  {
    ChallengeKeysDistinct(id);
    hide SessionKey, IndexKey, ChallengeKey, ChallengeEntry;
  }

  lemma ChallengeKeysDistinct(id: Id)
    ensures forall b {:trigger ChallengeKey(b)} :: ChallengeKey(b) == ChallengeKey(id) ==> b == id
  {
    KeysDistinct();
    hide SessionKey, IndexKey, ChallengeKey;
  }

  lemma ChallengesRepFrame(db: Db, m: map<Id, ChallengeCell>, key: string, e: Entry)
    requires ChallengesRep(db, m) && forall id :: ChallengeKey(id) != key
    ensures ChallengesRep(db[key := e], m)
    ensures ChallengesRep(db - {key}, m)
  {
    hide SessionKey, IndexKey, ChallengeKey;
  }

  /** Writing or deleting one session key touches neither indexes nor challenges; likewise below. */
  lemma RepSessionWrite(db: Db, st: Stores, json: Json, id: Id, data: SessionData, deadline: int)
    requires Rep(db, st, json)
    ensures Rep(SetCmd(db, SessionKey(id), json.encode(data), deadline), SetSession(st, id, data, deadline), json)
    ensures Rep(DelCmd(db, SessionKey(id)), DelSession(st, id), json)
  {
    hide SessionKey, IndexKey, ChallengeKey, SessionsRep, IndexRep, ChallengesRep;
    KeysDistinct();
    var key, e := SessionKey(id), SessionEntry(json, SessionCell(data, deadline));
    SessionsRepWrite(db, st.sessions, json, id, SessionCell(data, deadline));
    IndexRepFrame(db, st.index, key, e);
    ChallengesRepFrame(db, st.challenges, key, e);
  }

  lemma RepIndexWrite(db: Db, st: Stores, json: Json, who: Id, cell: IndexCell)
    requires Rep(db, st, json)
    ensures Rep(db[IndexKey(who) := IndexEntry(cell)], st.(index := st.index[who := cell]), json)
    ensures Rep(DelCmd(db, IndexKey(who)), DelIndex(st, who), json)
  {
    hide SessionKey, IndexKey, ChallengeKey, SessionsRep, IndexRep, ChallengesRep;
    KeysDistinct();
    var key := IndexKey(who);
    SessionsRepFrame(db, st.sessions, json, key, IndexEntry(cell));
    IndexRepWrite(db, st.index, who, cell);
    ChallengesRepFrame(db, st.challenges, key, IndexEntry(cell));
  }

  lemma RepChallengeWrite(db: Db, st: Stores, json: Json, id: Id, payload: seq<Byte>, deadline: int)
    requires Rep(db, st, json)
    ensures Rep(SetCmd(db, ChallengeKey(id), payload, deadline), SetChallenge(st, id, payload, deadline), json)
    ensures Rep(DelCmd(db, ChallengeKey(id)), DelChallenge(st, id), json)
  {
    hide SessionKey, IndexKey, ChallengeKey, SessionsRep, IndexRep, ChallengesRep;
    KeysDistinct();
    var key, cell := ChallengeKey(id), ChallengeCell(payload, deadline);
    SessionsRepFrame(db, st.sessions, json, key, ChallengeEntry(cell));
    IndexRepFrame(db, st.index, key, ChallengeEntry(cell));
    ChallengesRepWrite(db, st.challenges, id, cell);
  }

  lemma IndexFind(db: Db, st: Stores, json: Json, now: int, who: Id)
    requires Rep(db, st, json)
    ensures Find(db, now, IndexKey(who))
            == if IndexLive(st, now, who) then Some(IndexEntry(st.index[who])) else None
  {
    hide IndexKey;
  }

  lemma RepSAdd(db: Db, st: Stores, json: Json, now: int, who: Id, id: Id)
    requires Rep(db, st, json)
    ensures Rep(SAddCmd(db, now, IndexKey(who), id), SAdd(st, now, who, id), json)
  {
    hide SessionKey, IndexKey, ChallengeKey, SessionsRep, IndexRep, ChallengesRep;
    var cell := if IndexLive(st, now, who) then st.index[who].(ids := st.index[who].ids + {id}) else IndexCell({id}, None);
    IndexFind(db, st, json, now, who);
    RepIndexWrite(db, st, json, who, cell);
  }

  lemma RepSRem(db: Db, st: Stores, json: Json, now: int, who: Id, id: Id)
    requires Rep(db, st, json)
    ensures Rep(SRemCmd(db, now, IndexKey(who), id), SRem(st, now, who, id), json)
  {
    hide SessionKey, IndexKey, ChallengeKey, SessionsRep, IndexRep, ChallengesRep;
    IndexFind(db, st, json, now, who);
    if IndexLive(st, now, who) {
      RepIndexWrite(db, st, json, who, st.index[who].(ids := st.index[who].ids - {id}));
    }
  }

  lemma RepExpire(db: Db, st: Stores, json: Json, now: int, who: Id, deadline: int)
    requires Rep(db, st, json)
    ensures Rep(ExpireCmd(db, now, IndexKey(who), deadline), Expire(st, now, who, deadline), json)
  {
    hide SessionKey, IndexKey, ChallengeKey, SessionsRep, IndexRep, ChallengesRep;
    IndexFind(db, st, json, now, who);
    if IndexLive(st, now, who) {
      RepIndexWrite(db, st, json, who, st.index[who].(deadline := Some(deadline)));
    }
  }
}
