/**
 The store classes of internal/store over one shared Redis server. Each method issues the source's
 commands in the source's order and is proved against the flat operations of module Sessions, which
 simulate the three logical stores.
 */
module SessionStore {
  import opened Basics
  import opened Keyspace
  import opened Sessions

  class Server {
    var db: Db

    constructor ()
      ensures db == map[]
    {
      db := map[];
    }
  }

  class RedisStore {
    const server: Server

    constructor (server: Server)
      ensures this.server == server
    {
      this.server := server;
    }

    method SetChallenge(id: Id, payload: seq<Byte>, life: int, now: int)
      modifies server
      ensures forall json, ttl :: server.db == FlatStep(old(server.db), json, ttl, PutChallenge(id, payload, life), now)
    {
      server.db := SetCmd(server.db, ChallengeKey(id), payload, now + life);
    }

    /** GETDEL: one command reads and removes. */
    method GetChallenge(id: Id, now: int) returns (a: Answer)
      modifies server
      ensures forall json, ttl :: server.db == FlatStep(old(server.db), json, ttl, TakeChallenge(id), now)
      ensures forall json, ttl :: a == FlatRespond(old(server.db), json, ttl, TakeChallenge(id), now)
    {
      match GetCmd(server.db, now, ChallengeKey(id))
      case Nil => a := NotFound;
      case WrongType => a := Failed;
      case Got(bytes) =>
        a := Payload(bytes);
        server.db := DelCmd(server.db, ChallengeKey(id));
    }
  }

  class SessionStore {
    const server: Server
    const json: Json
    const ttl: int

    constructor (server: Server, json: Json, ttl: int)
      ensures this.server == server && this.json == json && this.ttl == ttl
    {
      this.server := server;
      this.json := json;
      this.ttl := ttl;
    }

    /** A pipeline: every command is issued, an error of one is reported at the end. */
    method Create(data: SessionData, now: int) returns (a: Answer)
      modifies server
      ensures server.db == FlatStep(old(server.db), json, ttl, Op.Create(data), now)
      ensures a == FlatRespond(old(server.db), json, ttl, Op.Create(data), now)
    {
      server.db := SetCmd(server.db, SessionKey(data.sessionId), json.encode(data), now + ttl);
      var index := IndexKey(data.identityId);
      a := if SMembersCmd(server.db, now, index).WrongType? then Failed else Done;
      server.db := SAddCmd(server.db, now, index, data.sessionId);
      server.db := ExpireCmd(server.db, now, index, now + ttl);
    }

    method Get(id: Id, now: int) returns (a: Answer)
      modifies server
      ensures server.db == FlatStep(old(server.db), json, ttl, Op.Get(id), now)
      ensures a == FlatRespond(old(server.db), json, ttl, Op.Get(id), now)
    {
      a := ReadSession(server.db, json, id, now);
      if a.Found? {
        a := Found(a.data.(lastSeenAt := now));
        server.db := SetCmd(server.db, SessionKey(id), json.encode(a.data), now + ttl);
      }
    }

    method Delete(id: Id, now: int) returns (a: Answer)
      modifies server
      ensures server.db == FlatStep(old(server.db), json, ttl, Op.Delete(id), now)
      ensures a == FlatRespond(old(server.db), json, ttl, Op.Delete(id), now)
    {
      a := ReadSession(server.db, json, id, now);
      if a.Found? {
        var who := a.data.identityId;
        server.db := DelCmd(server.db, SessionKey(id));
        server.db := SRemCmd(server.db, now, IndexKey(who), id);
        a := Done;
      }
    }

    method DeleteAll(who: Id, now: int) returns (a: Answer)
      modifies server
      ensures server.db == FlatStep(old(server.db), json, ttl, Op.DeleteAll(who), now)
      ensures a == FlatRespond(old(server.db), json, ttl, Op.DeleteAll(who), now)
    {
      var members := SMembersCmd(server.db, now, IndexKey(who));
      if !members.Got? {
        return Failed;
      }
      if members.value == {} {
        return Done;
      }
      hide SessionKey, IndexKey;
      var todo := members.value;
      ghost var before := server.db;
      assert DelAllCmd(before, {}) == before;
      while todo != {}
        invariant todo <= members.value
        invariant server.db == DelAllCmd(before, members.value - todo)
        decreases |todo|
      {
        var id :| id in todo;
        DelAllStep(before, members.value - todo, id);
        assert (members.value - todo) + {id} == members.value - (todo - {id});
        server.db := DelCmd(server.db, SessionKey(id));
        todo := todo - {id};
      }
      assert members.value - todo == members.value;
      server.db := DelCmd(server.db, IndexKey(who));
      a := Done;
    }

    /**
     Reads every indexed session in some order, dropping stale index entries on the way. The
     ghost result names the order in which the returned sessions were read.
     */
    method ListByIdentity(who: Id, now: int) returns (a: Answer, sessions: seq<SessionData>, ghost order: seq<Id>)
      modifies server
      ensures a == FlatRespond(old(server.db), json, ttl, Op.List(who), now)
      ensures a.Listing? ==> server.db == FlatStep(old(server.db), json, ttl, Op.List(who), now)
      ensures a.Listing? ==> SMembersCmd(old(server.db), now, IndexKey(who)).Got?
      ensures a.Listing? ==> InOrder(old(server.db), json, now, SMembersCmd(old(server.db), now, IndexKey(who)).value, order, sessions)
    {
      sessions, order := [], [];
      var members := SMembersCmd(server.db, now, IndexKey(who));
      if !members.Got? {
        return Failed, [], [];
      }
      ghost var before := server.db;
      var ids := members.value;
      var todo := ids;
      ghost var gone: set<Id> := {};
      UnlinkNothing(before, now, IndexKey(who));
      assert InOrder(before, json, now, {}, order, sessions) && FlatStale(before, now, {}) == {};
      hide SessionKey, IndexKey, ChallengeKey, SMembersCmd, FlatUnlink, SRemCmd, InOrder, GetCmd, FlatStale;
      while todo != {}
        invariant todo <= ids
        invariant gone == FlatStale(before, now, ids - todo)
        invariant server.db == FlatUnlink(before, now, IndexKey(who), gone)
        invariant forall id <- ids - todo :: !GetCmd(before, now, SessionKey(id)).WrongType?
        invariant InOrder(before, json, now, ids - todo, order, sessions)
        decreases |todo|
      {
        var id :| id in todo;
        assert ids - (todo - {id}) == (ids - todo) + {id};
        UnlinkReads(before, now, who, gone, id);
        ReadNext(before, json, now, ids - todo, order, sessions, id);
        StaleNext(before, now, ids - todo, id);
        match GetCmd(server.db, now, SessionKey(id)) {
          case Nil =>
            UnlinkOne(before, now, IndexKey(who), gone, id);
            server.db := SRemCmd(server.db, now, IndexKey(who), id);
            gone := gone + {id};
          case WrongType =>
            return Failed, [], [];
          case Got(bytes) =>
            match json.decode(bytes) {
              case None =>
              case Some(data) =>
                sessions := sessions + [data];
                order := order + [id];
            }
        }
        todo := todo - {id};
      }
      assert ids - todo == ids;
      a := Listing(set d | d in sessions);
      ReadAll(before, json, now, ids, order, sessions);
    }
  }

  /** The sessions read so far: one for each readable id that has been visited. */
  ghost predicate InOrder(db: Db, json: Json, now: int, visited: set<Id>, order: seq<Id>, sessions: seq<SessionData>) {
    && |order| == |sessions|
    && (forall id :: id in order <==> id in visited && Readable(db, json, now, id))
    && (forall i, j :: 0 <= i < j < |order| ==> order[i] != order[j])
    && (forall i :: 0 <= i < |order| ==> ReadSession(db, json, order[i], now) == Found(sessions[i]))
  }

  lemma ReadNext(db: Db, json: Json, now: int, visited: set<Id>, order: seq<Id>, sessions: seq<SessionData>, id: Id)
    requires InOrder(db, json, now, visited, order, sessions) && id !in visited
    ensures !Readable(db, json, now, id) ==> InOrder(db, json, now, visited + {id}, order, sessions)
    ensures Readable(db, json, now, id) ==>
      InOrder(db, json, now, visited + {id}, order + [id], sessions + [ReadSession(db, json, id, now).data])
  {
    hide ReadSession;
  }

  lemma StaleNext(db: Db, now: int, visited: set<Id>, id: Id)
    ensures FlatStale(db, now, visited + {id})
            == if GetCmd(db, now, SessionKey(id)).Nil? then FlatStale(db, now, visited) + {id} else FlatStale(db, now, visited)
  {
    hide GetCmd, SessionKey;
  }

  lemma ReadAll(db: Db, json: Json, now: int, ids: set<Id>, order: seq<Id>, sessions: seq<SessionData>)
    requires InOrder(db, json, now, ids, order, sessions)
    ensures (set d | d in sessions)
            == (set id | id in ids && Readable(db, json, now, id) :: ReadSession(db, json, id, now).data)
  {
    hide ReadSession;
    var found := set id | id in ids && Readable(db, json, now, id) :: ReadSession(db, json, id, now).data;
    forall d | d in found ensures d in sessions {
      var id :| id in ids && Readable(db, json, now, id) && ReadSession(db, json, id, now).data == d;
      assert id in order;
    }
    forall d | d in sessions ensures d in found {
      var i :| 0 <= i < |sessions| && sessions[i] == d;
      assert order[i] in order;
    }
  }

  lemma UnlinkNothing(db: Db, now: int, key: string)
    ensures FlatUnlink(db, now, key, {}) == db
  {
  }

  lemma UnlinkOne(db: Db, now: int, key: string, gone: set<Id>, id: Id)
    ensures SRemCmd(FlatUnlink(db, now, key, gone), now, key, id) == FlatUnlink(db, now, key, gone + {id})
  {
    match Find(db, now, key)
    case Some(Entry(Members(ids), deadline)) =>
      assert ids - gone - {id} == ids - (gone + {id});
      assert ids - gone <= {id} <==> ids <= gone + {id};
      if gone == {} {
        assert gone + {id} == {id};
      } else if !(ids <= gone) {
        var cut := Entry(Members(ids - gone), deadline);
        assert db[key := cut] - {key} == db - {key};
      }
    case _ =>
  }

  lemma UnlinkReads(db: Db, now: int, who: Id, gone: set<Id>, id: Id)
    ensures GetCmd(FlatUnlink(db, now, IndexKey(who), gone), now, SessionKey(id)) == GetCmd(db, now, SessionKey(id))
  {
    KeysDistinct();
    hide IndexKey, SessionKey;
  }
}
