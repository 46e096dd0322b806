/**
 Admission of requests: the login handler's session-then-token sequence, the RequireAuth
 middleware and session revocation (internal/transport/http). Over every run of session
 operations, a handler-issued token is admitted exactly up to the second of its exp and exactly
 while its session has not been revoked.
 */
module Admission {
  import opened Basics
  import opened Keyspace
  import opened Sessions
  import opened SessionRuns
  import opened Token
  import SessionStore

  /** NewSessionStore(client, 24*time.Hour) in cmd/verion/main.go. */
  const SESSION_TTL := 24 * 3600 * SECOND

  const BEARER := "Bearer "

  datatype Decision = MissingHeader | BadToken | NoSession | Admitted(claims: Claims)

  function BearerToken(header: string): Option<string> {
    if header == "" || !(BEARER <= header) then None else Some(header[|BEARER|..])
  }

  /** The decision of RequireAuth on the stored sessions. */
  function RequireAuth(st: Stores, b: Backend, header: string, now: int): Decision {
    match BearerToken(header)
    case None => MissingHeader
    case Some(token) =>
      match Verify(b, token, now)
      case Err(_) => BadToken
      case Ok(c) => if c.sessionId != "" && !Live(st, now, c.sessionId) then NoSession else Admitted(c)
  }

  /** The claims the login and registration handlers hand to Issue for a session. */
  function LoginClaims(data: SessionData, kind: string, cfg: Config, now: int): Claims {
    Stamp(Claims(data.identityId, 0, 0, "", data.tenantId, data.handle, kind, ""), data.sessionId, cfg, now)
  }

  class Gateway {
    const store: SessionStore.SessionStore
    const tokens: TokenService

    constructor (store: SessionStore.SessionStore, tokens: TokenService)
      ensures this.store == store && this.tokens == tokens
    {
      this.store := store;
      this.tokens := tokens;
    }

    /** LoginComplete and RegisterComplete after verification: session, then token, each at its own reading of the clock. */
    method CompleteLogin(data: SessionData, kind: string, now: int, issued: int) returns (token: Option<string>)
      modifies store.server
      ensures store.server.db == FlatStep(old(store.server.db), store.json, store.ttl, Create(data), now)
      ensures token.Some? <==> FlatRespond(old(store.server.db), store.json, store.ttl, Create(data), now) == Done
      ensures token.Some? ==>
        var iat, exp := issued / 1_000_000_000, (issued + tokens.cfg.ttl) / 1_000_000_000;
        token.value == Compact(tokens.backend, Claims(data.identityId, iat, exp, tokens.cfg.issuer, data.tenantId,
                                                      data.handle, kind, data.sessionId))
    {
      hide *;
      var a := store.Create(data, now);
      if a != Done {
        return None;
      }
      var claims := new ClaimsBox(Claims(data.identityId, 0, 0, "", data.tenantId, data.handle, kind, ""));
      var t := tokens.Issue(claims, data.sessionId, issued);
      token := Some(t);
    }

    /**
     The middleware: no Bearer header, a token that does not verify, a named session that is gone, or
     admission with the token's claims; a verified token that names a session also refreshes it.
     */
    method Authenticate(header: string, now: int) returns (d: Decision)
      modifies store.server
      ensures d == FlatAuth(old(store.server.db), store.json, tokens.backend, header, now)
      ensures d.MissingHeader? <==> !("Bearer " <= header)
      ensures "Bearer " <= header ==> (d.BadToken? <==> Verify(tokens.backend, header[7..], now).Err?)
      ensures d.Admitted? ==> Verify(tokens.backend, header[7..], now) == Ok(d.claims)
      ensures forall st :: store.json.Law() && Rep(old(store.server.db), st, store.json) ==>
        && d == RequireAuth(st, tokens.backend, header, now)
        && Rep(store.server.db, AuthStep(st, store.ttl, tokens.backend, header, now), store.json)
    {
      hide Verify, FlatGet, ReadSession, Rep;
      ghost var before := store.server.db;
      forall st | store.json.Law() && Rep(before, st, store.json)
        ensures FlatAuth(before, store.json, tokens.backend, header, now) == RequireAuth(st, tokens.backend, header, now)
        ensures Rep(FlatAuthStep(before, store.json, store.ttl, tokens.backend, header, now),
                    AuthStep(st, store.ttl, tokens.backend, header, now), store.json)
      {
        AuthRep(before, st, store.json, tokens.backend, header, now);
        AuthStepRep(before, st, store.json, store.ttl, tokens.backend, header, now);
      }
      hide AuthStep, RequireAuth;
      var bearer := BearerToken(header);
      if bearer.None? {
        return MissingHeader;
      }
      var verified := Verify(tokens.backend, bearer.value, now);
      if verified.Err? {
        return BadToken;
      }
      var c := verified.value;
      if c.sessionId != "" {
        var a := store.Get(c.sessionId, now);
        if !a.Found? {
          return NoSession;
        }
      }
      d := Admitted(c);
    }

    /** RevokeSession: read the session, compare its owner, delete it. */
    method RevokeSession(subject: Id, id: Id, now: int) returns (r: Revocation)
      modifies store.server
      ensures r == BadRequest <==> id == ""
      ensures forall st :: store.json.Law() && store.ttl > 0 && Rep(old(store.server.db), st, store.json) ==>
        && (r == NoSuchSession <==> id != "" && !Live(st, now, id))
        && (r == Forbidden <==> id != "" && Live(st, now, id) && st.sessions[id].data.identityId != subject)
        && (r == Revoked <==> id != "" && Live(st, now, id) && st.sessions[id].data.identityId == subject)
        && Rep(store.server.db, RevokeStep(st, store.ttl, subject, id, now), store.json)
    {
      ghost var before := store.server.db;
      hide Rep, FlatGet, FlatDelete, ReadSession, RevokeStep, Live;
      if id == "" {
        r := BadRequest;
      } else {
        var a := store.Get(id, now);
        if !a.Found? {
          r := NoSuchSession;
        } else if a.data.identityId != subject {
          r := Forbidden;
        } else {
          var deleted := store.Delete(id, now);
          r := if deleted == Done then Revoked else Internal;
        }
      }
      assert (r, store.server.db) == FlatRevoke(before, store.json, store.ttl, subject, id, now);
      assert r == BadRequest <==> id == "";
      hide FlatRevoke;
      RevokeAll(before, store.json, store.ttl, subject, id, now);
    }
  }

  /** The answers of the revoke handler. */
  datatype Revocation = BadRequest | NoSuchSession | Forbidden | Revoked | Internal

  /** The revoke handler on the keyspace. */
  function FlatRevoke(db: Db, json: Json, ttl: int, subject: Id, id: Id, now: int): (Revocation, Db) {
    if id == "" then (BadRequest, db) else
      var got := FlatGet(db, json, ttl, id, now);
      match ReadSession(db, json, id, now)
      case Found(d) =>
        if d.identityId != subject then (Forbidden, got)
        else (if ReadSession(got, json, id, now).Found? then Revoked else Internal, FlatDelete(got, json, id, now))
      case _ => (NoSuchSession, got)
  }

  lemma RevokeRep(db: Db, st: Stores, json: Json, ttl: int, subject: Id, id: Id, now: int)
    requires json.Law() && ttl > 0 && Rep(db, st, json)
    ensures var (r, db') := FlatRevoke(db, json, ttl, subject, id, now);
            && (r == NoSuchSession <==> id != "" && !Live(st, now, id))
            && (r == Forbidden <==> id != "" && Live(st, now, id) && st.sessions[id].data.identityId != subject)
            && (r == Revoked <==> id != "" && Live(st, now, id) && st.sessions[id].data.identityId == subject)
            && Rep(db', RevokeStep(st, ttl, subject, id, now), json)
  {
    hide Rep, FlatGet, FlatDelete, ReadSession, DeleteStep;
    var got, st1 := FlatGet(db, json, ttl, id, now), GetStep(st, ttl, id, now);
    ReadSessionRep(db, st, json, id, now);
    GetRep(db, st, json, ttl, id, now);
    ReadSessionRep(got, st1, json, id, now);
    DeleteRep(got, st1, json, id, now);
  }

  lemma RevokeAll(db: Db, json: Json, ttl: int, subject: Id, id: Id, now: int)
    ensures forall st :: json.Law() && ttl > 0 && Rep(db, st, json) ==>
      var (r, db') := FlatRevoke(db, json, ttl, subject, id, now);
      && (r == NoSuchSession <==> id != "" && !Live(st, now, id))
      && (r == Forbidden <==> id != "" && Live(st, now, id) && st.sessions[id].data.identityId != subject)
      && (r == Revoked <==> id != "" && Live(st, now, id) && st.sessions[id].data.identityId == subject)
      && Rep(db', RevokeStep(st, ttl, subject, id, now), json)
  {
    forall st | json.Law() && ttl > 0 && Rep(db, st, json)
      ensures var (r, db') := FlatRevoke(db, json, ttl, subject, id, now);
              && (r == NoSuchSession <==> id != "" && !Live(st, now, id))
              && (r == Forbidden <==> id != "" && Live(st, now, id) && st.sessions[id].data.identityId != subject)
              && (r == Revoked <==> id != "" && Live(st, now, id) && st.sessions[id].data.identityId == subject)
              && Rep(db', RevokeStep(st, ttl, subject, id, now), json)
    {
      RevokeRep(db, st, json, ttl, subject, id, now);
    }
    hide Rep, FlatRevoke, RevokeStep, Live;
  }

  /** What the revoke handler does to the stores. */
  function RevokeStep(st: Stores, ttl: int, subject: Id, id: Id, now: int): Stores {
    if id == "" then st
    else
      var got := GetStep(st, ttl, id, now);
      if Live(st, now, id) && st.sessions[id].data.identityId == subject then DeleteStep(got, id, now) else got
  }

  function FlatAuth(db: Db, json: Json, b: Backend, header: string, now: int): Decision {
    match BearerToken(header)
    case None => MissingHeader
    case Some(token) =>
      match Verify(b, token, now)
      case Err(_) => BadToken
      case Ok(c) => if c.sessionId != "" && !ReadSession(db, json, c.sessionId, now).Found? then NoSession else Admitted(c)
  }

  function FlatAuthStep(db: Db, json: Json, ttl: int, b: Backend, header: string, now: int): Db {
    match BearerToken(header)
    case None => db
    case Some(token) =>
      match Verify(b, token, now)
      case Err(_) => db
      case Ok(c) => if c.sessionId == "" then db else FlatGet(db, json, ttl, c.sessionId, now)
  }

  /** On a keyspace that represents the stores the middleware decides as specified over them. */
  lemma AuthRep(db: Db, st: Stores, json: Json, b: Backend, header: string, now: int)
    requires json.Law() && Rep(db, st, json)
    ensures FlatAuth(db, json, b, header, now) == RequireAuth(st, b, header, now)
  {
    hide Verify, Rep, ReadSession;
    match BearerToken(header)
    case None =>
    case Some(token) =>
      match Verify(b, token, now)
      case Err(_) =>
      case Ok(c) => ReadSessionRep(db, st, json, c.sessionId, now);
  }

  /** What the middleware does to the stores. */
  function AuthStep(st: Stores, ttl: int, b: Backend, header: string, now: int): Stores {
    match BearerToken(header)
    case None => st
    case Some(token) =>
      match Verify(b, token, now)
      case Err(_) => st
      case Ok(c) => if c.sessionId == "" then st else GetStep(st, ttl, c.sessionId, now)
  }

  lemma AuthStepRep(db: Db, st: Stores, json: Json, ttl: int, b: Backend, header: string, now: int)
    requires json.Law() && Rep(db, st, json)
    ensures Rep(FlatAuthStep(db, json, ttl, b, header, now), AuthStep(st, ttl, b, header, now), json)
  {
    hide Verify, Rep, FlatGet, GetStep;
    match BearerToken(header)
    case None =>
    case Some(token) =>
      match Verify(b, token, now)
      case Err(_) =>
      case Ok(c) => GetRep(db, st, json, ttl, c.sessionId, now);
  }

  /**
   Every header: 401 without the literal prefix, 401 if what follows does not verify, 401 if it names
   a session that is not live, and admission with its claims otherwise. A session named by a token
   that verifies, if live, is live for another TTL; nothing else is touched.
   */
  lemma AuthExact(st: Stores, ttl: int, b: Backend, header: string, now: int)
    requires ttl > 0
    ensures RequireAuth(st, b, header, now) == MissingHeader <==> !("Bearer " <= header)
    ensures "Bearer " <= header ==>
      var v := Verify(b, header[7..], now);
      && (RequireAuth(st, b, header, now) == BadToken <==> v.Err?)
      && (v.Ok? ==>
            var sid := v.value.sessionId;
            && (RequireAuth(st, b, header, now) == NoSession <==> sid != "" && !Live(st, now, sid))
            && (RequireAuth(st, b, header, now) == Admitted(v.value) <==> sid == "" || Live(st, now, sid)))
    ensures var after := AuthStep(st, ttl, b, header, now);
            && after.index == st.index && after.challenges == st.challenges && after.sessions.Keys == st.sessions.Keys
            && forall id :: id in st.sessions ==>
                 after.sessions[id] == if "Bearer " <= header && Verify(b, header[7..], now).Ok? && id != ""
                                          && Verify(b, header[7..], now).value.sessionId == id && Live(st, now, id)
                                       then SessionCell(st.sessions[id].data.(lastSeenAt := now), now + ttl)
                                       else st.sessions[id]
  {
    hide Verify;
  }

  // ---------- Survival of a session within its first TTL ----------

  ghost predicate RevokedAfter(tr: seq<Event>, i: nat, id: Id, who: Id) {
    exists j :: i < j < |tr| && (tr[j].op == Delete(id) || tr[j].op == DeleteAll(who))
  }

  lemma DeadlineStep(st: Stores, ttl: int, e: Event, id: Id)
    requires !Creates(e, id) && id in Step(st, ttl, e.op, e.at).sessions
    ensures id in st.sessions
    ensures Step(st, ttl, e.op, e.at).sessions[id].deadline
            == if e.op == Get(id) && Live(st, e.at, id) then e.at + ttl else st.sessions[id].deadline
  {
  }

  /** A stored session's deadline is never before a full TTL from its creation. */
  lemma {:induction false} DeadlineKept(tr: seq<Event>, ttl: int, i: nat)
    requires Monotone(tr) && Fresh(tr) && i < |tr| && tr[i].op.Create?
    requires tr[i].op.data.sessionId in Run(tr, ttl).sessions
    ensures Run(tr, ttl).sessions[tr[i].op.data.sessionId].deadline >= tr[i].at + ttl
  {
    var n := |tr| - 1;
    var pre, e, id := tr[..n], tr[n], tr[i].op.data.sessionId;
    if i < n {
      hide Step;
      assert pre[i] == tr[i] && !Creates(e, id);
      DeadlineStep(Run(pre, ttl), ttl, e, id);
      DeadlineKept(pre, ttl, i);
    }
  }

  /** Apart from Delete of the session and DeleteAll reaching it, a step keeps a live session stored. */
  lemma StoredStep(st: Stores, ttl: int, e: Event, id: Id)
    requires Live(st, e.at, id)
    ensures id in Step(st, ttl, e.op, e.at).sessions
            <==> e.op != Delete(id) && !(e.op.DeleteAll? && id in Indexed(st, e.at, e.op.who))
  {
  }

  /** Within a TTL of its creation the index key cannot have lapsed. */
  lemma NoEarlyLapse(tr: seq<Event>, ttl: int, i: nat, now: int)
    requires Monotone(tr) && i < |tr| && tr[i].op.Create? && now < tr[i].at + ttl
    requires tr[|tr| - 1].at <= now
    ensures !Lapsed(tr, i, tr[i].op.data.identityId, ttl, now)
  {
  }

  /** Within a TTL of its creation a session is in the store exactly when it has not been revoked. */
  lemma {:induction false} StoredExact(tr: seq<Event>, ttl: int, i: nat, now: int)
    requires ttl > 0 && Trace(tr, now) && i < |tr| && tr[i].op.Create? && now < tr[i].at + ttl
    ensures tr[i].op.data.sessionId in Run(tr, ttl).sessions
            <==> !RevokedAfter(tr, i, tr[i].op.data.sessionId, tr[i].op.data.identityId)
  {
    var n := |tr| - 1;
    var pre, e := tr[..n], tr[n];
    var id, who := tr[i].op.data.sessionId, tr[i].op.data.identityId;
    if i < n {
      hide Step, Lapsed, Indexed;
      assert pre[i] == tr[i] && !Creates(e, id);
      StoredExact(pre, ttl, i, e.at);
      var st := Run(pre, ttl);
      RevokedStep(tr, i, id, who);
      if id in st.sessions {
        DeadlineKept(pre, ttl, i);
        assert Live(st, e.at, id) && Live(st, pre[n - 1].at, id);
        StoredStep(st, ttl, e, id);
        NoEarlyLapse(pre, ttl, i, e.at);
        CoverageAt(pre, ttl, i, e.at);
        if e.op.DeleteAll? && id in Indexed(st, e.at, e.op.who) {
          IndexedBelongs(pre, ttl, e.at, e.op.who, id);
          IndexedBelongs(pre, ttl, e.at, who, id);
        }
      } else if id in Run(tr, ttl).sessions {
        LiveBack(st, ttl, e, id);
      }
    }
  }

  lemma RevokedStep(tr: seq<Event>, i: nat, id: Id, who: Id)
    requires tr != [] && i < |tr| - 1
    ensures RevokedAfter(tr, i, id, who)
            <==> RevokedAfter(tr[..|tr| - 1], i, id, who) || tr[|tr| - 1].op == Delete(id) || tr[|tr| - 1].op == DeleteAll(who)
  {
    var n := |tr| - 1;
    if RevokedAfter(tr[..n], i, id, who) {
      var j :| i < j < n && (tr[..n][j].op == Delete(id) || tr[..n][j].op == DeleteAll(who));
      assert tr[j] == tr[..n][j];
    }
    if RevokedAfter(tr, i, id, who) {
      var j :| i < j < |tr| && (tr[j].op == Delete(id) || tr[j].op == DeleteAll(who));
      assert j < n ==> tr[j] == tr[..n][j];
    }
  }

  // ---------- The main results ----------

  /** The token is stamped no earlier than its session is stored, and expires within the session's first TTL. */
  predicate InTime(created: int, issued: int, cfg: Config, ttl: int) {
    created <= issued && issued + cfg.ttl + SECOND <= created + ttl
  }

  /**
   Exact admission. In every run, the token issued for session i is admitted exactly when the
   clock second is at most exp and no Delete of the session and no DeleteAll of its identity has
   happened since; the decision then rests on a session whose identity is the token's subject.
   */
  lemma ExactAdmission(tr: seq<Event>, ttl: int, i: nat, issued: int, now: int, b: Backend, cfg: Config, kind: string)
    requires b.Law() && Trace(tr, now) && i < |tr| && tr[i].op.Create?
    requires 0 < cfg.ttl && InTime(tr[i].at, issued, cfg, ttl)
    requires tr[i].op.data.sessionId != "" && tr[i].op.data.identityId != "" && tr[i].op.data.tenantId != ""
    ensures var data := tr[i].op.data;
            var c := LoginClaims(data, kind, cfg, issued);
            var d := RequireAuth(Run(tr, ttl), b, BEARER + Compact(b, c), now);
            && (d.Admitted? <==> Unix(now) <= c.expiresAt && !RevokedAfter(tr, i, data.sessionId, data.identityId))
            && (d.Admitted? ==> d.claims == c && data.sessionId in Run(tr, ttl).sessions
                                && Run(tr, ttl).sessions[data.sessionId].data.identityId == d.claims.subject)
  {
    hide Run, Verify, Compact, RevokedAfter, Owner;
    var data := tr[i].op.data;
    var c0 := Claims(data.identityId, 0, 0, "", data.tenantId, data.handle, kind, "");
    var c := LoginClaims(data, kind, cfg, issued);
    var header := BEARER + Compact(b, c);
    assert header[|BEARER|..] == Compact(b, c);
    VerifyIssued(b, c0, data.sessionId, cfg, issued, now);
    if Unix(now) <= c.expiresAt {
      assert now < tr[i].at + ttl;
      StoredExact(tr, ttl, i, now);
      if data.sessionId in Run(tr, ttl).sessions {
        DeadlineKept(tr, ttl, i);
        RunOwned(tr, ttl);
        OwnerAt(tr, i);
      }
    }
  }

  /** With the constants of the running server: a one-hour token, stamped within 23 hours of its 24-hour session. */
  lemma ServerAdmission(tr: seq<Event>, i: nat, issued: int, now: int, b: Backend, kind: string)
    requires b.Law() && Trace(tr, now) && i < |tr| && tr[i].op.Create?
    requires tr[i].op.data.sessionId != "" && tr[i].op.data.identityId != "" && tr[i].op.data.tenantId != ""
    requires tr[i].at <= issued <= tr[i].at + 23 * 3600 * 1_000_000_000 - 1_000_000_000
    ensures var data := tr[i].op.data;
            var iat, exp := issued / 1_000_000_000, (issued + 3600 * 1_000_000_000) / 1_000_000_000;
            var c := Claims(data.identityId, iat, exp, "verion", data.tenantId, data.handle, kind, data.sessionId);
            RequireAuth(Run(tr, 24 * 3600 * 1_000_000_000), b, "Bearer " + Compact(b, c), now).Admitted?
            <==> now / 1_000_000_000 <= exp && !RevokedAfter(tr, i, data.sessionId, data.identityId)
  {
    hide Run, RequireAuth, Compact, RevokedAfter;
    ExactAdmission(tr, SESSION_TTL, i, issued, now, b, Config(TOKEN_TTL, "verion"), kind);
  }

  /** The claims issued for a run, the i-th token having the given identity type and instant. */
  ghost function IssuedClaims(tr: seq<Event>, cfg: Config, kind: nat -> string, issued: nat -> int): set<Claims> {
    set i: nat | i < |tr| && tr[i].op.Create? :: LoginClaims(tr[i].op.data, kind(i), cfg, issued(i))
  }

  /**
   Whatever header is admitted, if its token is not forged then it was issued in the run for a
   session that is live, not revoked within the token's life, and owned by the token's subject.
   */
  lemma AdmittedOnlyIssued(tr: seq<Event>, ttl: int, now: int, b: Backend, cfg: Config, kind: nat -> string,
                           issued: nat -> int, header: string)
    requires b.Law() && Trace(tr, now) && 0 < cfg.ttl
    requires forall i: nat :: i < |tr| && tr[i].op.Create? ==> InTime(tr[i].at, issued(i), cfg, ttl)
    requires forall i :: 0 <= i < |tr| && tr[i].op.Create? ==> tr[i].op.data.sessionId != ""
    requires BearerToken(header).Some? ==> Unforged(b, IssuedClaims(tr, cfg, kind, issued), BearerToken(header).value)
    requires RequireAuth(Run(tr, ttl), b, header, now).Admitted?
    ensures var c := RequireAuth(Run(tr, ttl), b, header, now).claims;
            && Live(Run(tr, ttl), now, c.sessionId)
            && Run(tr, ttl).sessions[c.sessionId].data.identityId == c.subject
            && exists i: nat :: i < |tr| && Creates(tr[i], c.sessionId) && c == LoginClaims(tr[i].op.data, kind(i), cfg, issued(i))
                                && !RevokedAfter(tr, i, c.sessionId, c.subject)
  {
    hide Run, Unforged, Owner, RevokedAfter, Verify;
    var token := BearerToken(header).value;
    VerifyOnlyIssued(b, IssuedClaims(tr, cfg, kind, issued), token, now);
    VerifiedInTime(b, token, now);
    var c := RequireAuth(Run(tr, ttl), b, header, now).claims;
    var i: nat :| i < |tr| && tr[i].op.Create? && c == LoginClaims(tr[i].op.data, kind(i), cfg, issued(i));
    hide RequireAuth, IssuedClaims;
    OwnedUnrevoked(tr, ttl, i, now);
    assert Creates(tr[i], c.sessionId);
  }

  lemma OwnedUnrevoked(tr: seq<Event>, ttl: int, i: nat, now: int)
    requires ttl > 0 && Trace(tr, now) && i < |tr| && tr[i].op.Create? && now < tr[i].at + ttl
    requires tr[i].op.data.sessionId in Run(tr, ttl).sessions
    ensures var data := tr[i].op.data;
            && Run(tr, ttl).sessions[data.sessionId].data.identityId == data.identityId
            && !RevokedAfter(tr, i, data.sessionId, data.identityId)
  {
    hide Run, Owner, RevokedAfter;
    RunOwned(tr, ttl);
    OwnerAt(tr, i);
    StoredExact(tr, ttl, i, now);
  }

  lemma VerifiedInTime(b: Backend, token: string, now: int)
    requires Verify(b, token, now).Ok?
    ensures Unix(now) <= Verify(b, token, now).value.expiresAt
  {
  }

  /**
   Revoking through the handler removes the session exactly when it is live and the caller's own, and
   no other session; a live session of someone else is only renewed.
   */
  lemma RevokeOwnOnly(st: Stores, ttl: int, subject: Id, id: Id, now: int)
    requires ttl > 0 && id != ""
    ensures var own := Live(st, now, id) && st.sessions[id].data.identityId == subject;
            var after := RevokeStep(st, ttl, subject, id, now);
            && (Live(after, now, id) <==> Live(st, now, id) && !own)
            && (own ==> id !in after.sessions && id !in Indexed(after, now, subject))
            && (Live(st, now, id) && !own ==> after.sessions[id].data == st.sessions[id].data.(lastSeenAt := now))
            && (forall x :: x != id ==> (x in after.sessions <==> x in st.sessions))
            && (forall x :: x != id && x in st.sessions ==> after.sessions[x] == st.sessions[x])
  {
  }
}
