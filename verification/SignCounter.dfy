/**
 Signature counters (internal/auth/webauthn.go, internal/identity/postgres/credential_repo.go).
 FinishAssertion reads the stored counter, compares, and records the reported count in a separate
 statement whose error it ignores. Assertions of one credential may overlap.
 */
module SignCounter {
  import opened Basics

  type Id = string

  datatype Kind = Passkey | HardwareToken | Other

  datatype Credential = Credential(tenant: Id, identity: Id, kind: Kind, active: bool, credentialId: Option<seq<Byte>>, signCount: int)

  type Table = map<Id, Credential>

  const U32 := 0x1_0000_0000

  /** Go's conversion of an int64 to uint32 keeps the low 32 bits. */
  function Narrow(x: int): (n: int)
    ensures 0 <= n < U32
    ensures 0 <= x < U32 ==> n == x
  {
    x % U32
  }

  // ---------- The rule ----------

  /** A nonzero count must exceed the stored one; zero always passes. */
  predicate Passes(stored: int, count: int) {
    !(count != 0 && count <= Narrow(stored))
  }

  /** Section 7.2 of W3C WebAuthn Level 2: if either is nonzero, the count must exceed the stored one. */
  predicate StandardPasses(stored: int, count: int) {
    (count != 0 || stored != 0) ==> count > stored
  }

  /** The rule departs from the standard's exactly when a zero count meets a nonzero counter. */
  lemma StandardExact(stored: int, count: int)
    requires 0 <= stored < U32 && 0 <= count < U32
    ensures (Passes(stored, count) <==> StandardPasses(stored, count)) <==> !(count == 0 && stored != 0)
  {
  }

  // ---------- The lookup ----------

  /** string(nil) and an empty byte slice are the same string. */
  function Bytes(id: Option<seq<Byte>>): seq<Byte> {
    if id.Some? then id.value else []
  }

  predicate IsCandidate(c: Credential, tenant: Id, identity: Id) {
    c.tenant == tenant && c.identity == identity && c.active && c.kind != Other
  }

  predicate IsMatch(c: Credential, tenant: Id, identity: Id, asserted: seq<Byte>) {
    IsCandidate(c, tenant, identity) && Bytes(c.credentialId) == asserted
  }

  /** The unique index on (tenant, credential id); WebAuthn credentials always carry an id. */
  ghost predicate Indexed(rows: Table) {
    && (forall a, b :: a in rows && b in rows && a != b && rows[a].tenant == rows[b].tenant && rows[a].credentialId.Some?
          ==> rows[a].credentialId != rows[b].credentialId)
    && (forall a :: a in rows && rows[a].kind != Other ==> rows[a].credentialId.Some?)
  }

  /** With the unique index, at most one row matches an assertion. */
  lemma MatchUnique(rows: Table, tenant: Id, identity: Id, asserted: seq<Byte>, a: Id, b: Id)
    requires Indexed(rows) && a in rows && b in rows
    requires IsMatch(rows[a], tenant, identity, asserted) && IsMatch(rows[b], tenant, identity, asserted)
    ensures a == b
  {
    assert rows[a].credentialId.Some? && rows[b].credentialId.Some?;
  }

  ghost predicate Located(rows: Table, tenant: Id, identity: Id, asserted: seq<Byte>, id: Id) {
    id in rows && IsMatch(rows[id], tenant, identity, asserted)
  }

  function SetCount(rows: Table, tenant: Id, id: Id, count: int): Table {
    if id in rows && rows[id].tenant == tenant then rows[id := rows[id].(signCount := count)] else rows
  }

  class CredentialRepo {
    var rows: Table

    constructor ()
      ensures rows == map[]
    {
      rows := map[];
    }

    /** Rows come in no particular order; each row that fits comes exactly once. */
    method ListByIdentity(tenant: Id, identity: Id, active: Option<bool>) returns (list: seq<Id>)
      ensures forall id :: id in list <==> id in rows && rows[id].tenant == tenant && rows[id].identity == identity && (active.Some? ==> rows[id].active == active.value)
      ensures forall i, j :: 0 <= i < j < |list| ==> list[i] != list[j]
    {
      list := [];
      var todo := rows.Keys;
      while todo != {}
        invariant todo <= rows.Keys
        invariant forall id :: id in list <==>
          && id in rows.Keys - todo
          && rows[id].tenant == tenant && rows[id].identity == identity && (active.Some? ==> rows[id].active == active.value)
        invariant forall i, j :: 0 <= i < j < |list| ==> list[i] != list[j]
        decreases todo
      {
        var id :| id in todo;
        todo := todo - {id};
        var c := rows[id];
        if c.tenant == tenant && c.identity == identity && (active.Some? ==> c.active == active.value) {
          list := list + [id];
        }
      }
    }

    method UpdateSignCount(tenant: Id, id: Id, count: int)
      modifies this
      ensures rows == SetCount(old(rows), tenant, id, count)
    {
      if id in rows && rows[id].tenant == tenant {
        rows := rows[id := rows[id].(signCount := count)];
      }
    }
  }

  class WebAuthnService {
    const repo: CredentialRepo

    constructor (repo: CredentialRepo)
      ensures this.repo == repo
    {
      this.repo := repo;
    }

    /** The active passkeys and hardware tokens of an identity. */
    method Candidates(tenant: Id, identity: Id) returns (list: seq<Id>)
      ensures forall id :: id in list <==>
        && id in repo.rows && repo.rows[id].tenant == tenant && repo.rows[id].identity == identity && repo.rows[id].active
        && (repo.rows[id].kind == Passkey || repo.rows[id].kind == HardwareToken)
    {
      var all := repo.ListByIdentity(tenant, identity, Some(true));
      list := [];
      for i := 0 to |all|
        invariant forall id :: id in list <==> id in all[..i] && repo.rows[id].kind != Other
      {
        if repo.rows[all[i]].kind == Passkey || repo.rows[all[i]].kind == HardwareToken {
          list := list + [all[i]];
        }
      }
    }

    /**
     After the library has verified the assertion of a credential id with a count. It succeeds iff no
     row matches or the matching row's counter lets the count pass, and then records the count, if
     the write gets through; the recorded counter is larger than before or zero.
     */
    method FinishAssertion(tenant: Id, identity: Id, asserted: seq<Byte>, count: int, written: bool) returns (ok: bool)
      requires Indexed(repo.rows) && 0 <= count < U32
      modifies repo
      ensures ok <==> forall id :: id in old(repo.rows) ==>
        var c := old(repo.rows)[id];
        c.tenant == tenant && c.identity == identity && c.active && c.kind != Other && c.credentialId == Some(asserted)
        ==> count == 0 || count > c.signCount % 0x1_0000_0000
      ensures !ok || !written ==> repo.rows == old(repo.rows)
      ensures repo.rows.Keys == old(repo.rows).Keys
      ensures ok && written ==> forall id :: id in old(repo.rows) ==>
        var c := old(repo.rows)[id];
        repo.rows[id] == if c.tenant == tenant && c.identity == identity && c.active && c.kind != Other
                            && c.credentialId == Some(asserted) then c.(signCount := count) else c
    {
      var candidates := Candidates(tenant, identity);
      var stored: Option<Id> := None;
      for i := 0 to |candidates|
        invariant stored == None
        invariant forall k :: 0 <= k < i ==> !Located(repo.rows, tenant, identity, asserted, candidates[k])
      {
        if Bytes(repo.rows[candidates[i]].credentialId) == asserted {
          stored := Some(candidates[i]);
          break;
        }
      }
      ok := true;
      if stored.Some? {
        var id := stored.value;
        forall a | Located(repo.rows, tenant, identity, asserted, a) ensures a == id {
          MatchUnique(repo.rows, tenant, identity, asserted, a, id);
        }
        if count != 0 && count <= Narrow(repo.rows[id].signCount) {
          return false;
        }
        if written {
          repo.UpdateSignCount(tenant, id, count);
        }
      } else {
        assert forall a :: Located(repo.rows, tenant, identity, asserted, a) ==> a in candidates;
      }
    }
  }

  // ---------- Overlapping assertions ----------

  /** An assertion that has passed and is about to record its count; since is when it read the counter. */
  datatype Call = Call(row: Id, count: int, since: nat)

  datatype Sys = Sys(rows: Table, calls: map<nat, Call>, clock: nat)

  datatype Event =
    | Register(id: Id, row: Credential)
    | Revoke(id: Id)
    | Load(t: nat, id: Id, count: int)
    | Store(t: nat, written: bool)

  ghost predicate Enabled(s: Sys, e: Event) {
    match e
    case Register(id, row) => id !in s.rows && 0 <= row.signCount < U32 && Indexed(s.rows[id := row])
    case Revoke(id) => id in s.rows
    case Load(t, row, count) => t !in s.calls && row in s.rows && s.rows[row].active && s.rows[row].kind != Other && 0 <= count < U32
    case Store(t, _) => t in s.calls && s.calls[t].row in s.rows
  }

  /** The reported count passes the check against the counter it reads. */
  ghost predicate Accepted(s: Sys, e: Event, c: Id) {
    e.Load? && e.id == c && c in s.rows && Passes(s.rows[c].signCount, e.count)
  }

  /** A count is recorded for a credential. */
  predicate Records(s: Sys, e: Event, c: Id) {
    e.Store? && e.written && e.t in s.calls && s.calls[e.t].row == c
  }

  ghost function Next(s: Sys, e: Event): Sys
    requires Enabled(s, e)
  {
    var s' := match e
      case Register(id, row) => s.(rows := s.rows[id := row])
      case Revoke(id) => s.(rows := s.rows[id := s.rows[id].(active := false)])
      case Load(t, row, count) => if Passes(s.rows[row].signCount, count) then s.(calls := s.calls[t := Call(row, count, s.clock)]) else s
      case Store(t, written) =>
        var c := s.calls[t];
        Sys(if written then SetCount(s.rows, s.rows[c.row].tenant, c.row, c.count) else s.rows, s.calls - {t}, s.clock);
    s'.(clock := s.clock + 1)
  }

  const START := Sys(map[], map[], 0)

  /** The state before each event of a trace. */
  ghost predicate IsRun(states: seq<Sys>, events: seq<Event>) {
    && |states| == |events| + 1 && states[0] == START
    && forall i :: 0 <= i < |events| ==> Enabled(states[i], events[i]) && states[i + 1] == Next(states[i], events[i])
  }

  ghost predicate Ok(s: Sys) {
    && Indexed(s.rows)
    && (forall c :: c in s.rows ==> 0 <= s.rows[c].signCount < U32)
    && (forall t :: t in s.calls ==> s.calls[t].row in s.rows && 0 <= s.calls[t].count < U32 && s.calls[t].since < s.clock)
  }

  lemma OkStep(s: Sys, e: Event)
    requires Ok(s) && Enabled(s, e)
    ensures Ok(Next(s, e))
  {
  }

  /** In every run every counter fits 32 bits, so narrowing it loses nothing, and a row's credential id stays unique. */
  lemma {:induction false} CountersFit(states: seq<Sys>, events: seq<Event>, i: nat)
    requires IsRun(states, events) && i < |states|
    ensures Ok(states[i]) && states[i].clock == i
    ensures forall c :: c in states[i].rows ==> Narrow(states[i].rows[c].signCount) == states[i].rows[c].signCount
  {
    assert Ok(START);
    hide Next, Enabled, Indexed;
    if i > 0 {
      CountersFit(states, events, i - 1);
      assert Enabled(states[i - 1], events[i - 1]) && states[i] == Next(states[i - 1], events[i - 1]);
      OkStep(states[i - 1], events[i - 1]);
      ClockStep(states[i - 1], events[i - 1]);
    }
  }

  lemma ClockStep(s: Sys, e: Event)
    requires Enabled(s, e)
    ensures Next(s, e).clock == s.clock + 1
  {
  }

  // ---------- The counter is the last recorded count ----------

  /** The count last recorded for a credential before a position, or else the one it was registered with. */
  ghost function Recorded(states: seq<Sys>, events: seq<Event>, i: nat, c: Id): Option<int>
    requires |states| > |events| >= i
  {
    if i == 0 then None
    else if Records(states[i - 1], events[i - 1], c) then Some(states[i - 1].calls[events[i - 1].t].count)
    else if events[i - 1].Register? && events[i - 1].id == c then Some(events[i - 1].row.signCount)
    else Recorded(states, events, i - 1, c)
  }

  lemma {:induction false} CounterIsLastRecorded(states: seq<Sys>, events: seq<Event>, i: nat, c: Id)
    requires IsRun(states, events) && i <= |events|
    ensures (if c in states[i].rows then Some(states[i].rows[c].signCount) else None) == Recorded(states, events, i, c)
  {
    if i > 0 {
      CounterIsLastRecorded(states, events, i - 1, c);
      assert Enabled(states[i - 1], events[i - 1]) && states[i] == Next(states[i - 1], events[i - 1]);
    }
  }

  /** An assertion is accepted iff it reports zero or more than the last recorded count. */
  lemma AcceptedExact(states: seq<Sys>, events: seq<Event>, i: nat)
    requires IsRun(states, events) && i < |events| && events[i].Load?
    ensures var c := events[i].id;
            && Recorded(states, events, i, c).Some?
            && (Accepted(states[i], events[i], c) <==> events[i].count == 0 || events[i].count > Recorded(states, events, i, c).value)
  {
    hide Recorded, Indexed;
    CounterIsLastRecorded(states, events, i, events[i].id);
    CountersFit(states, events, i);
    assert Enabled(states[i], events[i]);
  }

  // ---------- No replay ----------

  /** What lets an old count in again: a zero recorded, or a count whose check predates position k. */
  ghost predicate Opens(s: Sys, e: Event, c: Id, k: nat) {
    Records(s, e, c) && (s.calls[e.t].count == 0 || s.calls[e.t].since < k)
  }

  /** After n was recorded at k: the counter stays at least n, and only late or zero counts are below. */
  ghost predicate Guarded(s: Sys, c: Id, n: int, k: nat) {
    && c in s.rows && s.rows[c].signCount >= n
    && forall t :: t in s.calls && s.calls[t].row == c ==> s.calls[t].since < k || s.calls[t].count == 0 || s.calls[t].count > n
  }

  lemma GuardedStep(s: Sys, e: Event, c: Id, n: int, k: nat)
    requires Ok(s) && Enabled(s, e) && Guarded(s, c, n, k) && !Opens(s, e, c, k)
    ensures Guarded(Next(s, e), c, n, k)
  {
    hide Indexed;
  }

  lemma GuardedFirst(s: Sys, e: Event, c: Id)
    requires Ok(s) && Enabled(s, e) && Records(s, e, c)
    ensures Guarded(Next(s, e), c, s.calls[e.t].count, s.clock)
  {
    hide Indexed;
  }

  lemma {:induction false} GuardedRun(states: seq<Sys>, events: seq<Event>, c: Id, k: nat, j: nat)
    requires IsRun(states, events) && k < j <= |events| && Records(states[k], events[k], c)
    requires forall p :: k < p < j ==> !Opens(states[p], events[p], c, k)
    ensures Guarded(states[j], c, states[k].calls[events[k].t].count, k)
  {
    hide Next, Enabled, Ok, Guarded, Opens;
    CountersFit(states, events, j - 1);
    assert Enabled(states[j - 1], events[j - 1]) && states[j] == Next(states[j - 1], events[j - 1]);
    if j == k + 1 {
      GuardedFirst(states[k], events[k], c);
    } else {
      GuardedRun(states, events, c, k, j - 1);
      GuardedStep(states[j - 1], events[j - 1], c, states[k].calls[events[k].t].count, k);
    }
  }

  /**
   Once a count has been recorded for a credential, a nonzero count that is not larger is accepted
   later only if in between a zero was recorded, or a count whose check came before the recording.
   */
  lemma NoReplay(states: seq<Sys>, events: seq<Event>, c: Id, k: nat, j: nat) returns (p: nat)
    requires IsRun(states, events) && k < j < |events|
    requires Records(states[k], events[k], c) && Accepted(states[j], events[j], c)
    requires 0 < events[j].count <= states[k].calls[events[k].t].count
    ensures k < p < j && Opens(states[p], events[p], c, k)
  {
    hide Next, Enabled, Opens;
    CountersFit(states, events, j);
    if forall q :: k < q < j ==> !Opens(states[q], events[q], c, k) {
      GuardedRun(states, events, c, k, j);
      assert false;
    }
    p :| k < p < j && Opens(states[p], events[p], c, k);
  }

  /** Assertions that do not overlap: nothing is between a check and the recording of its count. */
  ghost predicate Atomic(states: seq<Sys>, events: seq<Event>) {
    |states| > |events| && forall i, t :: 0 <= i < |events| && events[i].Store? && t in states[i].calls ==> states[i].calls[t].since == i - 1
  }

  /** Without overlap, no nonzero count is accepted again, nor a smaller one, until a zero has been recorded. */
  lemma AtomicNoReplay(states: seq<Sys>, events: seq<Event>, c: Id, k: nat, j: nat) returns (p: nat)
    requires IsRun(states, events) && Atomic(states, events) && k < j < |events|
    requires Records(states[k], events[k], c) && Accepted(states[j], events[j], c)
    requires 0 < events[j].count <= states[k].calls[events[k].t].count
    ensures k < p < j && Records(states[p], events[p], c) && states[p].calls[events[p].t].count == 0
  {
    p := NoReplay(states, events, c, k, j);
  }

  // ---------- Both openings are real ----------

  /** A zero wipes the counter: a count is recorded and no longer accepted, a zero is, and then the count is again. */
  lemma ZeroReopens(s: Sys, c: Id, n: int, t: nat)
    requires Ok(s) && c in s.rows && s.rows[c].active && s.rows[c].kind != Other && s.rows[c].signCount < n < U32 && t !in s.calls
    ensures Enabled(s, Load(t, c, n)) && Accepted(s, Load(t, c, n), c)
    ensures var s1 := Next(s, Load(t, c, n));
            Enabled(s1, Store(t, true)) && var s2 := Next(s1, Store(t, true));
            !Accepted(s2, Load(t, c, n), c) && Enabled(s2, Load(t, c, 0)) && var s3 := Next(s2, Load(t, c, 0));
            Enabled(s3, Store(t, true)) && var s4 := Next(s3, Store(t, true));
            Enabled(s4, Load(t, c, n)) && Accepted(s4, Load(t, c, n), c)
  {
    hide Indexed;
    var s1 := Next(s, Load(t, c, n));
    assert s1.rows == s.rows && s1.calls[t] == Call(c, n, s.clock);
    var s2 := Next(s1, Store(t, true));
    assert s2.rows[c] == s.rows[c].(signCount := n) && t !in s2.calls;
    var s3 := Next(s2, Load(t, c, 0));
    assert s3.rows == s2.rows && s3.calls[t] == Call(c, 0, s2.clock);
    var s4 := Next(s3, Store(t, true));
    assert s4.rows[c] == s.rows[c].(signCount := 0);
  }

  /** Two overlapping assertions: a recorded count is followed by a smaller one checked earlier, and is accepted again. */
  lemma OverlapReopens(s: Sys, c: Id, m: int, n: int, t: nat, u: nat)
    requires Ok(s) && c in s.rows && s.rows[c].active && s.rows[c].kind != Other
    requires s.rows[c].signCount < m < n < U32 && t != u && t !in s.calls && u !in s.calls
    ensures var s1 := Next(s, Load(t, c, m));
            Enabled(s1, Load(u, c, n)) && var s2 := Next(s1, Load(u, c, n));
            Enabled(s2, Store(u, true)) && var s3 := Next(s2, Store(u, true));
            Enabled(s3, Store(t, true)) && var s4 := Next(s3, Store(t, true));
            Records(s2, Store(u, true), c) && s2.calls[u].count == n && Accepted(s4, Load(u, c, n), c)
  {
    hide Indexed;
    var s1 := Next(s, Load(t, c, m));
    assert s1.calls[t] == Call(c, m, s.clock) && s1.rows == s.rows;
    var s2 := Next(s1, Load(u, c, n));
    assert s2.calls[t] == Call(c, m, s.clock) && s2.calls[u].count == n && s2.calls[u].row == c;
    var s3 := Next(s2, Store(u, true));
    assert s3.rows[c].signCount == n && t in s3.calls;
  }

  // ---------- When a recorded count is shut out for good ----------

  ghost function After(s: Sys, events: seq<Event>): Option<Sys>
    decreases |events|
  {
    if events == [] then Some(s)
    else if !Enabled(s, events[0]) then None
    else After(Next(s, events[0]), events[1..])
  }

  /** No zero is reported for the credential. */
  predicate NoZeros(events: seq<Event>, c: Id) { forall e <- events :: !(e.Load? && e.id == c && e.count == 0) }

  /** In no continuation without a zero is a count up to n accepted. */
  ghost predicate ShutOut(s: Sys, c: Id, n: int) {
    forall events: seq<Event>, e: Event :: NoZeros(events, c) && After(s, events).Some? && e.Load? && 0 < e.count <= n && Enabled(After(s, events).value, e)
      ==> !Accepted(After(s, events).value, e, c)
  }

  /** The counter and every count on its way to it are at least n. */
  ghost predicate AllAbove(s: Sys, c: Id, n: int) {
    c in s.rows && s.rows[c].signCount >= n && forall t :: t in s.calls && s.calls[t].row == c ==> s.calls[t].count >= n
  }

  lemma AboveStep(s: Sys, e: Event, c: Id, n: int)
    requires Ok(s) && Enabled(s, e) && AllAbove(s, c, n) && !(e.Load? && e.id == c && e.count == 0)
    ensures AllAbove(Next(s, e), c, n)
  {
    hide Indexed;
  }

  lemma {:induction false} AboveRun(s: Sys, events: seq<Event>, c: Id, n: int)
    requires Ok(s) && AllAbove(s, c, n) && NoZeros(events, c) && After(s, events).Some?
    ensures Ok(After(s, events).value) && AllAbove(After(s, events).value, c, n)
    decreases |events|
  {
    if events != [] {
      hide Ok, Next, Enabled, AllAbove;
      assert events[0] in events;
      OkStep(s, events[0]);
      AboveStep(s, events[0], c, n);
      AboveRun(Next(s, events[0]), events[1..], c, n);
    }
  }

  /**
   Once n is recorded, and as long as no zero is reported, neither n nor a smaller count is ever
   accepted again, exactly if no assertion in flight is about to record a count below n.
   */
  lemma ShutOutExact(s: Sys, c: Id, n: int)
    requires Ok(s) && c in s.rows && s.rows[c].active && s.rows[c].kind != Other && 0 < n <= s.rows[c].signCount
    ensures ShutOut(s, c, n) <==> forall t :: t in s.calls && s.calls[t].row == c ==> s.calls[t].count >= n
  {
    hide After, Indexed;
    if t :| t in s.calls && s.calls[t].row == c && s.calls[t].count < n {
      var e := Store(t, true);
      var s' := Next(s, e);
      AfterStore(s, e);
      assert s'.rows[c].signCount == s.calls[t].count;
      assert Enabled(s', Load(t, c, n)) && Accepted(s', Load(t, c, n), c);
      assert NoZeros([e], c);
    } else {
      forall events: seq<Event>, e: Event | NoZeros(events, c) && After(s, events).Some? && e.Load? && 0 < e.count <= n
        ensures !Accepted(After(s, events).value, e, c)
      {
        AboveRun(s, events, c, n);
      }
    }
  }

  lemma AfterStore(s: Sys, e: Event)
    requires Enabled(s, e)
    ensures After(s, [e]) == Some(Next(s, e))
  {
    assert [e][1..] == [];
    assert After(Next(s, e), []) == Some(Next(s, e));
  }
}
