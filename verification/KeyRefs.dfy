/**
 Key references. generateKeyPair stores the private half under tenant/identity/type, so a later
 generation for the same three overwrites it. A stored key resolves to the private half of its own
 public key exactly when no such generation came later, even one whose call then failed; the key
 made by CreateIdentity is never overwritten.
 */
module KeyRefs {
  import opened Basics
  import opened Text
  import opened Directory
  import opened KeyRing

  // ---------- References are injective ----------

  /** Tenants and new identities' ids contain no slash; the identity named to GenerateKey or RotateKey may. */
  predicate SlashFree(slot: Slot) {
    match slot
    case Initial(id) => '/' !in id
    case Typed(tenant, _, _) => '/' !in tenant
  }

  lemma NameFacts(a: KeyType)
    ensures '/' !in a.Name()
    ensures forall b: KeyType :: a.Name() == b.Name() ==> a == b
  {
    forall b: KeyType | a.Name() == b.Name() ensures a == b {
      assert a.Name()[6] == b.Name()[6] && a.Name()[0] == b.Name()[0];
      assert |a.Name()| == |b.Name()|;
      if |a.Name()| == 10 { assert a.Name()[7] == b.Name()[7]; }
    }
  }

  /** The first slash ends the tenant. */
  lemma CutFirst(t: string, r: string, t': string, r': string)
    requires '/' !in t && '/' !in t' && t + ['/'] + r == t' + ['/'] + r'
    ensures t == t' && r == r'
  {
    IndexOfPrefix(t, '/', r);
    IndexOfPrefix(t', '/', r');
    assert (t + ['/'] + r)[..|t|] == t && (t + ['/'] + r)[|t| + 1..] == r;
    assert (t' + ['/'] + r')[..|t'|] == t' && (t' + ['/'] + r')[|t'| + 1..] == r';
  }

  /** The last slash starts the key type. */
  lemma CutLast(i: string, n: string, i': string, n': string)
    requires '/' !in n && '/' !in n' && i + ['/'] + n == i' + ['/'] + n'
    ensures i == i' && n == n'
  {
    var s := i + ['/'] + n;
    assert s[|i|] == '/' && s[|i'|] == '/';
    assert forall k :: |i| < k < |s| ==> s[k] == n[k - |i| - 1];
    assert forall k :: |i'| < k < |s| ==> s[k] == n'[k - |i'| - 1];
    assert s[..|i|] == i && s[|i| + 1..] == n;
    assert s[..|i'|] == i' && s[|i'| + 1..] == n';
  }

  lemma KeyIdTyped(slot: Slot)
    requires slot.Typed?
    ensures KeyId(slot) == slot.tenant + ['/'] + (slot.identity + ['/'] + slot.keyType.Name()) && '/' in KeyId(slot)
  {
    hide KeyType.Name;
    assert KeyId(slot)[|slot.tenant|] == '/';
  }

  /** Different slots have different references. */
  lemma RefInjective(a: Slot, b: Slot)
    requires SlashFree(a) && SlashFree(b) && Ref(a) == Ref(b)
    ensures a == b
  {
    assert KeyId(a) == Ref(a)[8..] && KeyId(b) == Ref(b)[8..];
    if a.Typed? { KeyIdTyped(a); NameFacts(a.keyType); }
    if b.Typed? { KeyIdTyped(b); NameFacts(b.keyType); }
    hide Ref, KeyType.Name;
    if a.Typed? && b.Typed? {
      hide KeyId;
      CutFirst(a.tenant, a.identity + ['/'] + a.keyType.Name(), b.tenant, b.identity + ['/'] + b.keyType.Name());
      CutLast(a.identity, a.keyType.Name(), b.identity, b.keyType.Name());
    }
  }

  // ---------- The key store is the replay of the generations ----------

  function LastPair(j: seq<Write>, ref: string): Option<nat> {
    if j == [] then None else
      var x := j[|j| - 1];
      if x.Generated? && Ref(x.slot) == ref then Some(x.pair) else LastPair(j[..|j| - 1], ref)
  }

  function Lookup(db: Db, ref: string): Option<nat> {
    if ref in db.keystore then Some(db.keystore[ref]) else None
  }

  ghost predicate StoreOk(db: Db) {
    forall ref :: Lookup(db, ref) == LastPair(db.journal, ref)
  }

  /** Every generation has its own pair number, in order. */
  ghost predicate PairsOk(db: Db) {
    && (forall k :: 0 <= k < |db.journal| && db.journal[k].Generated? ==> db.journal[k].pair < db.pairs)
    && (forall k, l :: 0 <= k < l < |db.journal| && db.journal[k].Generated? && db.journal[l].Generated? ==> db.journal[k].pair < db.journal[l].pair)
  }

  predicate Made(db: Db, slot: Slot, pair: nat) { Generated(slot, pair) in db.journal }

  /** A row with a server-held key was made by the generation of one of its two possible slots. */
  predicate RowMade(db: Db, k: Key) {
    k.pair.None?
    || (k.keyRef == Ref(Initial(k.identity)) && Made(db, Initial(k.identity), k.pair.value))
    || (k.keyRef == Ref(Typed(k.tenant, k.identity, k.keyType)) && Made(db, Typed(k.tenant, k.identity, k.keyType), k.pair.value))
  }

  ghost predicate RowsMade(db: Db) {
    forall k :: k in db.keys ==> RowMade(db, db.keys[k])
  }

  /** A call about to insert a key holds the pair it generated for it. */
  predicate PairHeld(db: Db, pc: Pc) {
    match pc
    case Creating(_, CrKey(id, pair)) => Made(db, Initial(id), pair)
    case Generating(tenant, id, keyType, _, GeKey(pair)) => Made(db, Typed(tenant, id, keyType), pair)
    case Rotating(tenant, id, _, RoKey(keyType, _, pair)) => Made(db, Typed(tenant, id, keyType), pair)
    case _ => true
  }

  /** The first key of an identity is generated once: by the one call that inserted the identity. */
  predicate AwaitsFirst(pc: Pc, id: Id) { pc.Creating? && pc.c == CrPair(id) }

  ghost predicate FirstsOk(s: Sys) {
    && (forall k :: 0 <= k < |s.db.journal| && s.db.journal[k].Generated? && s.db.journal[k].slot.Initial?
          ==> s.db.journal[k].slot.id in s.db.identities && forall t :: t in s.calls ==> !AwaitsFirst(s.calls[t], s.db.journal[k].slot.id))
    && (forall k, l :: 0 <= k < l < |s.db.journal| && s.db.journal[k].Generated? && s.db.journal[l].Generated? && s.db.journal[k].slot.Initial?
          ==> s.db.journal[k].slot != s.db.journal[l].slot)
    && (forall t, id :: t in s.calls && AwaitsFirst(s.calls[t], id) ==> id in s.db.identities)
    && (forall t, u, id :: t in s.calls && u in s.calls && AwaitsFirst(s.calls[t], id) && AwaitsFirst(s.calls[u], id) ==> t == u)
  }

  ghost predicate Inv(s: Sys) {
    && StoreOk(s.db) && PairsOk(s.db) && RowsMade(s.db) && FirstsOk(s)
    && forall t :: t in s.calls ==> PairHeld(s.db, s.calls[t])
  }

  // ---------- Statements ----------

  lemma LastPairStep(j: seq<Write>, x: Write, ref: string)
    ensures LastPair(j + [x], ref) == if x.Generated? && Ref(x.slot) == ref then Some(x.pair) else LastPair(j, ref)
  {
    assert (j + [x])[..|j|] == j;
  }

  /** The journal grows by at most one write, which is a generation exactly for NewPair. */
  lemma ApplyJournal(db: Db, stmt: Stmt)
    ensures db.journal <= Apply(db, stmt).journal && |Apply(db, stmt).journal| <= |db.journal| + 1
    ensures stmt.NewPair? ==> Apply(db, stmt) == Generate(db, stmt.slot)
    ensures stmt.NewIdentity? ==> stmt.id in Apply(db, stmt).identities
    ensures !stmt.NewPair? ==> Apply(db, stmt).keystore == db.keystore && Apply(db, stmt).pairs == db.pairs
    ensures !stmt.NewPair? && |Apply(db, stmt).journal| == |db.journal| + 1 ==> !Apply(db, stmt).journal[|db.journal|].Generated?
  {
    hide Ref;
  }

  lemma ApplyStore(db: Db, stmt: Stmt)
    requires StoreOk(db) && PairsOk(db)
    ensures StoreOk(Apply(db, stmt)) && PairsOk(Apply(db, stmt))
  {
    var db' := Apply(db, stmt);
    ApplyJournal(db, stmt);
    hide Ref, Apply, LastPair;
    if |db'.journal| == |db.journal| {
      assert db'.journal == db.journal;
      forall ref ensures Lookup(db', ref) == LastPair(db'.journal, ref) {
        assert Lookup(db, ref) == LastPair(db.journal, ref);
      }
    } else {
      var x := db'.journal[|db.journal|];
      assert db'.journal == db.journal + [x];
      forall ref ensures Lookup(db', ref) == LastPair(db'.journal, ref) {
        LastPairStep(db.journal, x, ref);
        assert Lookup(db, ref) == LastPair(db.journal, ref);
      }
    }
  }

  lemma MadeStable(db: Db, stmt: Stmt, slot: Slot, pair: nat)
    requires Made(db, slot, pair)
    ensures Made(Apply(db, stmt), slot, pair)
  {
    ApplyJournal(db, stmt);
    hide Apply;
    var k :| 0 <= k < |db.journal| && db.journal[k] == Generated(slot, pair);
    assert Apply(db, stmt).journal[k] == db.journal[k];
  }

  lemma RowStable(db: Db, stmt: Stmt, k: Key)
    requires RowMade(db, k)
    ensures RowMade(Apply(db, stmt), k)
  {
    hide Ref, Apply, Made;
    if k.pair.Some? {
      if Made(db, Initial(k.identity), k.pair.value) { MadeStable(db, stmt, Initial(k.identity), k.pair.value); }
      var slot := Typed(k.tenant, k.identity, k.keyType);
      if Made(db, slot, k.pair.value) { MadeStable(db, stmt, slot, k.pair.value); }
    }
  }

  lemma HeldStable(db: Db, stmt: Stmt, pc: Pc)
    requires PairHeld(db, pc)
    ensures PairHeld(Apply(db, stmt), pc)
  {
    hide Apply, Made;
    match pc
    case Creating(_, CrKey(id, pair)) => MadeStable(db, stmt, Initial(id), pair);
    case Generating(tenant, id, keyType, _, GeKey(pair)) => MadeStable(db, stmt, Typed(tenant, id, keyType), pair);
    case Rotating(tenant, id, _, RoKey(keyType, _, pair)) => MadeStable(db, stmt, Typed(tenant, id, keyType), pair);
    case _ =>
  }

  /** Existing rows keep their reference and pair; a new row is made from its own slot. */
  lemma ApplyKeys(db: Db, stmt: Stmt, k: Id)
    requires k in Apply(db, stmt).keys
    ensures if stmt.NewKey? && k == stmt.id
            then Apply(db, stmt).keys[k] == Key(stmt.identity, stmt.tenant, stmt.keyType, stmt.purpose, stmt.keyRef, stmt.pair, InUse, None, |db.keys|)
            else k in db.keys && SameOrigin(Apply(db, stmt).keys[k], db.keys[k])
  {
    hide Ref;
  }

  predicate SameOrigin(a: Key, b: Key) {
    a.identity == b.identity && a.tenant == b.tenant && a.keyType == b.keyType && a.keyRef == b.keyRef && a.pair == b.pair
  }

  /** The row a call inserts is made from the pair it holds. */
  lemma PlanKey(db: Db, strict: bool, pc: Pc, w: World)
    requires PairHeld(db, pc)
    ensures var stmt := Plan(db, strict, pc, w).0;
            stmt.NewKey? ==> RowMade(db, Key(stmt.identity, stmt.tenant, stmt.keyType, stmt.purpose, stmt.keyRef, stmt.pair, InUse, None, 0))
  {
    hide Ref, HasActive, Made;
  }

  lemma PlanHeld(db: Db, strict: bool, pc: Pc, w: World)
    ensures PairHeld(Apply(db, Plan(db, strict, pc, w).0), Plan(db, strict, pc, w).1)
  {
    hide Ref, HasActive, Made, Generate;
    var (stmt, pc') := Plan(db, strict, pc, w);
    if stmt.NewPair? { GenerateJournal(db, stmt); }
  }

  /** Only CrPair generates a first key; only CrInsert leads to CrPair, with an id that was not there. */
  lemma PlanFirst(db: Db, strict: bool, pc: Pc, w: World)
    ensures var (stmt, pc') := Plan(db, strict, pc, w);
            && (stmt.NewPair? && stmt.slot.Initial? ==> AwaitsFirst(pc, stmt.slot.id))
            && (forall id :: AwaitsFirst(pc', id) ==> id !in db.identities && stmt.NewIdentity? && stmt.id == id)
  {
    hide Ref, HasActive;
  }

  // ---------- Steps and runs ----------

  lemma DoRows(s: Sys, strict: bool, t: nat, w: World)
    requires Inv(s) && t in s.calls
    ensures RowsMade(Next(s, strict, Do(t, w)).db)
    ensures forall u :: u in s.calls ==> PairHeld(Next(s, strict, Do(t, w)).db, Next(s, strict, Do(t, w)).calls[u])
  {
    hide StoreOk, PairsOk, FirstsOk, RowMade, PairHeld, Plan, Apply;
    var db, pc := s.db, s.calls[t];
    var (stmt, pc') := Plan(db, strict, pc, w);
    var db' := Apply(db, stmt);
    PlanKey(db, strict, pc, w);
    forall k | k in db'.keys ensures RowMade(db', db'.keys[k]) {
      ApplyKeys(db, stmt, k);
      if stmt.NewKey? && k == stmt.id {
        var row := Key(stmt.identity, stmt.tenant, stmt.keyType, stmt.purpose, stmt.keyRef, stmt.pair, InUse, None, 0);
        RowStable(db, stmt, row);
        SameRow(db', row, db'.keys[k]);
      } else {
        RowStable(db, stmt, db.keys[k]);
        SameRow(db', db.keys[k], db'.keys[k]);
      }
    }
    PlanHeld(db, strict, pc, w);
    forall u | u in s.calls && u != t ensures PairHeld(db', s.calls[u]) { HeldStable(db, stmt, s.calls[u]); }
  }

  lemma SameRow(db: Db, a: Key, b: Key)
    requires RowMade(db, a) && SameOrigin(b, a)
    ensures RowMade(db, b)
  {
    hide Ref;
  }

  lemma DoFirsts(s: Sys, strict: bool, t: nat, w: World)
    requires FirstsOk(s) && t in s.calls
    ensures FirstsOk(Next(s, strict, Do(t, w)))
  {
    hide Plan, Apply, Ref, FreshStmt, Generate;
    var db, pc := s.db, s.calls[t];
    var (stmt, pc') := Plan(db, strict, pc, w);
    PlanFirst(db, strict, pc, w);
    ApplyJournal(db, stmt);
    PlanFresh(db, strict, pc, w);
    ApplyGrows(db, stmt);
    if stmt.NewPair? { GenerateJournal(db, stmt); }
  }

  lemma GenerateJournal(db: Db, stmt: Stmt)
    requires stmt.NewPair?
    ensures Generate(db, stmt.slot).journal == db.journal + [Generated(stmt.slot, db.pairs)]
    ensures Made(Generate(db, stmt.slot), stmt.slot, db.pairs)
  {
    hide Ref;
    assert Generate(db, stmt.slot).journal[|db.journal|] == Generated(stmt.slot, db.pairs);
  }

  lemma InvStep(s: Sys, strict: bool, a: Action)
    requires Inv(s) && Enabled(s, a)
    ensures Inv(Next(s, strict, a))
  {
    match a
    case Begin(t, pc) =>
      assert PairHeld(s.db, pc) && forall id :: !AwaitsFirst(pc, id);
      hide StoreOk, PairsOk, RowsMade, PairHeld, Made;
    case Do(t, w) =>
      DoRows(s, strict, t, w);
      DoFirsts(s, strict, t, w);
      ApplyStore(s.db, Plan(s.db, strict, s.calls[t], w).0);
      hide StoreOk, PairsOk, RowsMade, FirstsOk, PairHeld, Plan, Apply;
    case Drop(t) =>
      hide StoreOk, PairsOk, RowsMade, PairHeld, Made;
  }

  lemma {:induction false} InvRun(s: Sys, strict: bool, acts: seq<Action>)
    requires Inv(s) && After(s, strict, acts).Some?
    ensures Inv(After(s, strict, acts).value)
    decreases |acts|
  {
    if acts != [] {
      hide Inv, Next;
      InvStep(s, strict, acts[0]);
      InvRun(Next(s, strict, acts[0]), strict, acts[1..]);
    }
  }

  lemma Invariant(s: Sys, strict: bool)
    requires Reachable(s, strict)
    ensures Inv(s)
  {
    var acts :| After(START, strict, acts) == Some(s);
    assert Inv(START);
    hide Inv;
    InvRun(START, strict, acts);
  }

  // ---------- Main results ----------

  /** Tenants and the ids of new identities contain no slash, as database ids do not. */
  ghost predicate AllSlashFree(j: seq<Write>) {
    forall k :: 0 <= k < |j| && j[k].Generated? ==> SlashFree(j[k].slot)
  }

  lemma {:induction false} LastPairAt(j: seq<Write>, g: nat, ref: string)
    requires g < |j| && j[g].Generated? && Ref(j[g].slot) == ref
    requires forall h :: g < h < |j| && j[h].Generated? ==> Ref(j[h].slot) != ref
    ensures LastPair(j, ref) == Some(j[g].pair)
  {
    hide Ref;
    var n := |j| - 1;
    if g < n {
      assert j[..n][g] == j[g];
      LastPairAt(j[..n], g, ref);
    }
  }

  lemma {:induction false} LastPairFrom(j: seq<Write>, h: nat, ref: string) returns (m: nat)
    requires h < |j| && j[h].Generated? && Ref(j[h].slot) == ref
    ensures h <= m < |j| && j[m].Generated? && LastPair(j, ref) == Some(j[m].pair)
  {
    hide Ref;
    var n := |j| - 1;
    if j[n].Generated? && Ref(j[n].slot) == ref {
      m := n;
    } else {
      m := LastPairFrom(j[..n], h, ref);
    }
  }

  /**
   The pair generated at journal position g is what its reference resolves to exactly when its slot
   has not been generated for again since.
   */
  lemma ResolutionExact(s: Sys, strict: bool, g: nat)
    requires Reachable(s, strict) && AllSlashFree(s.db.journal)
    requires g < |s.db.journal| && s.db.journal[g].Generated?
    ensures var x := s.db.journal[g];
            Lookup(s.db, Ref(x.slot)) == Some(x.pair)
            <==> forall h :: g < h < |s.db.journal| && s.db.journal[h].Generated? ==> s.db.journal[h].slot != x.slot
  {
    Invariant(s, strict);
    var j := s.db.journal;
    var x := j[g];
    var ref := Ref(x.slot);
    assert Lookup(s.db, ref) == LastPair(j, ref);
    if forall h :: g < h < |j| && j[h].Generated? ==> j[h].slot != x.slot {
      forall h | g < h < |j| && j[h].Generated? ensures Ref(j[h].slot) != ref {
        if Ref(j[h].slot) == ref { RefInjective(j[h].slot, x.slot); }
      }
      LastPairAt(j, g, ref);
    } else {
      var h :| g < h < |j| && j[h].Generated? && j[h].slot == x.slot;
      var m := LastPairFrom(j, h, ref);
    }
  }

  /**
   Every stored key that has a server-held private half comes from a generation, for its own
   identity, under its own reference; it resolves to its own half exactly when that slot has not
   been generated for since.
   */
  lemma KeyResolution(s: Sys, strict: bool, k: Id) returns (g: nat)
    requires Reachable(s, strict) && AllSlashFree(s.db.journal)
    requires k in s.db.keys && s.db.keys[k].pair.Some?
    ensures g < |s.db.journal| && s.db.journal[g].Generated? && s.db.journal[g].pair == s.db.keys[k].pair.value
    ensures Ref(s.db.journal[g].slot) == s.db.keys[k].keyRef
    ensures var row, slot := s.db.keys[k], s.db.journal[g].slot;
            slot == Initial(row.identity) || slot == Typed(row.tenant, row.identity, row.keyType)
    ensures Lookup(s.db, s.db.keys[k].keyRef) == s.db.keys[k].pair
            <==> forall h :: g < h < |s.db.journal| && s.db.journal[h].Generated? ==> s.db.journal[h].slot != s.db.journal[g].slot
  {
    Invariant(s, strict);
    var row := s.db.keys[k];
    assert RowMade(s.db, row);
    var typed := Typed(row.tenant, row.identity, row.keyType);
    hide Ref;
    if row.keyRef == Ref(Initial(row.identity)) && Made(s.db, Initial(row.identity), row.pair.value) {
      g :| 0 <= g < |s.db.journal| && s.db.journal[g] == Generated(Initial(row.identity), row.pair.value);
    } else {
      g :| 0 <= g < |s.db.journal| && s.db.journal[g] == Generated(typed, row.pair.value);
    }
    ResolutionExact(s, strict, g);
  }

  /** The private half generated by CreateIdentity is never overwritten. */
  lemma FirstKeyKept(s: Sys, strict: bool, g: nat)
    requires Reachable(s, strict) && AllSlashFree(s.db.journal)
    requires g < |s.db.journal| && s.db.journal[g].Generated? && s.db.journal[g].slot.Initial?
    ensures Lookup(s.db, Ref(s.db.journal[g].slot)) == Some(s.db.journal[g].pair)
  {
    Invariant(s, strict);
    ResolutionExact(s, strict, g);
  }

  /**
   With the partial unique index on, rotating an identity's own key that is in use never succeeds
   and adds no key; yet from its second statement on it has replaced the private half of the type.
   */
  lemma StrictRotationFails(db: Db, tenant: Id, id: Id, prior: Id, worlds: seq<World>)
    requires FindKey(db, tenant, prior).Some? && db.keys[prior].identity == id && db.keys[prior].status == InUse
    requires db.keys[prior].keyType.Supported()
    ensures var end := Solo(db, true, Rotating(tenant, id, prior, RoRead), worlds);
            && ResultOf(end.1) == Failure && end.0.keys == db.keys && end.0.identities == db.identities
            && (|worlds| >= 2 ==> Lookup(end.0, Ref(Typed(tenant, id, db.keys[prior].keyType))) == Some(db.pairs))
  {
    hide Ref, Solo;
    var k := db.keys[prior];
    if |worlds| == 0 {
      SoloNone(db, true, Rotating(tenant, id, prior, RoRead));
    } else {
      var d1, p1 := SoloStep(db, true, Rotating(tenant, id, prior, RoRead), worlds);
      assert d1 == db && p1 == Rotating(tenant, id, prior, RoPair(k.keyType, k.purpose));
      if |worlds| > 1 {
        var d2, p2 := SoloStep(d1, true, p1, worlds[1..]);
        assert d2 == Generate(db, Typed(tenant, id, k.keyType)) && p2 == Rotating(tenant, id, prior, RoKey(k.keyType, k.purpose, db.pairs));
        if |worlds| > 2 {
          assert d2.keys[prior] == k && HasActive(d2, id, k.purpose);
          var d3, p3 := SoloStep(d2, true, p2, worlds[1..][1..]);
        }
      }
    }
  }

  /**
   So a key that rotation was to replace is left in use while its reference no longer resolves to its
   own private half: any key of the identity made by generateKeyPair, from its second statement on.
   */
  lemma RotationOrphans(s: Sys, tenant: Id, id: Id, prior: Id, worlds: seq<World>)
    requires Reachable(s, true) && FindKey(s.db, tenant, prior).Some? && |worlds| >= 2
    requires var k := s.db.keys[prior];
             k.identity == id && k.status == InUse && k.keyType.Supported() && k.keyRef == Ref(Typed(tenant, id, k.keyType)) && k.pair.Some?
    ensures var db' := Solo(s.db, true, Rotating(tenant, id, prior, RoRead), worlds).0;
            && prior in db'.keys && db'.keys[prior] == s.db.keys[prior] && db'.keys[prior].status == InUse
            && Lookup(db', db'.keys[prior].keyRef) != db'.keys[prior].pair
  {
    Invariant(s, true);
    StrictRotationFails(s.db, tenant, id, prior, worlds);
    assert RowMade(s.db, s.db.keys[prior]);
    hide Ref, Solo, LastPair;
  }

  lemma SoloNone(db: Db, strict: bool, pc: Pc)
    ensures Solo(db, strict, pc, []) == (db, pc)
  {
  }
}
