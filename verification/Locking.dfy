/**
 Optimistic locking of identities. Every stored row is the replay of the effective writes in
 commit order; versions count content updates, and an update goes through exactly when nobody has
 updated the row since the version it names was read.
 */
module Locking {
  import opened Basics
  import opened Directory
  import opened KeyRing

  datatype Row = Row(content: Content, status: Status, primaryKey: Option<Id>, version: int)

  /** The effect of one write on the row of an identity. */
  function Amend(row: Option<Row>, x: Write, id: Id): Option<Row> {
    match x
    case Inserted(i, content) => if i == id then Some(Row(content, Pending, None, 1)) else row
    case Updated(i, content, _) =>
      if i == id && row.Some? then Some(row.value.(content := content, version := row.value.version + 1)) else row
    case StatusSet(i, status) => if i == id && row.Some? then Some(row.value.(status := status)) else row
    case PrimarySet(i, key) => if i == id && row.Some? then Some(row.value.(primaryKey := Some(key))) else row
    case Generated(_, _) => row
  }

  function Replay(j: seq<Write>, id: Id): Option<Row> {
    if j == [] then None else Amend(Replay(j[..|j| - 1], id), j[|j| - 1], id)
  }

  function Stored(db: Db, id: Id): Option<Row> {
    if id !in db.identities then None else
      var row := db.identities[id];
      Some(Row(row.content, row.status, row.primaryKey, row.version))
  }

  ghost predicate Replayed(db: Db) {
    forall id :: Replay(db.journal, id) == Stored(db, id)
  }

  /** The write can take effect after these: inserts are new, updates name the current version. */
  predicate Fits(j: seq<Write>, x: Write) {
    && (x.Inserted? ==> Replay(j, x.id).None?)
    && (x.Updated? ==> Replay(j, x.id).Some? && Replay(j, x.id).value.version == x.from)
  }

  predicate WriteOk(j: seq<Write>, k: nat)
    requires k < |j|
  {
    Fits(j[..k], j[k])
  }

  ghost predicate JournalOk(j: seq<Write>) {
    forall k :: 0 <= k < |j| ==> WriteOk(j, k)
  }

  // ---------- The invariant ----------

  lemma ReplayLast(j: seq<Write>, x: Write, id: Id)
    ensures Replay(j + [x], id) == Amend(Replay(j, id), x, id)
  {
    assert (j + [x])[..|j|] == j;
  }

  lemma JournalLast(j: seq<Write>, x: Write)
    requires JournalOk(j) && Fits(j, x)
    ensures JournalOk(j + [x])
  {
    hide Replay;
    forall k | 0 <= k < |j + [x]| ensures WriteOk(j + [x], k) {
      if k < |j| {
        assert (j + [x])[..k] == j[..k];
        assert WriteOk(j, k);
      } else {
        assert (j + [x])[..k] == j;
      }
    }
  }

  /** A statement appends at most one write, and changes no row but the one that write names. */
  lemma ApplyReplayed(db: Db, stmt: Stmt)
    requires Replayed(db) && JournalOk(db.journal) && FreshStmt(db, stmt)
    ensures Replayed(Apply(db, stmt)) && JournalOk(Apply(db, stmt).journal)
    ensures db.journal <= Apply(db, stmt).journal
  {
    hide Replay, Ref, JournalOk;
    var db' := Apply(db, stmt);
    if db'.journal != db.journal {
      var x := db'.journal[|db.journal|];
      assert db'.journal == db.journal + [x];
      JournalLast(db.journal, x);
      forall id ensures Replay(db'.journal, id) == Stored(db', id) {
        ReplayLast(db.journal, x, id);
        assert Replay(db.journal, id) == Stored(db, id);
      }
    } else {
      forall id ensures Replay(db'.journal, id) == Stored(db', id) {
        assert Replay(db.journal, id) == Stored(db, id);
      }
    }
  }

  ghost predicate Inv(db: Db) { Replayed(db) && JournalOk(db.journal) }

  lemma {:induction false} InvRun(s: Sys, strict: bool, acts: seq<Action>)
    requires Inv(s.db) && After(s, strict, acts).Some?
    ensures Inv(After(s, strict, acts).value.db)
    ensures s.db.journal <= After(s, strict, acts).value.db.journal
    decreases |acts|
  {
    if acts != [] {
      hide Inv, Apply, Plan;
      var a := acts[0];
      if a.Do? {
        PlanFresh(s.db, strict, s.calls[a.t], a.w);
        InvApply(s.db, Plan(s.db, strict, s.calls[a.t], a.w).0);
      }
      InvRun(Next(s, strict, a), strict, acts[1..]);
    }
  }

  lemma InvApply(db: Db, stmt: Stmt)
    requires Inv(db) && FreshStmt(db, stmt)
    ensures Inv(Apply(db, stmt)) && db.journal <= Apply(db, stmt).journal
  {
    ApplyReplayed(db, stmt);
  }

  /** Every reachable row is the replay of a well-formed journal, whatever the interleaving. */
  lemma RowsReplayed(s: Sys, strict: bool)
    requires Reachable(s, strict)
    ensures Replayed(s.db) && JournalOk(s.db.journal)
  {
    var acts :| After(START, strict, acts) == Some(s);
    InvRun(START, strict, acts);
  }

  // ---------- What the journal says about versions ----------

  predicate Updates(x: Write, id: Id) { x.Updated? && x.id == id }

  function UpdateCount(j: seq<Write>, id: Id): nat {
    if j == [] then 0 else UpdateCount(j[..|j| - 1], id) + if Updates(j[|j| - 1], id) then 1 else 0
  }

  lemma JournalPrefix(j: seq<Write>, n: nat)
    requires JournalOk(j) && n <= |j|
    ensures JournalOk(j[..n])
  {
    forall k | 0 <= k < n ensures WriteOk(j[..n], k) {
      assert j[..n][..k] == j[..k];
      assert WriteOk(j, k);
    }
  }

  /** Version is one plus the number of successful updates. */
  lemma {:induction false} VersionCounts(j: seq<Write>, id: Id)
    requires JournalOk(j)
    ensures Replay(j, id).None? ==> UpdateCount(j, id) == 0
    ensures Replay(j, id).Some? ==> Replay(j, id).value.version == 1 + UpdateCount(j, id)
  {
    if j != [] {
      var n := |j| - 1;
      JournalPrefix(j, n);
      VersionCounts(j[..n], id);
      assert WriteOk(j, n);
    }
  }

  lemma {:induction false} CountGrows(j: seq<Write>, a: nat, b: nat, id: Id)
    requires a <= b <= |j|
    ensures UpdateCount(j[..a], id) <= UpdateCount(j[..b], id)
    ensures UpdateCount(j[..a], id) == UpdateCount(j[..b], id) <==> forall m :: a <= m < b ==> !Updates(j[m], id)
    decreases b - a
  {
    if a < b {
      CountGrows(j, a, b - 1, id);
      assert j[..b][..b - 1] == j[..b - 1];
    }
  }

  /** At most one update succeeds per version. */
  lemma OneUpdatePerVersion(j: seq<Write>, a: nat, b: nat, id: Id)
    requires JournalOk(j) && a < b < |j| && Updates(j[a], id) && Updates(j[b], id)
    ensures j[a].from < j[b].from
  {
    assert WriteOk(j, a) && WriteOk(j, b);
    JournalPrefix(j, a);
    JournalPrefix(j, b);
    VersionCounts(j[..a], id);
    VersionCounts(j[..b], id);
    CountGrows(j, a, b, id);
  }

  lemma {:induction false} ContentKept(j: seq<Write>, p: nat, q: nat, id: Id)
    requires JournalOk(j) && p <= q <= |j| && Replay(j[..p], id).Some?
    requires forall m :: p <= m < q ==> !Updates(j[m], id)
    ensures Replay(j[..q], id).Some? && Replay(j[..q], id).value.content == Replay(j[..p], id).value.content
    decreases q - p
  {
    if p < q {
      ContentKept(j, p, q - 1, id);
      assert j[..q][..q - 1] == j[..q - 1];
      assert WriteOk(j, q - 1);
    }
  }

  /**
   No lost update. For a caller who read a row when the journal had length p: an update naming the
   version read matches now exactly when no update has succeeded since, and then the content it
   replaces is still the content that was read.
   */
  lemma UpdateExact(s: Sys, strict: bool, tenant: Id, id: Id, p: nat)
    requires Reachable(s, strict) && p <= |s.db.journal|
    requires Replay(s.db.journal[..p], id).Some? && FindIdentity(s.db, tenant, id).Some?
    ensures var read := Replay(s.db.journal[..p], id).value;
            && (VersionMatches(s.db, tenant, id, read.version)
                <==> forall m :: p <= m < |s.db.journal| ==> !Updates(s.db.journal[m], id))
            && (VersionMatches(s.db, tenant, id, read.version) ==> s.db.identities[id].content == read.content)
  {
    var j := s.db.journal;
    RowsReplayed(s, strict);
    assert Replay(j, id) == Stored(s.db, id);
    assert j[..|j|] == j;
    JournalPrefix(j, p);
    VersionCounts(j[..p], id);
    VersionCounts(j, id);
    CountGrows(j, p, |j|, id);
    if forall m :: p <= m < |j| ==> !Updates(j[m], id) {
      ContentKept(j, p, |j|, id);
    }
  }

  // ---------- Updates, status changes and primary keys do not interfere ----------

  /** The journal with only the content updates kept, or only the other row writes. */
  function Project(j: seq<Write>, updates: bool): seq<Write> {
    if j == [] then [] else
      var x := j[|j| - 1];
      Project(j[..|j| - 1], updates) + if Kept(x, updates) then [x] else []
  }

  predicate Kept(x: Write, updates: bool) { x.Inserted? || x.Updated? == updates }

  /** The row agrees with the one side on content and version, with the other on status and primary key. */
  predicate Agree(row: Option<Row>, up: Option<Row>, other: Option<Row>) {
    && (row.Some? <==> up.Some?) && (row.Some? <==> other.Some?)
    && (row.Some? ==> row.value.content == up.value.content && row.value.version == up.value.version)
    && (row.Some? ==> row.value.status == other.value.status && row.value.primaryKey == other.value.primaryKey)
  }

  lemma AgreeStep(row: Option<Row>, up: Option<Row>, other: Option<Row>, x: Write, id: Id)
    requires Agree(row, up, other)
    ensures Agree(Amend(row, x, id), if Kept(x, true) then Amend(up, x, id) else up,
                  if Kept(x, false) then Amend(other, x, id) else other)
  {
  }

  lemma ProjectLast(j: seq<Write>, updates: bool, id: Id)
    requires j != []
    ensures var front, x := Project(j[..|j| - 1], updates), j[|j| - 1];
            Replay(Project(j, updates), id) == if Kept(x, updates) then Amend(Replay(front, id), x, id) else Replay(front, id)
  {
    var front, x := Project(j[..|j| - 1], updates), j[|j| - 1];
    ReplayLast(front, x, id);
    assert front + [] == front;
  }

  /** Content and version depend on updates alone; status and primary key do not depend on them. */
  lemma {:induction false} FieldsIndependent(j: seq<Write>, id: Id)
    ensures Agree(Replay(j, id), Replay(Project(j, true), id), Replay(Project(j, false), id))
  {
    if j != [] {
      hide Project, Agree, Amend;
      var n := |j| - 1;
      FieldsIndependent(j[..n], id);
      ProjectLast(j, true, id);
      ProjectLast(j, false, id);
      AgreeStep(Replay(j[..n], id), Replay(Project(j[..n], true), id), Replay(Project(j[..n], false), id), j[n], id);
    }
  }
}
