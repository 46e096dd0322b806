/**
 Runs of calls that do not overlap, from an empty directory. Each call runs to its end or stops
 where the database fails it.
 */
module WholeCalls {
  import opened Basics
  import opened Directory
  import opened Lifecycle
  import opened AuditReplay
  import opened Services

  /** A call and the worlds its statements get; it stops where they run out. */
  datatype Episode = Episode(start: Pc, worlds: seq<World>)

  predicate Starts(run: seq<Episode>) { forall e <- run :: IsStart(e.start) }

  function Play(strict: bool, run: seq<Episode>): Db {
    if run == [] then EMPTY else
      var e := run[|run| - 1];
      Solo(Play(strict, run[..|run| - 1]), strict, e.start, e.worlds).0
  }

  /** Such runs are runs of the machine. */
  lemma {:induction false} PlayReachable(strict: bool, run: seq<Episode>)
    requires Starts(run)
    ensures ReachableDb(Play(strict, run), strict)
    decreases |run|
  {
    if run == [] {
      assert After(START, strict, []) == Some(START);
      assert Reachable(Sys(EMPTY, map[]), strict);
    } else {
      hide Solo, ReachableDb, IsStart;
      var e := run[|run| - 1];
      PlayReachable(strict, run[..|run| - 1]);
      SoleCall(Play(strict, run[..|run| - 1]), strict, e.start, e.worlds);
    }
  }

  // ---------- Lifecycle ----------

  lemma StartUndisturbed(db: Db, pc: Pc)
    requires IsStart(pc)
    ensures Undisturbed(db, pc)
  {
  }

  /** In every such run the deactivation time is set exactly for terminal identities. */
  lemma {:induction false} PlayTimes(strict: bool, run: seq<Episode>)
    requires Starts(run)
    ensures TimesExact(Play(strict, run))
    decreases |run|
  {
    if run != [] {
      hide Solo, TimesExact, Undisturbed, Terminal;
      var before, e := Play(strict, run[..|run| - 1]), run[|run| - 1];
      PlayTimes(strict, run[..|run| - 1]);
      StartUndisturbed(before, e.start);
      AtomicLifecycle(before, strict, e.start, e.worlds);
    }
  }

  /** In every such run an identity that is terminal at some point is terminal from then on. */
  lemma {:induction false} PlayAbsorbs(strict: bool, run: seq<Episode>, i: nat, id: Id)
    requires Starts(run) && i <= |run| && Terminal(Play(strict, run[..i]), id)
    ensures Terminal(Play(strict, run), id)
    decreases |run|
  {
    if i == |run| {
      assert run[..i] == run;
    } else {
      hide Solo, TimesExact, Undisturbed, Terminal;
      var front, e := run[..|run| - 1], run[|run| - 1];
      assert front[..i] == run[..i];
      PlayTimes(strict, front);
      PlayAbsorbs(strict, front, i, id);
      StartUndisturbed(Play(strict, front), e.start);
      AtomicLifecycle(Play(strict, front), strict, e.start, e.worlds);
    }
  }

  // ---------- Audit ----------

  /** No call stopped between its status write and its event. */
  predicate Recorded(strict: bool, run: seq<Episode>) {
    forall i :: 0 <= i < |run| ==> Pays(Play(strict, run[..i]), strict, run[i])
  }

  predicate Pays(db: Db, strict: bool, e: Episode) {
    var pc := Solo(db, strict, e.start, e.worlds).1;
    !(pc.Changing? && pc.s == StAudit) && !(pc.Creating? && pc.c.CrAudit?)
  }

  /** A call alone in the directory. */
  function Alone(db: Db, pc: Pc): Sys { Sys(db, map[0 := pc]) }

  lemma {:induction false} SoloLog(db: Db, strict: bool, pc: Pc, worlds: seq<World>)
    requires Fit(Alone(db, pc)) && LogOk(Alone(db, pc))
    ensures var end := Solo(db, strict, pc, worlds); Fit(Alone(end.0, end.1)) && LogOk(Alone(end.0, end.1))
    decreases |worlds|
  {
    if worlds != [] && !pc.Finished? {
      var s, a := Alone(db, pc), Do(0, worlds[0]);
      LoneOrderly(s, 0, worlds[0]);
      hide Fit, LogOk, Exec, Orderly;
      FitStep(s, strict, a);
      LogStep(s, strict, a);
      var (db', pc') := Exec(db, strict, pc, worlds[0]);
      assert Next(s, strict, a) == Alone(db', pc');
      SoloLog(db', strict, pc', worlds[1..]);
    }
  }

  /** The log tells every status: what holds between calls. */
  ghost predicate AllTold(db: Db) {
    RowsFit(db) && forall id :: id in db.identities ==> Fold(db.log, id) == Some(db.identities[id].status)
  }

  lemma StartLog(db: Db, pc: Pc)
    requires AllTold(db) && IsStart(pc)
    ensures Fit(Alone(db, pc)) && LogOk(Alone(db, pc))
  {
    hide Fold, RowsFit;
    StartAnchored(db, pc);
  }

  lemma EndLog(db: Db, pc: Pc)
    requires Fit(Alone(db, pc)) && LogOk(Alone(db, pc))
    requires !(pc.Changing? && pc.s == StAudit) && !(pc.Creating? && pc.c.CrAudit?)
    ensures AllTold(db)
  {
    hide Fold, RowsFit;
    forall id | id in db.identities ensures OnRecord(Alone(db, pc), id) { }
  }

  /** In every such run in which no call stops between its status write and its event, the folded log is the status. */
  lemma {:induction false} PlayTold(strict: bool, run: seq<Episode>, id: Id)
    requires Starts(run) && Recorded(strict, run)
    ensures var db := Play(strict, run);
            AllTold(db) && (id in db.identities ==> Fold(db.log, id) == Some(db.identities[id].status))
    decreases |run|
  {
    if run != [] {
      hide Solo, Fold, RowsFit, Fit, LogOk;
      var front, e := run[..|run| - 1], run[|run| - 1];
      forall i | 0 <= i < |front| ensures Pays(Play(strict, front[..i]), strict, front[i]) {
        assert front[..i] == run[..i];
      }
      PlayTold(strict, front, id);
      var db := Play(strict, front);
      assert Pays(db, strict, e);
      StartLog(db, e.start);
      SoloLog(db, strict, e.start, e.worlds);
      var end := Solo(db, strict, e.start, e.worlds);
      EndLog(end.0, end.1);
    }
  }
}
