/** The modes of chiptool that change state, call by call. */
module ChipTool {
  import opened ImfileStates
  import opened Pipeline
  import opened PipelineEffects
  import opened Transactions
  import opened Wrappers

  /** -tofullimfile, -tocleanedimfile, -topurgedimfile, -toscrubbedimfile. */
  method ChangeImfileDataState(db: Session<Db>, id: int, k: ClassId, target: DataState) returns (ok: bool)
    requires db.Idle() && IsTarget(target)
    modifies db
    ensures ok == (old(db.healthy) >= 4 && ChangeImfile(old(db.committed), id, k, target) != old(db.committed))
    ensures ok ==> db.Idle() && db.committed == ChangeImfile(old(db.committed), id, k, target)
    ensures !ok ==> db.committed == old(db.committed)
  {
    var was := db.committed;
    ok := db.Begin();
    if !ok { return; }
    if id !in was.chips || was.chips[id].expId !in was.raws {
      return false;  // no row affected
    }
    var p, raw, e := Chip(target), was.raws[was.chips[id].expId], was.chips[id].run;
    var u := if Matches(p, raw, e, k) then UpdateFile(p, raw, e, k) else e;
    PutRunChanges(was, id, Step(p, raw, e, k));
    if u != e {
      StepChanges(p, raw, e, k);
    }
    ok := db.Execute(PutRun(was, id, u));
    if !ok {
      db.Rollback();
      return;
    }
    if u == e {  // no row affected
      return false;
    }
    ok := db.Execute(PutRun(db.working, id, Promote(p, u)));
    if !ok {
      db.Rollback();
      return;
    }
    ok := db.Commit();
  }

  lemma PutRunChanges(db: Db, id: int, e: Exposure)
    requires id in db.chips
    ensures PutRun(db, id, e) == db <==> e == db.chips[id].run
  {
    if e != db.chips[id].run {
      assert PutRun(db, id, e).chips[id].run != db.chips[id].run;
    } else {
      assert db.chips[id := db.chips[id]] == db.chips;
    }
  }

  lemma StepChanges(p: Policy, raw: Raw, e: Exposure, k: ClassId)
    requires Effective(p, raw, e, k)
    ensures Step(p, raw, e, k) != e
  {
  }

  /** The calls for the first `n` runs: for each its statistics, the two ends of the
      transaction, `extra` updates of columns that are not modelled, the run itself and, if
      it goes on, the camera run. */
  function AdvanceCalls(db: Db, rows: seq<AdvanceRow>, extra: seq<nat>, n: nat): nat
    requires n <= |rows| == |extra|
  {
    if n == 0 then 0 else AdvanceCalls(db, rows, extra, n - 1) + RowCalls(db, rows[n - 1], extra[n - 1])
  }

  function RowCalls(db: Db, row: AdvanceRow, extra: nat): nat {
    extra + if row.chipId in db.chips && Stops(db.chips[row.chipId].tags, "chip") then 4 else 5
  }

  /** A run whose end_stage spells chip saves the call that queues its camera run. */
  lemma RowCallsExactly(db: Db, row: AdvanceRow, extra: nat)
    requires row.chipId in db.chips
    ensures var e := db.chips[row.chipId].tags.endStage;
      RowCalls(db, row, extra) ==
      if e.Some? && exists i | 0 <= i <= |e.value| - 4 :: SpelledAt(e.value, "chip", i) then extra + 4 else extra + 5
  {
    StopsExactly(db.chips[row.chipId].tags, "chip");
  }

  /** Each selected run is advanced in a transaction of its own, so a failure leaves the
      runs before it advanced and the others as they were. */
  method AdvanceExp(db: Session<Db>, rows: seq<AdvanceRow>, extra: seq<nat>) returns (ok: bool, ghost done: nat)
    requires db.Idle() && |extra| == |rows|
    requires forall i | 0 <= i < |rows| :: rows[i].chipId in db.committed.chips
    modifies db
    ensures done <= |rows| && db.committed == AdvanceAll(old(db.committed), rows[..done])
    ensures StopsAt(old(db.committed), rows, extra, done, old(db.healthy))
    ensures ok == (old(db.healthy) >= 1 + AdvanceCalls(old(db.committed), rows, extra, |rows|))
    ensures ok ==> db.Idle() && db.committed == AdvanceAll(old(db.committed), rows)
  {
    ghost var was, calls := db.committed, db.healthy;
    done := 0;
    assert rows[..0] == [];
    CallsGrow(was, rows, extra, 0);
    ok := db.Query();
    if !ok { return; }
    var i := 0;
    while i < |rows|
      invariant 0 <= i <= |rows| && done == i && ok
      invariant db.Idle() && db.committed == AdvanceAll(was, rows[..i])
      invariant calls == 1 + AdvanceCalls(was, rows, extra, i) + db.healthy
    {
      OneTurn(was, rows, extra, i);
      ok := AdvanceRun(db, rows[i], extra[i]);
      if !ok { return; }
      i, done := i + 1, done + 1;
    }
    assert rows[..|rows|] == rows;
  }

  lemma OneTurn(db: Db, rows: seq<AdvanceRow>, extra: seq<nat>, i: nat)
    requires i < |rows| == |extra| && rows[i].chipId in db.chips
    ensures var b := AdvanceAll(db, rows[..i]);
      && rows[i].chipId in b.chips && AdvanceAll(db, rows[..i + 1]) == AdvanceOne(b, rows[i])
      && AdvanceCalls(db, rows, extra, i + 1) == AdvanceCalls(db, rows, extra, i) + RowCalls(b, rows[i], extra[i])
      && AdvanceCalls(db, rows, extra, i + 1) <= AdvanceCalls(db, rows, extra, |rows|)
  {
    AdvanceKeepsTags(db, rows[..i], rows[i].chipId);
    CallsGrow(db, rows, extra, i + 1);
    assert rows[..i + 1][..i] == rows[..i];
  }

  /** One turn of the loop. */
  method AdvanceRun(db: Session<Db>, row: AdvanceRow, extra: nat) returns (ok: bool)
    requires db.Idle() && row.chipId in db.committed.chips
    modifies db
    ensures var calls := RowCalls(old(db.committed), row, extra);
      ok == (old(db.healthy) >= calls) && (ok ==> db.healthy == old(db.healthy) - calls)
    ensures ok ==> db.Idle() && db.committed == AdvanceOne(old(db.committed), row)
    ensures !ok ==> db.committed == old(db.committed)
  {
    var tags := db.working.chips[row.chipId].tags;
    ok := db.Query();  // the run's statistics
    if !ok {
      db.Rollback();
      return;
    }
    ok := db.Begin();
    if !ok { return; }
    var left := extra;
    while left > 0
      invariant 0 <= left <= extra && db.healthy == old(db.healthy) - 2 - (extra - left)
      invariant db.open && db.committed == db.working == old(db.committed)
    {
      ok := db.Execute(db.working);
      if !ok {
        db.Rollback();
        return;
      }
      left := left - 1;
    }
    ok := db.Execute(SetChipFull(db.working, row));
    if !ok { return; }
    if !Stops(tags, "chip") {
      ok := db.Execute(QueueCam(db.working, row.chipId, row.magicked, tags));
      if !ok {
        db.Rollback();
        return;
      }
    }
    ok := db.Commit();
  }

  /** The first `n` runs are exactly those for which the calls suffice. */
  ghost predicate StopsAt(db: Db, rows: seq<AdvanceRow>, extra: seq<nat>, n: nat, calls: nat)
    requires n <= |rows| == |extra|
  {
    && (n > 0 ==> calls >= 1 + AdvanceCalls(db, rows, extra, n))
    && (n < |rows| ==> calls < 1 + AdvanceCalls(db, rows, extra, n + 1))
  }

  lemma CallsGrow(db: Db, rows: seq<AdvanceRow>, extra: seq<nat>, n: nat)
    requires n <= |rows| == |extra|
    ensures AdvanceCalls(db, rows, extra, n) <= AdvanceCalls(db, rows, extra, |rows|)
    decreases |rows| - n
  {
    if n < |rows| {
      CallsGrow(db, rows, extra, n + 1);
    }
  }

  lemma {:induction false} AdvanceKeepsTags(db: Db, rows: seq<AdvanceRow>, id: int)
    requires id in db.chips
    ensures id in AdvanceAll(db, rows).chips && AdvanceAll(db, rows).chips[id].tags == db.chips[id].tags
  {
    if rows != [] {
      AdvanceKeepsTags(db, rows[..|rows| - 1], id);
    }
  }

  /** Queue chip runs for exposures.  The loop runs inside a transaction, but every
      insertion starts and commits one of its own (pxchip.c), which ends the outer one: a
      failure leaves the exposures before it queued. */
  method QueueExposures(db: Session<Db>, rows: seq<ExpRow>, o: Tags) returns (ok: bool, ghost done: nat)
    requires db.Idle()
    modifies db
    ensures done <= |rows| && QueueableTo(old(db.committed), rows, done)
    ensures db.committed == QueueAll(old(db.committed), rows[..done], o)
    ensures forall i | 0 <= i < done :: rows[i].expId != 0 && rows[i].expId in old(db.committed).raws
    ensures done < |rows| ==> || rows[done].expId == 0 || rows[done].expId !in old(db.committed).raws
                              || old(db.healthy) < 4 * (done + 1) + 1
    ensures done > 0 ==> old(db.healthy) >= 4 * done + 1
    ensures ok == (done == |rows| && old(db.healthy) >= 4 * |rows| + 2)
    ensures ok ==> db.committed == QueueAll(old(db.committed), rows, o)
    ensures QueueableTo(old(db.committed), rows, |rows|) ==> done == QueuedBy(old(db.healthy), |rows|)
  {
    ghost var was, calls := db.committed, db.healthy;
    assert rows[..0] == [];
    done := 0;
    ok := db.Begin();
    if !ok { return; }
    var i := 0;
    while i < |rows|
      invariant 0 <= i <= |rows| && done == i && ok
      invariant QueueableTo(was, rows, i)
      invariant db.working == db.committed == QueueAll(was, rows[..i], o)
      invariant calls == db.healthy + 4 * i + 1
    {
      var row := rows[i];
      assert rows[..i + 1][..i] == rows[..i];
      QueueKeepsRaws(was, rows[..i], o);
      if row.expId == 0 || row.expId !in db.working.raws {
        return false, done;
      }
      ok := QueueByExpTag(db, row, o);
      if !ok {
        db.Rollback();
        return;
      }
      i, done := i + 1, done + 1;
    }
    assert rows[..|rows|] == rows;
    ok := db.Commit();
  }

  /** pxchipQueueByExpTag */
  method QueueByExpTag(db: Session<Db>, row: ExpRow, o: Tags) returns (ok: bool)
    requires db.working == db.committed && row.expId in db.working.raws
    modifies db
    ensures ok == (old(db.healthy) >= 4)
    ensures ok ==> db.working == db.committed == QueueOne(old(db.committed), row, o)
    ensures ok ==> db.healthy == old(db.healthy) - 4
    ensures !ok ==> db.committed == old(db.committed)
  {
    ok := db.Begin();
    if !ok { return; }
    var id := db.working.nextChip;
    var run := ChipRun(row.expId, Resolve(o, row.tags), {}, Exposure(New, 0, 0, map[]));
    ok := db.Execute(db.working.(chips := db.working.chips[id := run], nextChip := id + 1));
    if !ok {
      db.Rollback();
      return;
    }
    var planned := db.working.raws[row.expId].files.Keys;
    ok := db.Execute(db.working.(chips := db.working.chips[id := run.(planned := planned)]));
    if !ok {
      db.Rollback();
      return;
    }
    ok := db.Commit();
  }

  /** The first `n` exposures have an identifier and exist. */
  ghost predicate QueueableTo(db: Db, rows: seq<ExpRow>, n: nat)
    requires n <= |rows|
  {
    forall i | 0 <= i < n :: rows[i].expId != 0 && rows[i].expId in db.raws
  }

  /** How many exposures are queued when the database answers `calls` calls: one to open
      the outer transaction and four for each exposure. */
  function QueuedBy(calls: nat, n: nat): (k: nat)
    ensures k <= n
    ensures k > 0 ==> calls >= 4 * k + 1
    ensures k < n ==> calls < 4 * (k + 1) + 1
  {
    if calls == 0 then 0 else if (calls - 1) / 4 <= n then (calls - 1) / 4 else n
  }

  lemma {:induction false} QueueKeepsRaws(db: Db, rows: seq<ExpRow>, o: Tags)
    ensures QueueAll(db, rows, o).raws == db.raws
  {
    if rows != [] {
      QueueKeepsRaws(db, rows[..|rows| - 1], o);
    }
  }

  /** Queueing is all-or-nothing at every failure point exactly when there is at most one
      exposure to queue, although the source opens a transaction for it. */
  lemma QueueAllOrNothingExactly(db: Db, rows: seq<ExpRow>, o: Tags)
    requires QueueableTo(db, rows, |rows|)
    ensures (forall calls: nat ::
               || QueueAll(db, rows[..QueuedBy(calls, |rows|)], o) == db
               || QueueAll(db, rows[..QueuedBy(calls, |rows|)], o) == QueueAll(db, rows, o))
            <==> |rows| <= 1
  {
    if |rows| <= 1 {
      forall calls: nat
        ensures || QueueAll(db, rows[..QueuedBy(calls, |rows|)], o) == db
                || QueueAll(db, rows[..QueuedBy(calls, |rows|)], o) == QueueAll(db, rows, o)
      {
        assert rows[..0] == [] && rows[..|rows|] == rows;
      }
    } else {
      assert QueuedBy(5, |rows|) == 1;
      QueueCounts(db, rows[..1], o);
      QueueCounts(db, rows, o);
    }
  }

  /** Queueing adds one new run for each exposure, in their order and under consecutive
      numbers, with all raw files planned and none processed; it changes nothing else. */
  lemma {:induction false} QueueEffect(db: Db, rows: seq<ExpRow>, o: Tags)
    requires QueueableTo(db, rows, |rows|) && forall id | id in db.chips :: id < db.nextChip
    ensures RunsQueued(db, rows, o, QueueAll(db, rows, o))
  {
    if rows != [] {
      QueueEffect(db, rows[..|rows| - 1], o);
      OneRunQueued(db, rows, o, QueueAll(db, rows[..|rows| - 1], o));
    }
  }

  ghost predicate RunsQueued(db: Db, rows: seq<ExpRow>, o: Tags, t: Db)
    requires QueueableTo(db, rows, |rows|)
  {
    && t == db.(chips := t.chips, nextChip := db.nextChip + |rows|)
    && (forall id :: id in t.chips <==> id in db.chips || db.nextChip <= id < t.nextChip)
    && (forall id | id in db.chips :: t.chips[id] == db.chips[id])
    && (forall i | 0 <= i < |rows| :: IsQueued(db, rows[i], o, t.chips[db.nextChip + i]))
  }

  lemma OneRunQueued(db: Db, rows: seq<ExpRow>, o: Tags, b: Db)
    requires rows != [] && QueueableTo(db, rows, |rows|) && forall id | id in db.chips :: id < db.nextChip
    requires RunsQueued(db, rows[..|rows| - 1], o, b)
    ensures RunsQueued(db, rows, o, QueueOne(b, rows[|rows| - 1], o))
  {
    var n, t := |rows| - 1, QueueOne(b, rows[|rows| - 1], o);
    forall i | 0 <= i < |rows|
      ensures IsQueued(db, rows[i], o, t.chips[db.nextChip + i])
    {
      assert i < n ==> rows[..n][i] == rows[i] && IsQueued(db, rows[..n][i], o, b.chips[db.nextChip + i]);
    }
  }

  /** Values of the command line win over those of the exposure; the distribution group and
      the exposure group come from the command line alone; the data group falls back on
      the label. */
  ghost predicate IsQueued(db: Db, row: ExpRow, o: Tags, run: ChipRun)
    requires row.expId in db.raws
  {
    var t, r := run.tags, row.tags;
    && run.expId == row.expId && run.planned == db.raws[row.expId].files.Keys
    && run.run == Exposure(New, 0, 0, map[])
    && Wins(t.workdir, o.workdir, r.workdir) && Wins(t.runLabel, o.runLabel, r.runLabel)
    && Wins(t.reduction, o.reduction, r.reduction) && Wins(t.dvodb, o.dvodb, r.dvodb)
    && Wins(t.tessId, o.tessId, r.tessId) && Wins(t.endStage, o.endStage, r.endStage)
    && t.distGroup == o.distGroup && t.expgroup == o.expgroup
    && Wins(t.dataGroup, o.dataGroup, t.runLabel)
  }

  ghost predicate Wins<T(!new)>(chosen: Option<T>, first: Option<T>, second: Option<T>) {
    (first.Some? ==> chosen == first) && (first.None? ==> chosen == second)
  }

  lemma {:induction false} QueueCounts(db: Db, rows: seq<ExpRow>, o: Tags)
    requires QueueableTo(db, rows, |rows|)
    ensures QueueAll(db, rows, o).nextChip == db.nextChip + |rows|
  {
    if rows != [] {
      QueueCounts(db, rows[..|rows| - 1], o);
      QueueKeepsRaws(db, rows[..|rows| - 1], o);
    }
  }
}
