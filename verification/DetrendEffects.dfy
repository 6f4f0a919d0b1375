/** What the detrend commands commit, row by row and column by column. */
module DetrendEffects {
  import opened Detrend
  import opened DetrendHistory
  import opened DetTool
  import opened Wrappers

  /** An iteration of a run gets the chosen exposures as inputs, and every other input is as
      it was. */
  ghost predicate Gains(db: Db, t: Db, d: int, it: int, chosen: map<int, bool>) {
    forall k: Key :: Included(t, k) ==
      if k.det == d && k.iteration == it && k.exp in chosen then Some(chosen[k.exp]) else Included(db, k)
  }

  /** A run with a new number, at iteration 0 and running, whose inputs are the chosen
      exposures; everything else is as it was. */
  ghost predicate NewRun(db: Db, t: Db, mode: Mode, refDetId: int, refIter: int, chosen: map<int, bool>) {
    && t.runs == db.runs[db.nextDet := DetRun(0, mode, Running, refDetId, refIter)] && t.nextDet == db.nextDet + 1
    && t.resids == db.resids && t.summaries == db.summaries
    && Gains(db, t, db.nextDet, 0, chosen)
  }

  /** A run one iteration further, with the chosen exposures as the inputs of that iteration;
      everything else is as it was. */
  ghost predicate NextIteration(db: Db, t: Db, d: int, chosen: map<int, bool>)
    requires d in db.runs
  {
    && t.runs == db.runs[d := db.runs[d].(iteration := db.runs[d].iteration + 1)] && t.nextDet == db.nextDet
    && t.resids == db.resids && t.summaries == db.summaries
    && Gains(db, t, d, db.runs[d].iteration + 1, chosen)
  }

  // ---------------------------------------------------------------- new runs

  lemma DefineEffect(db: Db, mode: Mode, refDetId: int, refIter: int, chosen: map<int, bool>)
    ensures NewRun(db, Define(db, mode, refDetId, refIter, chosen), mode, refDetId, refIter, chosen)
  {
    var u := InsertRun(db, DetRun(0, mode, Running, refDetId, refIter));
    forall k: Key {
      AddedInput(u, db.nextDet, 0, chosen, k);
    }
  }

  /** -definebytag and -definebyquery.  A master run may not name a reference, a verify run
      must, and no other kind can be defined.  The run starts at iteration 0, running, with
      every exposure included. */
  lemma DefineByExposuresEffect(db: Db, mode: Mode, refDetId: int, refIter: int, es: seq<int>, calls: nat)
    ensures var t := Outcome(db, DefineByExposures(mode, refDetId, refIter, es), calls);
      if calls >= |es| + 4
         && ((mode == Master && refDetId == 0 && refIter == -1) || (mode == Verify && refDetId != 0 && refIter != -1))
      then
        NewRun(db, t, mode, refDetId, refIter, map e | e in es :: true)
      else t == db
  {
    DefineEffect(db, mode, refDetId, refIter, All(es));
    assert All(es) == map e | e in es :: true;
  }

  /** The verdicts of the residuals of an iteration that pass a filter. */
  ghost predicate Residuals(db: Db, src: int, it: int, pick: set<int>, judged: map<int, bool>) {
    && (forall e :: e in judged <==> e in pick && Key(src, it, e) in db.resids)
    && (forall e | e in judged :: judged[e] == db.resids[Key(src, it, e)].accept)
  }

  /** -definebydetrun: the same run, with the residuals of the chosen iteration of the source
      that pass the filter, each included as it was accepted. */
  lemma DefineByDetRunEffect(db: Db, src: int, srcIter: int, pick: set<int>, mode: Mode, refDetId: int, refIter: int,
                             judged: map<int, bool>, calls: nat)
    requires src in db.runs && Residuals(db, src, if srcIter < 0 then db.runs[src].iteration else srcIter, pick, judged)
    ensures var t := Outcome(db, Command.DefineByDetRun(src, srcIter, pick, mode, refDetId, refIter), calls);
      if calls >= 5
         && ((mode == Master && refDetId == 0 && refIter == -1) || (mode == Verify && refDetId != 0 && refIter != -1))
      then
        NewRun(db, t, mode, refDetId, refIter, judged)
      else t == db
  {
    var it := SourceIteration(db, src, srcIter);
    ResidualsAreInherited(db, src, it, pick, judged);
    var t := Outcome(db, Command.DefineByDetRun(src, srcIter, pick, mode, refDetId, refIter), calls);
    if RefsAllowed(mode, refDetId, refIter) && calls >= 5 {
      assert t == Define(db, mode, refDetId, refIter, judged);
      DefineEffect(db, mode, refDetId, refIter, judged);
    } else {
      assert t == db;
    }
  }

  lemma ResidualsAreInherited(db: Db, src: int, it: int, pick: set<int>, judged: map<int, bool>)
    requires Residuals(db, src, it, pick, judged)
    ensures Inherited(db, src, it, pick) == judged
  {
    var chosen := Inherited(db, src, it, pick);
    forall e
      ensures (e in chosen <==> e in judged) && (e in chosen ==> chosen[e] == judged[e])
    {
      InheritedAt(db, src, it, pick, e);
    }
  }

  /** -makecorrection */
  lemma MakeCorrectionEffect(db: Db, ref: int, refIter: int, calls: nat)
    ensures Outcome(db, Command.MakeCorrection(ref, refIter), calls) ==
      if calls >= 4 && ref in db.runs && db.runs[ref].iteration == refIter
      then db.(runs := db.runs[db.nextDet := DetRun(0, Correction, Running, ref, refIter)], nextDet := db.nextDet + 1)
      else db
  {
  }

  // ---------------------------------------------------------------- residuals and iterations

  /** -addresidexp: the exposure is an input of the current iteration of a running master or
      verify run and has no residual yet.  An iteration that is given must be the current one;
      one that is not given is taken to be 0, and must lack the residual as well. */
  lemma AddResidualEffect(db: Db, d: int, iteration: Option<int>, e: int, r: Resid, calls: nat)
    ensures var k := Key(d, if iteration.Some? then iteration.value else 0, e);
      Outcome(db, Command.AddResidual(d, iteration, e, r), calls) ==
      if && calls >= 2 && d in db.runs && db.runs[d].state == Running
         && (db.runs[d].mode == Master || db.runs[d].mode == Verify)
         && Key(d, db.runs[d].iteration, e) in db.inputs && Key(d, db.runs[d].iteration, e) !in db.resids
         && (iteration == None || iteration == Some(db.runs[d].iteration))
         && k in db.inputs && k !in db.resids
      then db.(resids := db.resids[k := r])
      else db
  {
  }

  /** The verdicts on the inputs of a run's current iteration, as far as there are any. */
  ghost predicate Verdict(db: Db, d: int, judged: map<int, bool>)
    requires d in db.runs
  {
    var now := db.runs[d].iteration;
    && (forall e :: e in judged <==> Key(d, now, e) in db.inputs && Key(d, now, e) in db.resids)
    && (forall e | e in judged :: judged[e] == db.resids[Key(d, now, e)].accept)
  }

  lemma RowsAreVerdicts(db: Db, d: int, judged: map<int, bool>)
    requires d in db.runs && Verdict(db, d, judged)
    ensures ResidualRows(db, d) ==
              if db.runs[d].state == Running && db.runs[d].mode == Master then judged else map[]
  {
    if db.runs[d].state == Running && db.runs[d].mode == Master {
      var rows, now := ResidualRows(db, d), db.runs[d].iteration;
      forall e
        ensures (e in rows <==> e in judged) && (e in rows ==> rows[e] == judged[e])
      {
        var k := Key(d, now, e);
        assert k in db.resids && k in db.inputs ==> k.exp in rows;
      }
      assert rows == judged;
    }
  }

  lemma IterateEffect(db: Db, d: int, chosen: map<int, bool>)
    requires d in db.runs
    ensures NextIteration(db, Iterate(db, d, chosen), d, chosen)
  {
    RunsIterate(db, d, chosen);
    forall k: Key {
      AddedInput(Increment(db, d), d, db.runs[d].iteration + 1, chosen, k);
    }
  }

  /** -again: a running master run moves on by one iteration if some input of the current one
      was judged; those become the inputs of the next, included as they were accepted. */
  lemma StartIterationEffect(db: Db, d: int, judged: map<int, bool>, calls: nat)
    requires Inv(db) && d in db.runs && Verdict(db, d, judged)
    ensures var t := Outcome(db, Command.StartIteration(d), calls);
      if judged != map[] && db.runs[d].state == Running && db.runs[d].mode == Master && calls >= |judged| + 5
      then NextIteration(db, t, d, judged)
      else t == db
  {
    RowsAreVerdicts(db, d, judged);
    assert Outcome(db, Command.StartIteration(d), calls) == Started(db, d, calls);
    StartedEffect(db, d, calls);
  }

  lemma StartedEffect(db: Db, d: int, calls: nat)
    requires Inv(db) && d in db.runs
    ensures var rows, t := ResidualRows(db, d), Started(db, d, calls);
      if rows != map[] && calls >= |rows| + 5 then NextIteration(db, t, d, rows) else t == db
  {
    var rows := ResidualRows(db, d);
    ReachableRunsIterate(db, d, rows);
    if rows != map[] && calls >= |rows| + 5 {
      assert Started(db, d, calls) == Iterate(db, d, rows);
      IterateEffect(db, d, rows);
    } else {
      assert Started(db, d, calls) == db;
    }
  }

  /** -rerun: the run moves on with the exposures asked for, if all of them are inputs of its
      iteration 0 and none is named twice. */
  lemma RedoEffect(db: Db, d: int, es: seq<int>, calls: nat)
    requires Inv(db) && d in db.runs
    ensures var t := Outcome(db, Command.Redo(d, es), calls);
      if && es != [] && (forall i, j | 0 <= i < j < |es| :: es[i] != es[j])
         && (forall e | e in es :: Key(d, 0, e) in db.inputs) && calls >= |es| + 5
      then
        NextIteration(db, t, d, map e | e in es :: true)
      else t == db
  {
    assert All(es) == map e | e in es :: true;
    ReachableRunsIterate(db, d, All(es));
    var t := Outcome(db, Command.Redo(d, es), calls);
    if CanRerun(db, d, es) && calls >= |es| + 5 {
      assert t == Iterate(db, d, All(es));
      IterateEffect(db, d, All(es));
    } else {
      assert t == db;
    }
  }

  /** A run that is not there is not changed by any command, nor is anything else. */
  lemma UnknownRun(db: Db, c: Command, calls: nat)
    requires match c
             case DefineByDetRun(d, _, _, _, _, _) => d !in db.runs
             case StartIteration(d) => d !in db.runs
             case Redo(d, _) => d !in db.runs
             case Summarise(d, _, _, _) => d !in db.runs
             case _ => false
    ensures Outcome(db, c, calls) == db
  {
  }

  // ---------------------------------------------------------------- summaries

  /** A running run all of whose current inputs, at least one, have a residual, and whose
      current iteration, the only one that may be asked for, has no summary. */
  ghost predicate Summarisable(db: Db, d: int, iteration: Option<int>, judged: map<int, bool>)
    requires d in db.runs
  {
    var now := db.runs[d].iteration;
    && judged != map[] && db.runs[d].state == Running
    && (forall e :: Key(d, now, e) in db.inputs ==> e in judged)
    && (iteration == None || iteration == Some(now)) && (d, now) !in db.summaries
  }

  /** -adddetrunsummary without -again stops the run and inserts the summary. */
  lemma ClosingSummaryEffect(db: Db, d: int, iteration: Option<int>, s: Summary, judged: map<int, bool>, calls: nat)
    requires d in db.runs && Verdict(db, d, judged)
    ensures Outcome(db, Command.Summarise(d, iteration, false, s), calls) ==
      if Summarisable(db, d, iteration, judged) && calls >= 5
      then db.(runs := db.runs[d := db.runs[d].(state := Stopped)],
               summaries := db.summaries[(d, db.runs[d].iteration) := s])
      else db
  {
    SummaryConditions(db, d, iteration, judged);
  }

  /** With -again a master run goes on running: the summary is inserted, and from
      |judged| + 8 calls on the run has moved on to the next iteration. */
  lemma AgainSummaryEffect(db: Db, d: int, iteration: Option<int>, s: Summary, judged: map<int, bool>, calls: nat)
    requires Inv(db) && d in db.runs && Verdict(db, d, judged)
    ensures var t := Outcome(db, Command.Summarise(d, iteration, true, s), calls);
      var u := db.(summaries := db.summaries[(d, db.runs[d].iteration) := s]);
      if Summarisable(db, d, iteration, judged) && calls >= 5 && db.runs[d].mode == Master
      then if calls < |judged| + 8 then t == u else NextIteration(u, t, d, judged)
      else t == db
  {
    SummaryConditions(db, d, iteration, judged);
    RowsAreVerdicts(db, d, judged);
    var t := Outcome(db, Command.Summarise(d, iteration, true, s), calls);
    if Summarisable(db, d, iteration, judged) && calls >= 5 && db.runs[d].mode == Master {
      assert t == Started(InsertSummary(db, d, s), d, calls - 3);
      StartedAfterSummary(db, d, s, judged, calls - 3);
    } else {
      assert t == db;
    }
  }

  lemma StartedAfterSummary(db: Db, d: int, s: Summary, judged: map<int, bool>, calls: nat)
    requires Inv(db) && d in db.runs && Verdict(db, d, judged)
    requires judged != map[] && db.runs[d].state == Running && db.runs[d].mode == Master
    ensures var u := db.(summaries := db.summaries[(d, db.runs[d].iteration) := s]);
      if calls >= |judged| + 5 then NextIteration(u, Started(InsertSummary(db, d, s), d, calls), d, judged)
      else Started(InsertSummary(db, d, s), d, calls) == u
  {
    var u := InsertSummary(db, d, s);
    TablesKeepInv(db, u);
    RowsAreVerdicts(db, d, judged);
    SummaryLeavesRows(db, d, s);
    StartedEffect(u, d, calls);
  }

  lemma SummaryConditions(db: Db, d: int, iteration: Option<int>, judged: map<int, bool>)
    requires d in db.runs && Verdict(db, d, judged)
    ensures Summarisable(db, d, iteration, judged) <==> Chosen(db, d, iteration) && CanSummarise(db, d)
  {
    var now := db.runs[d].iteration;
    if judged != map[] {
      NonEmpty(judged.Keys);
      var e :| e in judged.Keys;
      assert Key(d, now, e) in db.resids;
    }
    if k :| k in db.resids && k in db.inputs && k.det == d && k.iteration == now {
      assert k == Key(d, now, k.exp) && k.exp in judged;
    }
    forall k | k in db.inputs && k.det == d && k.iteration == now
      ensures k == Key(d, now, k.exp)
    {
    }
  }

  /** The command succeeds in full with five calls or, with -again, |judged| + 9: the outer
      transaction is committed a second time. */
  lemma FinishesExactly(db: Db, d: int, again: bool, judged: map<int, bool>, calls: nat)
    requires Inv(db) && d in db.runs && db.runs[d].state == Running && Verdict(db, d, judged)
    ensures Finishes(db, d, again, calls) <==>
              if again then db.runs[d].mode == Master && judged != map[] && calls >= |judged| + 9 else calls >= 5
  {
    RowsAreVerdicts(db, d, judged);
    ReachableRunsIterate(db, d, judged);
  }
}
