/** What one detrend command commits, for every number of database calls that succeed, and
    what holds over every history of commands. */
module DetrendHistory {
  import opened Detrend
  import opened Wrappers

  datatype Command =
    | DefineByExposures(mode: Mode, refDetId: int, refIter: int, exposures: seq<int>)
    | DefineByDetRun(source: int, sourceIter: int, pick: set<int>, newMode: Mode, newRefDetId: int, newRefIter: int)
    | AddResidual(det: int, iteration: Option<int>, exposure: int, resid: Resid)
    | StartIteration(det: int)
    | Redo(det: int, exposures: seq<int>)
    | Summarise(det: int, iteration: Option<int>, again: bool, summary: Summary)
    | MakeCorrection(det: int, corrected: int)

  /** The committed data after a command whose first `calls` database calls succeed. */
  function Outcome(db: Db, c: Command, calls: nat): Db {
    match c
    case DefineByExposures(mode, refDet, refIter, es) =>
      if RefsAllowed(mode, refDet, refIter) && calls >= |es| + 4
      then Define(db, mode, refDet, refIter, All(es)) else db
    case DefineByDetRun(src, it, pick, mode, refDet, refIter) =>
      if RefsAllowed(mode, refDet, refIter) && src in db.runs && calls >= 5
      then Define(db, mode, refDet, refIter, Inherited(db, src, SourceIteration(db, src, it), pick)) else db
    case AddResidual(d, it, e, r) =>
      if CanAddResid(db, d, it, e) && calls >= 2 then AddResid(db, ResidKey(d, it, e), r) else db
    case StartIteration(d) => Started(db, d, calls)
    case Redo(d, es) =>
      if CanIterate(db, d, All(es)) && calls >= |es| + 5 then Rerun(db, d, es) else db
    case Summarise(d, it, again, s) => if Chosen(db, d, it) then Summarised(db, d, again, s, calls) else db
    case MakeCorrection(ref, it) => if calls >= 4 then Correct(db, ref, it) else db
  }

  /** A negative iteration means the run's current one. */
  function SourceIteration(db: Db, src: int, it: int): int
    requires src in db.runs
  {
    if it < 0 then db.runs[src].iteration else it
  }

  function Started(db: Db, d: int, calls: nat): Db {
    if CanIterate(db, d, ResidualRows(db, d)) && calls >= |ResidualRows(db, d)| + 5 then Again(db, d) else db
  }

  predicate Chosen(db: Db, d: int, iteration: Option<int>) {
    Completed(db, d) && (iteration.Some? ==> iteration.value == db.runs[d].iteration)
  }

  /** With `-again` the iteration is started inside the transaction of the summary, but
      starting it begins a transaction too, which commits the summary: from the fifth call
      on the summary is there, whatever becomes of the new iteration. */
  function Summarised(db: Db, d: int, again: bool, s: Summary, calls: nat): Db {
    if !CanSummarise(db, d) || calls < 5 then db
    else if !again then SetState(InsertSummary(db, d, s), d, Stopped)
    else if ResidualRows(db, d) == map[] then db
    else Started(InsertSummary(db, d, s), d, calls - 3)
  }

  // ---------------------------------------------------------------- histories

  lemma SummarisedKeepsInv(db: Db, d: int, again: bool, s: Summary, calls: nat)
    requires Inv(db)
    ensures Inv(Summarised(db, d, again, s, calls))
  {
    var t := InsertSummary(db, d, s);
    TablesKeepInv(db, t);
    if again {
      AgainKeepsInv(t, d);
    } else {
      SetStateKeepsInv(t, d, Stopped);
    }
  }

  /** The invariant holds afterwards, and nothing was lost. */
  ghost predicate Sound(db: Db, t: Db) {
    Inv(t) && Grows(db, t)
  }

  lemma OutcomeIsSound(db: Db, c: Command, calls: nat)
    requires Inv(db)
    ensures Sound(db, Outcome(db, c, calls))
  {
    match c
    case DefineByExposures(_, _, _, _) => DefineByExposuresIsSound(db, c, calls);
    case DefineByDetRun(_, _, _, _, _, _) => DefineByDetRunIsSound(db, c, calls);
    case AddResidual(_, _, _, _) => AddResidualIsSound(db, c, calls);
    case StartIteration(d) => StartedIsSound(db, d, calls);
    case Redo(_, _) => RedoIsSound(db, c, calls);
    case Summarise(_, _, _, _) => SummariseIsSound(db, c, calls);
    case MakeCorrection(_, _) => MakeCorrectionIsSound(db, c, calls);
  }

  lemma DefineByExposuresIsSound(db: Db, c: Command, calls: nat)
    requires Inv(db) && c.DefineByExposures?
    ensures Sound(db, Outcome(db, c, calls))
  {
    GrowsItself(db);
    if RefsAllowed(c.mode, c.refDetId, c.refIter) {
      DefineKeepsInv(db, c.mode, c.refDetId, c.refIter, All(c.exposures));
      DefineGrows(db, c.mode, c.refDetId, c.refIter, All(c.exposures));
    }
  }

  lemma DefineByDetRunIsSound(db: Db, c: Command, calls: nat)
    requires Inv(db) && c.DefineByDetRun?
    ensures Sound(db, Outcome(db, c, calls))
  {
    GrowsItself(db);
    if RefsAllowed(c.newMode, c.newRefDetId, c.newRefIter) && c.source in db.runs {
      var chosen := Inherited(db, c.source, SourceIteration(db, c.source, c.sourceIter), c.pick);
      DefineKeepsInv(db, c.newMode, c.newRefDetId, c.newRefIter, chosen);
      DefineGrows(db, c.newMode, c.newRefDetId, c.newRefIter, chosen);
    }
  }

  lemma AddResidualIsSound(db: Db, c: Command, calls: nat)
    requires Inv(db) && c.AddResidual?
    ensures Sound(db, Outcome(db, c, calls))
  {
    GrowsItself(db);
    if CanAddResid(db, c.det, c.iteration, c.exposure) {
      var k := ResidKey(c.det, c.iteration, c.exposure);
      TablesKeepInv(db, AddResid(db, k, c.resid));
      AddResidGrows(db, k, c.resid);
    }
  }

  lemma StartedIsSound(db: Db, d: int, calls: nat)
    requires Inv(db)
    ensures Sound(db, Started(db, d, calls))
  {
    GrowsItself(db);
    AgainKeepsInv(db, d);
    IterateGrows(db, d, ResidualRows(db, d));
  }

  lemma RedoIsSound(db: Db, c: Command, calls: nat)
    requires Inv(db) && c.Redo?
    ensures Sound(db, Outcome(db, c, calls))
  {
    GrowsItself(db);
    RerunKeepsInv(db, c.det, c.exposures);
    IterateGrows(db, c.det, All(c.exposures));
  }

  lemma SummariseIsSound(db: Db, c: Command, calls: nat)
    requires Inv(db) && c.Summarise?
    ensures Sound(db, Outcome(db, c, calls))
  {
    GrowsItself(db);
    SummarisedKeepsInv(db, c.det, c.again, c.summary, calls);
    SummarisedGrows(db, c.det, c.again, c.summary, calls);
  }

  lemma MakeCorrectionIsSound(db: Db, c: Command, calls: nat)
    requires Inv(db) && c.MakeCorrection?
    ensures Sound(db, Outcome(db, c, calls))
  {
    GrowsItself(db);
    CorrectKeepsInv(db, c.det, c.corrected);
    CorrectGrows(db, c.det, c.corrected);
  }

  function Run(db: Db, history: seq<(Command, nat)>): Db
    decreases |history|
  {
    if history == [] then db
    else Run(Outcome(db, history[0].0, history[0].1), history[1..])
  }

  /** Over every history, whatever fails: each input names a run, an iteration that run has
      reached and an exposure of its iteration 0; each correction run refers to an older
      run, at an iteration it has reached. */
  lemma {:induction false} HistoryKeepsInv(db: Db, history: seq<(Command, nat)>)
    requires Inv(db)
    ensures Inv(Run(db, history))
    decreases |history|
  {
    if history != [] {
      OutcomeIsSound(db, history[0].0, history[0].1);
      HistoryKeepsInv(Outcome(db, history[0].0, history[0].1), history[1..]);
    }
  }

  /** A run only moves forward, keeps its mode and its reference, and never loses an input. */
  ghost predicate Grows(s: Db, t: Db) {
    && (forall d | d in s.runs :: d in t.runs && s.runs[d].iteration <= t.runs[d].iteration
          && t.runs[d].(iteration := s.runs[d].iteration, state := s.runs[d].state) == s.runs[d])
    && (forall k | k in s.inputs :: Included(t, k) == Included(s, k))
  }

  lemma GrowsItself(db: Db)
    ensures Grows(db, db)
  {
  }

  lemma AddResidGrows(db: Db, k: Key, r: Resid)
    ensures Grows(db, AddResid(db, k, r))
  {
  }

  lemma CorrectGrows(db: Db, ref: int, iteration: int)
    requires Inv(db)
    ensures Grows(db, Correct(db, ref, iteration))
  {
    assert forall d | d in db.runs :: RunOk(db, d);
  }

  lemma SetStateGrows(db: Db, d: int, state: RunState)
    ensures Grows(db, SetState(db, d, state))
  {
  }

  lemma SummarisedGrows(db: Db, d: int, again: bool, s: Summary, calls: nat)
    requires Inv(db)
    ensures Grows(db, Summarised(db, d, again, s, calls))
  {
    var u := InsertSummary(db, d, s);
    if !CanSummarise(db, d) || calls < 5 || (again && ResidualRows(db, d) == map[]) {
      GrowsItself(db);
    } else if again {
      TablesKeepInv(db, u);
      InsertSummaryGrows(db, d, s);
      StartedIsSound(u, d, calls - 3);
      GrowthAdds(db, u, Started(u, d, calls - 3));
    } else {
      InsertSummaryGrows(db, d, s);
      SetStateGrows(u, d, Stopped);
      GrowthAdds(db, u, SetState(u, d, Stopped));
    }
  }

  lemma InsertSummaryGrows(db: Db, d: int, s: Summary)
    ensures Grows(db, InsertSummary(db, d, s))
  {
  }

  lemma GrowthAdds(s: Db, t: Db, u: Db)
    requires Grows(s, t) && Grows(t, u)
    ensures Grows(s, u)
  {
  }

  lemma DefineGrows(db: Db, mode: Mode, refDetId: int, refIter: int, chosen: map<int, bool>)
    requires Inv(db)
    ensures Grows(db, Define(db, mode, refDetId, refIter, chosen))
  {
    var u := InsertRun(db, DetRun(0, mode, Running, refDetId, refIter));
    assert forall d | d in db.runs :: RunOk(db, d);
    forall k | k in db.inputs
      ensures Included(AddInputs(u, db.nextDet, 0, chosen), k) == Included(db, k)
    {
      assert InputOk(db, k);
      AddedInput(u, db.nextDet, 0, chosen, k);
    }
  }

  lemma IterateGrows(db: Db, d: int, chosen: map<int, bool>)
    requires Inv(db)
    ensures Grows(db, Iterate(db, d, chosen))
  {
    if d in db.runs {
      forall k | k in db.inputs
        ensures Included(Iterate(db, d, chosen), k) == Included(db, k)
      {
        assert InputOk(db, k);
        IterateKeepsOthers(db, d, chosen, k);
      }
      RunsIterate(db, d, chosen);
    }
  }

  lemma RunsIterate(db: Db, d: int, chosen: map<int, bool>)
    requires d in db.runs
    ensures Iterate(db, d, chosen).runs == db.runs[d := db.runs[d].(iteration := db.runs[d].iteration + 1)]
  {
  }

  /** Runs, references and inputs survive every history. */
  lemma {:induction false} HistoryGrows(db: Db, history: seq<(Command, nat)>)
    requires Inv(db)
    ensures Grows(db, Run(db, history))
    decreases |history|
  {
    if history != [] {
      var t := Outcome(db, history[0].0, history[0].1);
      OutcomeIsSound(db, history[0].0, history[0].1);
      HistoryGrows(t, history[1..]);
    }
  }

  /** So the run at the end of a chain of corrections never changes. */
  lemma {:induction false} RootIsStable(db: Db, history: seq<(Command, nat)>, d: int)
    requires Inv(db) && d in db.runs
    ensures Inv(Run(db, history)) && d in Run(db, history).runs
    ensures Root(Run(db, history), d) == Root(db, d)
    decreases d
  {
    HistoryKeepsInv(db, history);
    HistoryGrows(db, history);
    assert RunOk(db, d);
    if db.runs[d].mode == Correction {
      RootIsStable(db, history, db.runs[d].refDetId);
    }
  }

  // ---------------------------------------------------------------- all or nothing

  ghost predicate AllOrNothing(db: Db, d: int, again: bool, s: Summary, full: Db) {
    forall calls: nat :: Summarised(db, d, again, s, calls) == db || Summarised(db, d, again, s, calls) == full
  }

  lemma ThreeOutcomes(db: Db, d: int, s: Summary)
    requires CanSummarise(db, d) && ResidualRows(db, d) != map[]
    ensures var t := InsertSummary(db, d, s); db != t && db != Again(t, d) && t != Again(t, d)
  {
    var t := InsertSummary(db, d, s);
    assert (d, db.runs[d].iteration) in t.summaries && (d, db.runs[d].iteration) !in db.summaries;
    assert Again(t, d).runs[d].iteration == t.runs[d].iteration + 1;
  }

  /** A summary that closes a run is all-or-nothing at every failure point.  One that
      starts a new iteration is so exactly if there is nothing to iterate on. */
  lemma SummaryAllOrNothingExactly(db: Db, d: int, again: bool, s: Summary)
    requires Inv(db) && CanSummarise(db, d)
    ensures (exists full :: AllOrNothing(db, d, again, s, full))
            <==> !again || ResidualRows(db, d) == map[]
  {
    if !again || ResidualRows(db, d) == map[] {
      assert AllOrNothing(db, d, again, s, Summarised(db, d, again, s, 5));
    } else {
      var t, n := InsertSummary(db, d, s), |ResidualRows(db, d)|;
      TablesKeepInv(db, t);
      ReachableRunsIterate(t, d, ResidualRows(t, d));
      assert Summarised(db, d, again, s, 5) == t;
      assert Summarised(db, d, again, s, 8 + n) == Again(t, d);
      ThreeOutcomes(db, d, s);
    }
  }
}
