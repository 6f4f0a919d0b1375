/** The detrend tables: runs with an iteration counter, the exposures that go into each
    iteration, their residuals, and the summaries that close an iteration. */
module Detrend {
  import opened Wrappers

  datatype Mode = Master | Verify | Correction | Register
  datatype RunState = Running | Stopped | OtherState(name: string)

  datatype DetRun = DetRun(iteration: int, mode: Mode, state: RunState, refDetId: int, refIter: int)
  datatype Key = Key(det: int, iteration: int, exp: int)
  datatype Resid = Resid(accept: bool, fault: int)
  datatype Summary = Summary(accept: bool, fault: int)

  datatype Db = Db(runs: map<int, DetRun>, nextDet: int,
                   inputs: map<Key, bool>, resids: map<Key, Resid>,
                   summaries: map<(int, int), Summary>)

  // ---------------------------------------------------------------- steps

  function AddInputs(db: Db, d: int, it: int, chosen: map<int, bool>): Db {
    db.(inputs := db.inputs + (map e | e in chosen :: Key(d, it, e) := chosen[e]))
  }

  function InsertRun(db: Db, run: DetRun): Db {
    db.(runs := db.runs[db.nextDet := run], nextDet := db.nextDet + 1)
  }

  /** A new run starts at iteration 0. */
  function Define(db: Db, mode: Mode, refDetId: int, refIter: int, chosen: map<int, bool>): Db {
    AddInputs(InsertRun(db, DetRun(0, mode, Running, refDetId, refIter)), db.nextDet, 0, chosen)
  }

  /** Only verify runs may name a reference, and they must. */
  predicate RefsAllowed(mode: Mode, refDetId: int, refIter: int) {
    match mode
    case Master => refDetId == 0 && refIter == -1
    case Verify => refDetId != 0 && refIter != -1
    case _ => false
  }

  /** The inputs that a new run takes over from the residuals of an older one. */
  function Inherited(db: Db, src: int, it: int, pick: set<int>): map<int, bool> {
    map k | k in db.resids && k.det == src && k.iteration == it && k.exp in pick :: k.exp := db.resids[k].accept
  }

  /** Without an -iteration option the search is not restricted, but the residual goes to
      iteration 0. */
  predicate CanAddResid(db: Db, d: int, iteration: Option<int>, e: int) {
    && d in db.runs && db.runs[d].state == Running
    && (db.runs[d].mode == Master || db.runs[d].mode == Verify)
    && var now, k := Key(d, db.runs[d].iteration, e), ResidKey(d, iteration, e);
       && now in db.inputs && now !in db.resids
       && (iteration.Some? ==> iteration.value == db.runs[d].iteration)
       && k in db.inputs && k !in db.resids
  }

  function ResidKey(d: int, iteration: Option<int>, e: int): Key {
    Key(d, if iteration.Some? then iteration.value else 0, e)
  }

  function AddResid(db: Db, k: Key, r: Resid): Db {
    db.(resids := db.resids[k := r])
  }

  /** The answer of the query that starts an iteration: the inputs of the run's current
      iteration that have a residual, with its verdict. */
  function ResidualRows(db: Db, d: int): map<int, bool> {
    if d !in db.runs || db.runs[d].state != Running || db.runs[d].mode != Master then map[]
    else map k | k in db.resids && k in db.inputs && k.det == d && k.iteration == db.runs[d].iteration
           :: k.exp := db.resids[k].accept
  }

  function Increment(db: Db, d: int): Db {
    if d !in db.runs then db
    else db.(runs := db.runs[d := db.runs[d].(iteration := db.runs[d].iteration + 1)])
  }

  /** The iteration counter goes up and the chosen exposures become the new inputs. */
  function Iterate(db: Db, d: int, chosen: map<int, bool>): Db {
    if d !in db.runs then db
    else AddInputs(Increment(db, d), d, db.runs[d].iteration + 1, chosen)
  }

  /** The counter does not become zero, which reads as a failure, and no new input collides
      with an old one. */
  predicate CanIterate(db: Db, d: int, chosen: map<int, bool>) {
    && d in db.runs && db.runs[d].iteration != -1
    && forall e | e in chosen :: Key(d, db.runs[d].iteration + 1, e) !in db.inputs
  }

  /** `-again` */
  function Again(db: Db, d: int): Db {
    if ResidualRows(db, d) == map[] then db else Iterate(db, d, ResidualRows(db, d))
  }

  /** `-rerun`: distinct exposures of iteration 0, all of them included. */
  predicate CanRerun(db: Db, d: int, es: seq<int>) {
    && es != [] && (forall e | e in es :: Key(d, 0, e) in db.inputs)
    && (forall i, j | 0 <= i < j < |es| :: es[i] != es[j])
  }

  function All(es: seq<int>): map<int, bool> {
    map e | e in es :: true
  }

  function Rerun(db: Db, d: int, es: seq<int>): Db {
    if CanRerun(db, d, es) then Iterate(db, d, All(es)) else db
  }

  /** Every input of the current iteration has its residual. */
  predicate Completed(db: Db, d: int) {
    && d in db.runs && db.runs[d].state == Running
    && forall k | k in db.inputs && k.det == d && k.iteration == db.runs[d].iteration :: k in db.resids
  }

  /** A summary can be inserted: there is none yet for the iteration, and the foreign keys
      find an input and a residual. */
  predicate CanSummarise(db: Db, d: int) {
    && d in db.runs && (d, db.runs[d].iteration) !in db.summaries
    && exists k | k in db.resids :: k in db.inputs && k.det == d && k.iteration == db.runs[d].iteration
  }

  function InsertSummary(db: Db, d: int, s: Summary): Db {
    if d !in db.runs then db else db.(summaries := db.summaries[(d, db.runs[d].iteration) := s])
  }

  function SetState(db: Db, d: int, state: RunState): Db {
    if d !in db.runs then db else db.(runs := db.runs[d := db.runs[d].(state := state)])
  }

  /** A correction run refers to a run at its current iteration. */
  function Correct(db: Db, ref: int, iteration: int): Db {
    if ref !in db.runs || db.runs[ref].iteration != iteration then db
    else InsertRun(db, DetRun(0, Correction, Running, ref, iteration))
  }

  // ---------------------------------------------------------------- invariant

  ghost predicate InputOk(db: Db, k: Key) {
    && k.det in db.runs
    && 0 <= k.iteration <= db.runs[k.det].iteration
    && Key(k.det, 0, k.exp) in db.inputs
  }

  ghost predicate RunOk(db: Db, d: int)
    requires d in db.runs
  {
    && db.runs[d].iteration >= 0 && 0 < d < db.nextDet
    && (db.runs[d].mode == Correction ==>
          && db.runs[d].refDetId < d && db.runs[d].refDetId in db.runs
          && db.runs[d].refIter <= db.runs[db.runs[d].refDetId].iteration)
  }

  /** Every input names a run, an iteration it has reached, and an exposure of iteration 0;
      every residual belongs to an input; every correction run refers to an older run, at an iteration it has reached. */
  ghost predicate Inv(db: Db) {
    && db.nextDet > 0
    && (forall k | k in db.inputs :: InputOk(db, k))
    && (forall k | k in db.resids :: k in db.inputs)
    && (forall d | d in db.runs :: RunOk(db, d))
  }

  lemma EmptyTablesAreFine(next: int)
    requires next > 0
    ensures Inv(Db(map[], next, map[], map[], map[]))
  {
  }

  /** Following the references of correction runs ends at a run of another kind. */
  ghost function Root(db: Db, d: int): (r: int)
    requires Inv(db) && d in db.runs
    ensures r in db.runs && db.runs[r].mode != Correction
    ensures r <= d && (r == d <==> db.runs[d].mode != Correction)
    decreases d
  {
    assert RunOk(db, d);
    if db.runs[d].mode == Correction then Root(db, db.runs[d].refDetId) else d
  }

  // ---------------------------------------------------------------- steps keep it

  lemma DefineKeepsInv(db: Db, mode: Mode, refDetId: int, refIter: int, chosen: map<int, bool>)
    requires Inv(db) && mode != Correction
    ensures Inv(Define(db, mode, refDetId, refIter, chosen))
  {
    var t := Define(db, mode, refDetId, refIter, chosen);
    forall k | k in t.inputs
      ensures InputOk(t, k)
    {
      if k in db.inputs {
        assert InputOk(db, k);
      }
    }
    assert forall d | d in db.runs :: RunOk(db, d);
  }

  /** The next iteration of a run, from exposures of its iteration 0. */
  lemma IterateKeepsInv(db: Db, d: int, chosen: map<int, bool>)
    requires Inv(db) && d in db.runs
    requires forall e | e in chosen :: Key(d, 0, e) in db.inputs
    ensures Inv(Iterate(db, d, chosen))
  {
    var t := Iterate(db, d, chosen);
    forall k | k in t.inputs
      ensures InputOk(t, k)
    {
      IteratedInputOk(db, d, chosen, k);
    }
    forall k | k in t.resids
      ensures k in t.inputs
    {
      AddedInput(Increment(db, d), d, db.runs[d].iteration + 1, chosen, k);
    }
    IteratedRunsOk(db, d, chosen);
  }

  lemma IteratedInputOk(db: Db, d: int, chosen: map<int, bool>, k: Key)
    requires Inv(db) && d in db.runs && k in Iterate(db, d, chosen).inputs
    requires forall e | e in chosen :: Key(d, 0, e) in db.inputs
    ensures InputOk(Iterate(db, d, chosen), k)
  {
    var u, it := Increment(db, d), db.runs[d].iteration + 1;
    assert RunOk(db, d);
    assert k in db.inputs ==> InputOk(db, k);
    AddedInput(u, d, it, chosen, k);
    AddedInput(u, d, it, chosen, Key(k.det, 0, k.exp));
  }

  lemma IteratedRunsOk(db: Db, d: int, chosen: map<int, bool>)
    requires Inv(db) && d in db.runs
    ensures var t := Iterate(db, d, chosen); t.nextDet > 0 && forall c | c in t.runs :: RunOk(t, c)
  {
    assert forall c | c in db.runs :: RunOk(db, c);
  }

  lemma AgainKeepsInv(db: Db, d: int)
    requires Inv(db)
    ensures Inv(Again(db, d))
  {
    var chosen := ResidualRows(db, d);
    if chosen != map[] {
      forall e | e in chosen
        ensures Key(d, 0, e) in db.inputs
      {
        assert InputOk(db, Key(d, db.runs[d].iteration, e));
      }
      IterateKeepsInv(db, d, chosen);
    }
  }

  lemma RerunKeepsInv(db: Db, d: int, es: seq<int>)
    requires Inv(db)
    ensures Inv(Rerun(db, d, es))
  {
    if CanRerun(db, d, es) && d in db.runs {
      IterateKeepsInv(db, d, All(es));
    }
  }

  /** Reachable iterations are never negative and have no inputs ahead of them, so the
      counter's zero result never hides a success and no new input collides. */
  lemma ReachableRunsIterate(db: Db, d: int, chosen: map<int, bool>)
    requires Inv(db) && d in db.runs
    ensures CanIterate(db, d, chosen) && Increment(db, d).runs[d].iteration != 0
  {
    assert RunOk(db, d);
    assert forall k | k in db.inputs :: InputOk(db, k);
  }

  lemma CorrectKeepsInv(db: Db, ref: int, iteration: int)
    requires Inv(db)
    ensures Inv(Correct(db, ref, iteration))
  {
    var t := Correct(db, ref, iteration);
    assert forall k | k in t.inputs :: InputOk(db, k);
    assert forall d | d in db.runs :: RunOk(db, d);
  }

  lemma SetStateKeepsInv(db: Db, d: int, state: RunState)
    requires Inv(db)
    ensures Inv(SetState(db, d, state))
  {
    var t := SetState(db, d, state);
    forall k | k in t.inputs
      ensures InputOk(t, k)
    {
      assert InputOk(db, k);
    }
    forall c | c in t.runs
      ensures RunOk(t, c)
    {
      assert RunOk(db, c);
    }
  }

  lemma TablesKeepInv(db: Db, t: Db)
    requires Inv(db) && t.runs == db.runs && t.nextDet == db.nextDet && t.inputs == db.inputs
    requires forall k | k in t.resids :: k in t.inputs
    ensures Inv(t)
  {
    assert forall k | k in t.inputs :: InputOk(db, k);
    assert forall d | d in t.runs :: RunOk(db, d);
  }

  // ---------------------------------------------------------------- iterating is conservative

  /** Whether an exposure is an input of an iteration, and if so whether it is used. */
  function Included(db: Db, k: Key): Option<bool> {
    if k in db.inputs then Some(db.inputs[k]) else None
  }

  /** The verdict of the residual of an input. */
  function Judged(db: Db, k: Key): Option<bool> {
    if k in db.inputs && k in db.resids then Some(db.resids[k].accept) else None
  }

  /** One run moved on by one iteration; every other run, every residual, every summary and
      every input of the older iterations and of other runs is as it was. */
  ghost predicate MovedOn(db: Db, d: int, t: Db)
    requires d in db.runs
  {
    var next := db.runs[d].iteration + 1;
    && t.runs == db.runs[d := db.runs[d].(iteration := next)]
    && t.nextDet == db.nextDet && t.resids == db.resids && t.summaries == db.summaries
    && forall k: Key :: (k.det == d && k.iteration == next) || Included(t, k) == Included(db, k)
  }

  lemma AddedInput(db: Db, d: int, it: int, chosen: map<int, bool>, k: Key)
    ensures Included(AddInputs(db, d, it, chosen), k)
            == if k.det == d && k.iteration == it && k.exp in chosen then Some(chosen[k.exp]) else Included(db, k)
  {
  }

  lemma IterateAdds(db: Db, d: int, chosen: map<int, bool>, e: int)
    requires Inv(db) && d in db.runs
    ensures Included(Iterate(db, d, chosen), Key(d, db.runs[d].iteration + 1, e))
            == if e in chosen then Some(chosen[e]) else None
  {
    var k := Key(d, db.runs[d].iteration + 1, e);
    AddedInput(Increment(db, d), d, db.runs[d].iteration + 1, chosen, k);
    assert k in db.inputs ==> InputOk(db, k);
  }

  lemma IterateKeepsOthers(db: Db, d: int, chosen: map<int, bool>, k: Key)
    requires d in db.runs
    ensures (k.det == d && k.iteration == db.runs[d].iteration + 1)
            || Included(Iterate(db, d, chosen), k) == Included(db, k)
  {
    AddedInput(Increment(db, d), d, db.runs[d].iteration + 1, chosen, k);
  }

  lemma IterateMovesOn(db: Db, d: int, chosen: map<int, bool>)
    requires d in db.runs
    ensures MovedOn(db, d, Iterate(db, d, chosen))
  {
    forall k: Key {
      IterateKeepsOthers(db, d, chosen, k);
    }
  }

  /** `-again` moves the run on by one iteration, whose inputs are the residuals of the
      iteration that ends, each included exactly if it was accepted. */
  lemma AgainIsConservative(db: Db, d: int)
    requires Inv(db) && ResidualRows(db, d) != map[]
    ensures MovedOn(db, d, Again(db, d))
    ensures forall e :: Included(Again(db, d), Key(d, db.runs[d].iteration + 1, e))
                        == Judged(db, Key(d, db.runs[d].iteration, e))
  {
    var rows := ResidualRows(db, d);
    IterateMovesOn(db, d, rows);
    forall e
      ensures Included(Again(db, d), Key(d, db.runs[d].iteration + 1, e)) == Judged(db, Key(d, db.runs[d].iteration, e))
    {
      RowsAreResiduals(db, d, e);
      IterateAdds(db, d, rows, e);
    }
  }

  lemma RowsAreResiduals(db: Db, d: int, e: int)
    requires ResidualRows(db, d) != map[]
    ensures Judged(db, Key(d, db.runs[d].iteration, e))
            == if e in ResidualRows(db, d) then Some(ResidualRows(db, d)[e]) else None
  {
  }

  /** A rerun moves the run on with the exposures that were asked for. */
  lemma RerunIsConservative(db: Db, d: int, es: seq<int>)
    requires Inv(db) && d in db.runs && CanRerun(db, d, es)
    ensures MovedOn(db, d, Rerun(db, d, es))
    ensures forall e :: Included(Rerun(db, d, es), Key(d, db.runs[d].iteration + 1, e))
                        == if e in es then Some(true) else None
  {
    IterateMovesOn(db, d, All(es));
    forall e
      ensures Included(Rerun(db, d, es), Key(d, db.runs[d].iteration + 1, e)) == if e in es then Some(true) else None
    {
      IterateAdds(db, d, All(es), e);
    }
  }

  /** A run defined from another starts with exactly the inputs of the chosen iteration that
      have a residual and pass the filter, each included exactly if it was accepted. */
  lemma DefinedFromResiduals(db: Db, mode: Mode, refDetId: int, refIter: int, src: int, it: int, pick: set<int>, e: int)
    requires Inv(db)
    ensures Included(Define(db, mode, refDetId, refIter, Inherited(db, src, it, pick)), Key(db.nextDet, 0, e))
            == if e in pick then Judged(db, Key(src, it, e)) else None
  {
    var k, chosen := Key(db.nextDet, 0, e), Inherited(db, src, it, pick);
    AddedInput(InsertRun(db, DetRun(0, mode, Running, refDetId, refIter)), db.nextDet, 0, chosen, k);
    assert k in db.inputs ==> InputOk(db, k);
    assert forall d | d in db.runs :: RunOk(db, d);
    InheritedAt(db, src, it, pick, e);
  }

  lemma InheritedAt(db: Db, src: int, it: int, pick: set<int>, e: int)
    ensures var chosen, k := Inherited(db, src, it, pick), Key(src, it, e);
      (e in chosen <==> e in pick && k in db.resids) && (e in chosen ==> chosen[e] == db.resids[k].accept)
  {
    var k := Key(src, it, e);
    assert k in db.resids && e in pick ==> k.exp in Inherited(db, src, it, pick);
  }

  /** So a run defined without a filter from the current iteration of another starts with
      the inputs that `-again` would give the other's next iteration. */
  lemma DefineMatchesAgain(db: Db, mode: Mode, refDetId: int, refIter: int, src: int, pick: set<int>, e: int)
    requires Inv(db) && ResidualRows(db, src) != map[] && e in pick
    ensures var it := db.runs[src].iteration;
      Included(Define(db, mode, refDetId, refIter, Inherited(db, src, it, pick)), Key(db.nextDet, 0, e))
      == Included(Again(db, src), Key(src, it + 1, e))
  {
    DefinedFromResiduals(db, mode, refDetId, refIter, src, db.runs[src].iteration, pick, e);
    AgainIsConservative(db, src);
  }
}
