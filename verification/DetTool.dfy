/** The detrend commands, call by call. */
module DetTool {
  import opened Detrend
  import opened DetrendHistory
  import RandomSubset
  import opened Transactions
  import opened Wrappers

  ghost predicate Distinct(es: seq<int>) {
    forall i, j | 0 <= i < j < |es| :: es[i] != es[j]
  }

  function Verdicts(es: seq<int>, rows: map<int, bool>): map<int, bool>
    requires forall e | e in es :: e in rows
  {
    map e | e in es :: rows[e]
  }

  /** No exposure is twice in the list or already an input: the primary key allows all. */
  ghost predicate Insertable(db: Db, d: int, it: int, es: seq<int>) {
    Distinct(es) && forall e | e in es :: Key(d, it, e) !in db.inputs
  }

  method InsertInputs(db: Session<Db>, d: int, it: int, es: seq<int>, rows: map<int, bool>) returns (ok: bool)
    requires db.open && forall e | e in es :: e in rows
    modifies db
    ensures ok == (old(db.healthy) >= |es| && Insertable(old(db.working), d, it, es))
    ensures ok ==> db.working == AddInputs(old(db.working), d, it, Verdicts(es, rows))
    ensures ok ==> db.healthy == old(db.healthy) - |es|
    ensures db.open && db.committed == old(db.committed)
  {
    ghost var start, calls := db.working, db.healthy;
    var i := 0;
    while i < |es|
      invariant 0 <= i <= |es| && db.healthy == calls - i
      invariant db.open && db.committed == old(db.committed)
      invariant Insertable(start, d, it, es[..i])
      invariant db.working == AddInputs(start, d, it, Verdicts(es[..i], rows))
    {
      var e := es[i];
      assert es[..i + 1] == es[..i] + [e];
      InsertedOneMore(start, d, it, es[..i], rows, e);
      InsertableOneMore(start, d, it, es, i);
      if Key(d, it, e) in db.working.inputs {  // the primary key refuses a second row
        return false;
      }
      ok := db.Execute(db.working.(inputs := db.working.inputs[Key(d, it, e) := rows[e]]));
      if !ok { return; }
      i := i + 1;
    }
    assert es[..|es|] == es;
    ok := true;
  }

  lemma InsertedOneMore(db: Db, d: int, it: int, es: seq<int>, rows: map<int, bool>, e: int)
    requires e in rows && forall c | c in es :: c in rows
    ensures var t, k := AddInputs(db, d, it, Verdicts(es, rows)), Key(d, it, e);
      && (k in t.inputs <==> k in db.inputs || e in es)
      && t.(inputs := t.inputs[k := rows[e]]) == AddInputs(db, d, it, Verdicts(es + [e], rows))
  {
    var t, k := AddInputs(db, d, it, Verdicts(es, rows)), Key(d, it, e);
    var t1, u := t.(inputs := t.inputs[k := rows[e]]), AddInputs(db, d, it, Verdicts(es + [e], rows));
    AddedInput(db, d, it, Verdicts(es, rows), k);
    forall c: Key
      ensures Included(t1, c) == Included(u, c)
    {
      PutInput(t, k, rows[e], c);
      AddedInput(db, d, it, Verdicts(es, rows), c);
      AddedInput(db, d, it, Verdicts(es + [e], rows), c);
    }
    SameInputs(t1, u);
  }

  lemma PutInput(t: Db, k: Key, used: bool, c: Key)
    ensures Included(t.(inputs := t.inputs[k := used]), c) == if c == k then Some(used) else Included(t, c)
  {
  }

  lemma SameInputs(a: Db, b: Db)
    requires forall k :: Included(a, k) == Included(b, k)
    ensures a.inputs == b.inputs
  {
    assert forall k :: k in a.inputs <==> Included(a, k).Some?;
    assert forall k :: k in b.inputs <==> Included(b, k).Some?;
  }

  lemma InsertableOneMore(db: Db, d: int, it: int, es: seq<int>, i: nat)
    requires i < |es| && Insertable(db, d, it, es[..i])
    ensures Insertable(db, d, it, es[..i + 1]) <==> Key(d, it, es[i]) !in db.inputs && es[i] !in es[..i]
    ensures Insertable(db, d, it, es) ==> Insertable(db, d, it, es[..i + 1])
  {
    assert es[..i + 1] == es[..i] + [es[i]];
  }

  /** The end of -definebytag and -definebyquery: the run, its inputs, and a last look. */
  method CreateRun(db: Session<Db>, run: DetRun, es: seq<int>) returns (ok: bool)
    requires db.Idle() && Inv(db.committed) && Distinct(es)
    modifies db
    ensures db.committed == if old(db.healthy) >= |es| + 3
                            then AddInputs(InsertRun(old(db.committed), run), old(db.committed).nextDet, 0, All(es))
                            else old(db.committed)
    ensures ok == (old(db.healthy) >= |es| + 4)
  {
    ok := db.Begin();
    if !ok { return; }
    ghost var was := db.working;
    var d := db.working.nextDet;
    ok := db.Execute(InsertRun(db.working, run));
    if !ok { return; }
    NoInputsYet(was, es);
    ok := InsertInputs(db, d, 0, es, All(es));
    if !ok {
      db.Rollback();
      return;
    }
    assert Verdicts(es, All(es)) == All(es);
    ok := db.Commit();
    if !ok { return; }
    ok := db.Query();  // print the new run
  }

  /** -definebytag, for the exposures that were found: one row each, by their primary key. */
  method DefineByTag(db: Session<Db>, mode: Mode, refDetId: int, refIter: int, es: seq<int>) returns (ok: bool)
    requires db.Idle() && Inv(db.committed) && Distinct(es)
    modifies db
    ensures db.committed == if es == [] then old(db.committed)
                            else Outcome(old(db.committed), DefineByExposures(mode, refDetId, refIter, es), old(db.healthy))
    ensures ok == (es != [] && RefsAllowed(mode, refDetId, refIter) && old(db.healthy) >= |es| + 5)
  {
    if !RefsAllowed(mode, refDetId, refIter) {
      return false;
    }
    ok := db.Query();
    if !ok { return; }
    if es == [] {
      return false;
    }
    ok := CreateRun(db, DetRun(0, mode, Running, refDetId, refIter), es);
  }

  /** -definebyquery, which may take a random subset of the rows it finds. */
  method DefineByQuery(db: Session<Db>, mode: Mode, refDetId: int, refIter: int, rows: seq<int>,
                       randomSubset: bool, limit: nat, value: seq<real>, pretend: bool)
    returns (ok: bool, es: seq<int>)
    requires db.Idle() && Inv(db.committed) && Distinct(rows) && |value| == |rows|
    modifies db
    ensures if randomSubset && limit < |rows| then RandomSubset.FirstBy(rows, value, limit, es) else es == rows
    ensures db.committed == if rows == [] || pretend then old(db.committed)
                            else Outcome(old(db.committed), DefineByExposures(mode, refDetId, refIter, es), old(db.healthy))
    ensures ok == (RefsAllowed(mode, refDetId, refIter)
                   && old(db.healthy) >= if rows == [] || pretend then 1 else |es| + 5)
  {
    es := RandomSubset.Choose(rows, randomSubset, limit, value);
    if randomSubset && limit < |rows| {
      SubsetIsDistinct(rows, value, limit, es);
    }
    if !RefsAllowed(mode, refDetId, refIter) {
      return false, es;
    }
    ok := db.Query();
    if !ok { return; }
    if rows == [] || pretend {
      return true, es;
    }
    ok := CreateRun(db, DetRun(0, mode, Running, refDetId, refIter), es);
  }

  lemma SubsetIsDistinct(rows: seq<int>, value: seq<real>, n: nat, subset: seq<int>)
    requires Distinct(rows) && RandomSubset.FirstBy(rows, value, n, subset)
    ensures Distinct(subset)
  {
  }

  lemma NoInputsYet(db: Db, es: seq<int>)
    requires Inv(db) && Distinct(es)
    ensures Insertable(db, db.nextDet, 0, es)
  {
    assert forall k | k in db.inputs :: InputOk(db, k);
    assert forall d | d in db.runs :: RunOk(db, d);
  }

  /** -definebydetrun: the inputs are copied from residuals in one statement. */
  method DefineByDetRun(db: Session<Db>, src: int, srcIter: int, pick: set<int>,
                        mode: Mode, refDetId: int, refIter: int)
    returns (ok: bool)
    requires db.Idle()
    modifies db
    ensures db.committed == Outcome(old(db.committed),
                                    Command.DefineByDetRun(src, srcIter, pick, mode, refDetId, refIter), old(db.healthy))
    ensures ok == (RefsAllowed(mode, refDetId, refIter) && src in old(db.committed).runs && old(db.healthy) >= 6)
  {
    if !RefsAllowed(mode, refDetId, refIter) {
      return false;
    }
    ok := db.Query();
    if !ok { return; }
    if src !in db.working.runs {
      return false;
    }
    var it := if srcIter < 0 then db.working.runs[src].iteration else srcIter;
    ok := db.Begin();
    if !ok { return; }
    var d := db.working.nextDet;
    ok := db.Execute(InsertRun(db.working, DetRun(0, mode, Running, refDetId, refIter)));
    if !ok {
      db.Rollback();
      return;
    }
    ok := db.Execute(AddInputs(db.working, d, 0, Inherited(db.working, src, it, pick)));
    if !ok { return; }
    ok := db.Commit();
    if !ok { return; }
    ok := db.Query();  // print the new run
  }

  /** -addresidexp */
  method AddResidual(db: Session<Db>, d: int, iteration: Option<int>, e: int, r: Resid) returns (ok: bool)
    requires db.Idle()
    modifies db
    ensures db.committed == Outcome(old(db.committed), Command.AddResidual(d, iteration, e, r), old(db.healthy))
    ensures ok == (CanAddResid(old(db.committed), d, iteration, e) && old(db.healthy) >= 2)
  {
    ok := db.Query();
    if !ok { return; }
    if !CanAddResid(db.working, d, iteration, e) {
      return false;
    }
    ok := db.Execute(AddResid(db.working, ResidKey(d, iteration, e), r));
  }

  /** The new iteration, or zero for a failure. */
  method IncrementIteration(db: Session<Db>, d: int) returns (it: int)
    requires db.open
    modifies db
    ensures db.open && db.committed == old(db.committed)
    ensures it != 0 <==> old(db.healthy) >= 2 && d in old(db.working).runs && old(db.working).runs[d].iteration != -1
    ensures it != 0 ==> && db.working == Increment(old(db.working), d)
                        && it == old(db.working).runs[d].iteration + 1
                        && db.healthy == old(db.healthy) - 2
  {
    var ok := db.Execute(Increment(db.working, d));
    if !ok {
      return 0;
    }
    ok := db.Query();
    if !ok || d !in db.working.runs {
      return 0;
    }
    it := db.working.runs[d].iteration;
  }

  /** The rows of an answer, in the order in which the database returns them. */
  method Fetch(rows: map<int, bool>) returns (es: seq<int>)
    ensures Distinct(es) && |es| == |rows| && (forall e :: e in es <==> e in rows)
  {
    es := [];
    var todo: set<int> := rows.Keys;
    while todo != {}
      invariant todo <= rows.Keys && |es| + |todo| == |rows.Keys|
      invariant Distinct(es) && forall e :: e in es <==> e in rows && e !in todo
      decreases |todo|
    {
      NonEmpty(todo);
      var e :| e in todo;
      todo := todo - {e};
      es := es + [e];
    }
    assert |rows.Keys| == |rows|;
  }

  lemma NonEmpty(s: set<int>)
    requires s != {}
    ensures exists e :: e in s
  {
    if forall e :: e !in s {
      assert false;
    }
  }

  /** -again.  It may be called inside a transaction, and then its own commits that one. */
  method StartNewIteration(db: Session<Db>, d: int) returns (ok: bool)
    requires !db.open ==> db.committed == db.working
    modifies db
    ensures ok == (ResidualRows(old(db.working), d) != map[]
                   && CanIterate(old(db.working), d, ResidualRows(old(db.working), d))
                   && old(db.healthy) >= |ResidualRows(old(db.working), d)| + 5)
    ensures ok ==> db.Idle() && db.committed == Again(old(db.working), d)
    ensures ok ==> db.healthy == old(db.healthy) - (|ResidualRows(old(db.working), d)| + 5)
    ensures !ok ==> db.committed ==
                      if old(db.healthy) < 2 || ResidualRows(old(db.working), d) == map[]
                      then old(db.committed) else old(db.working)
  {
    ghost var start := db.working;
    ok := db.Query();
    if !ok { return; }
    var rows := ResidualRows(db.working, d);
    if rows == map[] {
      return false;
    }
    ok := db.Begin();
    if !ok { return; }
    var it := IncrementIteration(db, d);
    if it == 0 {
      db.Rollback();
      return false;
    }
    var es := Fetch(rows);
    assert Verdicts(es, rows) == rows;
    ok := InsertInputs(db, d, it, es, rows);
    if !ok {
      db.Rollback();
      return;
    }
    ok := db.Commit();
  }

  method AllValid(es: seq<int>, valid: set<int>) returns (ok: bool)
    ensures ok <==> forall e | e in es :: e in valid
  {
    var i := 0;
    while i < |es|
      invariant 0 <= i <= |es| && forall j | 0 <= j < i :: es[j] in valid
    {
      var e := es[i];
      if e !in valid {
        return false;
      }
      i := i + 1;
    }
    ok := true;
  }

  /** The exposures of the list that are inputs of iteration 0. */
  function Valid(db: Db, d: int, es: seq<int>): (v: set<int>)
    ensures forall e :: e in v <==> e in es && Key(d, 0, e) in db.inputs
  {
    set e | e in es && Key(d, 0, e) in db.inputs
  }

  lemma CanRerunIfValid(db: Db, d: int, es: seq<int>)
    ensures CanRerun(db, d, es)
            <==> Valid(db, d, es) != {} && (forall e | e in es :: e in Valid(db, d, es)) && Distinct(es)
  {
    if es != [] {
      var e := es[0];
      assert e in es;
    }
  }

  /** -rerun */
  method Redo(db: Session<Db>, d: int, es: seq<int>) returns (ok: bool)
    requires db.Idle()
    modifies db
    ensures db.committed == Outcome(old(db.committed), Command.Redo(d, es), old(db.healthy))
    ensures ok == (CanRerun(old(db.committed), d, es) && CanIterate(old(db.committed), d, All(es))
                   && old(db.healthy) >= |es| + 5)
  {
    ok := db.Query();
    if !ok { return; }
    var valid := Valid(db.working, d, es);
    CanRerunIfValid(db.working, d, es);
    if valid == {} {
      return false;
    }
    ok := db.Begin();
    if !ok { return; }
    var it := IncrementIteration(db, d);
    if it == 0 {
      db.Rollback();
      return false;
    }
    ok := AllValid(es, valid);
    if !ok {
      db.Rollback();
      return;
    }
    assert Verdicts(es, All(es)) == All(es);
    ok := InsertInputs(db, d, it, es, All(es));
    if !ok {
      db.Rollback();
      return;
    }
    ok := db.Commit();
  }

  /** The calls suffice for all of a summary; with `-again` the outer transaction is
      committed once more after the inner one. */
  predicate Finishes(db: Db, d: int, again: bool, calls: nat) {
    if again then
      && ResidualRows(db, d) != map[] && CanIterate(db, d, ResidualRows(db, d))
      && calls >= |ResidualRows(db, d)| + 9
    else calls >= 5
  }

  /** -adddetrunsummary */
  method Summarise(db: Session<Db>, d: int, iteration: Option<int>, again: bool, s: Summary) returns (ok: bool)
    requires db.Idle()
    modifies db
    ensures db.committed == Outcome(old(db.committed), Command.Summarise(d, iteration, again, s), old(db.healthy))
    ensures ok == (old(db.healthy) > 0
                   && (Chosen(old(db.committed), d, iteration)
                       ==> CanSummarise(old(db.committed), d) && Finishes(old(db.committed), d, again, old(db.healthy))))
  {
    ok := db.Query();
    if !ok { return; }
    if !Chosen(db.working, d, iteration) {
      return true;
    }
    ok := SummariseChosen(db, d, again, s);
  }

  /** The transaction of -adddetrunsummary. */
  method SummariseChosen(db: Session<Db>, d: int, again: bool, s: Summary) returns (ok: bool)
    requires db.Idle()
    modifies db
    ensures db.committed == Summarised(old(db.committed), d, again, s, old(db.healthy) + 1)
    ensures ok == (CanSummarise(old(db.committed), d) && Finishes(old(db.committed), d, again, old(db.healthy) + 1))
  {
    ok := db.Begin();
    if !ok { return; }
    if !CanSummarise(db.working, d) {
      db.Rollback();
      return false;
    }
    ok := db.Execute(InsertSummary(db.working, d, s));
    if !ok {
      db.Rollback();
      return;
    }
    if again {
      SummaryLeavesRows(old(db.committed), d, s);
      ok := StartNewIteration(db, d);
    } else {
      ok := db.Execute(SetState(db.working, d, Stopped));
    }
    if !ok {
      db.Rollback();
      return;
    }
    ok := db.Commit();
  }

  lemma SummaryLeavesRows(db: Db, d: int, s: Summary)
    ensures var t, rows := InsertSummary(db, d, s), ResidualRows(db, d);
      ResidualRows(t, d) == rows && CanIterate(t, d, rows) == CanIterate(db, d, rows)
  {
    assert ResidualRows(InsertSummary(db, d, s), d) == ResidualRows(db, d);
  }

  /** -makecorrection */
  method MakeCorrection(db: Session<Db>, ref: int, refIter: int) returns (ok: bool)
    requires db.Idle()
    modifies db
    ensures db.committed == Outcome(old(db.committed), Command.MakeCorrection(ref, refIter), old(db.healthy))
    ensures ok == (ref in old(db.committed).runs && old(db.committed).runs[ref].iteration == refIter
                   && old(db.healthy) >= 5)
  {
    ok := db.Query();
    if !ok { return; }
    if ref !in db.working.runs || db.working.runs[ref].iteration != refIter {
      return false;
    }
    ok := db.Begin();
    if !ok { return; }
    ok := db.Execute(InsertRun(db.working, DetRun(0, Correction, Running, ref, db.working.runs[ref].iteration)));
    if !ok { return; }
    ok := db.Commit();
    if !ok { return; }
    ok := db.Query();  // print the new run
  }
}
