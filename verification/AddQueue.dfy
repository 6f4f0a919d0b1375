/** Queueing addstar runs: the selected rows are first checked, then queued in one
    transaction. */
module AddQueue {
  import opened Transactions
  import opened Wrappers
  import Pipeline
  import PipelineHistory

  datatype Stage = Cam | Stack | StaticSky | SkyCal | Diff | FullForce | FullForceSummary

  /** A selected row.  `extra` is the stack, difference image or warp it belongs to. */
  datatype Row = Row(stageId: int, extra: Option<int>, numInputs: Option<int>,
                     workdir: Option<string>, reduction: Option<string>, runLabel: Option<string>,
                     dataGroup: Option<string>, dvodb: Option<string>)

  datatype Request = Request(stage: Stage, searched: bool, destreaked: bool, uncensored: bool, pretend: bool,
                             workdir: Option<string>, reduction: Option<string>, runLabel: Option<string>,
                             dataGroup: Option<string>, dvodb: Option<string>, note: Option<string>)

  datatype AddRun = AddRun(stage: Stage, stageId: int, extra: int, workdir: string, reduction: string,
                           runLabel: string, dataGroup: string, dvodb: string, note: string)

  /** `full` holds the runs of the earlier stages that are in state full. */
  datatype Db = Db(full: set<(Stage, int)>, adds: map<int, AddRun>, nextAdd: int)

  // ---------------------------------------------------------------- checking

  predicate Accepted(q: Request) {
    && q.searched && q.destreaked != q.uncensored
    && (q.stage == Diff || q.stage == FullForce || q.stage == FullForceSummary ==> q.dvodb.Some?)
  }

  /** The database answers the search.  Every search without a given dvodb names the column
      `stage` of addRun, or the dvodb of a table that has none, where it is not visible; every
      search for stacks names `magicked` of stackRun, which has none, or of camRun, which is
      not joined. */
  predicate Searchable(q: Request) {
    q.dvodb.Some? && q.stage != Stack
  }

  /** Only camera and stack runs have a dvodb to inherit. */
  function Dvodb(q: Request, row: Row): Option<string> {
    if q.dvodb.Some? then q.dvodb
    else if q.stage == Cam || q.stage == Stack then row.dvodb
    else None
  }

  predicate Valid(q: Request, row: Row) {
    && (q.stage == StaticSky ==> row.numInputs.Some? && row.numInputs.value >= 0)
    && (q.dvodb.Some? || ((q.stage == Cam || q.stage == Stack) && row.dvodb.Some?))
    && (q.workdir.Some? || row.workdir.Some?)
  }

  // ---------------------------------------------------------------- queueing

  function Text(v: Option<string>): string {
    if v.Some? then v.value else "NULL"
  }

  /** Both full-force stages read the same runs. */
  function Source(stage: Stage): Stage {
    if stage == FullForceSummary then FullForce else stage
  }

  predicate NeedsExtra(stage: Stage) {
    stage == StaticSky || stage == Diff || stage == FullForce
  }

  /** The database accepts the query that inserts a run.  For stacks it names a column of
      addRun in the selecting part; for static skies and differences it selects one value
      too few, having no place for the mini-database host. */
  predicate Insertable(stage: Stage) {
    stage != Stack && stage != StaticSky && stage != Diff
  }

  predicate Queueable(db: Db, q: Request, row: Row) {
    && (NeedsExtra(q.stage) ==> row.extra.Some?)
    && Insertable(q.stage) && (Source(q.stage), row.stageId) in db.full
  }

  function NewRun(q: Request, row: Row): AddRun {
    AddRun(q.stage, row.stageId, if NeedsExtra(q.stage) && row.extra.Some? then row.extra.value else 0,
           Text(Or(q.workdir, row.workdir)), Text(Or(q.reduction, row.reduction)),
           Text(Or(q.runLabel, row.runLabel)), Text(Or(q.dataGroup, Or(row.dataGroup, Or(q.runLabel, row.runLabel)))),
           Text(Dvodb(q, row)), Text(q.note))
  }

  function QueueOne(db: Db, q: Request, row: Row): Db {
    db.(adds := db.adds[db.nextAdd := NewRun(q, row)], nextAdd := db.nextAdd + 1)
  }

  function QueueAll(db: Db, q: Request, rows: seq<Row>): Db {
    if rows == [] then db
    else QueueOne(QueueAll(db, q, rows[..|rows| - 1]), q, rows[|rows| - 1])
  }

  lemma {:induction false} QueueKeepsSources(db: Db, q: Request, rows: seq<Row>)
    ensures QueueAll(db, q, rows).full == db.full
  {
    if rows != [] {
      QueueKeepsSources(db, q, rows[..|rows| - 1]);
    }
  }

  /** -definebyquery, for the rows that the search answers. */
  method DefineByQuery(db: Session<Db>, q: Request, rows: seq<Row>) returns (ok: bool)
    requires db.Idle()
    modifies db
    ensures db.committed == if WouldQueue(old(db.committed), q, rows) && old(db.healthy) >= |rows| + 3
                            then QueueAll(old(db.committed), q, rows) else old(db.committed)
    ensures ok == (&& Accepted(q) && Searchable(q) && old(db.healthy) > 0
                   && (rows == [] || q.pretend
                       || (WouldQueue(old(db.committed), q, rows) && old(db.healthy) >= |rows| + 3)))
  {
    if !Accepted(q) {
      return false;
    }
    ok := db.Query();
    if !ok { return; }
    if !Searchable(q) {
      return false;
    }
    if rows == [] || q.pretend {
      return true;
    }
    ok := AllValid(q, rows);
    if !ok { return; }
    ok := db.Begin();
    if !ok { return; }
    ghost var was, calls := db.working, db.healthy;
    assert rows[..0] == [];
    var i := 0;
    while i < |rows|
      invariant 0 <= i <= |rows| && ok && db.open && db.committed == was
      invariant forall j | 0 <= j < i :: Queueable(was, q, rows[j])
      invariant db.working == QueueAll(was, q, rows[..i]) && db.healthy == calls - i
    {
      var row := rows[i];
      assert rows[..i + 1][..i] == rows[..i];
      QueueKeepsSources(was, q, rows[..i]);
      if NeedsExtra(q.stage) && row.extra.None? {
        return false;
      }
      if !Insertable(q.stage) || (Source(q.stage), row.stageId) !in db.working.full {  // refused, or no row affected
        db.Rollback();
        return false;
      }
      ok := db.Execute(QueueOne(db.working, q, row));
      if !ok {
        db.Rollback();
        return;
      }
      i := i + 1;
    }
    assert rows[..|rows|] == rows;
    ok := db.Commit();
  }

  method AllValid(q: Request, rows: seq<Row>) returns (ok: bool)
    ensures ok <==> forall i | 0 <= i < |rows| :: Valid(q, rows[i])
  {
    var i := 0;
    while i < |rows|
      invariant 0 <= i <= |rows| && forall j | 0 <= j < i :: Valid(q, rows[j])
    {
      if !Valid(q, rows[i]) {
        return false;
      }
      i := i + 1;
    }
    ok := true;
  }

  ghost predicate WouldQueue(db: Db, q: Request, rows: seq<Row>) {
    && Accepted(q) && Searchable(q) && !q.pretend && rows != []
    && forall i | 0 <= i < |rows| :: Valid(q, rows[i]) && Queueable(db, q, rows[i])
  }

  /** A request comes as far as its rows if it names a search, exactly one of the two kinds
      of data and a dvodb, and does not ask for stacks. */
  lemma AnsweredExactly(q: Request)
    ensures Accepted(q) && Searchable(q) <==>
              q.searched && q.destreaked != q.uncensored && q.dvodb.Some? && q.stage != Stack
  {
  }

  /** Rows are queued exactly if there are some, for one of four stages, each has a workdir
      unless one is given, those of full force name a warp, and all belong to runs that are
      full: for the full-force summary, to full-force runs. */
  lemma WouldQueueExactly(db: Db, q: Request, rows: seq<Row>)
    ensures WouldQueue(db, q, rows) <==>
              && q.searched && q.destreaked != q.uncensored && q.dvodb.Some? && !q.pretend && rows != []
              && (q.stage == Cam || q.stage == SkyCal || q.stage == FullForce || q.stage == FullForceSummary)
              && forall i | 0 <= i < |rows| ::
                   && (q.workdir.Some? || rows[i].workdir.Some?)
                   && (q.stage == FullForce ==> rows[i].extra.Some?)
                   && (if q.stage == FullForceSummary then (FullForce, rows[i].stageId) in db.full
                       else (q.stage, rows[i].stageId) in db.full)
  {
    if rows != [] {
      assert WouldQueue(db, q, rows) ==> Queueable(db, q, rows[0]);
    }
  }

  // ---------------------------------------------------------------- what checking is for

  ghost predicate Given(text: string, override: Option<string>, inherited: Option<string>) {
    override == Some(text) || (override.None? && inherited == Some(text))
  }

  /** A value that may also be missing on both sides, and then is the text NULL. */
  ghost predicate GivenOrNull(text: string, override: Option<string>, inherited: Option<string>) {
    Given(text, override, inherited) || (override.None? && inherited.None? && text == "NULL")
  }

  /** Queueing checked rows adds one run for each row, in their order, whose workdir and
      dvodb were given on the command line or, failing that, by the row itself; a dvodb only
      camera and stack rows can give.  It changes nothing else. */
  lemma {:induction false} QueuedRunsAreDefined(db: Db, q: Request, rows: seq<Row>)
    requires forall i | 0 <= i < |rows| :: Valid(q, rows[i])
    requires forall a | a in db.adds :: a < db.nextAdd
    ensures RunsAdded(db, q, rows, QueueAll(db, q, rows))
  {
    if rows != [] {
      var n := |rows| - 1;
      QueuedRunsAreDefined(db, q, rows[..n]);
      OneRunAdded(db, q, rows, QueueAll(db, q, rows[..n]));
    }
  }

  ghost predicate RunsAdded(db: Db, q: Request, rows: seq<Row>, t: Db) {
    && t.full == db.full && t.nextAdd == db.nextAdd + |rows|
    && (forall a :: a in t.adds <==> a in db.adds || db.nextAdd <= a < t.nextAdd)
    && (forall a | a in db.adds :: t.adds[a] == db.adds[a])
    && (forall i | 0 <= i < |rows| :: Defined(q, rows[i], t.adds[db.nextAdd + i]))
  }

  lemma OneRunAdded(db: Db, q: Request, rows: seq<Row>, b: Db)
    requires rows != [] && Valid(q, rows[|rows| - 1])
    requires forall a | a in db.adds :: a < db.nextAdd
    requires RunsAdded(db, q, rows[..|rows| - 1], b)
    ensures RunsAdded(db, q, rows, QueueOne(b, q, rows[|rows| - 1]))
  {
    var n, t := |rows| - 1, QueueOne(b, q, rows[|rows| - 1]);
    forall i | 0 <= i < |rows|
      ensures Defined(q, rows[i], t.adds[db.nextAdd + i])
    {
      if i < n {
        assert rows[..n][i] == rows[i] && Defined(q, rows[..n][i], b.adds[db.nextAdd + i]);
      } else {
        CheckIsExact(q, rows[n]);
      }
    }
  }

  ghost predicate Defined(q: Request, row: Row, run: AddRun) {
    && run.stage == q.stage && run.stageId == row.stageId
    && run.extra == (if (q.stage == StaticSky || q.stage == Diff || q.stage == FullForce) && row.extra.Some?
                     then row.extra.value else 0)
    && Given(run.workdir, q.workdir, row.workdir)
    && Given(run.dvodb, q.dvodb, if q.stage == Cam || q.stage == Stack then row.dvodb else None)
    && GivenOrNull(run.reduction, q.reduction, row.reduction)
    && GivenOrNull(run.runLabel, q.runLabel, row.runLabel)
    && (Given(run.dataGroup, q.dataGroup, row.dataGroup)
        || (q.dataGroup.None? && row.dataGroup.None? && run.dataGroup == run.runLabel))
    && GivenOrNull(run.note, q.note, None)
  }

  /** The check rejects exactly the rows that would be queued with the text NULL in the
      place of a missing workdir or dvodb, and static skies without a count of inputs. */
  lemma CheckIsExact(q: Request, row: Row)
    ensures Valid(q, row) <==>
              && Defined(q, row, NewRun(q, row))
              && (q.stage == StaticSky ==> row.numInputs.Some? && row.numInputs.value >= 0)
  {
  }

  // ---------------------------------------------------------------- which stages work

  /** Runs can be queued for some data, request and rows of a stage exactly if its insertion
      is one the database accepts: camera, sky calibration and the two full-force stages. */
  lemma StagesThatQueueExactly(stage: Stage)
    ensures (exists db: Db, q: Request, rows: seq<Row> :: q.stage == stage && WouldQueue(db, q, rows))
            <==> stage == Cam || stage == SkyCal || stage == FullForce || stage == FullForceSummary
  {
    if Insertable(stage) {
      var given := Some("x");
      var q := Request(stage, true, true, false, false, given, None, None, None, given, None);
      var row := Row(1, Some(1), None, None, None, None, None, None);
      assert WouldQueue(Db({(Source(stage), 1)}, map[], 1), q, [row]);
    } else {
      forall db: Db, q: Request, rows: seq<Row> | WouldQueue(db, q, rows)
        ensures q.stage != stage
      {
        assert Queueable(db, q, rows[0]);
      }
    }
  }

  /** No run is queued whose dvodb was not given on the command line: a dvodb is never
      inherited, because the searches that would allow it fail. */
  lemma DvodbIsNeverInherited(db: Db, q: Request, rows: seq<Row>, i: nat)
    requires WouldQueue(db, q, rows) && i < |rows|
    ensures q.dvodb == Some(NewRun(q, rows[i]).dvodb)
  {
  }

  /** Nor would the check of an inherited dvodb ever stop a camera run that the pipeline
      made, because a missing value was handed down to it as the text NULL: that text then
      would be the dvodb of the addstar run. */
  lemma CameraRunsAlwaysHaveADvodb(p: Pipeline.Db, c: int, q: Request, row: Row)
    requires PipelineHistory.Inv(p) && c in p.cams && q.stage == Cam && q.dvodb.None?
    requires row.workdir == p.cams[c].tags.workdir && row.dvodb == p.cams[c].tags.dvodb
    ensures Valid(q, row)
    ensures p.chips[p.cams[c].chipId].tags.dvodb.None? ==> NewRun(q, row).dvodb == "NULL"
  {
    assert PipelineHistory.CamDescends(p, c);
  }
}
