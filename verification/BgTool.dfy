/** The background stages, for chips and for warps.  Both run the same code, each on a
    table of its own; the table here stands for either. */
module BgTool {
  import opened ImfileStates
  import opened Transactions

  type Table = map<int, Exposure>

  /** The background rules read no raw data. */
  const NoRaw := Raw(0, map[], {})

  function ChangeFile(db: Table, id: int, k: ClassId, target: DataState): Table {
    if id !in db then db else db[id := Step(Background(target), NoRaw, db[id], k)]
  }

  /** The file takes the target state and loses its mark; nothing else changes unless all
      files have that state now: then the run takes it too, and loses its own mark. */
  lemma ChangeFileEffect(db: Table, id: int, k: ClassId, target: DataState)
    ensures var t := ChangeFile(db, id, k, target);
      if id !in db || k !in db[id].files then t == db
      else
        && t.Keys == db.Keys && (forall other | other in db && other != id :: t[other] == db[other])
        && var f, e := db[id].files[k], db[id];
           && t[id].files == e.files[k := f.(state := target, magicked := if f.magicked == 0 then 0 else -1)]
           && t[id].updateMode == e.updateMode
           && if t[id].files != e.files && forall j | j in e.files && j != k :: e.files[j].state == target
              then t[id].state == target && t[id].magicked == if e.magicked == 0 then 0 else -1
              else t[id].state == e.state && t[id].magicked == e.magicked
  {
    if id in db {
      BackgroundCommand(NoRaw, db[id], k, target);
    }
  }

  datatype AdvanceRow = AdvanceRow(id: int, magicked: int)

  function SetFull(db: Table, row: AdvanceRow): Table {
    if row.id !in db then db else db[row.id := db[row.id].(state := Full, magicked := row.magicked)]
  }

  function SetAllFull(db: Table, rows: seq<AdvanceRow>): Table {
    if rows == [] then db else SetFull(SetAllFull(db, rows[..|rows| - 1]), rows[|rows| - 1])
  }

  /** The answer of the selecting query: distinct new runs. */
  ghost predicate Selected(db: Table, rows: seq<AdvanceRow>) {
    && (forall i | 0 <= i < |rows| :: rows[i].id in db && db[rows[i].id].state == New)
    && (forall i, j | 0 <= i < j < |rows| :: rows[i].id != rows[j].id)
  }

  /** Every selected run is full with its mark, and no other run changed. */
  lemma {:induction false} SetAllFullEffect(db: Table, rows: seq<AdvanceRow>)
    requires Selected(db, rows)
    ensures var t := SetAllFull(db, rows);
      && t.Keys == db.Keys
      && (forall row | row in rows :: row.id in db && t[row.id] == db[row.id].(state := Full, magicked := row.magicked))
      && (forall id | id in db && (forall row | row in rows :: row.id != id) :: t[id] == db[id])
  {
    if rows != [] {
      var n := |rows| - 1;
      SetAllFullEffect(db, rows[..n]);
      assert rows == rows[..n] + [rows[n]];
      assert forall row | row in rows[..n] :: row in rows && row.id != rows[n].id;
    }
  }

  lemma LastStillNew(db: Table, rows: seq<AdvanceRow>, i: nat)
    requires Selected(db, rows) && i < |rows|
    ensures rows[i].id in SetAllFull(db, rows[..i])
    ensures SetAllFull(db, rows[..i])[rows[i].id].state == New
  {
    SetAllFullEffect(db, rows[..i]);
    assert forall row | row in rows[..i] :: row.id != rows[i].id;
  }

  /** -advancechip and -advancewarp: one transaction around the whole loop. */
  method Advance(db: Session<Table>, rows: seq<AdvanceRow>) returns (ok: bool)
    requires db.Idle()
    modifies db
    ensures ok ==> db.committed == SetAllFull(old(db.committed), rows)
    ensures !ok ==> db.committed == old(db.committed)
    ensures Selected(old(db.committed), rows) && rows != [] ==> ok == (old(db.healthy) >= |rows| + 3)
  {
    ghost var was, calls := db.committed, db.healthy;
    assert rows[..0] == [];
    ok := db.Begin();
    if !ok { return; }
    ok := db.Query();
    if !ok {
      db.Rollback();
      return;
    }
    if rows == [] {
      return true;
    }
    var i := 0;
    while i < |rows|
      invariant 0 <= i <= |rows| && ok && db.open && db.committed == was
      invariant db.working == SetAllFull(was, rows[..i])
      invariant calls == db.healthy + i + 2
    {
      assert rows[..i + 1][..i] == rows[..i];
      if Selected(was, rows) {
        LastStillNew(was, rows, i);
      }
      var before, id := db.working, rows[i].id;
      var after := SetFull(before, rows[i]);
      ok := db.Execute(after);
      if !ok {
        db.Rollback();
        return;
      }
      if id !in before || after[id] == before[id] {  // not exactly one row affected
        db.Rollback();
        return false;
      }
      i := i + 1;
    }
    assert rows[..|rows|] == rows;
    ok := db.Commit();
  }

  /** -tocleanedchipimfile and -tocleanedwarpskyfile. */
  method ChangeFileDataState(db: Session<Table>, id: int, k: ClassId, target: DataState) returns (ok: bool)
    requires db.Idle()
    modifies db
    ensures ok == (old(db.healthy) >= 4 && ChangeFile(old(db.committed), id, k, target) != old(db.committed))
    ensures ok ==> db.Idle() && db.committed == ChangeFile(old(db.committed), id, k, target)
    ensures !ok ==> db.committed == old(db.committed)
  {
    var was := db.committed;
    ok := db.Begin();
    if !ok { return; }
    if id !in was || k !in was[id].files {
      PutChanges(was, id, k, target);
      return false;  // no row affected
    }
    var p, e := Background(target), was[id];
    var u := UpdateFile(p, NoRaw, e, k);
    PutChanges(was, id, k, target);
    ok := db.Execute(was[id := u]);
    if !ok {
      db.Rollback();
      return;
    }
    if u == e {  // no row affected
      return false;
    }
    ok := db.Execute(was[id := Promote(p, u)]);
    if !ok {
      db.Rollback();
      return;
    }
    ok := db.Commit();
  }

  lemma PutChanges(db: Table, id: int, k: ClassId, target: DataState)
    ensures ChangeFile(db, id, k, target) != db <==> id in db && Effective(Background(target), NoRaw, db[id], k)
  {
    if id in db {
      assert ChangeFile(db, id, k, target)[id] == Step(Background(target), NoRaw, db[id], k);
      assert db[id := db[id]] == db;
    }
  }

  /** While the files of a background run are cleaned, the run keeps a positive mark until
      the last file that is not clean yet: until then it stands above files whose
      destreaking is lost.  (The chip stage drops its mark with the first file.) */
  lemma MarkLagsBehindFiles(e: Exposure, ks: seq<ClassId>)
    requires e.magicked > 0
    requires ks != [] && forall k | k in ks :: k in e.files && e.files[k].magicked > 0
    ensures var d := Drive(Background(Cleaned), NoRaw, e, ks);
      && (d.magicked > 0 <==> exists k | k in e.files :: e.files[k].state != Cleaned && k !in ks)
      && (forall k | k in ks :: k in d.files && d.files[k].magicked < 0)
  {
    var p := Background(Cleaned);
    DriveIsOneVisit(p, NoRaw, e, ks);
    MarkOnTheWay(p, NoRaw, e, ks);
    assert Visited(p, NoRaw, e, ks, ks[0]);
    assert Visit(p, NoRaw, e, ks).files[ks[0]] != e.files[ks[0]];
    assert forall k | k in e.files :: Awaited(p, e, k) <==> e.files[k].state != Cleaned;
    assert forall k | k in e.files :: Visited(p, NoRaw, e, ks, k) <==> k in ks;
    forall k | k in ks
      ensures k in Drive(p, NoRaw, e, ks).files && Drive(p, NoRaw, e, ks).files[k].magicked < 0
    {
      assert Visited(p, NoRaw, e, ks, k);
    }
  }
}
