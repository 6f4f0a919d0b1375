/** What holds over every history of the automatic chip and camera steps, including the
    states that a failing tool leaves behind. */
module PipelineHistory {
  import opened ImfileStates
  import opened Pipeline
  import opened PipelineEffects
  import opened Wrappers

  datatype Action =
    | QueueExposures(rows: seq<ExpRow>, overrides: Tags)
    | ArriveImfile(chipId: int, class_id: ClassId, magicked: int, quality: int, fault: nat)
    | ChangeState(chipId: int, class_id: ClassId, target: DataState)
    | Advance(selected: seq<AdvanceRow>)
    | AddResult(camId: int, camFault: int, camQuality: int)
    | RevertResults(camIds: set<int>)

  /** The committed data after a tool ran, whether or not it failed on the way. */
  ghost predicate Outcome(s: Db, a: Action, t: Db) {
    match a
    case QueueExposures(rows, o) =>
      exists n | 0 <= n <= |rows| :: t == QueueAll(s, rows[..n], o)
    case ArriveImfile(id, k, m, q, f) =>
      t == s || t == AddImfile(s, id, k, m, q, f)
    case ChangeState(id, k, target) =>
      IsTarget(target) && (t == s || t == ChangeImfile(s, id, k, target))
    case Advance(rows) =>
      Selected(s, rows) && exists n | 0 <= n <= |rows| :: t == AdvanceAll(s, rows[..n])
    case AddResult(c, f, q) =>
      t == s || (Pending(s, c) && c !in s.camExps && t == AddExp(s, c, f, q))
    case RevertResults(which) =>
      t == s || t == DeleteFaulted(s, which) || t == Revert(s, which)
  }

  ghost predicate History(states: seq<Db>, actions: seq<Action>) {
    && |states| == |actions| + 1
    && forall i | 0 <= i < |actions| :: Outcome(states[i], actions[i], states[i + 1])
  }

  // ---------------------------------------------------------------- invariant

  ghost predicate Fresh(db: Db) {
    && (forall id | id in db.chips :: id < db.nextChip)
    && (forall c | c in db.cams :: c < db.nextCam)
    && (forall f | f in db.fakes :: f < db.nextFake)
  }

  /** Every camera run belongs to a chip run that wanted to go on, copies its tags, and is
      its only one; a chip run that is still new has none. */
  ghost predicate CamsDescend(db: Db) {
    && (forall c | c in db.cams :: CamDescends(db, c))
    && (forall c, d | c in db.cams && d in db.cams && c != d :: db.cams[c].chipId != db.cams[d].chipId)
  }

  ghost predicate CamDescends(db: Db, c: int)
    requires c in db.cams
  {
    var cam := db.cams[c];
    && cam.chipId in db.chips
    && db.chips[cam.chipId].run.state != New
    && !Stops(db.chips[cam.chipId].tags, "chip")
    && cam.tags == Inherit(db.chips[cam.chipId].tags)
  }

  /** Every fake run belongs to a full camera run with a faultless result of good quality
      that wanted to go on, and copies its tags. */
  ghost predicate FakeDescends(db: Db, f: int)
    requires f in db.fakes
  {
    var c := db.fakes[f].camId;
    && c in db.cams && c in db.camExps
    && db.cams[c].state == Full
    && db.camExps[c].fault == 0 && db.camExps[c].quality <= 0
    && !Stops(db.cams[c].tags, "cam")
    && db.fakes[f].tags == Inherit(db.cams[c].tags)
  }

  ghost predicate Inv(db: Db) {
    Fresh(db) && CamsDescend(db) && (forall f | f in db.fakes :: FakeDescends(db, f))
  }

  /** A history may start with raw data and nothing else. */
  lemma EmptyTablesAreFine(raws: map<int, Raw>, chip: int, cam: int, fake: int)
    ensures Inv(Db(raws, map[], chip, map[], cam, map[], map[], fake))
  {
  }

  // ---------------------------------------------------------------- steps keep it

  lemma {:induction false} QueueKeepsInv(db: Db, rows: seq<ExpRow>, o: Tags)
    requires Inv(db)
    ensures var t := QueueAll(db, rows, o);
      Inv(t) && t.cams == db.cams && t.fakes == db.fakes
  {
    if rows != [] {
      QueueKeepsInv(db, rows[..|rows| - 1], o);
      QueueOneKeepsInv(QueueAll(db, rows[..|rows| - 1], o), rows[|rows| - 1], o);
    }
  }

  lemma QueueOneKeepsInv(db: Db, row: ExpRow, o: Tags)
    requires Inv(db)
    ensures var t := QueueOne(db, row, o);
      Inv(t) && t.cams == db.cams && t.fakes == db.fakes
  {
    var t := QueueOne(db, row, o);
    assert forall c | c in t.cams :: CamDescends(db, c);
    assert forall f | f in t.fakes :: FakeDescends(db, f);
  }

  lemma PutRunKeepsInv(db: Db, id: int, e: Exposure)
    requires Inv(db) && id in db.chips
    requires e.state == New ==> db.chips[id].run.state == New
    ensures Inv(PutRun(db, id, e))
  {
    var t := PutRun(db, id, e);
    assert forall c | c in t.cams :: CamDescends(db, c);
    assert forall f | f in t.fakes :: FakeDescends(db, f);
  }

  lemma AdvanceOneKeepsInv(db: Db, row: AdvanceRow)
    requires Inv(db) && row.chipId in db.chips && db.chips[row.chipId].run.state == New
    ensures Inv(AdvanceOne(db, row))
  {
    var id, b := row.chipId, SetChipFull(db, row);
    PutRunKeepsInv(db, id, b.chips[id].run);
    forall c | c in db.cams
      ensures db.cams[c].chipId != id
    {
      assert CamDescends(db, c);
    }
    if !Stops(db.chips[id].tags, "chip") {
      QueueCamKeepsInv(b, id, row.magicked);
    }
  }

  lemma QueueCamKeepsInv(db: Db, id: int, magicked: int)
    requires Inv(db) && id in db.chips && db.chips[id].run.state == Full && !Stops(db.chips[id].tags, "chip")
    requires forall c | c in db.cams :: db.cams[c].chipId != id
    ensures Inv(QueueCam(db, id, magicked, db.chips[id].tags))
  {
    var t := QueueCam(db, id, magicked, db.chips[id].tags);
    assert forall c | c in db.cams :: CamDescends(db, c);
    assert forall f | f in t.fakes :: FakeDescends(db, f);
  }

  /** The selected runs are full with their marks; nothing else about chip runs changed. */
  ghost predicate ChipsAdvanced(s: Db, rows: seq<AdvanceRow>, t: Db) {
    && t.chips.Keys == s.chips.Keys
    && (forall row | row in rows :: row.chipId in s.chips && t.chips[row.chipId]
          == s.chips[row.chipId].(run := s.chips[row.chipId].run.(state := Full, magicked := row.magicked)))
    && (forall id | id in s.chips && (forall row | row in rows :: row.chipId != id) :: t.chips[id] == s.chips[id])
  }

  /** The camera runs that the selected runs ask for, in order. */
  function Wanted(s: Db, rows: seq<AdvanceRow>): seq<CamRun>
    requires forall row | row in rows :: row.chipId in s.chips
  {
    if rows == [] then []
    else
      var n := |rows| - 1;
      Wanted(s, rows[..n]) + WantedBy(s, rows[n])
  }

  function WantedBy(s: Db, row: AdvanceRow): seq<CamRun>
    requires row.chipId in s.chips
  {
    var tags := s.chips[row.chipId].tags;
    if Stops(tags, "chip") then [] else [CamRun(row.chipId, New, row.magicked, Inherit(tags))]
  }

  /** The camera runs `t` has beside those of `s` are `wanted`, under consecutive fresh ids. */
  ghost predicate CamsAdded(s: Db, wanted: seq<CamRun>, t: Db) {
    && t.nextCam == s.nextCam + |wanted|
    && (forall c | c in s.cams :: c in t.cams && t.cams[c] == s.cams[c])
    && (forall c | c in t.cams :: c in s.cams || s.nextCam <= c < t.nextCam)
    && (forall c | s.nextCam <= c < t.nextCam :: c in t.cams && t.cams[c] == wanted[c - s.nextCam])
  }

  lemma {:induction false} AdvanceKeepsInv(s: Db, rows: seq<AdvanceRow>)
    requires Inv(s) && Selected(s, rows)
    ensures Inv(AdvanceAll(s, rows)) && ChipsAdvanced(s, rows, AdvanceAll(s, rows))
  {
    if rows != [] {
      var n := |rows| - 1;
      var b := AdvanceAll(s, rows[..n]);
      AdvanceKeepsInv(s, rows[..n]);
      NotBefore(s, rows);
      UnselectedUntouched(s, rows[..n], b, rows[n]);
      AdvanceOneKeepsInv(b, rows[n]);
      ChipsAdvancedStep(s, rows[..n], b, rows[n]);
    }
  }

  lemma {:induction false} AdvanceAddsCams(s: Db, rows: seq<AdvanceRow>)
    requires Inv(s) && Selected(s, rows)
    ensures CamsAdded(s, Wanted(s, rows), AdvanceAll(s, rows))
  {
    if rows != [] {
      var n := |rows| - 1;
      AdvanceAddsCams(s, rows[..n]);
      AdvanceKeepsInv(s, rows[..n]);
      NotBefore(s, rows);
      UnselectedUntouched(s, rows[..n], AdvanceAll(s, rows[..n]), rows[n]);
      CamsAddedStep(s, Wanted(s, rows[..n]), AdvanceAll(s, rows[..n]), rows[n]);
    }
  }

  lemma NotBefore(s: Db, rows: seq<AdvanceRow>)
    requires rows != [] && Selected(s, rows)
    ensures var n := |rows| - 1;
      && rows == rows[..n] + [rows[n]]
      && (forall r | r in rows[..n] :: r.chipId != rows[n].chipId)
      && rows[n].chipId in s.chips && s.chips[rows[n].chipId].run.state == New
  {
    var n := |rows| - 1;
    assert CompletelyProcessed(s, rows[n].chipId);
    assert forall i | 0 <= i < n :: rows[..n][i] == rows[i];
  }

  lemma {:induction false} AdvanceKeepsOthers(s: Db, rows: seq<AdvanceRow>)
    ensures var t := AdvanceAll(s, rows);
      t.raws == s.raws && t.camExps == s.camExps && t.fakes == s.fakes
  {
    if rows != [] {
      AdvanceKeepsOthers(s, rows[..|rows| - 1]);
    }
  }

  /** Advancing makes every selected run full with the selected mark, gives each of them
      that wants to go on exactly one camera run with its tags and mark, gives the others
      none, and touches nothing else. */
  lemma AdvanceEffect(s: Db, rows: seq<AdvanceRow>)
    requires Inv(s) && Selected(s, rows)
    ensures var t := AdvanceAll(s, rows);
      && Inv(t) && ChipsAdvanced(s, rows, t) && CamsAdded(s, Wanted(s, rows), t)
      && t.raws == s.raws && t.camExps == s.camExps && t.fakes == s.fakes
      && forall row | row in rows :: ExactlyOneCam(t, row.chipId)
  {
    var t := AdvanceAll(s, rows);
    AdvanceKeepsInv(s, rows);
    AdvanceAddsCams(s, rows);
    AdvanceKeepsOthers(s, rows);
    forall row | row in rows
      ensures ExactlyOneCam(t, row.chipId)
    {
      OneCamEach(s, rows, t, row);
    }
  }

  lemma UnselectedUntouched(s: Db, rows: seq<AdvanceRow>, b: Db, row: AdvanceRow)
    requires ChipsAdvanced(s, rows, b)
    requires row.chipId in s.chips && forall r | r in rows :: r.chipId != row.chipId
    ensures row.chipId in b.chips && b.chips[row.chipId] == s.chips[row.chipId]
  {
  }

  lemma ChipsAdvancedStep(s: Db, rows: seq<AdvanceRow>, b: Db, row: AdvanceRow)
    requires ChipsAdvanced(s, rows, b)
    requires row.chipId in s.chips && forall r | r in rows :: r.chipId != row.chipId
    ensures ChipsAdvanced(s, rows + [row], AdvanceOne(b, row))
  {
    var all := rows + [row];
    UnselectedUntouched(s, rows, b, row);
    assert AdvanceOne(b, row).chips == SetChipFull(b, row).chips;
    assert row in all && forall r | r in rows :: r in all;
  }

  lemma CamsAddedStep(s: Db, wanted: seq<CamRun>, b: Db, row: AdvanceRow)
    requires Fresh(s) && CamsAdded(s, wanted, b)
    requires row.chipId in s.chips && row.chipId in b.chips && b.chips[row.chipId] == s.chips[row.chipId]
    ensures CamsAdded(s, wanted + WantedBy(s, row), AdvanceOne(b, row))
  {
    if Stops(s.chips[row.chipId].tags, "chip") {
      assert wanted + WantedBy(s, row) == wanted;
    } else {
      OneCamAdded(s, wanted, b, WantedBy(s, row)[0], AdvanceOne(b, row));
    }
  }

  lemma OneCamAdded(s: Db, wanted: seq<CamRun>, b: Db, w: CamRun, t: Db)
    requires Fresh(s) && CamsAdded(s, wanted, b)
    requires t.cams == b.cams[b.nextCam := w] && t.nextCam == b.nextCam + 1
    ensures CamsAdded(s, wanted + [w], t)
  {
  }

  /** The one camera run of a selected run: there is one if it was wanted, and the
      invariant leaves room for no second. */
  lemma OneCamEach(s: Db, rows: seq<AdvanceRow>, t: Db, row: AdvanceRow)
    requires Inv(t) && row in rows && Selected(s, rows)
    requires ChipsAdvanced(s, rows, t) && CamsAdded(s, Wanted(s, rows), t)
    ensures ExactlyOneCam(t, row.chipId)
  {
    var id := row.chipId;
    if Stops(t.chips[id].tags, "chip") {
      assert forall c | c in t.cams :: CamDescends(t, c);
    } else {
      var i := WantedContains(s, rows, row);
      assert s.nextCam + i in t.cams && t.cams[s.nextCam + i].chipId == id;
    }
  }

  lemma {:induction false} WantedContains(s: Db, rows: seq<AdvanceRow>, row: AdvanceRow) returns (i: nat)
    requires forall r | r in rows :: r.chipId in s.chips
    requires row in rows && !Stops(s.chips[row.chipId].tags, "chip")
    ensures i < |Wanted(s, rows)| && Wanted(s, rows)[i].chipId == row.chipId
  {
    var n := |rows| - 1;
    if rows[n] == row {
      i := |Wanted(s, rows[..n])|;
    } else {
      assert rows == rows[..n] + [rows[n]];
      i := WantedContains(s, rows[..n], row);
    }
  }

  /** One camera run if the chip run goes on, none if it stops. */
  ghost predicate ExactlyOneCam(t: Db, id: int) {
    && id in t.chips
    && if Stops(t.chips[id].tags, "chip") then forall c | c in t.cams :: t.cams[c].chipId != id
       else exists c | c in t.cams :: t.cams[c].chipId == id && forall d | d in t.cams :: t.cams[d].chipId == id ==> d == c
  }

  // ---------------------------------------------------------------- histories

  lemma InsertExpKeepsInv(db: Db, c: int, fault: int, quality: int)
    requires Inv(db) && c !in db.camExps
    ensures Inv(InsertExp(db, c, fault, quality))
  {
    var t := InsertExp(db, c, fault, quality);
    assert forall d | d in t.cams :: CamDescends(db, d);
    assert forall f | f in t.fakes :: FakeDescends(db, f);
  }

  lemma SetCamFullKeepsInv(db: Db, c: int)
    requires Inv(db) && c in db.cams && db.cams[c].chipId in db.chips
    ensures Inv(SetCamFull(db, c))
  {
    var t := SetCamFull(db, c);
    forall d | d in t.cams
      ensures CamDescends(t, d)
    {
      assert CamDescends(db, d);
    }
    forall f | f in t.fakes
      ensures FakeDescends(t, f)
    {
      assert FakeDescends(db, f);
    }
  }

  lemma QueueFakeKeepsInv(db: Db, c: int)
    requires Inv(db) && c in db.cams && c in db.camExps && db.cams[c].state == Full
    requires db.camExps[c].fault == 0 && db.camExps[c].quality <= 0 && !Stops(db.cams[c].tags, "cam")
    ensures Inv(QueueFake(db, c))
  {
    var t := QueueFake(db, c);
    assert forall d | d in t.cams :: CamDescends(db, d);
    assert forall f | f in db.fakes :: FakeDescends(db, f);
  }

  lemma AddExpKeepsInv(db: Db, c: int, fault: int, quality: int)
    requires Inv(db) && Pending(db, c) && c !in db.camExps
    ensures Inv(AddExp(db, c, fault, quality))
  {
    var ins := InsertExp(db, c, fault, quality);
    InsertExpKeepsInv(db, c, fault, quality);
    SetCamFullKeepsInv(ins, c);
    if fault == 0 && quality <= 0 && !Stops(db.cams[c].tags, "cam") {
      QueueFakeKeepsInv(SetCamFull(ins, c), c);
    }
  }

  lemma RevertKeepsInv(db: Db, which: set<int>)
    requires Inv(db)
    ensures Inv(DeleteFaulted(db, which)) && Inv(ClearFaults(db, which))
  {
    var t, u := DeleteFaulted(db, which), ClearFaults(db, which);
    assert forall d | d in db.cams :: CamDescends(db, d) && CamDescends(t, d) && CamDescends(u, d);
    assert forall f | f in db.fakes :: FakeDescends(db, f) && FakeDescends(t, f) && FakeDescends(u, f);
  }

  lemma SelectedPrefix(s: Db, rows: seq<AdvanceRow>, n: nat)
    requires Selected(s, rows) && n <= |rows|
    ensures Selected(s, rows[..n])
  {
  }

  lemma OutcomeKeepsInv(s: Db, a: Action, t: Db)
    requires Inv(s) && Outcome(s, a, t)
    ensures Inv(t)
  {
    match a
    case QueueExposures(rows, o) =>
      var n :| 0 <= n <= |rows| && t == QueueAll(s, rows[..n], o);
      QueueKeepsInv(s, rows[..n], o);
    case ArriveImfile(id, k, m, q, f) =>
      if t != s {
        PutRunKeepsInv(s, id, t.chips[id].run);
      }
    case ChangeState(id, k, target) =>
      if t != s {
        PutRunKeepsInv(s, id, t.chips[id].run);
      }
    case Advance(rows) =>
      var n :| 0 <= n <= |rows| && t == AdvanceAll(s, rows[..n]);
      SelectedPrefix(s, rows, n);
      AdvanceKeepsInv(s, rows[..n]);
    case AddResult(c, f, q) =>
      if t != s {
        AddExpKeepsInv(s, c, f, q);
      }
    case RevertResults(which) =>
      RevertKeepsInv(s, which);
      RevertKeepsInv(DeleteFaulted(s, which), which);
  }

  /** Every history keeps the invariant. */
  lemma {:induction false} HistoryKeepsInv(states: seq<Db>, actions: seq<Action>)
    requires History(states, actions) && Inv(states[0])
    ensures forall i | 0 <= i < |states| :: Inv(states[i])
  {
    if actions != [] {
      var n := |actions| - 1;
      assert History(states[..n + 1], actions[..n]);
      HistoryKeepsInv(states[..n + 1], actions[..n]);
      assert Inv(states[..n + 1][n]);
      OutcomeKeepsInv(states[n], actions[n], states[n + 1]);
      forall i | 0 <= i < |states|
        ensures Inv(states[i])
      {
        assert i <= n ==> Inv(states[..n + 1][i]);
      }
    }
  }

  /** No fake run's end_stage spells the chip or the camera stage, in any case of letters. */
  lemma FakeRunsGoPastBothStages(db: Db, f: int)
    requires Inv(db) && f in db.fakes
    ensures db.fakes[f].tags.endStage.Some?
    ensures var e := db.fakes[f].tags.endStage.value;
      && (forall i | 0 <= i <= |e| - 4 :: !SpelledAt(e, "chip", i))
      && (forall i | 0 <= i <= |e| - 3 :: !SpelledAt(e, "cam", i))
  {
    var c := db.fakes[f].camId;
    assert FakeDescends(db, f) && CamDescends(db, c);
    var e := db.chips[db.cams[c].chipId].tags.endStage;
    MentionsExactly(db.fakes[f].tags.endStage.value, "chip");
    MentionsExactly(db.fakes[f].tags.endStage.value, "cam");
    assert !SameLetter("NULL"[0], "chip"[0]);
    assert e.None? ==> !SpelledAt("NULL", "chip", 0);
  }

  /** Every tag of a chip run reaches the fake runs that descend from it, and an absent one
      reaches them as the text NULL. */
  lemma TagsReachFakeRuns(db: Db, f: int)
    requires Inv(db) && f in db.fakes
    ensures db.fakes[f].camId in db.cams && db.cams[db.fakes[f].camId].chipId in db.chips
    ensures var t, u := db.chips[db.cams[db.fakes[f].camId].chipId].tags, db.fakes[f].tags;
      AllReach(t, u)
    ensures AllReach(db.chips[db.cams[db.fakes[f].camId].chipId].tags, db.cams[db.fakes[f].camId].tags)
  {
    assert FakeDescends(db, f) && CamDescends(db, db.fakes[f].camId);
  }

  /** A step that adds a camera run is an advance that made its chip run full. */
  ghost predicate CamBorn(s: Db, a: Action, t: Db, c: int) {
    && a.Advance? && c !in s.cams && c in t.cams
    && t.cams[c].chipId in s.chips && t.cams[c].chipId in t.chips
    && s.chips[t.cams[c].chipId].run.state == New
    && t.chips[t.cams[c].chipId].run.state == Full
    && !Stops(t.chips[t.cams[c].chipId].tags, "chip")
    && t.cams[c].state == New && t.cams[c].magicked == t.chips[t.cams[c].chipId].run.magicked
  }

  /** A step that adds a fake run is the addition of a faultless result of good quality
      that made its camera run full with the mark of the chip run. */
  ghost predicate FakeBorn(s: Db, a: Action, t: Db, f: int) {
    && a.AddResult? && a.camFault == 0 && a.camQuality <= 0 && f !in s.fakes && f in t.fakes
    && var c := a.camId;
       && t.fakes[f].camId == c && c !in s.camExps && c in t.cams
       && t.cams[c].state == Full && !Stops(t.cams[c].tags, "cam")
       && t.cams[c].chipId in t.chips && t.cams[c].magicked == t.chips[t.cams[c].chipId].run.magicked
  }

  lemma AdvanceBears(s: Db, rows: seq<AdvanceRow>, c: int)
    requires Inv(s) && Selected(s, rows)
    requires c in AdvanceAll(s, rows).cams && c !in s.cams
    ensures CamBorn(s, Advance(rows), AdvanceAll(s, rows), c)
  {
    AdvanceKeepsInv(s, rows);
    AdvanceAddsCams(s, rows);
    SelectedAreNew(s, rows);
    WantedAreBorn(s, rows, AdvanceAll(s, rows), c);
  }

  lemma SelectedAreNew(s: Db, rows: seq<AdvanceRow>)
    requires Selected(s, rows)
    ensures forall row | row in rows :: row.chipId in s.chips && s.chips[row.chipId].run.state == New
  {
    forall row | row in rows
      ensures row.chipId in s.chips && s.chips[row.chipId].run.state == New
    {
      assert CompletelyProcessed(s, row.chipId);
    }
  }

  lemma WantedAreBorn(s: Db, rows: seq<AdvanceRow>, t: Db, c: int)
    requires forall row | row in rows :: row.chipId in s.chips && s.chips[row.chipId].run.state == New
    requires ChipsAdvanced(s, rows, t) && CamsAdded(s, Wanted(s, rows), t)
    requires c in t.cams && c !in s.cams
    ensures CamBorn(s, Advance(rows), t, c)
  {
    var row := WantedComesFrom(s, rows, c - s.nextCam);
    WantedSays(s, row, t.cams[c]);
    assert t.chips[row.chipId].tags == s.chips[row.chipId].tags;
  }

  lemma WantedSays(s: Db, row: AdvanceRow, cam: CamRun)
    requires row.chipId in s.chips && WantedBy(s, row) == [cam]
    ensures !Stops(s.chips[row.chipId].tags, "chip")
    ensures cam.chipId == row.chipId && cam.state == New && cam.magicked == row.magicked
  {
  }

  lemma {:induction false} WantedComesFrom(s: Db, rows: seq<AdvanceRow>, i: nat) returns (row: AdvanceRow)
    requires forall r | r in rows :: r.chipId in s.chips
    requires i < |Wanted(s, rows)|
    ensures row in rows && WantedBy(s, row) == [Wanted(s, rows)[i]]
  {
    var n := |rows| - 1;
    if i < |Wanted(s, rows[..n])| {
      row := WantedComesFrom(s, rows[..n], i);
    } else {
      row := rows[n];
    }
  }

  lemma NewRunsAreBorn(s: Db, a: Action, t: Db)
    requires Inv(s) && Outcome(s, a, t)
    ensures forall c | c in t.cams && c !in s.cams :: CamBorn(s, a, t, c)
    ensures forall f | f in t.fakes && f !in s.fakes :: FakeBorn(s, a, t, f)
  {
    match a
    case QueueExposures(rows, o) =>
      var n :| 0 <= n <= |rows| && t == QueueAll(s, rows[..n], o);
      QueueKeepsInv(s, rows[..n], o);
    case Advance(rows) =>
      var n :| 0 <= n <= |rows| && t == AdvanceAll(s, rows[..n]);
      SelectedPrefix(s, rows, n);
      AdvanceKeepsOthers(s, rows[..n]);
      forall c | c in t.cams && c !in s.cams
        ensures CamBorn(s, a, t, c)
      {
        AdvanceBears(s, rows[..n], c);
      }
    case ArriveImfile(_, _, _, _, _) =>
    case ChangeState(_, _, _) =>
    case AddResult(_, _, _) =>
    case RevertResults(_) =>
  }

  /** In every history, each camera run was born in a step that made its chip run full,
      with an end_stage that does not mention "chip", and each fake run in a step that made
      its camera run full by a faultless result, with an end_stage that does not mention "cam". */
  lemma {:induction false} EveryRunWasBorn(states: seq<Db>, actions: seq<Action>, n: nat)
    requires History(states, actions) && Inv(states[0]) && n <= |actions|
    ensures forall c | c in states[n].cams && c !in states[0].cams :: CamBornBefore(states, actions, n, c)
    ensures forall f | f in states[n].fakes && f !in states[0].fakes :: FakeBornBefore(states, actions, n, f)
  {
    if n > 0 {
      EveryRunWasBorn(states, actions, n - 1);
      HistoryKeepsInv(states, actions);
      assert Outcome(states[n - 1], actions[n - 1], states[n - 1 + 1]);
      NewRunsAreBorn(states[n - 1], actions[n - 1], states[n]);
    }
  }

  ghost predicate CamBornBefore(states: seq<Db>, actions: seq<Action>, n: nat, c: int)
    requires n <= |actions| < |states|
  {
    exists i | 0 <= i < n :: CamBorn(states[i], actions[i], states[i + 1], c)
  }

  ghost predicate FakeBornBefore(states: seq<Db>, actions: seq<Action>, n: nat, f: int)
    requires n <= |actions| < |states|
  {
    exists i | 0 <= i < n :: FakeBorn(states[i], actions[i], states[i + 1], f)
  }
}
