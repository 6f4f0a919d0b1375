/** The tables that the chip, camera and fake stages share, and what one committed step of
    each tool does to them.  A chip run's files are kept inside the run, as the foreign
    keys of chipProcessedImfile require. */
module Pipeline {
  import opened ImfileStates
  import opened Wrappers

  /** The columns a run hands down to the run of the next stage. */
  datatype Tags = Tags(workdir: Option<string>, runLabel: Option<string>, dataGroup: Option<string>,
                       distGroup: Option<string>, reduction: Option<string>, expgroup: Option<string>,
                       dvodb: Option<string>, tessId: Option<string>, endStage: Option<string>)

  datatype ChipRun = ChipRun(expId: int, tags: Tags, planned: set<ClassId>, run: Exposure)
  datatype CamRun = CamRun(chipId: int, state: DataState, magicked: int, tags: Tags)
  datatype CamExp = CamExp(fault: int, quality: int)
  datatype FakeRun = FakeRun(camId: int, state: DataState, tags: Tags)

  datatype Db = Db(raws: map<int, Raw>,
                   chips: map<int, ChipRun>, nextChip: int,
                   cams: map<int, CamRun>, nextCam: int,
                   camExps: map<int, CamExp>,
                   fakes: map<int, FakeRun>, nextFake: int)

  // ---------------------------------------------------------------- end_stage

  function Lower(c: char): char {
    if 'A' <= c <= 'Z' then c - 'A' + 'a' else c
  }

  /** Whether `needle` occurs in `s`, ignoring case. */
  predicate Mentions(s: string, needle: string) {
    exists i | 0 <= i <= |s| - |needle| :: OccursAt(s, needle, i)
  }

  predicate OccursAt(s: string, needle: string, i: nat)
    requires i + |needle| <= |s|
  {
    forall j | 0 <= j < |needle| :: Lower(s[i + j]) == Lower(needle[j])
  }

  /** No end_stage means: go as far as possible. */
  predicate Stops(tags: Tags, stage: string) {
    tags.endStage.Some? && Mentions(tags.endStage.value, stage)
  }

  /** The queueing queries write an absent value as the text NULL. */
  function Quoted(v: Option<string>): Option<string> {
    match v
    case None => Some("NULL")
    case Some(_) => v
  }

  function Inherit(t: Tags): Tags {
    Tags(Quoted(t.workdir), Quoted(t.runLabel), Quoted(t.dataGroup), Quoted(t.distGroup),
         Quoted(t.reduction), Quoted(t.expgroup), Quoted(t.dvodb), Quoted(t.tessId), Quoted(t.endStage))
  }

  // ---------------------------------------------------------------- chip stage: queueing

  datatype ExpRow = ExpRow(expId: int, tags: Tags)

  /** Command-line values win over those of the exposure; the data group falls back on
      the label. */
  function Resolve(o: Tags, r: Tags): Tags {
    Tags(Or(o.workdir, r.workdir), Or(o.runLabel, r.runLabel), Or(o.dataGroup, Or(o.runLabel, r.runLabel)),
         o.distGroup, Or(o.reduction, r.reduction), o.expgroup, Or(o.dvodb, r.dvodb),
         Or(o.tessId, r.tessId), Or(o.endStage, r.endStage))
  }

  function QueueOne(db: Db, r: ExpRow, o: Tags): Db {
    if r.expId !in db.raws then db else
    db.(chips := db.chips[db.nextChip :=
                   ChipRun(r.expId, Resolve(o, r.tags), db.raws[r.expId].files.Keys,
                           Exposure(New, 0, 0, map[]))],
        nextChip := db.nextChip + 1)
  }

  function QueueAll(db: Db, rows: seq<ExpRow>, o: Tags): Db {
    if rows == [] then db
    else QueueOne(QueueAll(db, rows[..|rows| - 1], o), rows[|rows| - 1], o)
  }

  // ---------------------------------------------------------------- chip stage: files

  function AddImfile(db: Db, id: int, k: ClassId, magicked: int, quality: int, fault: nat): Db {
    if id !in db.chips || db.chips[id].expId !in db.raws
       || k !in db.raws[db.chips[id].expId].files || k in db.chips[id].run.files then db
    else
      var e := db.chips[id].run;
      PutRun(db, id, e.(files := e.files[k := Imfile(Full, magicked, quality, fault)]))
  }

  function PutRun(db: Db, id: int, e: Exposure): Db
    requires id in db.chips
  {
    db.(chips := db.chips[id := db.chips[id].(run := e)])
  }

  /** The targets of the four commands that change a file. */
  predicate IsTarget(target: DataState) {
    target == Full || target == Cleaned || target == Purged || target == Scrubbed
  }

  function ChangeImfile(db: Db, id: int, k: ClassId, target: DataState): Db {
    if id !in db.chips || db.chips[id].expId !in db.raws then db
    else PutRun(db, id, Step(Chip(target), db.raws[db.chips[id].expId], db.chips[id].run, k))
  }

  // ---------------------------------------------------------------- chip stage: advancing

  datatype AdvanceRow = AdvanceRow(chipId: int, magicked: int)

  /** A new run, all of whose raw files that are not ignored were processed without fault,
      at least one of them with good quality. */
  ghost predicate CompletelyProcessed(db: Db, id: int) {
    && id in db.chips && db.chips[id].run.state == New && db.chips[id].expId in db.raws
    && var raw, e := db.raws[db.chips[id].expId], db.chips[id].run;
       && (forall k | k in raw.files && k !in raw.ignored :: k in e.files && e.files[k].fault == 0)
       && (exists k :: k in raw.files && k !in raw.ignored && k in e.files && e.files[k].quality <= 0)
  }

  /** The answer of the selecting query: distinct completely processed runs, each with the
      mark of one of its files. */
  ghost predicate Selected(db: Db, rows: seq<AdvanceRow>) {
    && (forall i | 0 <= i < |rows| :: CompletelyProcessed(db, rows[i].chipId) && MarkOfAFile(db, rows[i]))
    && (forall i, j | 0 <= i < j < |rows| :: rows[i].chipId != rows[j].chipId)
  }

  ghost predicate MarkOfAFile(db: Db, row: AdvanceRow)
    requires row.chipId in db.chips
  {
    exists k :: k in db.chips[row.chipId].run.files
             && db.chips[row.chipId].run.files[k].magicked == row.magicked
  }

  function SetChipFull(db: Db, row: AdvanceRow): Db
    requires row.chipId in db.chips
  {
    PutRun(db, row.chipId, db.chips[row.chipId].run.(state := Full, magicked := row.magicked))
  }

  /** The queueing query selects the chip run again, and only if it is full. */
  function QueueCam(db: Db, chipId: int, magicked: int, tags: Tags): Db {
    if chipId !in db.chips || db.chips[chipId].run.state != Full then db else
    db.(cams := db.cams[db.nextCam := CamRun(chipId, New, magicked, Inherit(tags))],
        nextCam := db.nextCam + 1)
  }

  function AdvanceOne(db: Db, row: AdvanceRow): Db {
    if row.chipId !in db.chips then db
    else if Stops(db.chips[row.chipId].tags, "chip") then SetChipFull(db, row)
    else QueueCam(SetChipFull(db, row), row.chipId, row.magicked, db.chips[row.chipId].tags)
  }

  function AdvanceAll(db: Db, rows: seq<AdvanceRow>): Db {
    if rows == [] then db
    else AdvanceOne(AdvanceAll(db, rows[..|rows| - 1]), rows[|rows| - 1])
  }

  // ---------------------------------------------------------------- camera stage

  predicate Pending(db: Db, c: int) {
    && c in db.cams && db.cams[c].chipId in db.chips
    && db.chips[db.cams[c].chipId].run.state == Full
    && ((db.cams[c].state == New && c !in db.camExps) || db.cams[c].state == Update)
  }

  function InsertExp(db: Db, c: int, fault: int, quality: int): Db {
    db.(camExps := db.camExps[c := CamExp(fault, quality)])
  }

  function SetCamFull(db: Db, c: int): Db
    requires c in db.cams && db.cams[c].chipId in db.chips
  {
    db.(cams := db.cams[c := db.cams[c].(state := Full,
                                         magicked := db.chips[db.cams[c].chipId].run.magicked)])
  }

  function QueueFake(db: Db, c: int): Db
    requires c in db.cams
  {
    db.(fakes := db.fakes[db.nextFake := FakeRun(c, New, Inherit(db.cams[c].tags))],
        nextFake := db.nextFake + 1)
  }

  function AddExp(db: Db, c: int, fault: int, quality: int): Db
    requires c in db.cams && db.cams[c].chipId in db.chips
  {
    var ins := InsertExp(db, c, fault, quality);
    if fault != 0 then ins
    else if quality > 0 || Stops(db.cams[c].tags, "cam") then SetCamFull(ins, c)
    else QueueFake(SetCamFull(ins, c), c)
  }

  /** The first half of a revert: forget the faulted results of the selected new runs. */
  function DeleteFaulted(db: Db, which: set<int>): Db {
    db.(camExps := map c | c in db.camExps && !Forgotten(db, which, c) :: db.camExps[c])
  }

  predicate Forgotten(db: Db, which: set<int>, c: int)
    requires c in db.camExps
  {
    c in which && c in db.cams && db.cams[c].state == New && db.camExps[c].fault != 0
  }

  /** The second half: clear the faults of the selected runs that are being updated. */
  function ClearFaults(db: Db, which: set<int>): Db {
    db.(camExps := map c | c in db.camExps ::
          if c in which && c in db.cams && db.cams[c].state == Update
          then db.camExps[c].(fault := 0) else db.camExps[c])
  }

  function Revert(db: Db, which: set<int>): Db {
    ClearFaults(DeleteFaulted(db, which), which)
  }
}
