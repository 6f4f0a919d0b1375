/** The two-level bookkeeping of a processed exposure: every image file carries a
    `state` and a destreak mark `magicked`, and the run above them carries its own,
    which follows the files.  Both the chip stage and the background stages use it,
    with different rules (`Policy`). */
module ImfileStates {

  type ClassId = string

  datatype DataState = New | Full | Cleaned | Purged | Scrubbed | Update | Other(name: string)

  /** `magicked`: 0 never destreaked, positive destreaked, negative destreaking lost. */
  datatype Imfile = Imfile(state: DataState, magicked: int, quality: int, fault: nat)

  datatype Exposure = Exposure(state: DataState, magicked: int, updateMode: int,
                               files: map<ClassId, Imfile>)

  /** The raw exposure (rawExp) and its raw files (rawImfile): their destreak marks. */
  datatype Raw = Raw(magicked: int, files: map<ClassId, int>, ignored: set<ClassId>)

  datatype Policy = Chip(target: DataState) | Background(target: DataState)

  // ---------------------------------------------------------------- rules

  function Restored(raw: int, m: int): int {
    if m < 0 && raw == 0 then m else raw
  }

  function Cleared(m: int): int {
    if m == 0 then 0 else -1
  }

  /** The new mark of the file that is changed. */
  function FileMark(p: Policy, raw: int, m: int): int {
    match p
    case Chip(Full) => Restored(raw, m)
    case Chip(Cleaned) => Cleared(m)
    case Chip(Purged) => Cleared(m)
    case Chip(_) => m
    case Background(_) => Cleared(m)
  }

  /** The new mark of the run, set together with the file. */
  function TouchedMark(p: Policy, m: int): int {
    if p == Chip(Cleaned) || p == Chip(Purged) then Cleared(m) else m
  }

  /** The new mark of the run when it is promoted.  For the chip stage the source prepares a
      clause for the mark, but frees its text before it runs the query, and what is left of
      it falls inside a comment of the query: the mark is not written. */
  function PromotedMark(p: Policy, m: int): int {
    if p.Chip? then m else Cleared(m)
  }

  /** The files that a promotion waits for. */
  predicate Watched(p: Policy, f: Imfile) {
    p.Chip? ==> f.quality == 0
  }

  function NewFile(p: Policy, raw: Raw, f: Imfile, k: ClassId): Imfile {
    f.(state := p.target,
       magicked := FileMark(p, if k in raw.files then raw.files[k] else 0, f.magicked))
  }

  // ---------------------------------------------------------------- one step

  /** The row that the first UPDATE selects; the chip stage joins rawImfile. */
  predicate Matches(p: Policy, raw: Raw, e: Exposure, k: ClassId) {
    k in e.files && (p.Chip? ==> k in raw.files)
  }

  function UpdateFile(p: Policy, raw: Raw, e: Exposure, k: ClassId): Exposure
    requires k in e.files
  {
    e.(files := e.files[k := NewFile(p, raw, e.files[k], k)],
       magicked := TouchedMark(p, e.magicked))
  }

  predicate Ready(p: Policy, e: Exposure) {
    forall k | k in e.files :: Watched(p, e.files[k]) ==> e.files[k].state == p.target
  }

  function SetRun(p: Policy, e: Exposure): Exposure {
    e.(state := p.target,
       updateMode := if p.Chip? then 0 else e.updateMode,
       magicked := PromotedMark(p, e.magicked))
  }

  function Promote(p: Policy, e: Exposure): Exposure {
    if Ready(p, e) then SetRun(p, e) else e
  }

  /** MySQL counts only rows that an UPDATE really changes, and the tool gives up when
      none was. */
  predicate Effective(p: Policy, raw: Raw, e: Exposure, k: ClassId) {
    Matches(p, raw, e, k) && UpdateFile(p, raw, e, k) != e
  }

  function Step(p: Policy, raw: Raw, e: Exposure, k: ClassId): Exposure {
    if Effective(p, raw, e, k) then Promote(p, UpdateFile(p, raw, e, k)) else e
  }

  /** One policy applied to a sequence of files. */
  function Drive(p: Policy, raw: Raw, e: Exposure, ks: seq<ClassId>): Exposure
    decreases |ks|
  {
    if ks == [] then e else Drive(p, raw, Step(p, raw, e, ks[0]), ks[1..])
  }

  lemma {:induction false} DriveAppend(p: Policy, raw: Raw, e: Exposure, ks: seq<ClassId>, js: seq<ClassId>)
    ensures Drive(p, raw, e, ks + js) == Drive(p, raw, Drive(p, raw, e, ks), js)
    decreases |ks|
  {
    if ks == [] {
      assert ks + js == js;
    } else {
      assert (ks + js)[1..] == ks[1..] + js;
      DriveAppend(p, raw, Step(p, raw, e, ks[0]), ks[1..], js);
    }
  }

  // ---------------------------------------------------------------- what a command does, field by field

  /** One command of the chip stage.  It needs the file and its raw file, and otherwise does
      nothing.  The file takes the target state and keeps quality and fault.  If anything
      changed, and all files of quality 0 now have the target state, so has the run. */
  lemma ChipCommand(raw: Raw, e: Exposure, k: ClassId, t: DataState)
    ensures var d := Step(Chip(t), raw, e, k);
      && (k !in e.files || k !in raw.files ==> d == e)
      && d.files.Keys == e.files.Keys
      && (forall j | j in e.files && j != k :: d.files[j] == e.files[j])
      && (k in e.files && k in raw.files ==>
            && d.files[k] == e.files[k].(state := t, magicked := d.files[k].magicked)
            && (t == Full && e.files[k].magicked < 0 && raw.files[k] == 0 ==> d.files[k].magicked == e.files[k].magicked)
            && (t == Full && (e.files[k].magicked >= 0 || raw.files[k] != 0) ==> d.files[k].magicked == raw.files[k])
            && (t == Cleaned || t == Purged ==>
                  && d.files[k].magicked == (if e.files[k].magicked == 0 then 0 else -1)
                  && d.magicked == (if e.magicked == 0 then 0 else -1))
            && (t != Full && t != Cleaned && t != Purged ==> d.files[k].magicked == e.files[k].magicked)
            && (t != Cleaned && t != Purged ==> d.magicked == e.magicked))
      && (if (d.files != e.files || d.magicked != e.magicked)
             && forall j | j in d.files :: d.files[j].quality == 0 ==> d.files[j].state == t
          then d.state == t && d.updateMode == 0
          else d.state == e.state && d.updateMode == e.updateMode)
  {
    var p := Chip(t);
    if Matches(p, raw, e, k) {
      StepSettles(p, raw, e, k);
      var u := UpdateFile(p, raw, e, k);
      assert u == e <==> u.files == e.files && TouchedMark(p, e.magicked) == e.magicked;
    }
  }

  /** One command of a background stage: every mark is lost, the run's only when it is
      promoted, and promotion waits for all files. */
  lemma BackgroundCommand(raw: Raw, e: Exposure, k: ClassId, t: DataState)
    ensures var d := Step(Background(t), raw, e, k);
      && (k !in e.files ==> d == e)
      && d.files.Keys == e.files.Keys && d.updateMode == e.updateMode
      && (forall j | j in e.files && j != k :: d.files[j] == e.files[j])
      && (k in e.files ==>
            d.files[k] == e.files[k].(state := t, magicked := if e.files[k].magicked == 0 then 0 else -1))
      && (if d.files != e.files && forall j | j in d.files :: d.files[j].state == t
          then d.state == t && d.magicked == (if e.magicked == 0 then 0 else -1)
          else d.state == e.state && d.magicked == e.magicked)
  {
    var p := Background(t);
    if Matches(p, raw, e, k) {
      StepSettles(p, raw, e, k);
      assert UpdateFile(p, raw, e, k) == e <==> UpdateFile(p, raw, e, k).files == e.files;
    }
  }

  /** A step settles its own file and the touched mark, and leaves the other files. */
  lemma StepSettles(p: Policy, raw: Raw, e: Exposure, k: ClassId)
    requires Matches(p, raw, e, k)
    ensures var t := Step(p, raw, e, k);
      && t.files.Keys == e.files.Keys
      && t.files[k] == NewFile(p, raw, e.files[k], k) == NewFile(p, raw, t.files[k], k)
      && (forall j | j in e.files && j != k :: t.files[j] == e.files[j])
      && TouchedMark(p, t.magicked) == t.magicked
  {
    if !Effective(p, raw, e, k) {
      assert UpdateFile(p, raw, e, k).files[k] == e.files[k];
    }
  }

  // ---------------------------------------------------------------- driving a whole run

  predicate Visited(p: Policy, raw: Raw, e: Exposure, ks: seq<ClassId>, k: ClassId) {
    k in ks && Matches(p, raw, e, k)
  }

  /** All visited files changed at once. */
  function Visit(p: Policy, raw: Raw, e: Exposure, ks: seq<ClassId>): Exposure {
    e.(files := map k | k in e.files ::
                  if Visited(p, raw, e, ks, k) then NewFile(p, raw, e.files[k], k) else e.files[k],
       magicked := if exists k | k in ks :: Visited(p, raw, e, ks, k) then TouchedMark(p, e.magicked) else e.magicked)
  }

  /** What driving files one by one must come to: the visited files changed at once and, if
      that changed anything, one look whether the run is to be promoted. */
  function Driven(p: Policy, raw: Raw, e: Exposure, ks: seq<ClassId>): Exposure {
    var u := Visit(p, raw, e, ks);
    if u == e then e else Promote(p, u)
  }

  /** Driving any sequence of files, with unknown files and repetitions among them, from any
      state of the run and of the files, comes to that. */
  lemma {:induction false} DriveIsOneVisit(p: Policy, raw: Raw, e: Exposure, ks: seq<ClassId>)
    ensures Drive(p, raw, e, ks) == Driven(p, raw, e, ks)
    decreases |ks|
  {
    if ks == [] {
      VisitNothing(p, raw, e);
    } else {
      var n := |ks| - 1;
      var js, k := ks[..n], ks[n];
      assert ks == js + [k];
      DriveIsOneVisit(p, raw, e, js);
      DriveAppend(p, raw, e, js, [k]);
      DrivenStep(p, raw, e, js, k);
    }
  }

  lemma VisitNothing(p: Policy, raw: Raw, e: Exposure)
    ensures Visit(p, raw, e, []) == e
  {
    assert Visit(p, raw, e, []).files == e.files;
  }

  lemma DrivenStep(p: Policy, raw: Raw, e: Exposure, js: seq<ClassId>, k: ClassId)
    ensures Step(p, raw, Driven(p, raw, e, js), k) == Driven(p, raw, e, js + [k])
  {
    if Matches(p, raw, e, k) {
      VisitOneMore(p, raw, e, js, k);
      if Visit(p, raw, e, js + [k]) == e {
        ChangesStay(p, raw, e, js, k);
      }
      StepAfterVisit(p, raw, Visit(p, raw, e, js), k);
    } else {
      VisitUnknown(p, raw, e, js, k);
    }
  }

  /** A step from a state that was promoted already, or that was not, promotes exactly like
      the visit. */
  lemma StepAfterVisit(p: Policy, raw: Raw, u: Exposure, k: ClassId)
    requires Matches(p, raw, u, k)
    ensures var w := UpdateFile(p, raw, u, k);
      && (Ready(p, u) ==> Ready(p, w) && Step(p, raw, SetRun(p, u), k) == SetRun(p, w))
      && Step(p, raw, u, k) == if w == u then u else Promote(p, w)
  {
    var w, d := UpdateFile(p, raw, u, k), SetRun(p, u);
    assert UpdateFile(p, raw, d, k).files == w.files;
    if Ready(p, u) && UpdateFile(p, raw, d, k) == d {
      assert w.files == u.files;
    }
  }

  lemma VisitUnknown(p: Policy, raw: Raw, e: Exposure, js: seq<ClassId>, k: ClassId)
    requires !Matches(p, raw, e, k)
    ensures Visit(p, raw, e, js + [k]) == Visit(p, raw, e, js)
  {
    assert forall j :: Visited(p, raw, e, js + [k], j) <==> Visited(p, raw, e, js, j);
    assert Visit(p, raw, e, js + [k]).files == Visit(p, raw, e, js).files;
  }

  lemma VisitOneMore(p: Policy, raw: Raw, e: Exposure, js: seq<ClassId>, k: ClassId)
    requires Matches(p, raw, e, k)
    ensures UpdateFile(p, raw, Visit(p, raw, e, js), k) == Visit(p, raw, e, js + [k])
  {
    var u, v := Visit(p, raw, e, js), Visit(p, raw, e, js + [k]);
    assert forall j :: Visited(p, raw, e, js + [k], j) <==> Visited(p, raw, e, js, j) || j == k;
    assert Visited(p, raw, e, js + [k], k);
    assert UpdateFile(p, raw, u, k).files == v.files;
  }

  lemma ChangesStay(p: Policy, raw: Raw, e: Exposure, js: seq<ClassId>, k: ClassId)
    requires Visit(p, raw, e, js + [k]) == e
    ensures Visit(p, raw, e, js) == e
  {
    var v := Visit(p, raw, e, js + [k]);
    assert forall j :: Visited(p, raw, e, js, j) ==> Visited(p, raw, e, js + [k], j);
    assert forall j | j in e.files :: v.files[j] == e.files[j];
    assert Visit(p, raw, e, js).files == e.files;
  }

  /** So only the set of the visited files counts: any order and any repetition ends in the
      same files, run state and marks. */
  lemma OrderDoesNotMatter(p: Policy, raw: Raw, e: Exposure, ks: seq<ClassId>, js: seq<ClassId>)
    requires forall k :: k in ks <==> k in js
    ensures Drive(p, raw, e, ks) == Drive(p, raw, e, js)
  {
    DriveIsOneVisit(p, raw, e, ks);
    DriveIsOneVisit(p, raw, e, js);
    assert forall k :: Visited(p, raw, e, ks, k) <==> Visited(p, raw, e, js, k);
    assert Visit(p, raw, e, ks).files == Visit(p, raw, e, js).files;
  }

  // ---------------------------------------------------------------- promotion

  /** The files that a promotion still waits for. */
  predicate Awaited(p: Policy, e: Exposure, k: ClassId) {
    k in e.files && Watched(p, e.files[k]) && e.files[k].state != p.target
  }

  ghost predicate AllAwaitedVisited(p: Policy, raw: Raw, e: Exposure, ks: seq<ClassId>) {
    forall k | k in e.files :: Awaited(p, e, k) ==> Visited(p, raw, e, ks, k)
  }

  /** A run that is not yet in the target state takes it exactly when the last file it waits
      for was visited, whatever states the other files are in.  If it waits for none, it
      takes the state with the first command that changes anything. */
  lemma PromotedAtLastFile(p: Policy, raw: Raw, e: Exposure, ks: seq<ClassId>)
    requires e.state != p.target
    ensures (exists k | k in e.files :: Awaited(p, e, k)) ==>
              (Drive(p, raw, e, ks).state == p.target <==> AllAwaitedVisited(p, raw, e, ks))
    ensures (forall k | k in e.files :: !Awaited(p, e, k)) ==>
              (Drive(p, raw, e, ks).state == p.target <==> Visit(p, raw, e, ks) != e)
    ensures Drive(p, raw, e, ks).state == p.target || Drive(p, raw, e, ks).state == e.state
  {
    var u := Visit(p, raw, e, ks);
    DriveIsOneVisit(p, raw, e, ks);
    ReadyWhenVisited(p, raw, e, ks);
    if k :| k in e.files && Awaited(p, e, k) && AllAwaitedVisited(p, raw, e, ks) {
      assert u.files[k].state == p.target;
    }
  }

  lemma ReadyWhenVisited(p: Policy, raw: Raw, e: Exposure, ks: seq<ClassId>)
    ensures Ready(p, Visit(p, raw, e, ks)) <==> AllAwaitedVisited(p, raw, e, ks)
  {
    var u := Visit(p, raw, e, ks);
    forall k | k in e.files
      ensures Watched(p, u.files[k]) && u.files[k].state != p.target <==> Awaited(p, e, k) && !Visited(p, raw, e, ks, k)
    {
    }
  }

  /** The run's mark at every point of the way. */
  lemma MarkOnTheWay(p: Policy, raw: Raw, e: Exposure, ks: seq<ClassId>)
    requires forall k | k in ks :: Matches(p, raw, e, k)
    ensures p.Chip? ==> Drive(p, raw, e, ks).magicked == if ks == [] then e.magicked else TouchedMark(p, e.magicked)
    ensures p.Background? && Visit(p, raw, e, ks) != e ==>
              Drive(p, raw, e, ks).magicked == if AllAwaitedVisited(p, raw, e, ks) then Cleared(e.magicked) else e.magicked
  {
    DriveIsOneVisit(p, raw, e, ks);
    ReadyWhenVisited(p, raw, e, ks);
    if ks == [] {
      VisitNothing(p, raw, e);
    } else {
      assert Visited(p, raw, e, ks, ks[0]);
    }
  }

  /** For a chip run that means: as long as a file of quality 0 has not the target state, the
      run takes it exactly when all of these were visited, whatever becomes of the files of
      another quality. */
  lemma ChipPromotedExactly(t: DataState, raw: Raw, e: Exposure, ks: seq<ClassId>)
    requires e.state != t
    requires exists k | k in e.files :: e.files[k].quality == 0 && e.files[k].state != t
    ensures Drive(Chip(t), raw, e, ks).state == t
            <==> forall k | k in e.files && e.files[k].quality == 0 && e.files[k].state != t :: k in ks && k in raw.files
  {
    var k :| k in e.files && e.files[k].quality == 0 && e.files[k].state != t;
    assert Awaited(Chip(t), e, k);
    PromotedAtLastFile(Chip(t), raw, e, ks);
  }

  /** For a background run all files count. */
  lemma BackgroundPromotedExactly(t: DataState, raw: Raw, e: Exposure, ks: seq<ClassId>)
    requires e.state != t && exists k | k in e.files :: e.files[k].state != t
    ensures Drive(Background(t), raw, e, ks).state == t
            <==> forall k | k in e.files && e.files[k].state != t :: k in ks
  {
    var k :| k in e.files && e.files[k].state != t;
    assert Awaited(Background(t), e, k);
    PromotedAtLastFile(Background(t), raw, e, ks);
  }
}
