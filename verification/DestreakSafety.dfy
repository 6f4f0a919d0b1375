/** What the four commands `-tofullimfile`, `-tocleanedimfile`, `-topurgedimfile` and
    `-toscrubbedimfile` keep, over every history, about the destreak marks of one chip
    run.  A positive run mark releases the run to the public stages, so it must not stand
    above a file whose destreaking was lost. */
module DestreakSafety {
  import opened ImfileStates
  import opened Pipeline

  datatype Command = Command(target: DataState, class_id: ClassId)

  ghost predicate Commands(h: seq<Command>) {
    forall c | c in h :: IsTarget(c.target)
  }

  function Do(raw: Raw, e: Exposure, c: Command): Exposure {
    Step(Chip(c.target), raw, e, c.class_id)
  }

  function Replay(raw: Raw, e: Exposure, h: seq<Command>): Exposure
    decreases |h|
  {
    if h == [] then e else Replay(raw, Do(raw, e, h[0]), h[1..])
  }

  // ---------------------------------------------------------------- safety

  ghost predicate AllFilesSafe(e: Exposure) {
    e.magicked > 0 ==> forall k | k in e.files :: e.files[k].magicked >= 0
  }

  /** A file that lost its destreaking, though its raw file is destreaked, is not full. */
  ghost predicate LostNotFull(raw: Raw, e: Exposure) {
    forall k | k in e.files && k in raw.files ::
      e.files[k].magicked < 0 && raw.files[k] > 0 ==> e.files[k].state != Full
  }

  /** The raw marks of the run's files are not negative. */
  ghost predicate RawMarks(raw: Raw, e: Exposure) {
    forall k | k in e.files && k in raw.files :: raw.files[k] >= 0
  }

  /** Over every history of the four commands a run with a positive mark has no file with a
      negative one, whatever the files' quality. */
  lemma {:induction false} FilesStaySafe(raw: Raw, e: Exposure, h: seq<Command>)
    requires Commands(h) && RawMarks(raw, e) && AllFilesSafe(e)
    ensures AllFilesSafe(Replay(raw, e, h)) && RawMarks(raw, Replay(raw, e, h))
    decreases |h|
  {
    if h != [] {
      FilesStaySafe(raw, Do(raw, e, h[0]), h[1..]);
    }
  }

  /** A full file never has lost its destreaking where the raw file is destreaked. */
  lemma {:induction false} FullFilesStayDestreaked(raw: Raw, e: Exposure, h: seq<Command>)
    requires Commands(h) && LostNotFull(raw, e)
    ensures LostNotFull(raw, Replay(raw, e, h))
    decreases |h|
  {
    if h != [] {
      FullFilesStayDestreaked(raw, Do(raw, e, h[0]), h[1..]);
    }
  }

  /** Safety holds over every history exactly if it holds at the start and, should the run
      have a positive mark, no raw file of it has a negative one. */
  lemma AllFilesSafeExactly(raw: Raw, e: Exposure)
    ensures (forall h | Commands(h) :: AllFilesSafe(Replay(raw, e, h)))
            <==> AllFilesSafe(e) && (e.magicked > 0 ==> RawMarks(raw, e))
  {
    if AllFilesSafe(e) && (e.magicked > 0 ==> RawMarks(raw, e)) {
      forall h | Commands(h)
        ensures AllFilesSafe(Replay(raw, e, h))
      {
        if e.magicked > 0 {
          FilesStaySafe(raw, e, h);
        } else {
          RunMarkExactly(raw, e, h);
        }
      }
    } else {
      var h := UnsafeHistory(raw, e);
      assert Commands(h) && !AllFilesSafe(Replay(raw, e, h));
    }
  }

  /** Making the file with the negative raw mark full is enough. */
  lemma UnsafeHistory(raw: Raw, e: Exposure) returns (h: seq<Command>)
    requires AllFilesSafe(e) ==> e.magicked > 0 && !RawMarks(raw, e)
    ensures Commands(h) && !AllFilesSafe(Replay(raw, e, h))
  {
    if !AllFilesSafe(e) {
      h := [];
    } else {
      var k :| k in e.files && k in raw.files && raw.files[k] < 0;
      h := [Command(Full, k)];
      StepSettles(Chip(Full), raw, e, k);
      var t := Do(raw, e, h[0]);
      assert t.files[k].magicked < 0 && t.magicked == e.magicked;
      assert Replay(raw, e, h) == Replay(raw, t, h[1..]) == t;
    }
  }

  // ---------------------------------------------------------------- marks

  /** What one effective command does to the marks.  Cleaning and purging leave file and
      run without a positive mark, and without any exactly if there was none; scrubbing
      changes no mark; making full gives the file the mark of its raw file unless it is
      blocked, and leaves the mark of the run alone even when it is promoted. */
  lemma MarksAfterStep(raw: Raw, e: Exposure, c: Command)
    requires IsTarget(c.target) && Effective(Chip(c.target), raw, e, c.class_id)
    ensures var k, t := c.class_id, Do(raw, e, c);
      && k in t.files && t.files[k].state == c.target
      && (forall j | j in e.files && j != k :: j in t.files && t.files[j] == e.files[j])
      && (c.target == Cleaned || c.target == Purged ==>
            && t.files[k].magicked <= 0 && (t.files[k].magicked == 0 <==> e.files[k].magicked == 0)
            && t.magicked <= 0 && (t.magicked == 0 <==> e.magicked == 0))
      && (c.target == Scrubbed ==> t.files[k].magicked == e.files[k].magicked)
      && (c.target == Full ==>
            t.files[k].magicked == if e.files[k].magicked < 0 && raw.files[k] == 0 then e.files[k].magicked else raw.files[k])
      && (c.target == Scrubbed || c.target == Full ==> t.magicked == e.magicked)
  {
    StepSettles(Chip(c.target), raw, e, c.class_id);
  }

  /** Some command of the history cleans or purges a file of the run. */
  predicate Loses(raw: Raw, e: Exposure, h: seq<Command>)
    decreases |h|
  {
    && h != []
    && ((Effective(Chip(h[0].target), raw, e, h[0].class_id) && (h[0].target == Cleaned || h[0].target == Purged))
        || Loses(raw, Do(raw, e, h[0]), h[1..]))
  }

  /** The mark of the run after any history: lost by the first file that is cleaned or
      purged, and by nothing else; and never restored. */
  lemma {:induction false} RunMarkExactly(raw: Raw, e: Exposure, h: seq<Command>)
    requires Commands(h)
    ensures Replay(raw, e, h).magicked == if Loses(raw, e, h) then Cleared(e.magicked) else e.magicked
    ensures Replay(raw, e, h).magicked == e.magicked <==> !Loses(raw, e, h) || e.magicked == 0 || e.magicked == -1
    decreases |h|
  {
    if h != [] {
      RunMarkExactly(raw, Do(raw, e, h[0]), h[1..]);
    }
  }

  /** The source promises (in the comment above the rules) that a run promoted to full gets
      the mark of its raw exposure, unless it is blocked.  It does so exactly if that mark is
      the one it has already, or it is blocked. */
  lemma RestoredExactly(raw: Raw, e: Exposure, k: ClassId)
    requires Effective(Chip(Full), raw, e, k) && Ready(Chip(Full), UpdateFile(Chip(Full), raw, e, k))
    ensures Step(Chip(Full), raw, e, k).state == Full
    ensures Step(Chip(Full), raw, e, k).magicked == Restored(raw.magicked, e.magicked)
            <==> raw.magicked == e.magicked || (e.magicked < 0 && raw.magicked == 0)
  {
  }

  /** So a destreaked run all of whose files are cleaned and then made full again has every
      file back with its raw mark, is itself full, and keeps a lost mark for good. */
  lemma LostForGood(raw: Raw, e: Exposure, ks: seq<ClassId>, h: seq<Command>)
    requires e.magicked > 0 && e.files != map[] && e.files.Keys <= raw.files.Keys
    requires forall k | k in e.files :: k in ks && e.files[k].magicked > 0 && raw.files[k] > 0
    requires Commands(h)
    ensures var t := Drive(Chip(Full), raw, Drive(Chip(Cleaned), raw, e, ks), ks);
      && t.state == Full && t.magicked == -1
      && t.files.Keys == e.files.Keys
      && (forall k | k in e.files :: t.files[k].state == Full && t.files[k].magicked == raw.files[k])
      && Replay(raw, t, h).magicked == -1
  {
    var lost := Drive(Chip(Cleaned), raw, e, ks);
    AllCleaned(raw, e, ks);
    var t := Drive(Chip(Full), raw, lost, ks);
    AllMadeFull(raw, lost, ks);
    RunMarkExactly(raw, t, h);
  }

  lemma AllCleaned(raw: Raw, e: Exposure, ks: seq<ClassId>)
    requires e.magicked > 0 && e.files != map[] && e.files.Keys <= raw.files.Keys
    requires forall k | k in e.files :: k in ks && e.files[k].magicked > 0
    ensures var lost := Drive(Chip(Cleaned), raw, e, ks);
      && lost.magicked == -1 && lost.files.Keys == e.files.Keys
      && forall k | k in e.files :: lost.files[k].state == Cleaned && lost.files[k].magicked == -1
  {
    DriveIsOneVisit(Chip(Cleaned), raw, e, ks);
    var k :| k in e.files;
    assert Visited(Chip(Cleaned), raw, e, ks, k);
    assert Visit(Chip(Cleaned), raw, e, ks).files[k] != e.files[k];
  }

  lemma AllMadeFull(raw: Raw, e: Exposure, ks: seq<ClassId>)
    requires e.files != map[] && e.files.Keys <= raw.files.Keys
    requires forall k | k in e.files :: k in ks && e.files[k].state != Full && raw.files[k] > 0
    ensures var t := Drive(Chip(Full), raw, e, ks);
      && t.state == Full && t.magicked == e.magicked && t.files.Keys == e.files.Keys
      && forall k | k in e.files :: t.files[k].state == Full && t.files[k].magicked == raw.files[k]
  {
    DriveIsOneVisit(Chip(Full), raw, e, ks);
    var k :| k in e.files;
    assert Visited(Chip(Full), raw, e, ks, k);
    assert Visit(Chip(Full), raw, e, ks).files[k] != e.files[k];
  }

  // ---------------------------------------------------------------- the destreak block

  /** Where a raw file is not destreaked, a lost mark stays lost; the lost mark of a run
      stays lost whatever its raw exposure says. */
  lemma {:induction false} BlockPersists(raw: Raw, e: Exposure, h: seq<Command>)
    requires Commands(h)
    ensures forall k | k in e.files && k in raw.files && raw.files[k] == 0 && e.files[k].magicked < 0 ::
              k in Replay(raw, e, h).files && Replay(raw, e, h).files[k].magicked < 0
    ensures e.magicked < 0 ==> Replay(raw, e, h).magicked < 0
    decreases |h|
  {
    if h != [] {
      BlockPersists(raw, Do(raw, e, h[0]), h[1..]);
    }
  }
}
