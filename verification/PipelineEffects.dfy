/** What the steps on the chip, camera and fake tables do, column by column. */
module PipelineEffects {
  import opened ImfileStates
  import opened Pipeline
  import opened Wrappers

  // ---------------------------------------------------------------- end_stage

  /** Two characters that are equal or the two cases of one letter. */
  predicate SameLetter(a: char, b: char) {
    || a == b
    || ('A' <= a <= 'Z' && b as int == a as int + 32)
    || ('A' <= b <= 'Z' && a as int == b as int + 32)
  }

  lemma LowerIsSameLetter(a: char, b: char)
    ensures Lower(a) == Lower(b) <==> SameLetter(a, b)
  {
  }

  predicate SpelledAt(s: string, word: string, i: int) {
    0 <= i <= |s| - |word| && forall j | 0 <= j < |word| :: SameLetter(s[i + j], word[j])
  }

  /** A text mentions a word if at some offset each of its characters is that of the word or
      its other case. */
  lemma MentionsExactly(s: string, word: string)
    ensures Mentions(s, word) <==> exists i | 0 <= i <= |s| - |word| :: SpelledAt(s, word, i)
  {
    forall i | 0 <= i <= |s| - |word|
      ensures OccursAt(s, word, i) <==> SpelledAt(s, word, i)
    {
      forall j | 0 <= j < |word|
        ensures Lower(s[i + j]) == Lower(word[j]) <==> SameLetter(s[i + j], word[j])
      {
        LowerIsSameLetter(s[i + j], word[j]);
      }
    }
    if i :| 0 <= i <= |s| - |word| && SpelledAt(s, word, i) {
      assert OccursAt(s, word, i);
    }
  }

  /** A run stops after a stage exactly if its end_stage is there and spells the stage. */
  lemma StopsExactly(tags: Tags, stage: string)
    ensures Stops(tags, stage) <==>
              && tags.endStage.Some?
              && exists i | 0 <= i <= |tags.endStage.value| - |stage| :: SpelledAt(tags.endStage.value, stage, i)
  {
    if tags.endStage.Some? {
      MentionsExactly(tags.endStage.value, stage);
    }
  }

  // ---------------------------------------------------------------- tags

  /** A value handed down: an absent one becomes the text NULL. */
  ghost predicate Reaches(from: Option<string>, to: Option<string>) {
    to.Some? && (from.Some? ==> to == from) && (from.None? ==> to.value == "NULL")
  }

  ghost predicate AllReach(t: Tags, u: Tags) {
    && Reaches(t.workdir, u.workdir) && Reaches(t.runLabel, u.runLabel)
    && Reaches(t.dataGroup, u.dataGroup) && Reaches(t.distGroup, u.distGroup)
    && Reaches(t.reduction, u.reduction) && Reaches(t.expgroup, u.expgroup)
    && Reaches(t.dvodb, u.dvodb) && Reaches(t.tessId, u.tessId) && Reaches(t.endStage, u.endStage)
  }

  lemma InheritReaches(t: Tags)
    ensures AllReach(t, Inherit(t))
  {
  }

  // ---------------------------------------------------------------- chip stage

  /** The result of a file is recorded, full, for a planned raw file that has none yet;
      nothing else changes. */
  lemma AddImfileEffect(db: Db, id: int, k: ClassId, magicked: int, quality: int, fault: nat)
    ensures var t := AddImfile(db, id, k, magicked, quality, fault);
      if id in db.chips && db.chips[id].expId in db.raws
         && k in db.raws[db.chips[id].expId].files && k !in db.chips[id].run.files
      then
        var c := db.chips[id];
        t == db.(chips := db.chips[id := c.(run := c.run.(files :=
                    c.run.files[k := Imfile(Full, magicked, quality, fault)]))])
      else t == db
  {
  }

  /** Changing a file touches nothing but the run it belongs to, and that as the command
      does. */
  lemma ChangeImfileEffect(db: Db, id: int, k: ClassId, target: DataState)
    ensures var t := ChangeImfile(db, id, k, target);
      if id in db.chips && db.chips[id].expId in db.raws
      then t == db.(chips := db.chips[id := db.chips[id].(run :=
                     Step(Chip(target), db.raws[db.chips[id].expId], db.chips[id].run, k))])
      else t == db
  {
  }

  /** A run is selected for advancing only if it is new, every raw file that is not ignored
      was processed without fault, at least one of them well, and the mark is that of one of
      its files. */
  lemma SelectedWereProcessed(db: Db, rows: seq<AdvanceRow>, row: AdvanceRow)
    requires Selected(db, rows) && row in rows
    ensures row.chipId in db.chips && db.chips[row.chipId].expId in db.raws
    ensures var raw, e := db.raws[db.chips[row.chipId].expId], db.chips[row.chipId].run;
      && e.state == New
      && (forall k | k in raw.files && k !in raw.ignored :: k in e.files && e.files[k].fault == 0)
      && (exists k | k in raw.files :: k !in raw.ignored && k in e.files && e.files[k].quality <= 0)
      && (exists k | k in e.files :: e.files[k].magicked == row.magicked)
  {
    assert CompletelyProcessed(db, row.chipId) && MarkOfAFile(db, row);
  }

  /** Advancing one run makes it full with the selected mark and, unless its end_stage spells
      chip, adds one new camera run with that mark and its tags. */
  lemma AdvanceOneEffect(db: Db, row: AdvanceRow)
    requires row.chipId in db.chips
    ensures var c, t := db.chips[row.chipId], AdvanceOne(db, row);
      t == db.(chips := db.chips[row.chipId := c.(run := c.run.(state := Full, magicked := row.magicked))],
               cams := t.cams, nextCam := t.nextCam)
    ensures var c, t := db.chips[row.chipId], AdvanceOne(db, row);
      if c.tags.endStage.Some?
         && exists i | 0 <= i <= |c.tags.endStage.value| - 4 :: SpelledAt(c.tags.endStage.value, "chip", i)
      then t.cams == db.cams && t.nextCam == db.nextCam
      else && t.nextCam == db.nextCam + 1 && db.nextCam in t.cams && AllReach(c.tags, t.cams[db.nextCam].tags)
           && t.cams == db.cams[db.nextCam := CamRun(row.chipId, New, row.magicked, t.cams[db.nextCam].tags)]
  {
    InheritReaches(db.chips[row.chipId].tags);
    StopsExactly(db.chips[row.chipId].tags, "chip");
  }

  // ---------------------------------------------------------------- camera stage

  /** A result of a camera run.  With a fault, the result row is all there is.  Without, the
      run is full with the mark of its chip run; and if the quality is not positive and the
      end_stage does not spell cam, a new fake run with its tags is queued. */
  lemma AddExpEffect(db: Db, c: int, fault: int, quality: int)
    requires c in db.cams && db.cams[c].chipId in db.chips
    ensures var t, cam := AddExp(db, c, fault, quality), db.cams[c];
      t == db.(camExps := db.camExps[c := CamExp(fault, quality)], cams := t.cams, fakes := t.fakes, nextFake := t.nextFake)
    ensures var t, cam := AddExp(db, c, fault, quality), db.cams[c];
      t.cams == if fault != 0 then db.cams
                else db.cams[c := cam.(state := Full, magicked := db.chips[cam.chipId].run.magicked)]
    ensures var t, cam, e := AddExp(db, c, fault, quality), db.cams[c], db.cams[c].tags.endStage;
      if fault == 0 && quality <= 0
         && (e.None? || forall i | 0 <= i <= |e.value| - 3 :: !SpelledAt(e.value, "cam", i))
      then && t.nextFake == db.nextFake + 1 && db.nextFake in t.fakes && AllReach(cam.tags, t.fakes[db.nextFake].tags)
           && t.fakes == db.fakes[db.nextFake := FakeRun(c, New, t.fakes[db.nextFake].tags)]
      else t.fakes == db.fakes && t.nextFake == db.nextFake
  {
    InheritReaches(db.cams[c].tags);
    StopsExactly(db.cams[c].tags, "cam");
  }

  /** A revert forgets the faulted results of the chosen new camera runs and clears the faults
      of the chosen ones in update; every other result, and every other table, stays. */
  lemma RevertEffect(db: Db, which: set<int>)
    ensures var t := Revert(db, which);
      && t == db.(camExps := t.camExps)
      && (forall c :: c in t.camExps <==>
            c in db.camExps && !(c in which && c in db.cams && db.cams[c].state == New && db.camExps[c].fault != 0))
      && (forall c | c in t.camExps :: c in db.camExps && t.camExps[c] ==
            if c in which && c in db.cams && db.cams[c].state == Update then CamExp(0, db.camExps[c].quality)
            else db.camExps[c])
    ensures var t := DeleteFaulted(db, which);
      && t == db.(camExps := t.camExps)
      && (forall c :: c in t.camExps <==>
            c in db.camExps && !(c in which && c in db.cams && db.cams[c].state == New && db.camExps[c].fault != 0))
      && (forall c | c in t.camExps :: t.camExps[c] == db.camExps[c])
  {
  }
}
