/** The camera stage: results are added and, when faulted, reverted. */
module CamTool {
  import opened ImfileStates
  import opened Pipeline
  import opened PipelineEffects
  import opened Transactions

  /** The calls that -addprocessedexp makes; `maskStats` tells whether the mask fractions
      are recorded. */
  function AddCalls(db: Db, c: int, fault: int, quality: int, maskStats: bool): nat
    requires c in db.cams
  {
    if fault != 0 then 4
    else (if quality > 0 || Stops(db.cams[c].tags, "cam") then 6 else 7) + (if maskStats then 1 else 0)
  }

  /** -addprocessedexp: the result row, the run's state and the next stage's run are
      committed together or not at all. */
  method AddProcessedExp(db: Session<Db>, c: int, fault: int, quality: int, maskStats: bool) returns (ok: bool)
    requires db.Idle()
    modifies db
    ensures ok == (Pending(old(db.committed), c) && c !in old(db.committed).camExps
                   && old(db.healthy) >= AddCalls(old(db.committed), c, fault, quality, maskStats))
    ensures ok ==> db.Idle() && db.committed == AddExp(old(db.committed), c, fault, quality)
    ensures !ok ==> db.committed == old(db.committed)
  {
    ok := db.Query();
    if !ok { return; }
    if !Pending(db.committed, c) {
      return false;
    }
    ok := db.Begin();
    if !ok { return; }
    if c in db.working.camExps {  // the primary key refuses a second row
      db.Rollback();
      return false;
    }
    ok := db.Execute(InsertExp(db.working, c, fault, quality));
    if !ok {
      db.Rollback();
      return;
    }
    if fault != 0 {
      ok := db.Commit();
      return;
    }
    ok := db.Execute(db.working);  // the software version, a column that is not modelled
    if !ok {
      db.Rollback();
      return;
    }
    if maskStats {
      ok := db.Execute(db.working);  // the mask fractions, likewise
      if !ok {
        db.Rollback();
        return;
      }
    }
    ok := db.Execute(SetCamFull(db.working, c));
    if !ok { return; }
    if quality > 0 || Stops(db.working.cams[c].tags, "cam") {
      ok := db.Commit();
      return;
    }
    ok := db.Execute(QueueFake(db.working, c));
    if !ok {
      db.Rollback();
      return;
    }
    ok := db.Commit();
  }

  /** A result is accepted for a camera run that is new or in update, whose chip run is full
      and which has no result row yet.  A faulted one takes four calls.  Any other takes seven,
      or six if no fake run follows: because the quality is bad or end_stage spells cam; and
      one more if mask fractions are recorded. */
  lemma AcceptedExactly(db: Db, c: int, fault: int, quality: int, maskStats: bool, calls: nat)
    ensures Pending(db, c) && c !in db.camExps && calls >= AddCalls(db, c, fault, quality, maskStats) <==>
              && c in db.cams && db.cams[c].chipId in db.chips && db.chips[db.cams[c].chipId].run.state == Full
              && (db.cams[c].state == New || db.cams[c].state == Update) && c !in db.camExps
              && var e := db.cams[c].tags.endStage;
                 calls >= if fault != 0 then 4
                          else if quality > 0 || (e.Some? && exists i | 0 <= i <= |e.value| - 3 :: SpelledAt(e.value, "cam", i))
                          then (if maskStats then 7 else 6)
                          else if maskStats then 8 else 7
  {
    if c in db.cams {
      StopsExactly(db.cams[c].tags, "cam");
    }
  }

  /** -revertprocessedexp: two steps, committed one after the other. */
  method RevertProcessedExp(db: Session<Db>, which: set<int>) returns (ok: bool)
    requires db.Idle()
    modifies db
    ensures ok == (old(db.healthy) >= 4)
    ensures ok ==> db.Idle()
    ensures db.committed == if old(db.healthy) < 3 then old(db.committed)
                            else if old(db.healthy) == 3 then DeleteFaulted(old(db.committed), which)
                            else Revert(old(db.committed), which)
  {
    ok := db.Begin();
    if !ok { return; }
    ok := db.Execute(DeleteFaulted(db.working, which));
    if !ok {
      db.Rollback();
      return;
    }
    ok := db.Commit();
    if !ok { return; }
    ok := db.Execute(ClearFaults(db.working, which));
  }

  // ---------------------------------------------------------------- faulted results

  /** Reverting a faulted result restores the data exactly if the camera run was new.  For
      a run in state update the result stays and only its fault is cleared. */
  lemma FaultThenRevertExactly(db: Db, c: int, fault: int, quality: int)
    requires Pending(db, c) && c !in db.camExps && fault != 0
    ensures Revert(AddExp(db, c, fault, quality), {c}) == db <==> db.cams[c].state == New
    ensures db.cams[c].state == Update ==>
              Revert(AddExp(db, c, fault, quality), {c}) == InsertExp(db, c, 0, quality)
  {
    var added := AddExp(db, c, fault, quality);
    var reverted := Revert(added, {c});
    if db.cams[c].state == New {
      assert reverted.camExps == db.camExps;
    } else {
      assert reverted.camExps == db.camExps[c := CamExp(0, quality)];
    }
  }

  datatype Attempt = Attempt(fault: int, quality: int)

  function Attempts(db: Db, c: int, failures: seq<Attempt>): Db
    requires Pending(db, c)
    decreases |failures|
  {
    if failures == [] then db
    else
      var after := Revert(AddExp(db, c, failures[0].fault, failures[0].quality), {c});
      if Pending(after, c) then Attempts(after, c, failures[1..]) else after
  }

  /** However often a result is added faulted and reverted, the successful result that
      follows ends in the same data as if it had been the first. */
  lemma {:induction false} FaultyRoundsLeaveNoTrace(db: Db, c: int, failures: seq<Attempt>, quality: int)
    requires Pending(db, c) && db.cams[c].state == New
    requires forall a | a in failures :: a.fault != 0
    ensures Attempts(db, c, failures) == db
    ensures AddExp(Attempts(db, c, failures), c, 0, quality) == AddExp(db, c, 0, quality)
  {
    if failures != [] {
      var a := failures[0];
      FaultThenRevertExactly(db, c, a.fault, a.quality);
      FaultyRoundsLeaveNoTrace(db, c, failures[1..], quality);
    }
  }
}
