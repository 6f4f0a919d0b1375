# Run bookkeeping of the image pipeline, and two numeric cores

This project models how the image pipeline keeps its books. A few relational tables hold
runs and their files; every command of a tool is one step on them, made of database calls
that may fail. The project proves what such steps keep over every history, what a command
leaves behind when it fails half way, and which promises of the code hold only under a
condition. Two numeric cores are modelled beside it: the chain from chip corners to the
reference stars on a chip, and the in-place correction of a flat.

## How it is organised

| file | what it models |
|---|---|
| `Wrappers.dfy` | a column or option that may be absent |
| `Transactions.dfy` | the database connection: committed and working data, transactions, failures |
| `ImfileStates.dfy` | states and destreak marks of image files and of the run above them |
| `DestreakSafety.dfy` | what the four state-change commands keep about the marks |
| `Pipeline.dfy` | the chip, camera and fake tables and the steps on them |
| `ChipTool.dfy`, `CamTool.dfy` | the commands of the two tools, call by call |
| `PipelineEffects.dfy` | what each of these steps does, column by column |
| `PipelineHistory.dfy` | invariants over every history of these commands |
| `BgTool.dfy` | the background stages |
| `Detrend.dfy`, `DetTool.dfy`, `DetrendHistory.dfy` | detrend runs: tables and steps, commands call by call, histories |
| `DetrendEffects.dfy` | what each detrend command commits, column by column |
| `RandomSubset.dfy` | the heap sort of positions and the random subset drawn with it |
| `MiniDb.dfy` | mini databases: adding, naming, flipping |
| `AddQueue.dfy` | checking and queueing addstar runs |
| `SkyBoxes.dfy` | corner boxes, field box, search region, star filter |
| `CellCorrection.dfy` | multiplying cells by a chip-wide correction in place |

A command is a method on a `Session`. The field `healthy` says how many more database calls
succeed; the first call after that reports an error and changes nothing, and the command
stops there as the source does. A statement for every value of `healthy` therefore covers
every point at which the database can fail. What a command leaves is `committed`: whatever
it had not committed is lost when the tool exits. MySQL has no nested transactions, so
`START TRANSACTION` inside a transaction commits the outer one; `Session.Begin` does that.

The contract of a command says what it commits by a function of the tables. What that function
does is stated beside it by a lemma that names the columns and rows that change and those that
do not, without using the function's own parts: `ChipCommand`, `AddExpEffect`,
`ClosingSummaryEffect`, `WouldQueueExactly` and others.

The queries are modelled from the text of the `.sql` files in `ippTools/share`, over the tables
that `dbconfig` declares, from which the code that inserts rows is generated.

## Where the code does not do what it says

- A chip run that is promoted to full is meant to get the mark of its raw exposure back
  (comment at `ippTools/src/chiptool.c:1735-1738`). The clause that would write it is freed,
  which sets its variable to NULL (`psLib/src/sys/psMemory.h:342-343`), before the query is
  run (`ippTools/src/chiptool.c:1763-1770`), and the NULL is printed into an SQL comment. So a
  lost run mark is never restored: `RunMarkExactly`, `RestoredExactly`, `LostForGood`. On the
  other side, a destreaked run never has a file with lost destreaking, whatever the file's
  quality: `FilesStaySafe`.
- Promotion (comment at `ippTools/src/chiptool.c:1713-1715`) waits only for the files of
  quality 0, because the query says so (`ChipPromotedExactly`).
- Queueing chip runs opens a transaction for the whole list, but each insertion opens and
  commits its own. It is all-or-nothing only for lists of at most one exposure
  (`QueueAllOrNothingExactly`).
- Adding a detrend summary with `-again` opens a transaction "so it's all rows or nothing",
  but starting the iteration opens another, which commits the summary
  (`SummaryAllOrNothingExactly`).
- A faulted camera result followed by a revert restores the tables only if the camera run is
  new; for a run in state update the result stays (`FaultThenRevertExactly`).
- Of the seven stages that addtool offers, only camera, sky calibration and the two full-force
  stages can ever queue a run (`StagesThatQueueExactly`). The insertion query for static skies
  and differences has no place for the mini-database host, so that it selects one value too
  few and compares the run number with the host; that for stacks names `stage_extra1`, a
  comment sign without its space. Searches without `-set_dvodb` name `stage`, which only
  addRun has, inside a join that does not show it, or a dvodb that the table lacks; searches
  for stacks name a `magicked` column that is not there. So a dvodb is never inherited
  (`DvodbIsNeverInherited`). If it were, the check for a missing one would not stop a camera
  run, to which an absent value was handed down as the text `NULL`
  (`CameraRunsAlwaysHaveADvodb`).

## Model

| member | source | states |
|---|---|---|
| Transactions.Session.Begin | psLib/src/db/psDB.c:766-776 | starting a transaction commits the one that is open |
| Transactions.Session.Commit | psLib/src/db/psDB.c:778-787 | the working data become the committed data and the transaction ends |
| Transactions.Session.Rollback | psLib/src/db/psDB.c:789-798 | the committed data stay; the working data return to them if the call succeeds |
| Transactions.Session.Execute | psLib/src/db/psDB.c:178-190 | a statement outside a transaction is committed at once, inside one it is not |
| Transactions.Session.Exit | ippTools/src/chiptool.c:1657-1662 | what a tool has not committed when it exits is lost |
| ImfileStates.DriveIsOneVisit | ippTools/src/chiptool.c:1717-1787 | driving files one by one, in any order, with repetitions and unknown files, from any state, comes to changing the visited files at once and looking once whether to promote |
| ImfileStates.OrderDoesNotMatter | ippTools/src/chiptool.c:1717-1787 | two sequences that visit the same files end in the same files, run state and marks |
| ImfileStates.ChipPromotedExactly | ippTools/share/chiptool_change_exp_state.sql:5-18 | as long as a file of quality 0 lacks the target state, a chip run takes that state if and only if all such files were visited and have a raw file, whatever becomes of files of another quality |
| ImfileStates.BackgroundPromotedExactly | ippTools/share/bgtool_change_chiprun_state.sql:1-10 | a background run takes the target state if and only if all files that lacked it were visited |
| ImfileStates.ChipCommand | ippTools/src/chiptool.c:1717-1787 | state, quality, fault and mark of every file and state, mark and update mode of the run after one command, in each case of target, marks and raw mark |
| ImfileStates.BackgroundCommand | ippTools/src/bgtool.c:1110-1159 | the same for a background stage |
| ImfileStates.MarkOnTheWay | ippTools/src/bgtool.c:1110-1159 | the run's mark at every point of a drive: for chips that of the first visit, for backgrounds lost only when all awaited files were visited |
| ImfileStates.DrivenStep | ippTools/src/bgtool.c:2068-2117 | one more command brings the state of a drive to that of the drive with one more file |
| DestreakSafety.FilesStaySafe | ippTools/src/chiptool.c:1732-1749 | over every history of the four commands a run with a positive mark has no file with a negative one, whatever the file's quality |
| DestreakSafety.FullFilesStayDestreaked | ippTools/src/chiptool.c:1734-1741 | over every history a file whose destreaking was lost, though its raw file has it, is not full |
| DestreakSafety.AllFilesSafeExactly | ippTools/src/chiptool.c:1732-1770 | that safety holds over every history if and only if it holds at the start and, for a run with a positive mark, no raw file has a negative one |
| DestreakSafety.RunMarkExactly | ippTools/src/chiptool.c:1763-1770 | the run's mark after any history: lost by the first file that is really cleaned or purged, by nothing else, and never restored; it is the starting one exactly if there was no such file or no mark to lose |
| DestreakSafety.RestoredExactly | ippTools/src/chiptool.c:1735-1741 | a promotion to full leaves the promised mark exactly if the run had it already or is blocked |
| DestreakSafety.LostForGood | ippTools/src/chiptool.c:1763-1770 | a destreaked run cleaned and made full again has all files back with their raw marks and keeps a lost run mark through every later history |
| DestreakSafety.MarksAfterStep | ippTools/src/chiptool.c:1732-1770 | the marks after each of the four commands: lost exactly if there was one, unchanged, or for a file made full the raw mark unless blocked; other files are untouched |
| DestreakSafety.BlockPersists | ippTools/src/chiptool.c:1734-1741 | a file's negative mark over a raw file that is not destreaked, and any negative run mark, stay negative over every history |
| ChipTool.ChangeImfileDataState | ippTools/src/chiptool.c:1717-1787 | the file, the run and its promotion are committed together or not at all; success exactly if four calls succeed and a row changes |
| PipelineEffects.ChangeImfileEffect | ippTools/src/chiptool.c:1751-1770 | only the run that the file belongs to changes, and only its state, marks and files |
| PipelineEffects.AddImfileEffect | ippTools/src/chiptool.c:557-766 | a result is recorded for a planned raw file that has none, in state full with the given mark, quality and fault; nothing else changes |
| PipelineEffects.MentionsExactly | psLib/src/sys/strcasestr.c:52-133 | a text mentions a word if and only if at some offset each character is that of the word or the other case of the same letter |
| PipelineEffects.StopsExactly | ippTools/src/chiptool.c:1664-1666 | a run stops after a stage if and only if its end_stage is given and spells the stage |
| PipelineEffects.SelectedWereProcessed | ippTools/share/chiptool_completely_processed_exp.sql:19-48 | a selected run is new, all its raw files that are not ignored were processed without fault and one of them well, and its mark is that of a file |
| PipelineEffects.AdvanceOneEffect | ippTools/src/chiptool.c:1656-1704 | an advanced run is full with the selected mark; unless its end_stage spells chip, one new camera run with that mark and every tag is added; nothing else changes |
| ChipTool.RowCallsExactly | ippTools/src/chiptool.c:1594-1704 | a run whose end_stage spells chip takes one call less than any other |
| ChipTool.AdvanceExp | ippTools/src/chiptool.c:1594-1706 | at every failure point the committed data are those of fully advancing the first `done` selected runs, exactly the runs the calls suffice for |
| ChipTool.AdvanceRun | ippTools/src/chiptool.c:1594-1702 | one run is advanced completely or not at all, by exactly the stated number of calls |
| PipelineHistory.AdvanceEffect | ippTools/src/chiptool.c:1656-1704 | every selected run is full with the selected mark and has exactly one camera run if its end_stage lets it go on and none otherwise; everything else is untouched |
| ChipTool.QueueExposures | ippTools/src/chiptool.c:130-250 | a failure leaves a prefix of the exposures queued, of exactly the length the calls allow |
| ChipTool.QueueEffect | ippTools/src/chiptool.c:172-243 | queueing adds one new run per exposure, in order, with all raw files planned, with the command line's values or else the exposure's; it changes nothing else |
| ChipTool.QueueByExpTag | ippTools/src/pxchip.c:236-312 | one exposure is queued with its files planned, in a transaction of its own |
| ChipTool.QueueAllOrNothingExactly | ippTools/src/chiptool.c:147-249 | queueing is all-or-nothing at every failure point if and only if there is at most one exposure |
| CamTool.AddProcessedExp | ippTools/src/camtool.c:726-828 | result, run state and next run are committed together or not at all, and succeed exactly if the run is pending without a result and the calls suffice |
| CamTool.AcceptedExactly | ippTools/src/camtool.c:434-828 | a result is accepted if and only if the camera run is new or in update, its chip run full, no result is there and the calls suffice, whose number is given for each case of fault, quality, end_stage and mask |
| PipelineEffects.AddExpEffect | ippTools/src/camtool.c:667-828 | with a fault only the result row is added; without, the run is full with its chip run's mark, and one new fake run with every tag is added if and only if the quality is not positive and end_stage does not spell cam; nothing else changes |
| CamTool.RevertProcessedExp | ippTools/src/camtool.c:946-1030 | the two steps of a revert are committed one after the other; the exact data at each failure point |
| PipelineEffects.RevertEffect | ippTools/src/camtool.c:946-1030 | the results that go are exactly the faulted ones of chosen new runs, those whose fault is cleared exactly the ones of chosen runs in update; nothing else changes |
| CamTool.FaultThenRevertExactly | ippTools/src/camtool.c:737-745 | a faulted result followed by a revert restores the data if and only if the camera run was new; for a run in update only the fault is cleared |
| CamTool.FaultyRoundsLeaveNoTrace | ippTools/src/camtool.c:946-1006 | any number of faulted rounds before a good result ends as the good result alone |
| PipelineHistory.EmptyTablesAreFine | ippTools/src/chiptool.c:130-250 | a history may start with raw data and empty tables |
| PipelineHistory.HistoryKeepsInv | ippTools/src/chiptool.c:1656-1704 | over every history, failures included, each camera run has a chip run of its own that is not new and whose end_stage does not mention chip, and each fake run a full camera run with a faultless result that goes on; tags are copied down |
| PipelineHistory.EveryRunWasBorn | ippTools/src/camtool.c:775-828 | each camera run was added by the step that made its chip run full, each fake run by a faultless result of good quality that made its camera run full with the chip run's mark |
| PipelineHistory.TagsReachFakeRuns | ippTools/src/pxcam.c:143-205 | over every history each tag of a chip run reaches its camera and fake runs under its own name, an absent one as the text NULL |
| PipelineHistory.FakeRunsGoPastBothStages | psLib/src/sys/strcasestr.c:1-133 | no fake run's end_stage spells chip or cam at any offset, in any case of letters |
| BgTool.Advance | ippTools/src/bgtool.c:800-881 | all selected background runs become full together or none does; for selected runs success is exactly a matter of the number of calls |
| BgTool.SetAllFullEffect | ippTools/src/bgtool.c:1763-1844 | every selected run is full with its mark and no other run changes |
| BgTool.ChangeFileDataState | ippTools/src/bgtool.c:1110-1159 | file, run and promotion are committed together or not at all |
| BgTool.ChangeFileEffect | ippTools/src/bgtool.c:1110-1159 | the file has the target state and no positive mark; the run changes only if all files have that state now, and then has it too and loses its mark; no other run changes |
| BgTool.MarkLagsBehindFiles | ippTools/share/bgtool_change_chiprun_state.sql:1-10 | while files are cleaned one by one the run keeps its positive mark until the last file that is not clean yet, above files whose destreaking is lost |
| Detrend.AgainIsConservative | ippTools/src/dettool.c:1430-1493 | `-again` raises the iteration by one; the new inputs are exactly the judged inputs of the old iteration, included exactly if accepted; nothing else changes |
| Detrend.RerunIsConservative | ippTools/src/dettool.c:1571-1671 | `-rerun` raises the iteration by one; the new inputs are exactly the requested exposures; nothing else changes |
| Detrend.DefinedFromResiduals | ippTools/share/dettool_definebydetrun.sql:1-13 | a run defined from another starts with exactly the judged inputs of the chosen iteration that pass the filter, included exactly if accepted |
| Detrend.DefineMatchesAgain | ippTools/src/dettool.c:746-1010 | without a filter these are the inputs that `-again` would give the next iteration of the other run |
| Detrend.ReachableRunsIterate | ippTools/src/dettool.c:1829-1865 | reachable iterations never make the counter's zero result hide a success, and new inputs never collide with old ones |
| Detrend.Root | ippTools/src/dettool_correction.c:36-101 | following the references of correction runs ends at a run of another kind that is no younger |
| Detrend.EmptyTablesAreFine | ippTools/src/dettool.c:355-429 | a history may start with empty tables |
| DetrendHistory.HistoryKeepsInv | ippTools/src/dettool.c:1391-1496 | over every history each input names a run, an iteration from 0 to the run's own, and an exposure of its iteration 0; each residual belongs to an input; each correction run refers to an older run at an iteration it has reached |
| DetrendHistory.HistoryGrows | ippTools/src/dettool.c:355-429 | over every history runs keep their mode and reference and never lose an iteration or an input |
| DetrendHistory.RootIsStable | ippTools/src/dettool_correction.c:36-101 | the run at the end of a chain of corrections never changes |
| DetrendHistory.SummaryAllOrNothingExactly | ippTools/src/dettool_detrunsummary.c:166-225 | a summary is all-or-nothing at every failure point if and only if it does not start an iteration or there is nothing to iterate on |
| DetTool.DefineByTag | ippTools/src/dettool.c:237-456 | run and inputs are committed together or not at all; the exact conditions of success |
| DetrendEffects.DefineByExposuresEffect | ippTools/src/dettool.c:237-456 | a master run may not name a reference, a verify run must, no other kind is made; the new run is at iteration 0, running, with that mode and reference, and each exposure is an included input; nothing else changes |
| DetTool.DefineByQuery | ippTools/src/dettool.c:487-733 | the same for the rows found or a random subset of them; nothing happens without rows or when pretending; the exact conditions of success |
| DetTool.DefineByDetRun | ippTools/src/dettool.c:746-1010 | the new run takes its inputs from the residuals of the given or the current iteration, all or none |
| DetrendEffects.DefineByDetRunEffect | ippTools/src/dettool.c:746-1010 | the same, with the residuals of the source's given or current iteration that pass the filter, each included as it was accepted |
| DetTool.AddResidual | ippTools/src/dettool_residexp.c:84-190 | a residual is added exactly if the input waits for one and both calls succeed |
| DetrendEffects.AddResidualEffect | ippTools/src/dettool_residexp.c:84-190 | the exact condition on run state, mode, input, residual and given iteration, and the one row that is added under it |
| DetTool.IncrementIteration | ippTools/src/dettool.c:1829-1865 | the result is the new iteration, and zero exactly on failure or when the iteration was -1 |
| DetTool.StartNewIteration | ippTools/src/dettool.c:1391-1496 | the iteration is complete or not there; an outer transaction is committed from the second call on |
| DetrendEffects.StartIterationEffect | ippTools/src/dettool.c:1391-1496 | a running master run with a judged input moves on, with exactly the judged inputs as accepted, if the calls suffice; otherwise nothing changes |
| DetTool.Redo | ippTools/src/dettool.c:1498-1671 | a rerun succeeds exactly for distinct exposures of iteration 0 and enough calls, and otherwise changes nothing |
| DetrendEffects.RedoEffect | ippTools/src/dettool.c:1498-1671 | a run moves on with exactly the exposures asked for if they are distinct, some, and all inputs of its iteration 0, and the calls suffice; otherwise nothing changes |
| DetTool.Summarise | ippTools/src/dettool_detrunsummary.c:124-225 | exactly what is committed and reported at each failure point of adding a summary |
| DetrendEffects.ClosingSummaryEffect | ippTools/src/dettool_detrunsummary.c:124-225 | without `-again` the run is stopped and the summary of its iteration is added, exactly if it is running, all its inputs, at least one, have a residual, the iteration given is the current one and has no summary, and five calls succeed; nothing else changes |
| DetrendEffects.AgainSummaryEffect | ippTools/src/dettool_detrunsummary.c:166-225 | with it the summary is added to a run that goes on running, and from the stated number of calls on the run has moved to the next iteration |
| DetrendEffects.FinishesExactly | ippTools/src/dettool_detrunsummary.c:166-225 | the number of calls with which the command reports success |
| DetTool.MakeCorrection | ippTools/src/dettool_correction.c:22-101 | a correction run is made exactly for an existing run at its current iteration |
| DetrendEffects.MakeCorrectionEffect | ippTools/src/dettool_correction.c:36-101 | the new run is a running correction at iteration 0 that refers to the given run at its current iteration; nothing else changes |
| RandomSubset.DownHeap | psLib/src/math/psSort.h:37-52 | sinking one element restores the heap from its place on, permutes the positions and touches nothing beyond the heap |
| RandomSubset.SortIndex | psLib/src/mathtypes/psVector.c:500-532 | heap sort of positions yields a permutation in the order of the values |
| RandomSubset.Choose | ippTools/src/dettool.c:602-623 | all rows, or the rows at the first positions of a sorted permutation |
| RandomSubset.SubsetIsContained | ippTools/src/dettool.c:602-623 | the subset has exactly the requested size and uses no row twice |
| RandomSubset.SubsetHasSmallestValues | ippTools/src/dettool.c:602-623 | no row left out has a smaller random value than one taken |
| RandomSubset.RootIsLargest | psLib/src/math/psSort.h:54-72 | in the heap that hangs position j below j / 2 the root is largest |
| MiniDb.Add | ippTools/src/addtool.c:1690-1767 | a row with its name and path, or nothing; exactly if a path and a host are given and four calls succeed |
| MiniDb.AddedEffect | ippTools/src/addtool.c:1690-1767 | one new row under the next number with group and host, the name given or else group, dot and number, and a path that ends in the name; every other row stays |
| MiniDb.DefaultNameIsInjective | ippTools/src/addtool.c:1740-1742 | a default name determines its group and number, whatever dots and digits the group contains |
| MiniDb.DecimalReadsBack | ippTools/src/addtool.c:1740-1742 | the decimal text of a number reads back as the number, has only digits and no leading zero |
| MiniDb.DefaultNamesDiffer | ippTools/src/addtool.c:1740-1759 | default names given anywhere in a history differ from one another at its end |
| MiniDb.Flip | ippTools/src/addtool.c:1850-1942 | one new, named row of the group becomes active in one transaction, or nothing changes; without such a row nothing changes |
| MiniDb.FlipEffect | ippTools/src/addtool.c:1890-1920 | after a flip the chosen row is its group's only active one, the active one waits, no row comes or goes, no other row changes |
| MiniDb.EmptyTableIsFine | ippTools/src/addtool.c:1690-1767 | a history may start with an empty table |
| MiniDb.HistoryKeepsInv | ippTools/src/addtool.c:1850-1942 | over every history each group has at most one active row, and every row has a name that is the last part of its path |
| MiniDb.HistoryGrows | ippTools/src/addtool.c:1740-1759 | over every history rows keep their number, name, group, path and host |
| AddQueue.DefineByQuery | ippTools/src/addtool.c:114-1010 | all selected rows are queued or none, at every failure point; the exact conditions of both for all seven stages, with the searches and insertions that the database refuses |
| AddQueue.AnsweredExactly | ippTools/src/addtool.c:114-470 | a request is answered exactly if it names a search, one of the two kinds of data and a dvodb, and no stacks |
| AddQueue.WouldQueueExactly | ippTools/src/addtool.c:670-1004 | rows are queued exactly if there are some, the stage is one of four, each row has a workdir unless one is given and, for full force, a warp, and its run is full: a full-force run for the summary |
| AddQueue.AllValid | ippTools/src/addtool.c:474-666 | the check accepts a list exactly if every row has what queueing needs |
| AddQueue.QueuedRunsAreDefined | ippTools/src/addtool.c:683-1004 | a queued list of checked rows adds one run for each, in order, with values given on the command line or by the row, and changes nothing else (for the stages that can queue at all) |
| AddQueue.CheckIsExact | ippTools/src/addtool.c:474-666 | the check refuses exactly the rows whose run would have the text NULL for a missing workdir or dvodb, and static skies without a count of inputs |
| AddQueue.StagesThatQueueExactly | ippTools/src/pxadd.c:137-222 | runs can be queued for some data, request and rows of a stage if and only if it is camera, sky calibration, full force or full-force summary |
| AddQueue.DvodbIsNeverInherited | ippTools/share/addtool_find_cam_id.sql:9-19 | every queued run has the dvodb of the command line |
| AddQueue.CameraRunsAlwaysHaveADvodb | ippTools/src/pxcam.c:143-205 | the check alone would accept every camera run of the pipeline with an inherited dvodb, as the text NULL if it was absent |
| SkyBoxes.ChipBox | fpcamera/src/fpcameraReadAstrometry.c:86-114 | the box of the four corners contains them and is the smallest such |
| SkyBoxes.ChipInsideBox | fpcamera/src/fpcameraReadAstrometry.c:86-114 | the stored box of the corners contains the image of the whole chip, for any conversion and rounding that reverses no order |
| SkyBoxes.BetweenCorners | fpcamera/src/fpcameraReadAstrometry.c:92-114 | a coordinate that is affine in x and in y lies between its values at two corners |
| SkyBoxes.ReadAstrometry | fpcamera/src/fpcameraReadAstrometry.c:54-125 | every used chip, and no other, has its box, and the field is the smallest box around them |
| SkyBoxes.PadRegion | fpcamera/src/fpcameraLoadRefstars.c:13-36 | declination is always padded on both sides, right ascension if the padded field is narrower than 180 degrees, and otherwise all of it is searched |
| SkyBoxes.PaddedCoversExactly | fpcamera/src/fpcameraLoadRefstars.c:24-36 | the searched region covers the field if and only if the field is narrow or lies between 0 and 360 degrees, and is never wider than 360 degrees |
| SkyBoxes.ChipsAreSearched | fpcamera/src/fpcameraLoadRefstars.c:24-36 | then whatever lies on a used chip lies in the searched region |
| SkyBoxes.ChooseRefstars | fpcamera/src/fpcameraChooseRefstars.c:15-67 | the stars passing both filters, in order; exactly the stars within the limits get a new chip position |
| SkyBoxes.FilteredInOrder | fpcamera/src/fpcameraChooseRefstars.c:38-67 | each star is kept or not by itself, by the limits and the extent of the image, and the kept ones stay in their order |
| SkyBoxes.RefStar.Locate | fpcamera/src/fpcameraChooseRefstars.c:43-65 | one star is kept exactly if it passes both filters |
| SkyBoxes.HarmlessExactly | fpcamera/src/fpcameraChooseRefstars.c:17-65 | whatever limits the code arrives at and whatever image it filters, the first filter loses no position on the image if and only if it lets the four corners of the image pass |
| SkyBoxes.HarmlessOnOwnRegion | fpcamera/src/fpcameraChooseRefstars.c:17-28 | for an image that is the region the box was made for: if and only if converting to degrees and back moves no corner inwards across a side it lies on |
| SkyBoxes.HarmlessKeepsAll | fpcamera/src/fpcameraChooseRefstars.c:43-67 | then the two filters keep exactly the stars on the image, in order, whatever the catalogue |
| SkyBoxes.HarmfulDropsAStar | fpcamera/src/fpcameraChooseRefstars.c:43-67 | and a catalogue of one star on the image that fails the first filter shows the difference |
| SkyBoxes.RoundTripKeepsAll | fpcamera/src/fpcameraChooseRefstars.c:43-67 | if converting there and back changes nothing and the image lies within the region the box was made for, the two filters keep exactly the stars on the image |
| SkyBoxes.FactorsRoundTrip | fpcamera/src/fpcamera.h:34-35 | unit factors that are inverse to one another convert there and back without change and reverse no order |
| CellCorrection.CorrectCell | dvoTools/src/dvoApplyCorrReadout.c:10-56 | every pixel is multiplied once, by the correction at its place (the next row says at which); nothing changes if a concept is missing |
| CellCorrection.CorrectedPixel | dvoTools/src/dvoApplyCorrReadout.c:46-54 | pixel (i, j) becomes its old value times the correction at column x0 + i xParity and row y0 + j yParity |
| CellCorrection.CorrectRow | dvoTools/src/dvoApplyCorrReadout.c:48-54 | one row is multiplied and no other pixel changes |
| CellCorrection.CorrectCells | dvoTools/src/dvoApplyCorrLoop.c:35-71 | all processed cells are corrected and the others untouched, or the cells before the first incomplete one are; the correction is unchanged |
| CellCorrection.DonePixels | dvoTools/src/dvoApplyCorrLoop.c:35-71 | a cell that is not to be processed keeps its pixels, and any other has each multiplied in that way |
| CellCorrection.ShownExactly | dvoTools/src/dvoApplyCorrReadout.c:21-51 | a place of the chip shows the pixel that lies there of the last cell that has one, and nothing exactly if no cell has |
| CellCorrection.CorrectingCommutesWithMosaic | dvoTools/src/dvoApplyCorrReadout.c:46-54 | correcting cells and then mosaicking shows at every place what mosaicking and then correcting shows |
| CellCorrection.CorrectedChip | dvoTools/src/dvoApplyCorrLoop.c:35-71 | the same for the images that correcting a chip in place leaves |
| CellCorrection.MosaicShowsAll | dvoTools/src/dvoApplyCorrReadout.c:21-51 | if cells do not overlap the mosaic shows every pixel of every cell |
| CellCorrection.EachPlaceUsedOnce | dvoTools/src/dvoApplyCorrReadout.c:46-54 | and no place of the correction is used for two pixels |

## Left out

- Text of the queries, option parsing, printing, memory handling and the error stack; a query is its effect on the tables.
- NULL marks: `magicked` is an integer, and a NULL mark is not modelled.
- What the C library prints for a NULL string: it is taken to be text without a line break, as in glibc.
- Integer widths and the lengths of text columns: identifiers, marks and iterations are unbounded, names are not truncated; comparison of text in the database ignores case, which the model's groups and class identifiers do not.
- Gaps in automatic identifiers: an insertion that is rolled back does not use up a number in the model.
- A commit that succeeds although its acknowledgement is lost; a reported failure always means that nothing was committed.
- Other tools working on the same rows between two calls of one command.
- Software versions, mask fractions and measured statistics: columns that no modelled rule reads; the calls that write them are counted.
- The label and camera masks that keep runs out of the selecting queries, and the selecting queries of BgTool.Advance and ChipTool.AdvanceExp: their answers are parameters with the properties the queries give them.
- Transactions.Session.Rollback: a failed rollback is only logged by the source, and the model leaves the transaction open until the tool exits.
- Administrative commands that write any state (updaterun, updatedetrun with parameters, updateminidvodbrun, updateprocessedexp): they can break the invariants by design. Camera runs enter state update only by them.
- The result of the run insertion in -definebytag, -definebyquery and -makecorrection, which the source does not test: it succeeds or the command stops.
- The processed, stacked and normalised detrend tables; a residual needs only its input.
- DetTool.DefineByQuery: random values are parameters; a limit of zero, for which the source reads the first element of an empty list unless -filelevel is given, makes a run without inputs.
- DetTool.Redo: at least one exposure is asked for, as the option requires.
- SkyBoxes.ChipInsideBox: the chain of transformations and projection is taken to be affine in x and in y separately; curvature of the projection and right ascensions that wrap at 0 are not modelled.
- SkyBoxes.ChooseRefstars: star positions and pixels are reals; the conversions between radians and stored degrees, with their rounding, are parameters, so what the constants in `fpcamera/src/fpcamera.h:34-35` and float rounding do together to one box is not computed.
- SkyBoxes.PadRegion: the choice of the catalogue directory and the getstar command are not modelled.
- CellCorrection.CorrectCell: that a cell's pixels have places in the correction image is what the source assumes without a test; binning and float rounding are not modelled.
- Import and export commands, listing and pending commands, caltool, detselect, photometry and FITS input and output.
- checkminidvodb and the mini-database processing table: queries without rules of their own.
- addtool -addprocessedexp, which begins once and commits inside its loop, so that no all-or-nothing statement is meant.
