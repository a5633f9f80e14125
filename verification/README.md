# Verified models of njutest's automation

njutest's automation (`xtask/` and `scripts/`) decides things that nobody watches it decide: whether
an item is compiled in any configuration, which run may use a lane of the machine, whether a recording
could have been made by the procedure it is a recording of, whether a suite's costs add up, and what a
release archive holds. This project models those decisions in Dafny and proves what they promise, for
every input and every run. `dafny verify dfyconfig.toml` checks the whole of it.

Each file is one component. Where the original loops over state, the model is a method or a class whose
contract equates its result with a function; where the original is expressions and matches, the model is
functions. What is promised is then proved about those functions. Lemmas whose names end in `Means` say what
such a function comes to in the terms of its input's own fields, without the functions it is made of.

- `CfgConditions.dfy`: conditions over `all`, `any` and `not` in three values, the flattening of nested
  `cfg_attr` into guarded constraints, and the backtracking search that prunes on partial assignments
  and undoes its own edits. It follows the chapter "Conditional compilation" of the Rust Reference,
  sections "The `cfg` attribute" and "The `cfg_attr` attribute".
- `Record.dfy` and `Takeover.dfy`: the bytes of a lane's record under appends that may each be cut
  anywhere, and what the next run reads of the work they name. A byte is the character with its code.
- `Liveness.dfy`: whether a recorded group or holder is still there, from answers any of which may be
  unread; and what that verdict is worth against the processes there really are.
- `Lanes.dfy`: the lanes protocol as a transition system. Any number of runs interleave step by step; a
  run may be killed, a lock file removed, a group or its leader end or the machine restart between any two
  steps. A group is seen gone exactly where the verdict of `Liveness` says so. It assumes an exclusive lock
  that death releases, an atomic rename, answers about processes that are true or not given, and that a
  group's id is never given again. (`Liveness.dfy` lets one be given again once nothing of the group runs.)
- `Refinement.dfy`: the bytes of `Record.dfy` and `Takeover.dfy` stand for the record of `Lanes.dfy`, write
  by write, and are read as it is.
- `Exploration.dfy`, `Crashes.dfy`, `CrashEvidence.dfy`, `Disagreements.dfy`: the replay auditors. Each
  procedure is written a second time as a generator that asks an oracle how every run comes out; the audit is
  proved to be its exact inverse, and each answer to be the one its recorded runs carry. Fields the audit
  never looks at are free in the oracle.
- `Overlap.dfy`, `Accounting.dfy`, `ProcessTree.dfy`: the cost ledger's sweep over test intervals in
  exact time, its closed accounting, and the process tree found by widening.
- `Faults.dfy`, `Reach.dfy`: the decisions re-derived about faults and about moved reach.
- `Templates.dfy`, `Bundle.dfy`: the templates of a package's manifest and the plan of a release archive.
- `Wrappers.dfy`, `Parts.dfy`, `Names.dfy`: optional values and results, stretches of sequences, and the
  order in which a sorted set lists names.

## What the proofs found

- The comment above `still_named` (`xtask/src/lanes.rs:463`) says a removed lock file lets no two runs
  in. `Lanes.RemovedFileLetsTwoHold` is a run in which two hold the lane. `Lanes.TwoCanHold` says exactly
  when: of a run about to read the record and another past the lock, both can come to hold it unless what
  the first reads is work left by that other run itself.
- A dead holder's work can run on under the next one, in two ways. A group line need not name a session:
  none is written where the leader has ended before its session is asked for
  (`xtask/src/lanes.rs:1348-1353`), and such a group counts as gone once its leader has ended
  (`xtask/src/lanes.rs:980-983`), whatever else of it runs: `Lanes.SessionlessWorkRunsUnderAnother`. And a run
  nested in the dead holder can finish a line, session named, between the next run's reading of the record
  (`xtask/src/lanes.rs:599`) and its replacing it (`xtask/src/lanes.rs:367`), so that nobody waits for it:
  `Lanes.LateLineRunsUnderAnother`, where `docs/development.md:423` promises otherwise. `Lanes.WorkCanRunOn`
  and `Lanes.LeaderCanRunOn` say exactly when any group, and its leader, can run beside the run that reads:
  when no line of it that is read names its session, and when none of it is read at all.
  `Lanes.OneLaneOneWork` holds of every line finished before that reading.
- A target off the route can be named as noticing beside one on it (`Faults.TargetOffTheRouteCanBeNamed`),
  since the check looks only at the route's targets. `Faults.TwoTargetsAreNamed` is the exact condition, and
  `Faults.OneTargetNotices` what is left of uniqueness: the earlier of two named targets never reaches.
- A control the knobs call stable can be one drift calls moved (`Reach.StableCanDrift`): only drift
  compares the items entered. `Reach.ComparersAgree` is the exact relation, and
  `Reach.StableDriftsByEntryAlone` the exact difference.
- The step that says a stop wrote into the tree is taken at its word, even with no stop recorded
  (`Crashes.OutsideNeedsNoStop`). `CrashEvidence.OutsideIsTakenAtItsWord` says when it is accepted, and
  `CrashEvidence.OutsideHasAStop` when an accepted one has a stop behind it.
- Over tests that have closed, the suite's refusals that its processes or failed launches do not close, its
  own coverage gap, and the width refusals of its redundancy report can never fire
  (`Accounting.Ledger.Close`); nor can the sweep's refusal that it did not end at none (`Overlap.Concurrency`).

## Model

| member | source | states |
|---|---|---|
| CfgConditions.CfgTruth | xtask/src/cfg_conditions.rs:144-195 | the loops over `all`, `any` and `not` come to the three-valued truth of the condition under a partial assignment |
| CfgConditions.TruthIsKleenes | xtask/src/cfg_conditions.rs:144-195 | by the condition's own name: an unrooted `all` is true where every argument is and false where one is, `any` the other way round, `not` of one argument turns it, and anything else has the value chosen for its own key |
| CfgConditions.AtomsAreOfLeaves | xtask/src/cfg_conditions.rs:212-232 | a key is collected exactly where it is that of a condition in the tree that is none of the three, and the world fixes neither answer for it |
| CfgConditions.TruthIsSound | xtask/src/cfg_conditions.rs:144-210 | a condition settled under a partial assignment has that classical truth in every total assignment that extends it |
| CfgConditions.TruthIsMonotone | xtask/src/cfg_conditions.rs:144-210 | choosing more atoms never changes a settled truth |
| CfgConditions.TruthIsSettled | xtask/src/cfg_conditions.rs:144-232 | once every atom collected from a condition has a value, its truth is settled |
| CfgConditions.Found.CfgAtoms | xtask/src/cfg_conditions.rs:212-232 | collecting adds exactly the condition's atoms the world does not fix |
| CfgConditions.CfgConstraintTruth | xtask/src/cfg_conditions.rs:268-286 | the loop over guards comes to the three-valued truth of the guarded requirement |
| CfgConditions.ConstraintTruthIsKleenes | xtask/src/cfg_conditions.rs:268-286 | a constraint is true where a guard is false or its requirement true, false where every guard is true and its requirement false, and unsettled otherwise |
| CfgConditions.ConstraintTruthIsSound | xtask/src/cfg_conditions.rs:268-286 | a guarded constraint settled under a partial assignment holds, or fails, in every extension |
| CfgConditions.CfgScope.Push | xtask/src/cfg_conditions.rs:46-50 | adds the attribute's flattened constraints after those held, and says whether there were any |
| CfgConditions.CfgScope.CfgConstraints | xtask/src/cfg_conditions.rs:234-266 | nested `cfg_attr` adds one constraint for each `cfg`, under every condition around it, in order |
| CfgConditions.CfgScope.Truncate | xtask/src/cfg_conditions.rs:52-54 | forgets exactly the constraints pushed since the mark |
| CfgConditions.CfgScope.AssignmentPossible | xtask/src/cfg_conditions.rs:68-98 | the pruned search is true exactly when some total assignment extending the values chosen satisfies every constraint; it leaves the values as it found them and ends on the atoms left |
| CfgConditions.CfgScope.Possible | xtask/src/cfg_conditions.rs:56-66 | true exactly when some total assignment of the free atoms satisfies every guarded constraint |
| CfgConditions.FlattenMeansExpand | xtask/src/cfg_conditions.rs:234-266 | under every total assignment and true guards, the flattened constraints hold exactly when expanding the attribute keeps the item |
| CfgConditions.PossibleMeansCompiled | xtask/src/cfg_conditions.rs:46-98 | the constraints pushed for an item are satisfiable exactly when some configuration of the world compiles it |
| CfgConditions.PushingOnlyNarrows | xtask/src/cfg_conditions.rs:46-66 | pushing more never turns an impossible scope possible |
| Record.Read | xtask/src/lanes.rs:1030-1057 | the loop over newline-ended pieces reads the finished lines and the pieces nobody finished |
| Record.LinesMean | xtask/src/lanes.rs:1030-1043 | a line is read exactly where the bytes between two newlines are that line, text, and without a torn mark |
| Record.UnreadMeans | xtask/src/lanes.rs:1040-1054 | a piece is given as unread exactly where some bytes between newlines leave it: unended, no text, or followed only by torn marks |
| Record.TextIsEncoded | xtask/src/lanes.rs:1040-1043 | bytes are text exactly where they are the encodings of scalar values one after another |
| Record.RecordFile.Append | xtask/src/lanes.rs:1482-1506 | one write, cut by any number of bytes, leaves the file its prefix leaves, and adds its line exactly where none were lost |
| Record.AppendIsStep | xtask/src/lanes.rs:1482-1506 | over the bytes, an append cut anywhere is one step of the log the file stands for |
| Record.RecordKeepsFinishedLines | xtask/src/lanes.rs:1030-1057 | after any run of appends, each cut anywhere or finished, the lines read are those held before and then exactly those whose write finished, in order |
| Record.TornLinesNeverJoin | xtask/src/lanes.rs:1482-1506 | every piece read as unfinished is the beginning of one cut write or was there before, never two joined |
| Takeover.GroupLineReadsBack | xtask/src/lanes.rs:1110-1130 | the line a holder writes for a group is read back as that group, under the holder it was written for and no other |
| Takeover.GroupMeans | xtask/src/lanes.rs:1108-1130 | of any line whatever: a group is read off it exactly where it says one of the two words, a number, and either a start alone or this holder, a session and a start |
| Takeover.NotesReadBack | xtask/src/lanes.rs:1079-1089 | over lines a lane writes, the groups read are exactly those noted under the holder, and release is read exactly where it was noted |
| Takeover.GroupsAreSaid | xtask/src/lanes.rs:1079-1089 | of any lines whatever: one group for each line that says one, in the lines' order |
| Takeover.WorkIsLeft | xtask/src/lanes.rs:612-629 | a record leaves work exactly where its first `pid=` and `holder_born=` lines name a holder, its boot is not another, no line is its release, and some lines name groups under that holder |
| Takeover.NextRunReadsFinishedWork | xtask/src/lanes.rs:1094-1105 | over a written record and any run of cut or finished appends, the next run reads the holder and exactly its finished group lines, unless its release was finished or the boot is another |
| Refinement.WritingIsStepping | xtask/src/lanes.rs:1482-1506 | over bytes that stand for the protocol's record: a cut write leaves it as it was, a finished group line is the protocol's append, and a finished release its release |
| Refinement.ReplacingStands | xtask/src/lanes.rs:1410-1422 | the header a run writes when it takes the lane stands for the record the protocol replaces the old one by |
| Refinement.BytesLeaveWhatTheRecordLeaves | xtask/src/lanes.rs:1030-1105 | over any run of cut or finished writes, what the next run reads from the bytes is exactly what the protocol says the record leaves |
| Takeover.HeaderFields | xtask/src/lanes.rs:1410-1422 | the fields of a record read back as they were written, whatever lines follow |
| Lanes.StepKeeps | xtask/src/lanes.rs:345-374 | every step of every run, a crash, a removal or a restart keeps the order of the line, the ownership of locks and what is owed to recorded work |
| Lanes.OneLaneOneWork | xtask/src/lanes.rs:345-374 | over every interleaving with crashes, until a lock file is removed at most one run holds the lane's lock, and while one holds the lane no leader runs, and nothing at all where the line names its session, of unreleased work in any line finished under another holder of this boot, alive or dead, before a run read its record to replace it, or read by any run |
| Lanes.HolderStands | xtask/src/lanes.rs:1187-1219 | until a lock file is removed, every line finished under the run that holds the lane, by it or a nested run, is one `OneLaneOneWork` speaks of |
| Lanes.HoldOutlastsWhatItRead | xtask/src/lanes.rs:598-630 | over every interleaving, removed lock files included, a run that holds the lane outlasted the holder it read, which is dead, and every group it read of its unreleased work, of each of which the look still says over |
| Lanes.NoTrueLookSaysOverSooner | xtask/src/lanes.rs:960-1007 | whatever answers are unread, a look whose answers are true says over only where the protocol lets a group be seen gone |
| Lanes.WorkCanRunOn | xtask/src/lanes.rs:598-630 | of any group and any run about to read the record: the group can run once that run holds the lane exactly when it has not ended already and no line of it that is read names its session |
| Lanes.LeaderCanRunOn | xtask/src/lanes.rs:976-983 | of the same, the group's leader can run on exactly when it has not ended already and no line of its group is read at all |
| Lanes.LateLineRunsUnderAnother | xtask/src/lanes.rs:599 | a reachable state, no lock file ever removed, in which a line a nested run finishes under its dead holder after the next run's reading names a group that runs, leader and all, while that next run holds the lane |
| Lanes.SessionlessWorkRunsUnderAnother | xtask/src/lanes.rs:1348-1353 | a reachable state, no lock file ever removed, in which recorded unreleased work runs while another run holds the lane |
| Lanes.FirstComeFirstServed | xtask/src/lanes.rs:396-461 | between finding itself first and taking the lane, a run took its place before every other live run that waits, whatever joins |
| Lanes.LookIsExact | xtask/src/lanes.rs:524-593 | a whole look, from listing the line to deciding, with any steps between: the run comes first exactly when every marker it read as alive held a higher ticket, or the same one and a higher id; and it came to every marker there was |
| Lanes.TicketIsNext | xtask/src/lanes.rs:488-522 | a place taken, from taking the line's lock to writing the marker, with any steps between: its ticket is above every ticket read, by one over the greatest, or the first where none was |
| Lanes.CanComeFirst | xtask/src/lanes.rs:524-593 | in every state a waiting run can come first by a true look of its own exactly when no living run's marker holds a lower ticket, or the same one and a lower id |
| Lanes.EarliestCanComeFirst | xtask/src/lanes.rs:396-461 | in every reachable state, where every living run's marker is still in line, a waiting run can come first by its own true look exactly when it took its place before all others |
| Lanes.LineIsKept | xtask/src/lanes.rs:488-593 | tickets given under the line lock stay ordered as the places were taken |
| Lanes.PlaceIsKept | xtask/src/lanes.rs:396-461 | a run's ticket stays what it was until the run goes, or takes the lane and its own marker away |
| Lanes.MarkersAreSwept | xtask/src/lanes.rs:537-593 | a marker goes only where its own run takes it away or a look reads it dead and its run is; a true reading leaves exactly the living |
| Lanes.TwoCanHold | xtask/src/lanes.rs:598-630 | of a run about to read the record and another past the lock, some continuation has both hold the lane exactly when the record leaves nothing or its holder is not that other run |
| Lanes.RemovedFileLetsTwoHold | xtask/src/lanes.rs:463-481 | a reachable state in which two runs hold the lane after its lock file was removed, the failing case of what `TwoCanHold` decides |
| Lanes.LiveHolderIsPassedOver | xtask/src/lanes.rs:598-630 | a run can come to hold the lane over a recorded holder that lives exactly when the record it reads leaves nothing to outlast |
| Liveness.GroupLiveness | xtask/src/lanes.rs:968-1007 | the loop over members decides as the relation between the record, the leader and the members' sessions does |
| Liveness.TrueReadingsOfAGroup | xtask/src/lanes.rs:960-1007 | against the processes there really are: true readings say alive only where the recorded work runs or its id and session were taken again after it, and, with everything read, over while it runs exactly where no session is recorded and the leader has ended |
| Liveness.ReadingLessNeverMisleads | xtask/src/lanes.rs:960-1007 | leaving any answer unread leaves the decision as it was or makes it unseen |
| Liveness.TruthfulReadingsDecide | xtask/src/lanes.rs:858-880 | over true readings a process that still runs is never taken for dead, and one read as alive is the one recorded |
| Exploration.Confirmed | xtask/src/concurrency.rs:472-495 | the loop over rounds reads exactly the controls of the rounds and says whether all held, or where they stray |
| Exploration.Replayed | xtask/src/concurrency.rs:430-470 | the loop over controls comes to the replay's answer or its first refusal |
| Exploration.ReplayIsExact | xtask/src/concurrency.rs:430-495 | a recording is accepted as an answer exactly when the procedure, for some sites and some endings, starts just those controls and comes to that answer |
| Exploration.RefusedAtTheFirstImpossible | xtask/src/concurrency.rs:400-418 | at a stray or late control the ones before it extend to an accepted recording and with it they never do; a truncated recording extends |
| Exploration.RefusedForItsReason | xtask/src/concurrency.rs:400-418 | a refused control is late exactly where a schedule had broken before it, and stray otherwise |
| Exploration.SampledMeansAllPassed | xtask/src/concurrency.rs:465-469 | sampled exactly where every control was the first of its site and passed, and then those sites; nothing exactly where no control was started |
| Exploration.BrokeRestsOnItsRounds | xtask/src/concurrency.rs:453-495 | a broken schedule ends in a failing first control and five rounds that fail the same tests delayed and pass undelayed |
| Exploration.AnswerRestsOn | xtask/src/concurrency.rs:430-495 | for every answer, over the recorded runs alone: which sites were delayed and in what order, which of them were left undecided and by which control, and which schedule broke, exactly where the recording divides into first controls and the rounds each needs |
| Crashes.Cursor.Run | xtask/src/crashes.rs:488-557 | takes the next step exactly where it is a run the runner records for what is due, and nothing otherwise |
| Crashes.Cursor.Confirmed | xtask/src/crashes.rs:699-723 | reads the confirming rounds of a native stop up to the first that does not hold |
| Crashes.Cursor.Routed | xtask/src/crashes.rs:590-658 | reads the runs after a route, each test in turn until one does not hand the crash on |
| CrashEvidence.PutsLieInOrder | xtask/src/crashes.rs:590-658 | where every test a route asks for lies: those of a target after all of the targets before it, in the order recorded, and nothing else |
| CrashEvidence.UnnamedLieInOrder | xtask/src/crashes.rs:625-658 | the targets without recorded tests, in the route's order, and only those |
| Crashes.DecideAgain | xtask/src/crashes.rs:353-423 | the steps of one crash decide it, or are refused, as the reading of the whole sequence says |
| Crashes.DecidingAgainIsExact | xtask/src/crashes.rs:353-423 | the steps decide a crash exactly as the procedure does that can record just those steps, and no other steps are accepted |
| CrashEvidence.DecisionRestsOn | xtask/src/crashes.rs:590-723 | the steps come to a decision exactly where they are a run of it, by target and test of the recorded route: which test first did not hand the crash on, what its stop left and what its next run came to; corrupt on a stop that left something and a failing next run, and for a process on three full rounds with the same failures; and whether all runs were sealed |
| CrashEvidence.OutsideIsTakenAtItsWord | xtask/src/crashes.rs:409-422 | after any route, steps that end in the word that a stop wrote into the tree are accepted exactly where the steps before it are |
| CrashEvidence.OutsideHasAStop | xtask/src/crashes.rs:409-422 | an accepted such word has a recorded stop behind it exactly where the first run that does not hand the crash on stopped; always where the steps decide unshared, restarted or corrupt, never where unreached |
| Crashes.OutsideNeedsNoStop | xtask/src/crashes.rs:409-422 | the recording that fails, a route with no run, for which `OutsideHasAStop` is the condition |
| Disagreements.Grouped | xtask/src/crashes.rs:745-751 | the steps of each crash, in the order crashes first appear and steps were recorded |
| Disagreements.Disagreements | xtask/src/crashes.rs:740-797 | finds exactly the disputes between the report and the recording, each with its crash and reason, and none exactly when the report's crashes are distinct and its sites are the decisions replayed in order with the stain carried |
| Disagreements.AgreementMeansARun | xtask/src/crashes.rs:740-797 | a report and a recording agree exactly when some run could have made both |
| Disagreements.InterleavingChangesNothing | xtask/src/crashes.rs:745-751 | any two recordings group alike exactly where they keep each crash's steps and the order crashes first appear in, and then every report is disputed alike over both and the same runs could have made them |
| Disagreements.NeighboursChangePlaces | xtask/src/crashes.rs:745-751 | two neighbouring steps of different crashes change places without changing the grouping exactly where one of the crashes appeared before |
| Overlap.Concurrency | scripts/suite-cost.py:775-806 | nothing where no test was swept or one has no start; refused exactly where more tests have ended than started; otherwise the peak is the greatest count at any instant, each level holds the time at that count, the levels add up to the span and weighted by count to the time taken, and the mean lies between one and the peak |
| Overlap.NeverDips | scripts/suite-cost.py:790-794 | tests that took some time are never refused, however their instants coincide |
| Overlap.DipsMeans | scripts/suite-cost.py:784-798 | the sweep is refused exactly where, at some instant, more tests have ended by it than started before it |
| Overlap.PeakIsGreatestOverlap | scripts/suite-cost.py:787-796 | for tests that took some time, the peak is the greatest number of half-open intervals over one instant |
| Accounting.ReadKey | scripts/suite-cost.py:115-180 | a bound key's work is read exactly where its counts are counts, its reasons concrete, and requests, misses, reasons and launch causes close; what a refusal says against it is so |
| Accounting.ReadableKeyMeans | scripts/suite-cost.py:115-180 | in the fields' own terms, which works of a key are readable |
| Accounting.ReadUnbound | scripts/suite-cost.py:183-222 | an unbound identity's work is read exactly where it closes, its misses by whether the cache was asked; what a refusal says against it is so |
| Accounting.ReadableUnboundMeans | scripts/suite-cost.py:183-222 | in the fields' own terms, which works of an unbound identity are readable |
| Accounting.MergeKey | scripts/suite-cost.py:225-234 | merging in place adds every count and every reason's count |
| Accounting.MergedKeyCloses | scripts/suite-cost.py:225-234 | merging closed works of a key leaves them closed in requests, misses, reasons and causes |
| Accounting.MergedUnboundCloses | scripts/suite-cost.py:237-242 | merging closed works of an unbound identity leaves them closed |
| Accounting.RowsAddUp | scripts/suite-cost.py:586-623 | of two rows merged, every measure, cargo count, module count and key's count is the sum of the two |
| Accounting.WholeAddsUp | scripts/suite-cost.py:586-623 | over any tests, every measure, cargo count, module count, key's count and the record count held is the sum over those tests |
| Accounting.TogetherCloses | scripts/suite-cost.py:586-623 | holders that account for every process, request, hit, miss and failure do so together |
| Accounting.TogetherInAnyOrder | scripts/suite-cost.py:586-623 | what is held after merging does not depend on the order of merging |
| Accounting.TakeRow | scripts/suite-cost.py:453-585 | a record is taken into its test exactly where its work did not fail and is read, its modules are counted, answered for and timed, its unobserved commands are named, and the test then fits, closes and, where the suite must pass, has a role for every cargo start; what a refusal says against it is so |
| Accounting.Ledger.Take | scripts/suite-cost.py:436-585 | over what all records before it left: a record of the current schema is passed over where the product made it, else taken exactly where its test is the suite's and it can be; each uncovered take leaves one gap |
| Accounting.RecordAdds | scripts/suite-cost.py:453-585 | what a record adds to each count of its test is what the record itself says of it, field by field |
| Accounting.FittingMeans | scripts/suite-cost.py:94-112 | in the fields' own terms, when a test's counts are within the width |
| Accounting.CoverageMeans | scripts/suite-cost.py:543-552 | the roles of a test are its builds, probes and metadata queries, and it is covered exactly where they are no fewer than the cargo starts it saw |
| Accounting.Ledger.Close | scripts/suite-cost.py:586-658 | over closed tests each binary and the suite hold exactly their tests together and close; what is left to refuse is modules prepared unrequested, then a count too wide, then keys the tests built cold twice or more between them; no gap is added |
| Accounting.ColdAcrossTests | scripts/suite-cost.py:268-279 | the suite built a key cold as often as its tests did, however the builds are spread over tests and records |
| Accounting.Redundancies | scripts/suite-cost.py:268-297 | names exactly the keys built cold twice or more, and over closed work within the width refuses no sum |
| ProcessTree.Descendants | scripts/run-suite-cost.py:37-46 | after at most one pass for each row, holds exactly the processes reached from the run's own by chains of children, for every table |
| Faults.NoticedMeans | xtask/src/faults.rs:504-531 | noticing is supported exactly for a target that failed, passed unchanged and failed again, every reaching one before it asked and not noticing |
| Faults.PassedMeans | xtask/src/faults.rs:532-548 | absorbed and unnoticed split the evidence that every reaching test was asked and passed, by whether the failure went nowhere on every target |
| Faults.OthersMean | xtask/src/faults.rs:504-570 | of each other decision, the evidence that supports it, in the asked targets' own terms |
| Faults.ContradictionIsSo | xtask/src/faults.rs:491-570 | where a decision is not supported, what is said against it is so |
| Faults.DecisionsExcludeExactly | xtask/src/faults.rs:491-570 | two decisions can both be supported by some evidence exactly where both say something failed, or both that nothing was put, or they are the same one; unnoticed and absorbed exclude each other, and noticed excludes both, unreached and not-put |
| Faults.TwoTargetsAreNamed | xtask/src/faults.rs:585-597 | of two targets both can be named as noticing exactly where the earlier is not known to reach, both noticed, and every reaching one before the later was asked and did not |
| Faults.OneTargetNotices | xtask/src/faults.rs:585-597 | the earlier of two targets that can be named is never one that reaches, so at most one reaching target can be named |
| Faults.LeastNoticingIsNamed | xtask/src/faults.rs:585-621 | a reaching target is named exactly where it is the least that noticed and every earlier one was asked |
| Faults.TargetOffTheRouteCanBeNamed | xtask/src/faults.rs:585-597 | the evidence that fails, naming a reaching target and one off the route, for which `TwoTargetsAreNamed` is the condition |
| Faults.DerivedIsTheFirstToTellApart | xtask/src/faults.rs:126-148 | the evidence beside a fault is the first target in name order on which two pairs or more all say the same run failed |
| Reach.Standings | xtask/src/drift.rs:238-275 | each target named by a baseline stands as its last baseline and comparable controls say |
| Reach.StandingMeans | xtask/src/drift.rs:238-275 | held, moved and unknown, each by what the last baseline and the comparable controls hold |
| Reach.Compare | xtask/src/knobs.rs:499-539 | a control is compared with the last baseline of its target, or with none for every reason that holds |
| Reach.LastBaselineIsLast | xtask/src/knobs.rs:499-539 | the baseline of a target is the one no other baseline of it comes after |
| Reach.ComparedMeans | xtask/src/knobs.rs:499-539 | a comparison is stable, moved or refused by what the control and that baseline hold themselves |
| Reach.MovementRebuilds | xtask/src/knobs.rs:380-387 | what was gained and lost rebuilds the control from the baseline, and is the only such account |
| Reach.ComparersAgree | xtask/src/drift.rs:238-275 | drift's standing of a target is exactly what the knobs decide of every comparable control, and for held that each entered the items the baseline did |
| Reach.StableDriftsByEntryAlone | xtask/src/drift.rs:67-72 | where every comparable control is stable in the knobs' terms, drift calls the target moved exactly where one of them entered other items |
| Reach.StableCanDrift | xtask/src/drift.rs:67-72 | a control stable in the knobs' terms that drift calls moved |
| Templates.Render | xtask/src/bundle.rs:416-455 | the loop over braces fills the template or refuses it for the first thing wrong |
| Templates.FillingIsExact | xtask/src/bundle.rs:416-455 | a template is filled exactly where it is text and braced words that each name a variable with a value, with each value in its word's place |
| Templates.FillingMeans | xtask/src/bundle.rs:395-415 | which value stands in each word's place |
| Templates.RefusedForTheFirst | xtask/src/bundle.rs:416-455 | a template is refused for a fault it has, and nothing before that fault has one |
| Bundle.MakePlan | xtask/src/bundle.rs:494-532 | a plan is made exactly where the shipped packages agree on one archive, one directory and distinct files; it holds exactly their binaries and the documents, and can be written in order; otherwise it is refused for the first thing, in the order they are read, that keeps it from one |
| Bundle.PlanHolds | xtask/src/bundle.rs:494-702 | in the manifests' own terms: just the binaries published packages declare, each where its template fills to, the three documents beside them, the one archive every such package fetches, and every directory above some file |
| Bundle.AgreeMeans | xtask/src/bundle.rs:494-624 | packages agree on an archive exactly where one is published with a binary, and every such package fetches it and has every binary's place filled to a path inside it |
| Bundle.FetchesMeans | xtask/src/bundle.rs:534-590 | a package fetches an archive exactly where its table is read, its format is `tgz`, and its address fills to one whose last segment is that name, something before `.tar.gz` or `.tgz` without query or fragment |
| Bundle.InsideMeans | xtask/src/bundle.rs:592-624 | a path is inside the archive exactly where between slashes nothing is empty, one dot or two |
| Bundle.PlannedIsWritable | xtask/src/bundle.rs:659-702 | with only files held apart, every path of the plan is distinct and inside the archive, and every entry's directory comes before it |
| Bundle.DocumentsBeside | xtask/src/bundle.rs:634-657 | the documents go beside the binaries exactly where those share one directory |
| Bundle.RefuseTwice | xtask/src/bundle.rs:659-685 | refuses exactly where two files are at one path |
| Bundle.DirectoriesOf | xtask/src/bundle.rs:687-702 | lists in order exactly the directories above some file |

## Left out

- Decoding of JSON, TOML and Rust tokens: the model starts from the typed values they come to; a condition is an atom, a list or opaque, and atoms are compared by key.
- Real files, locks, clocks, signals and process listings: they are steps of the environment, or answers that are true or unread.
- Messages and error codes: only the kind of a refusal, and its place where a property needs it, is kept.
- Lanes: the line's lock is taken and the directory listed in one step; tickets are unbounded, where the code saturates at 64 bits.
- Lanes: a run holds the lane once, so a process id taken over by another lane run while its old marker is being read is not modelled; a stale marker read as alive is.
- Lanes: the answers of one look are those of one moment; a look reads the leader, the listing and the sessions one after another.
- Lanes: the quiet window, its clock and the messages it prints are a step that gives up; an answer that cannot be read is a step that fails; what is done to end a group is the environment's.
- Accounting.Ledger.Take: a refused record leaves the test as it was, where the script has already added part of it and stops.
- Accounting.ReadKey: which refusal is given where several hold; the same is true of the other readers of the ledger.
- Accounting: the reading of the test inventory and of load samples, the receipts of observed work, and the wording of the redundancy report.
- Overlap.Concurrency: time is exact; rounding of floating-point seconds and the parsing of timestamps are not modelled.
- Disagreements.Disagreements: crashes the report holds and the recording does not are named in any order, where the code names them in name order.
- Bundle: programs at one path are not ordered further by package and name, since such a plan is refused.
- The issued mutations and nonces of crash runs against the report, the standing of single-threaded binaries, and the comparison of a reported exploration with the replayed one.
- Growth of the cost budget against its baseline, and the comparison of a written archive with its plan.
