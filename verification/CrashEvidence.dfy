/**
 What a recording has to say for a crash to be decided one way or another (`xtask/src/crashes.rs`), written
 from the fields of its steps and the route's own targets and tests, and held to the reading of `Crashes`.
 */
module CrashEvidence {
  import opened Crashes
  import opened Wrappers

  // ---------------------------------------------------------------- where a route's tests lie

  /** The route names this test of this target. */
  predicate Calls(asked: seq<Asked>, i: nat, j: nat) {
    i < |asked| && asked[i].tests.Some? && j < |asked[i].tests.value|
  }

  /** How many tests the targets before the `i`th name. */
  function TestsBefore(asked: seq<Asked>, i: nat): nat
    requires i <= |asked|
  {
    if i == 0 then 0
    else TestsBefore(asked, i - 1) + if asked[i - 1].tests.Some? then |asked[i - 1].tests.value| else 0
  }

  /** How many targets before the `i`th name no test. */
  function UnnamedBefore(asked: seq<Asked>, i: nat): nat
    requires i <= |asked|
  {
    if i == 0 then 0 else UnnamedBefore(asked, i - 1) + if asked[i - 1].tests.None? then 1 else 0
  }

  lemma {:induction false} CountsFromTheEnd(asked: seq<Asked>, i: nat)
    requires 0 < i <= |asked|
    ensures TestsBefore(asked, i)
            == (if asked[0].tests.Some? then |asked[0].tests.value| else 0) + TestsBefore(asked[1..], i - 1)
    ensures UnnamedBefore(asked, i) == (if asked[0].tests.None? then 1 else 0) + UnnamedBefore(asked[1..], i - 1)
  {
    if i > 1 {
      CountsFromTheEnd(asked, i - 1);
      assert asked[1..][i - 2] == asked[i - 1];
    }
  }

  lemma NoPuts()
    ensures Puts([]) == [] && Unnamed([]) == []
  {
  }

  lemma PutsDivide(asked: seq<Asked>)
    requires asked != []
    ensures Puts(asked)
            == (if asked[0].tests.Some? then PutsOf(asked[0].target, asked[0].tests.value) else []) + Puts(asked[1..])
  {
  }

  /** The tests a crash is put to lie target by target, and in the order each target's were named. */
  lemma {:induction false} PutsLieInOrder(asked: seq<Asked>)
    ensures |Puts(asked)| == TestsBefore(asked, |asked|)
    ensures forall i: nat, j: nat | Calls(asked, i, j) ::
              TestsBefore(asked, i) + j < |Puts(asked)|
              && Puts(asked)[TestsBefore(asked, i) + j] == Put(asked[i].target, asked[i].tests.value[j])
  {
    hide Puts;
    if asked == [] {
      NoPuts();
    } else {
      var rest := asked[1..];
      PutsDivide(asked);
      PutsLieInOrder(rest);
      CountsFromTheEnd(asked, |asked|);
      forall i: nat, j: nat | Calls(asked, i, j)
        ensures TestsBefore(asked, i) + j < |Puts(asked)|
        ensures Puts(asked)[TestsBefore(asked, i) + j] == Put(asked[i].target, asked[i].tests.value[j])
      {
        if i > 0 {
          CountsFromTheEnd(asked, i);
          assert Calls(rest, i - 1, j) && rest[i - 1] == asked[i];
        }
      }
    }
  }

  /** And there is nothing else among them. */
  lemma {:induction false} PutIsCalled(asked: seq<Asked>, k: nat) returns (i: nat, j: nat)
    requires k < |Puts(asked)|
    ensures Calls(asked, i, j) && k == TestsBefore(asked, i) + j
  {
    var first := if asked[0].tests.Some? then |asked[0].tests.value| else 0;
    if k < first {
      i, j := 0, k;
    } else {
      i, j := PutIsCalled(asked[1..], k - first);
      i := i + 1;
      CountsFromTheEnd(asked, i);
    }
  }

  lemma UnnamedDivide(asked: seq<Asked>)
    requires asked != []
    ensures Unnamed(asked) == (if asked[0].tests.Some? then [] else [asked[0].target]) + Unnamed(asked[1..])
  {
  }

  /** The targets that name no test, in the order asked. */
  lemma {:induction false} UnnamedLieInOrder(asked: seq<Asked>)
    ensures |Unnamed(asked)| == UnnamedBefore(asked, |asked|)
    ensures forall i: nat | i < |asked| && asked[i].tests.None? ::
              UnnamedBefore(asked, i) < |Unnamed(asked)| && Unnamed(asked)[UnnamedBefore(asked, i)] == asked[i].target
  {
    hide Unnamed;
    if asked == [] {
      NoPuts();
    } else {
      UnnamedDivide(asked);
      UnnamedLieInOrder(asked[1..]);
      CountsFromTheEnd(asked, |asked|);
      forall i: nat | i < |asked| && asked[i].tests.None?
        ensures UnnamedBefore(asked, i) < |Unnamed(asked)|
        ensures Unnamed(asked)[UnnamedBefore(asked, i)] == asked[i].target
      {
        if i > 0 {
          CountsFromTheEnd(asked, i);
          assert asked[1..][i - 1] == asked[i];
        }
      }
    }
  }

  /** Names are joined by a comma and a space between any two parts, and one name is itself. */
  lemma {:induction false} JoinedByCommas(first: seq<string>, second: seq<string>)
    requires first != [] && second != []
    ensures Joined(first + second) == Joined(first) + ", " + Joined(second)
    ensures forall name :: Joined([name]) == name
    ensures Joined([]) == ""
  {
    if |first| > 1 {
      JoinedByCommas(first[1..], second);
      assert (first + second)[1..] == first[1..] + second;
    } else {
      assert (first + second)[1..] == second;
    }
  }

  // ---------------------------------------------------------------- what a run says

  /** The notice read back is the one issued, field by field. */
  ghost predicate Notifies(run: Run) {
    && run.issued.Some?
    && run.issued.value.read
       == Some("rust-mutants-crash-notice-v1\t" + run.issued.value.nonce + "\t" + run.issued.value.catalog + "\t"
               + run.issued.value.mutant + "\n")
  }

  /** A process that ended with 93, or an instance halted, having published its notice. */
  ghost predicate StoppedAtTheCall(run: Run) {
    && (run.sealed ==> run.outcome == Halted)
    && (!run.sealed ==> run.exitCode == Some(93))
    && Notifies(run)
  }

  /** It passed, nothing having been published in it. */
  ghost predicate PassedUncalled(run: Run) {
    run.outcome == (if run.sealed then Passed else Survived) && !Notifies(run)
  }

  /** It stopped at the call and left something, every entry of it named. */
  ghost predicate LeftSomething(run: Run) {
    StoppedAtTheCall(run) && run.unnamed == None && run.left != []
  }

  /** The fields of a run go together as one the runner records. */
  ghost predicate Consistent(run: Run) {
    && run.noticed == StoppedAtTheCall(run)
    && (run.stage == Crash <==> run.issued.Some?)
    && (run.unnamed.Some? ==> StoppedAtTheCall(run) && run.left == [])
    && (run.sealed ==>
          && run.exitCode == None && run.stage != Fresh
          && (|| run.outcome in {Passed, Panicked, Faulted, Trapped, FuelExceeded, MemoryExceeded, Declined}
              || run.outcome in {ExitedEarly, StackOverflow, Refused, Unaccounted, Unmatched, SetAside}
              || (run.outcome == Halted && run.stage == Crash)
              || (run.outcome == Unstartable && run.stage == Next)))
    && (!run.sealed ==>
          && run.exitCode != None
          && run.outcome in {NotRun, Killed, Survived, StepLimitReached, Waited, Inconclusive, Errored})
  }

  /** The step is a run of this test at this stage. */
  ghost predicate IsRun(steps: seq<Step>, at: nat, put: Put, stage: Stage) {
    && at < |steps| && steps[at].Ran? && Consistent(steps[at].run)
    && steps[at].run.target == put.target && steps[at].run.test == put.test && steps[at].run.stage == stage
  }

  /** The same, of a process or of a sealed instance. */
  ghost predicate IsRunAs(steps: seq<Step>, at: nat, put: Put, stage: Stage, sealed: bool) {
    IsRun(steps, at, put, stage) && steps[at].run.sealed == sealed
  }

  // ---------------------------------------------------------------- rounds

  /** A fresh process passes, one stops and leaves something, and one over that fails the same tests. */
  ghost predicate RoundHeld(steps: seq<Step>, at: nat, put: Put, failed: seq<string>) {
    && IsRunAs(steps, at, put, Fresh, false) && steps[at].run.outcome == Survived
    && IsRunAs(steps, at + 1, put, Crash, false) && LeftSomething(steps[at + 1].run)
    && IsRunAs(steps, at + 2, put, Next, false)
    && steps[at + 2].run.outcome == Killed && steps[at + 2].run.failed == failed
  }

  ghost predicate RoundsHeld(steps: seq<Step>, at: nat, rounds: nat, put: Put, failed: seq<string>) {
    forall k: nat | k < rounds :: RoundHeld(steps, at + 3 * k, put, failed)
  }

  /** A round whose runs are those due, as far as the first that is not as it would have to be, which is the last. */
  ghost predicate RoundFell(steps: seq<Step>, at: nat, put: Put, failed: seq<string>, end: nat) {
    && IsRunAs(steps, at, put, Fresh, false)
    && if steps[at].run.outcome != Survived then end == at + 1
       else
         && IsRunAs(steps, at + 1, put, Crash, false)
         && if !LeftSomething(steps[at + 1].run) then end == at + 2
            else
              && IsRunAs(steps, at + 2, put, Next, false) && end == at + 3
              && !(steps[at + 2].run.outcome == Killed && steps[at + 2].run.failed == failed)
  }

  /** Fewer than `rounds` rounds held, and the one after them fell. */
  ghost predicate RoundsFell(steps: seq<Step>, at: nat, rounds: nat, put: Put, failed: seq<string>, end: nat) {
    exists k: nat :: k < rounds && RoundsHeld(steps, at, k, put, failed)
        && RoundFell(steps, at + 3 * k, put, failed, end)
  }

  // ---------------------------------------------------------------- one test

  /** The test was put the crash, and passed without calling. */
  ghost predicate HandedOn(steps: seq<Step>, at: nat, put: Put) {
    IsRun(steps, at, put, Crash) && PassedUncalled(steps[at].run)
  }

  /** What a sealed next run over what the stop left says. */
  ghost predicate SettledSealed(site: Site, put: Put, stop: Run, next: Run) {
    && next.failed
       == (if next.outcome in {Panicked, Faulted, Trapped, FuelExceeded, MemoryExceeded, Declined} then [put.test]
           else [])
    && site.decision
       == (if next.outcome == Passed then Restarted else if next.failed == [put.test] then Corrupt else Undecided)
    && site.left == (if next.outcome == Passed then stop.left else []) && site.failed == next.failed
  }

  /** What a native next run over what the stop left, at `at`, and the rounds after it say. */
  ghost predicate SettledNative(site: Site, put: Put, stop: Run, steps: seq<Step>, at: nat, end: nat)
    requires at < |steps| && steps[at].Ran?
  {
    var next := steps[at].run;
    || (next.outcome == Survived && end == at + 1
        && site.decision == Restarted && site.left == stop.left && site.failed == [])
    || (next.outcome == Killed && put.test in next.failed && end == at + 1 + 3 * 3
        && RoundsHeld(steps, at + 1, 3, put, next.failed)
        && site.decision == Corrupt && site.left == [] && site.failed == next.failed)
    || (&& site.decision == Undecided && site.left == [] && site.failed == []
        && if next.outcome == Killed && put.test in next.failed then RoundsFell(steps, at + 1, 3, put, next.failed, end)
           else next.outcome != Survived && end == at + 1)
  }

  /** From `at` up to `end` the steps are the runs of `put` that settle the crash as `site`. */
  ghost predicate Settles(site: Site, put: Put, steps: seq<Step>, at: nat, end: nat) {
    && IsRun(steps, at, put, Crash) && !PassedUncalled(steps[at].run)
    && site.on == put.target + "::" + put.test && !site.sealed
    && var stop := steps[at].run;
       if !LeftSomething(stop) then
         && end == at + 1 && site.left == [] && site.failed == []
         && site.decision == if StoppedAtTheCall(stop) && stop.unnamed == None then Unshared else Undecided
       else
         && IsRunAs(steps, at + 1, put, Next, stop.sealed)
         && if stop.sealed then end == at + 2 && SettledSealed(site, put, stop, steps[at + 1].run)
            else SettledNative(site, put, stop, steps, at + 1, end)
  }

  // ---------------------------------------------------------------- the predicates say what the reading asks

  lemma SaysTheSame(run: Run)
    ensures StoppedAtTheCall(run) <==> Stopped(run)
    ensures Notifies(run) <==> Published(run)
    ensures LeftSomething(run) <==> LeavesNamed(run)
    ensures Consistent(run) <==> WellRecorded(run)
    ensures PassedUncalled(run) && Consistent(run) <==> HandsOn(run) && WellRecorded(run)
  {
    if run.issued.Some? {
      var issued := run.issued.value;
      assert Notice(issued) == "rust-mutants-crash-notice-v1\t" + issued.nonce + "\t" + issued.catalog + "\t"
             + issued.mutant + "\n" by {
        assert "rust-mutants-crash-notice-v1" + "\t" == "rust-mutants-crash-notice-v1\t";
      }
    }
  }

  lemma DueIsARun(steps: seq<Step>, at: nat, put: Put, stage: Stage, sealed: bool)
    ensures Due(steps, at, Request(put, stage, None)).Some? <==> IsRun(steps, at, put, stage)
    ensures Due(steps, at, Request(put, stage, Some(sealed))).Some? <==> IsRunAs(steps, at, put, stage, sealed)
    ensures at < |steps| && steps[at].Ran? ==>
              && (Due(steps, at, Request(put, stage, None)).Some? ==>
                    Due(steps, at, Request(put, stage, None)).value == steps[at].run)
              && (Due(steps, at, Request(put, stage, Some(sealed))).Some? ==>
                    Due(steps, at, Request(put, stage, Some(sealed))).value == steps[at].run)
  {
    hide Consistent, WellRecorded;
    if at < |steps| && steps[at].Ran? { SaysTheSame(steps[at].run); }
  }

  // ---------------------------------------------------------------- the reading is of just this evidence

  lemma RoundReadsOn(steps: seq<Step>, at: nat, put: Put, failed: seq<string>, left: nat)
    requires left > 0
    ensures RoundHeld(steps, at, put, failed) ==>
              ReadRounds(steps, at, put, failed, left) == ReadRounds(steps, at + 3, put, failed, left - 1)
    ensures !RoundHeld(steps, at, put, failed) ==>
              forall read: Read<bool> ::
                ReadRounds(steps, at, put, failed, left) == Some(read) <==>
                !read.value && RoundFell(steps, at, put, failed, read.at)
    ensures forall end: nat :: RoundFell(steps, at, put, failed, end) ==> !RoundHeld(steps, at, put, failed)
  {
    hide Due, Consistent, LeavesNamed, LeftSomething;
    DueIsARun(steps, at, put, Fresh, false);
    DueIsARun(steps, at + 1, put, Crash, false);
    DueIsARun(steps, at + 2, put, Next, false);
    if at + 1 < |steps| && steps[at + 1].Ran? { SaysTheSame(steps[at + 1].run); }
  }

  lemma RoundsHoldAgain(steps: seq<Step>, at: nat, put: Put, failed: seq<string>, more: nat)
    ensures RoundsHeld(steps, at, more + 1, put, failed) <==>
            RoundHeld(steps, at, put, failed) && RoundsHeld(steps, at + 3, more, put, failed)
  {
    hide RoundHeld;
    if RoundsHeld(steps, at, more + 1, put, failed) {
      assert RoundHeld(steps, at + 3 * 0, put, failed);
      forall k: nat | k < more ensures RoundHeld(steps, at + 3 + 3 * k, put, failed) {
        assert RoundHeld(steps, at + 3 * (k + 1), put, failed);
        assert at + 3 * (k + 1) == at + 3 + 3 * k;
      }
    }
    if RoundHeld(steps, at, put, failed) && RoundsHeld(steps, at + 3, more, put, failed) {
      forall k: nat | k < more + 1 ensures RoundHeld(steps, at + 3 * k, put, failed) {
        if k > 0 {
          assert RoundHeld(steps, at + 3 + 3 * (k - 1), put, failed);
          assert at + 3 * k == at + 3 + 3 * (k - 1);
        }
      }
    }
  }

  lemma RoundsFallLater(steps: seq<Step>, at: nat, put: Put, failed: seq<string>, more: nat, end: nat)
    ensures RoundsFell(steps, at, more + 1, put, failed, end) <==>
            || RoundFell(steps, at, put, failed, end)
            || (RoundHeld(steps, at, put, failed) && RoundsFell(steps, at + 3, more, put, failed, end))
  {
    hide RoundHeld, RoundFell, RoundsHeld;
    NoRoundHeld(steps, at, put, failed);
    if RoundsFell(steps, at, more + 1, put, failed, end) {
      var k: nat :|
        k < more + 1 && RoundsHeld(steps, at, k, put, failed) && RoundFell(steps, at + 3 * k, put, failed, end);
      if k > 0 { FellAfterAnother(steps, at, put, failed, more, end, k - 1); }
    }
    if RoundFell(steps, at, put, failed, end) {
      assert RoundFell(steps, at + 3 * 0, put, failed, end);
    }
    if RoundHeld(steps, at, put, failed) && RoundsFell(steps, at + 3, more, put, failed, end) {
      var k: nat :|
        k < more && RoundsHeld(steps, at + 3, k, put, failed) && RoundFell(steps, at + 3 + 3 * k, put, failed, end);
      RoundsHoldAgain(steps, at, put, failed, k);
      assert at + 3 * (k + 1) == at + 3 + 3 * k;
    }
  }

  lemma NoRoundHeld(steps: seq<Step>, at: nat, put: Put, failed: seq<string>)
    ensures RoundsHeld(steps, at, 0, put, failed)
  {
  }

  lemma FellAfterAnother(steps: seq<Step>, at: nat, put: Put, failed: seq<string>, more: nat, end: nat, k: nat)
    requires k < more && RoundsHeld(steps, at, k + 1, put, failed)
    requires RoundFell(steps, at + 3 * (k + 1), put, failed, end)
    ensures RoundHeld(steps, at, put, failed) && RoundsFell(steps, at + 3, more, put, failed, end)
  {
    hide RoundHeld, RoundFell, RoundsHeld;
    RoundsHoldAgain(steps, at, put, failed, k);
    assert at + 3 * (k + 1) == at + 3 + 3 * k;
  }

  /** Rounds are read as held exactly where every one was, and as fallen exactly where one fell, up to its end. */
  lemma {:induction false} RoundsAreRead(steps: seq<Step>, at: nat, put: Put, failed: seq<string>, left: nat, end: nat)
    ensures ReadRounds(steps, at, put, failed, left) == Some(Read(true, end)) <==>
            RoundsHeld(steps, at, left, put, failed) && end == at + 3 * left
    ensures ReadRounds(steps, at, put, failed, left) == Some(Read(false, end)) <==>
            RoundsFell(steps, at, left, put, failed, end)
    decreases left
  {
    hide RoundHeld, RoundFell, Due;
    if left > 0 {
      RoundReadsOn(steps, at, put, failed, left);
      RoundsAreRead(steps, at + 3, put, failed, left - 1, end);
      RoundsHoldAgain(steps, at, put, failed, left - 1);
      RoundsFallLater(steps, at, put, failed, left - 1, end);
    }
  }

  /** The runs over what a stop left are read as a site exactly where they settle the crash so. */
  lemma NextIsRead(crash: string, put: Put, stop: Run, steps: seq<Step>, at: nat, site: Site, end: nat)
    ensures ReadNext(crash, put, stop, steps, at) == Some(Read(site, end)) <==>
            && IsRunAs(steps, at, put, Next, stop.sealed)
            && site.crash == crash && site.on == put.target + "::" + put.test && !site.sealed
            && if stop.sealed then end == at + 1 && SettledSealed(site, put, stop, steps[at].run)
               else SettledNative(site, put, stop, steps, at, end)
  {
    hide Due, Consistent, RoundsHeld, RoundsFell, ReadRounds, IsRun;
    DueIsARun(steps, at, put, Next, stop.sealed);
    assert IsRunAs(steps, at, put, Next, stop.sealed) ==>
           at < |steps| && steps[at].Ran? && steps[at].run.test == put.test && steps[at].run.sealed == stop.sealed by {
      NextRunIsOf(steps, at, put, stop.sealed);
    }
    if at < |steps| && steps[at].Ran? {
      RoundsAreRead(steps, at + 1, put, steps[at].run.failed, 3, end);
    }
  }

  lemma NextRunIsOf(steps: seq<Step>, at: nat, put: Put, sealed: bool)
    ensures IsRunAs(steps, at, put, Next, sealed) ==>
              at < |steps| && steps[at].Ran? && steps[at].run.test == put.test && steps[at].run.sealed == sealed
  {
  }

  /** One test's runs are read as handing on, or as a site, exactly where they do, or settle the crash so. */
  lemma TestIsRead(crash: string, put: Put, steps: seq<Step>, at: nat, site: Site, end: nat)
    ensures ReadTest(crash, put, steps, at) == Some(Read(None, end)) <==> HandedOn(steps, at, put) && end == at + 1
    ensures ReadTest(crash, put, steps, at) == Some(Read(Some(site), end)) <==>
            site.crash == crash && Settles(site, put, steps, at, end)
  {
    hide Due, Consistent, WellRecorded, ReadNext, SettledNative, SettledSealed;
    DueIsARun(steps, at, put, Crash, false);
    if at < |steps| && steps[at].Ran? {
      SaysTheSame(steps[at].run);
      NextIsRead(crash, put, steps[at].run, steps, at + 1, site, end);
    }
  }

  /** The first `count` tests were put the crash, one run each from `from`, and each handed it on. */
  ghost predicate AllHandedOn(puts: seq<Put>, steps: seq<Step>, from: nat, count: nat) {
    count <= |puts| && forall k: nat | k < count :: HandedOn(steps, from + k, puts[k])
  }

  /** Some test settles the crash as `site`, every one before it having handed it on; or every test did. */
  ghost predicate PutsSettle(site: Site, puts: seq<Put>, otherwise: Site, steps: seq<Step>, from: nat, end: nat) {
    || (exists k: nat ::
          k < |puts| && AllHandedOn(puts, steps, from, k) && Settles(site, puts[k], steps, from + k, end))
    || (AllHandedOn(puts, steps, from, |puts|) && site == otherwise && end == from + |puts|)
  }

  lemma AllHandOnLater(puts: seq<Put>, steps: seq<Step>, from: nat, count: nat)
    requires puts != []
    ensures AllHandedOn(puts, steps, from, count + 1) <==>
            HandedOn(steps, from, puts[0]) && AllHandedOn(puts[1..], steps, from + 1, count)
  {
    hide HandedOn;
    if AllHandedOn(puts, steps, from, count + 1) {
      assert HandedOn(steps, from + 0, puts[0]);
      forall k: nat | k < count ensures HandedOn(steps, from + 1 + k, puts[1..][k]) {
        assert HandedOn(steps, from + (k + 1), puts[k + 1]);
        assert from + (k + 1) == from + 1 + k;
      }
    }
    if HandedOn(steps, from, puts[0]) && AllHandedOn(puts[1..], steps, from + 1, count) {
      forall k: nat | k < count + 1 ensures HandedOn(steps, from + k, puts[k]) {
        if k > 0 {
          assert HandedOn(steps, from + 1 + (k - 1), puts[1..][k - 1]);
          assert from + k == from + 1 + (k - 1);
        }
      }
    }
  }

  lemma SettlingLater(site: Site, puts: seq<Put>, otherwise: Site, steps: seq<Step>, from: nat, end: nat)
    requires puts != []
    ensures PutsSettle(site, puts, otherwise, steps, from, end) <==>
            || Settles(site, puts[0], steps, from, end)
            || (HandedOn(steps, from, puts[0]) && PutsSettle(site, puts[1..], otherwise, steps, from + 1, end))
  {
    hide HandedOn, Settles, AllHandedOn;
    if PutsSettle(site, puts, otherwise, steps, from, end) {
      if k: nat :| k < |puts| && AllHandedOn(puts, steps, from, k) && Settles(site, puts[k], steps, from + k, end) {
        if k > 0 {
          AllHandOnLater(puts, steps, from, k - 1);
          assert from + k == from + 1 + (k - 1) && puts[k] == puts[1..][k - 1];
        }
      } else {
        AllHandOnLater(puts, steps, from, |puts| - 1);
      }
    }
    if Settles(site, puts[0], steps, from, end) {
      assert AllHandedOn(puts, steps, from, 0) by { NoneHandedOn(puts, steps, from); }
      assert Settles(site, puts[0], steps, from + 0, end);
    }
    if HandedOn(steps, from, puts[0]) && PutsSettle(site, puts[1..], otherwise, steps, from + 1, end) {
      if k: nat :| k < |puts[1..]| && AllHandedOn(puts[1..], steps, from + 1, k)
                   && Settles(site, puts[1..][k], steps, from + 1 + k, end) {
        AllHandOnLater(puts, steps, from, k);
        assert from + (k + 1) == from + 1 + k && puts[k + 1] == puts[1..][k];
        assert AllHandedOn(puts, steps, from, k + 1) && Settles(site, puts[k + 1], steps, from + (k + 1), end);
      } else {
        AllHandOnLater(puts, steps, from, |puts| - 1);
      }
    }
  }

  lemma NoneHandedOn(puts: seq<Put>, steps: seq<Step>, from: nat)
    ensures AllHandedOn(puts, steps, from, 0)
  {
  }

  lemma {:induction false} PutsAreRead(crash: string, puts: seq<Put>, otherwise: Site, steps: seq<Step>, from: nat,
      site: Site, end: nat)
    requires otherwise.crash == crash
    ensures ReadPuts(crash, puts, otherwise, steps, from) == Some(Read(site, end)) <==>
            site.crash == crash && PutsSettle(site, puts, otherwise, steps, from, end)
    decreases |puts|
  {
    hide Settles, HandedOn, ReadTest;
    if puts != [] {
      SettlingLater(site, puts, otherwise, steps, from, end);
      TestIsRead(crash, puts[0], steps, from, site, from + 1);
      TestIsRead(crash, puts[0], steps, from, site, end);
      PutsAreRead(crash, puts[1..], otherwise, steps, from + 1, site, end);
      HandsOnOrSettles(steps, from, puts[0], site, end);
      if ReadTest(crash, puts[0], steps, from).Some? {
        var read := ReadTest(crash, puts[0], steps, from).value;
        if read.value.None? {
          TestIsRead(crash, puts[0], steps, from, site, read.at);
        }
      }
    }
  }

  lemma HandsOnOrSettles(steps: seq<Step>, at: nat, put: Put, site: Site, end: nat)
    ensures !(HandedOn(steps, at, put) && Settles(site, put, steps, at, end))
  {
  }

  // ---------------------------------------------------------------- what a decision rests on

  /** One test of the route comes before another. */
  predicate Earlier(i: nat, j: nat, k: nat, l: nat) {
    i < k || (i == k && j < l)
  }

  lemma {:induction false} TestsOnlyAdd(asked: seq<Asked>, i: nat, k: nat)
    requires i <= k <= |asked|
    ensures TestsBefore(asked, i) <= TestsBefore(asked, k)
    ensures i < k && asked[i].tests.Some? ==> TestsBefore(asked, i) + |asked[i].tests.value| <= TestsBefore(asked, k)
    decreases k
  {
    if i < k { TestsOnlyAdd(asked, i, k - 1); }
  }

  /** The step that is due for a test of the route where each test before it takes one. */
  function At(asked: seq<Asked>, i: nat, j: nat): nat
    requires i <= |asked|
  {
    1 + TestsBefore(asked, i) + j
  }

  lemma EarlierIsBefore(asked: seq<Asked>, i: nat, j: nat, k: nat, l: nat)
    requires Calls(asked, i, j) && Calls(asked, k, l)
    ensures At(asked, i, j) < At(asked, k, l) <==> Earlier(i, j, k, l)
  {
    if i < k { TestsOnlyAdd(asked, i, k); }
    if k < i { TestsOnlyAdd(asked, k, i); }
  }

  ghost predicate HandsOnAt(asked: seq<Asked>, steps: seq<Step>, i: nat, j: nat)
    requires Calls(asked, i, j)
  {
    HandedOn(steps, At(asked, i, j), Put(asked[i].target, asked[i].tests.value[j]))
  }

  /** Every test of the route before the `j`th of the `i`th target was put the crash and handed it on. */
  ghost predicate HandedDownTo(asked: seq<Asked>, steps: seq<Step>, i: nat, j: nat) {
    forall k: nat, l: nat | Calls(asked, k, l) && Earlier(k, l, i, j) :: HandsOnAt(asked, steps, k, l)
  }

  ghost predicate SettledBy(site: Site, asked: seq<Asked>, steps: seq<Step>, i: nat, j: nat, end: nat) {
    && Calls(asked, i, j) && HandedDownTo(asked, steps, i, j)
    && Settles(site, Put(asked[i].target, asked[i].tests.value[j]), steps, At(asked, i, j), end)
  }

  /** The site no test settles: unreached, unless targets name no test, and then undecided on those. */
  ghost predicate SettledByNone(site: Site, asked: seq<Asked>, steps: seq<Step>, end: nat) {
    && (forall i: nat, j: nat | Calls(asked, i, j) :: HandsOnAt(asked, steps, i, j)) && end == At(asked, |asked|, 0)
    && site.left == [] && site.failed == [] && !site.sealed
    && if forall one | one in asked :: one.tests != None then site.decision == Unreached && site.on == ""
       else site.decision == Undecided && site.on == Joined(Unnamed(asked))
  }

  /** Some test of the route settles the crash as `site`, its runs ending at `end`, or none does. */
  ghost predicate RouteSettles(site: Site, asked: seq<Asked>, steps: seq<Step>, end: nat) {
    || (exists i: nat, j: nat :: SettledBy(site, asked, steps, i, j, end))
    || SettledByNone(site, asked, steps, end)
  }

  lemma HandedDown(asked: seq<Asked>, steps: seq<Step>, i: nat, j: nat)
    requires Calls(asked, i, j)
    ensures HandedDownTo(asked, steps, i, j) <==> AllHandedOn(Puts(asked), steps, 1, TestsBefore(asked, i) + j)
  {
    hide HandedOn, Puts;
    PutsLieInOrder(asked);
    var puts, count := Puts(asked), TestsBefore(asked, i) + j;
    if HandedDownTo(asked, steps, i, j) {
      forall k: nat | k < count ensures HandedOn(steps, 1 + k, puts[k]) {
        var m, l := PutIsCalled(asked, k);
        EarlierIsBefore(asked, m, l, i, j);
        assert HandsOnAt(asked, steps, m, l);
      }
    }
    if AllHandedOn(puts, steps, 1, count) {
      forall k: nat, l: nat | Calls(asked, k, l) && Earlier(k, l, i, j) ensures HandsOnAt(asked, steps, k, l) {
        EarlierIsBefore(asked, k, l, i, j);
        assert HandedOn(steps, 1 + (TestsBefore(asked, k) + l), puts[TestsBefore(asked, k) + l]);
      }
    }
  }

  lemma HandedDownByAll(asked: seq<Asked>, steps: seq<Step>)
    ensures (forall i: nat, j: nat | Calls(asked, i, j) :: HandsOnAt(asked, steps, i, j)) <==>
            AllHandedOn(Puts(asked), steps, 1, |Puts(asked)|)
  {
    hide HandedOn, Puts;
    PutsLieInOrder(asked);
    var puts := Puts(asked);
    if forall i: nat, j: nat | Calls(asked, i, j) :: HandsOnAt(asked, steps, i, j) {
      forall k: nat | k < |puts| ensures HandedOn(steps, 1 + k, puts[k]) {
        var m, l := PutIsCalled(asked, k);
        assert HandsOnAt(asked, steps, m, l);
      }
    }
    if AllHandedOn(puts, steps, 1, |puts|) {
      forall k: nat, l: nat | Calls(asked, k, l) ensures HandsOnAt(asked, steps, k, l) {
        assert HandedOn(steps, 1 + (TestsBefore(asked, k) + l), puts[TestsBefore(asked, k) + l]);
      }
    }
  }

  lemma {:induction false} AllNameTests(asked: seq<Asked>)
    ensures Unnamed(asked) == [] <==> forall one | one in asked :: one.tests != None
  {
    if asked != [] {
      AllNameTests(asked[1..]);
      assert asked == [asked[0]] + asked[1..];
    }
  }

  /** What the route's runs are read as is what they settle, by its targets and their tests. */
  lemma RouteIsRead(crash: string, asked: seq<Asked>, steps: seq<Step>, site: Site, end: nat)
    ensures ReadPuts(crash, Puts(asked), Otherwise(crash, Unnamed(asked)), steps, 1) == Some(Read(site, end)) <==>
            site.crash == crash && RouteSettles(site, asked, steps, end)
  {
    hide HandedOn, Settles, Puts, Unnamed, ReadPuts, AllHandedOn, HandedDownTo, Joined, HandsOnAt;
    var puts, otherwise := Puts(asked), Otherwise(crash, Unnamed(asked));
    PutsAreRead(crash, puts, otherwise, steps, 1, site, end);
    PutsLieInOrder(asked);
    HandedDownByAll(asked, steps);
    AllNameTests(asked);
    if i: nat, j: nat :| SettledBy(site, asked, steps, i, j, end) {
      HandedDown(asked, steps, i, j);
      var k := TestsBefore(asked, i) + j;
      assert 1 + k == At(asked, i, j);
      assert k < |puts| && AllHandedOn(puts, steps, 1, k) && Settles(site, puts[k], steps, 1 + k, end);
    }
    if k: nat :| k < |puts| && AllHandedOn(puts, steps, 1, k) && Settles(site, puts[k], steps, 1 + k, end) {
      var i, j := PutIsCalled(asked, k);
      HandedDown(asked, steps, i, j);
      assert 1 + k == At(asked, i, j);
      assert SettledBy(site, asked, steps, i, j, end);
    }
  }

  /** Some step is a run, and every one that is was of a sealed instance. */
  ghost predicate SealedThroughout(steps: seq<Step>) {
    (exists run :: Ran(run) in steps) && forall run | Ran(run) in steps :: run.sealed
  }

  lemma SealedIsThroughout(steps: seq<Step>)
    ensures SealedThroughout(steps) <==> RestsOnSealed(steps)
  {
    forall i | 0 <= i < |steps| && steps[i].Ran? ensures Ran(steps[i].run) in steps {}
  }

  /** What the steps of a routed crash come to: what its runs settle, or that a stop wrote into the tree. */
  ghost predicate RouteDecides(crash: string, steps: seq<Step>, decided: Decided, site: Site, end: nat)
    requires steps != [] && steps[0].Route?
  {
    && site.crash == crash && RouteSettles(site, steps[0].asked, steps, end)
    && (|| (end == |steps| && decided == Decided(site.(sealed := SealedThroughout(steps)), false))
        || (end + 1 == |steps| && steps[end] == Outside
            && decided == Decided(Site(crash, Undecided, "crash-after-write", [], [], SealedThroughout(steps)), true)))
  }

  /**
   What a decision rests on, from the fields of the steps alone and both ways: the steps decide a crash just
   so exactly where it was refused; or left alone after a stain; or routed, and every test before the one that
   settles it handed it on, that one's runs say so, and they are the last but for a word that a stop wrote
   into the tree.  A process's corruption takes three full rounds of a fresh pass, a stop that leaves
   something and the same failures; a sealed instance's only the failing next run.
   */
  lemma DecisionRestsOn(crash: string, steps: seq<Step>, stained: bool, decided: Decided)
    ensures Decide(crash, steps, stained) == Ok(decided) <==>
            || (steps == [Rejected] && decided == Decided(Site(crash, NotPut, "", [], [], false), false))
            || (stained && steps == [Tainted]
                && decided == Decided(Site(crash, Undecided, "crash-after-write", [], [], false), false))
            || (!stained && steps != [] && steps[0].Route?
                && exists site, end: nat :: RouteDecides(crash, steps, decided, site, end))
  {
    hide ReadPuts, Puts, Unnamed, RestsOnSealed, SealedThroughout, RouteSettles, Joined;
    SealedIsThroughout(steps);
    if !stained && steps != [] && steps[0].Route? {
      var asked := steps[0].asked;
      var reading := ReadPuts(crash, Puts(asked), Otherwise(crash, Unnamed(asked)), steps, 1);
      if Decide(crash, steps, stained) == Ok(decided) {
        RouteIsRead(crash, asked, steps, reading.value.value, reading.value.at);
        assert RouteDecides(crash, steps, decided, reading.value.value, reading.value.at);
      }
      if site, end: nat :| RouteDecides(crash, steps, decided, site, end) {
        RouteIsRead(crash, asked, steps, site, end);
      }
    }
  }

  // ---------------------------------------------------------------- a stop that wrote into the tree

  lemma DueBeforeOutside(steps: seq<Step>, at: nat, request: Request)
    ensures Due(steps + [Outside], at, request) == Due(steps, at, request)
    ensures Due(steps, at, request).Some? ==> at < |steps|
  {
  }

  /** Reading rounds stays inside the steps, and reads no `Outside`. */
  lemma {:induction false} RoundsBeforeOutside(steps: seq<Step>, at: nat, put: Put, failed: seq<string>, left: nat)
    requires at <= |steps|
    ensures ReadRounds(steps + [Outside], at, put, failed, left) == ReadRounds(steps, at, put, failed, left)
    ensures var read := ReadRounds(steps, at, put, failed, left); read.Some? ==> read.value.at <= |steps|
    decreases left
  {
    hide Due, LeavesNamed, SameFailure;
    if left > 0 {
      DueBeforeOutside(steps, at, FreshOf(put));
      DueBeforeOutside(steps, at + 1, StopOf(put));
      DueBeforeOutside(steps, at + 2, NextOf(put, false));
      if Due(steps, at, FreshOf(put)).Some? && Due(steps, at + 1, StopOf(put)).Some?
         && Due(steps, at + 2, NextOf(put, false)).Some? {
        RoundsBeforeOutside(steps, at + 3, put, failed, left - 1);
      }
    }
  }

  lemma TestBeforeOutside(crash: string, put: Put, steps: seq<Step>, at: nat)
    requires at <= |steps|
    ensures ReadTest(crash, put, steps + [Outside], at) == ReadTest(crash, put, steps, at)
    ensures var read := ReadTest(crash, put, steps, at); read.Some? ==> read.value.at <= |steps|
  {
    hide Due, LeavesNamed, HandsOn, FailsItsTest, ReadRounds;
    DueBeforeOutside(steps, at, Request(put, Crash, None));
    if Due(steps, at, Request(put, Crash, None)).Some? {
      var stop := Due(steps, at, Request(put, Crash, None)).value;
      DueBeforeOutside(steps, at + 1, NextOf(put, stop.sealed));
      if Due(steps, at + 1, NextOf(put, stop.sealed)).Some? {
        RoundsBeforeOutside(steps, at + 2, put, Due(steps, at + 1, NextOf(put, stop.sealed)).value.failed,
            CONFIRMATIONS);
      }
    }
  }

  lemma {:induction false} PutsBeforeOutside(crash: string, puts: seq<Put>, otherwise: Site, steps: seq<Step>, at: nat)
    requires at <= |steps|
    ensures ReadPuts(crash, puts, otherwise, steps + [Outside], at) == ReadPuts(crash, puts, otherwise, steps, at)
    ensures var read := ReadPuts(crash, puts, otherwise, steps, at); read.Some? ==> read.value.at <= |steps|
    decreases |puts|
  {
    hide ReadTest;
    if puts != [] {
      TestBeforeOutside(crash, puts[0], steps, at);
      if ReadTest(crash, puts[0], steps, at).Some? {
        PutsBeforeOutside(crash, puts[1..], otherwise, steps, ReadTest(crash, puts[0], steps, at).value.at);
      }
    }
  }

  /**
   The step that says a stop wrote into the tree is taken at its word: after a route it is accepted exactly
   where the steps before it would have been.
   */
  lemma OutsideIsTakenAtItsWord(crash: string, steps: seq<Step>)
    requires steps != [] && steps[0].Route? && steps[|steps| - 1] != Outside
    ensures Decide(crash, steps + [Outside], false).Ok? <==> Decide(crash, steps, false).Ok?
    ensures Decide(crash, steps + [Outside], false).Ok? ==>
              Decide(crash, steps + [Outside], false).value.outside && !Decide(crash, steps, false).value.outside
  {
    hide ReadPuts, Puts, Unnamed, RestsOnSealed;
    PutsBeforeOutside(crash, Puts(steps[0].asked), Otherwise(crash, Unnamed(steps[0].asked)), steps, 1);
  }

  /** Some run stopped at the call. */
  ghost predicate SomeStopped(steps: seq<Step>) {
    exists i: nat :: i < |steps| && StopsAt(steps, i)
  }

  ghost predicate StopsAt(steps: seq<Step>, i: nat)
    requires i < |steps|
  {
    steps[i].Ran? && StoppedAtTheCall(steps[i].run)
  }

  ghost predicate PassesAt(steps: seq<Step>, i: nat)
    requires i < |steps|
  {
    steps[i].Ran? && PassedUncalled(steps[i].run)
  }

  /** The first run after the route that does not pass uncalled stopped at the call. */
  ghost predicate FirstKeptStopped(steps: seq<Step>) {
    exists k: nat :: 1 <= k < |steps| && StopsAt(steps, k) && forall j: nat | 1 <= j < k :: PassesAt(steps, j)
  }

  /**
   When an accepted word that a stop wrote into the tree has a stop behind it: exactly where the first
   run that does not hand the crash on stopped.  It always has where the steps before it decide the
   crash unshared, restarted or corrupt, and never where they leave it unreached.
   */
  lemma OutsideHasAStop(crash: string, steps: seq<Step>)
    requires steps != [] && steps[0].Route? && steps[|steps| - 1] != Outside
    requires Decide(crash, steps + [Outside], false).Ok?
    ensures Decide(crash, steps, false).Ok? && (SomeStopped(steps) <==> FirstKeptStopped(steps))
    ensures var decision := Decide(crash, steps, false).value.site.decision;
            && (decision in {Unshared, Restarted, Corrupt} ==> SomeStopped(steps))
            && (decision == Unreached ==> !SomeStopped(steps))
  {
    hide ReadPuts, Puts, Unnamed, SomeStopped, FirstKeptStopped, RestsOnSealed;
    OutsideIsTakenAtItsWord(crash, steps);
    var asked := steps[0].asked;
    var puts, otherwise := Puts(asked), Otherwise(crash, Unnamed(asked));
    var reading := ReadPuts(crash, puts, otherwise, steps, 1).value;
    PutsAreRead(crash, puts, otherwise, steps, 1, reading.value, reading.at);
    StopsWhereItRests(puts, otherwise, steps, reading.value);
  }

  lemma HandedOnHasNoStop(puts: seq<Put>, steps: seq<Step>, count: nat)
    requires AllHandedOn(puts, steps, 1, count)
    ensures 1 + count <= |steps| || count == 0
    ensures forall j: nat | 1 <= j < 1 + count && j < |steps| :: PassesAt(steps, j)
    ensures forall j: nat | 1 <= j < 1 + count && j < |steps| :: !StopsAt(steps, j)
  {
    if count > 0 { assert HandedOn(steps, 1 + (count - 1), puts[count - 1]); }
    forall j: nat | 1 <= j < 1 + count && j < |steps| ensures PassesAt(steps, j) && !StopsAt(steps, j) {
      assert HandedOn(steps, 1 + (j - 1), puts[j - 1]);
    }
  }

  lemma StopsWhereItRests(puts: seq<Put>, otherwise: Site, steps: seq<Step>, site: Site)
    requires steps != [] && steps[0].Route? && PutsSettle(site, puts, otherwise, steps, 1, |steps|)
    requires otherwise.decision in {Unreached, Undecided}
    ensures SomeStopped(steps) <==> FirstKeptStopped(steps)
    ensures site.decision in {Unshared, Restarted, Corrupt} ==> SomeStopped(steps)
    ensures site.decision == Unreached ==> !SomeStopped(steps)
  {
    hide Notifies, Consistent, AllHandedOn, SettledNative, SettledSealed;
    if k: nat :| k < |puts| && AllHandedOn(puts, steps, 1, k) && Settles(site, puts[k], steps, 1 + k, |steps|) {
      HandedOnHasNoStop(puts, steps, k);
      if StopsAt(steps, 1 + k) {
        assert FirstKeptStopped(steps);
      } else {
        assert |steps| == 2 + k;
      }
      assert site.decision != Unreached by { NeverUnreached(site, puts[k], steps, 1 + k, |steps|); }
    } else {
      HandedOnHasNoStop(puts, steps, |puts|);
    }
  }

  lemma NeverUnreached(site: Site, put: Put, steps: seq<Step>, at: nat, end: nat)
    requires Settles(site, put, steps, at, end)
    ensures site.decision != Unreached
  {
    hide Consistent, RoundsHeld, RoundsFell;
  }
}
