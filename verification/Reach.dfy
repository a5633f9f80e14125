/**
 Whether a target reaches the same on a control as on its baseline, as the two independent
 comparers decide it (`xtask/src/drift.rs`, `xtask/src/knobs.rs`), and where they agree.
 */
module Reach {
  import opened Wrappers

  datatype Measured = Baseline | Control | Repair

  /**
   What one run of a target touched, and the tests it passed; whole where those tests are all its harness
   answered for.
   */
  datatype Touch = Touch(target: string, measured: Measured, passed: set<string>, whole: bool,
                         reached: set<nat>, bodies: set<nat>, infected: set<nat>, entered: set<nat>)

  /** A recording: its touch records, and the targets it had to run a second time for a passing baseline. */
  datatype Touched = Touched(touches: seq<Touch>, retried: set<string>)

  datatype Standing = Held | Drifted | NotMeasured

  /** Why a control that passed and left a record is not compared. */
  datatype Because = OtherTests | NoBaseline | BaselineRetried | Unparsed

  /** How a set moved: what came and what went. */
  datatype Moved = Moved(gained: set<nat>, lost: set<nat>)

  datatype Moves = Moves(reached: Moved, bodies: Moved, infected: Moved)

  datatype Derived = Stable | Moving(moves: Moves) | Uncompared(because: set<Because>)

  // ---------------------------------------------------------------- drift's comparison

  /** The last baseline a recording holds of a target. */
  function LastBaseline(touches: seq<Touch>, target: string): Option<Touch> {
    if touches == [] then None
    else
      var last := touches[|touches| - 1];
      if last.measured == Baseline && last.target == target then Some(last)
        else LastBaseline(touches[..|touches| - 1], target)
  }

  /** A control of the baseline's target that passed the tests the baseline passed. */
  predicate Comparable(control: Touch, baseline: Touch) {
    control.measured == Control && control.target == baseline.target && control.passed == baseline.passed
  }

  predicate UnionsEqual(one: Touch, other: Touch) {
    one.reached == other.reached && one.bodies == other.bodies && one.infected == other.infected
        && one.entered == other.entered
  }

  /** What the records say about a target, against one baseline of it. */
  function StandingAgainst(touched: Touched, baseline: Touch): Standing {
    if !(exists control | control in touched.touches :: Comparable(control, baseline))
       || baseline.target in touched.retried || !baseline.whole
       || exists control | control in touched.touches ::
           Comparable(control, baseline) && !control.whole then NotMeasured
    else if forall control | control in touched.touches && Comparable(control, baseline) ::
        UnionsEqual(control, baseline) then Held
    else Drifted
  }

  /** Gives each target with a baseline its standing. */
  method Standings(touched: Touched) returns (standings: map<string, Standing>)
    ensures forall target :: target in standings <==> LastBaseline(touched.touches, target).Some?
    ensures forall target | target in standings ::
            standings[target] == StandingAgainst(touched, LastBaseline(touched.touches, target).value)
  {
    hide StandingAgainst;
    var baselines: map<string, Touch> := map[];
    for i := 0 to |touched.touches|
      invariant forall target :: target in baselines <==> LastBaseline(touched.touches[..i], target).Some?
      invariant forall target | target in baselines ::
                Some(baselines[target]) == LastBaseline(touched.touches[..i], target)
    {
      assert touched.touches[..i + 1][..i] == touched.touches[..i];
      var touch := touched.touches[i];
      if touch.measured == Baseline { baselines := baselines[touch.target := touch]; }
    }
    assert touched.touches[..|touched.touches|] == touched.touches;
    standings := map target | target in baselines :: StandingAgainst(touched, baselines[target]);
  }

  // ---------------------------------------------------------------- the knobs' comparison

  function Between(baseline: set<nat>, control: set<nat>): Moved {
    Moved(control - baseline, baseline - control)
  }

  predicate Still(moved: Moved) {
    moved.gained == {} && moved.lost == {}
  }

  /** Every reason a control cannot be compared with the last baseline of its target. */
  function Reasons(control: Touch, touched: Touched): set<Because> {
    var baseline := LastBaseline(touched.touches, control.target);
    (if control.target in touched.retried then {BaselineRetried} else {})
    + (if !control.whole || (baseline.Some? && !baseline.value.whole) then {Unparsed} else {})
    + (if baseline.None? then {NoBaseline} else {})
    + (if baseline.Some? && baseline.value.passed != control.passed then {OtherTests} else {})
  }

  function MovesBetween(baseline: Touch, control: Touch): Moves {
    Moves(Between(baseline.reached, control.reached), Between(baseline.bodies, control.bodies),
        Between(baseline.infected, control.infected))
  }

  /** What the knobs make of one control. */
  function Compared(control: Touch, touched: Touched): Derived {
    var baseline := LastBaseline(touched.touches, control.target);
    if Reasons(control, touched) != {} || baseline.None? then Uncompared(Reasons(control, touched))
    else
      var moves := MovesBetween(baseline.value, control);
      if Still(moves.reached) && Still(moves.bodies) && Still(moves.infected) then Stable else Moving(moves)
  }

  /** Finds the last baseline from the end, adds each reason that holds, and compares where none does. */
  method Compare(control: Touch, touched: Touched) returns (derived: Derived)
    ensures derived == Compared(control, touched)
  {
    var baseline: Option<Touch> := None;
    var i := |touched.touches|;
    assert touched.touches[..i] == touched.touches;
    while i > 0 && baseline.None?
      invariant 0 <= i <= |touched.touches|
      invariant baseline.None? ==>
                  LastBaseline(touched.touches, control.target) == LastBaseline(touched.touches[..i], control.target)
      invariant baseline.Some? ==> LastBaseline(touched.touches, control.target) == baseline
    {
      assert touched.touches[..i][..i - 1] == touched.touches[..i - 1];
      i := i - 1;
      if touched.touches[i].measured == Baseline && touched.touches[i].target == control.target {
        baseline := Some(touched.touches[i]);
      }
    }
    var because := {};
    if control.target in touched.retried { because := because + {BaselineRetried}; }
    if !control.whole || (baseline.Some? && !baseline.value.whole) { because := because + {Unparsed}; }
    if baseline.None? {
      because := because + {NoBaseline};
    } else if baseline.value.passed != control.passed {
      because := because + {OtherTests};
    }
    assert because == Reasons(control, touched);
    if baseline.None? || because != {} { return Uncompared(because); }
    var moves := MovesBetween(baseline.value, control);
    derived := if Still(moves.reached) && Still(moves.bodies) && Still(moves.infected) then Stable else Moving(moves);
  }

  // ---------------------------------------------------------------- movement

  /** A union with what it lost taken away and what it gained added. */
  function Rebuilt(baseline: set<nat>, moved: Moved): set<nat> {
    baseline - moved.lost + moved.gained
  }

  /**
   What was gained and lost is the only account of the movement that takes away only what was there and
   adds only what was not.
   */
  lemma MovementRebuilds(baseline: set<nat>, control: set<nat>, moved: Moved)
    ensures Between(baseline, control) == moved <==>
            moved.lost <= baseline && moved.gained !! baseline && Rebuilt(baseline, moved) == control
  {
  }

  // ---------------------------------------------------------------- what each comparer looks at

  /** The `i`th touch is a baseline of the target. */
  ghost predicate IsBaseline(touches: seq<Touch>, i: int, target: string) {
    0 <= i < |touches| && touches[i].measured == Baseline && touches[i].target == target
  }

  /** The last baseline is one that no later one follows, and there is none where no touch is one. */
  lemma {:induction false} LastBaselineIsLast(touches: seq<Touch>, target: string)
    ensures LastBaseline(touches, target).None? <==> forall i :: !IsBaseline(touches, i, target)
    ensures LastBaseline(touches, target).Some? ==>
              exists i :: IsBaseline(touches, i, target) && touches[i] == LastBaseline(touches, target).value
                          && forall j | i < j :: !IsBaseline(touches, j, target)
  {
    if touches != [] {
      var init, last := touches[..|touches| - 1], |touches| - 1;
      LastBaselineIsLast(init, target);
      forall i | 0 <= i < last ensures IsBaseline(touches, i, target) <==> IsBaseline(init, i, target) {}
      if !IsBaseline(touches, last, target) && LastBaseline(touches, target).Some? {
        var i :| IsBaseline(init, i, target) && init[i] == LastBaseline(init, target).value
                 && forall j | i < j :: !IsBaseline(init, j, target);
        assert IsBaseline(touches, i, target) && touches[i] == LastBaseline(touches, target).value;
        forall j | i < j ensures !IsBaseline(touches, j, target) {
          if j < last { assert !IsBaseline(init, j, target); }
        }
      }
    }
  }

  /** A control that drift holds to a baseline: of its target, having passed just the tests it passed. */
  ghost predicate HeldTo(touched: Touched, baseline: Touch, control: Touch) {
    && control in touched.touches && control.measured == Control
    && control.target == baseline.target && control.passed == baseline.passed
  }

  /** What drift's three standings are, in what the records hold. */
  lemma StandingMeans(touched: Touched, baseline: Touch)
    ensures StandingAgainst(touched, baseline) == NotMeasured <==>
            || baseline.target in touched.retried || !baseline.whole
            || (forall control :: !HeldTo(touched, baseline, control))
            || (exists control :: HeldTo(touched, baseline, control) && !control.whole)
    ensures StandingAgainst(touched, baseline) == Drifted ==>
              exists control :: HeldTo(touched, baseline, control)
                                && (control.reached != baseline.reached || control.bodies != baseline.bodies
                                    || control.infected != baseline.infected || control.entered != baseline.entered)
    ensures StandingAgainst(touched, baseline) == Held ==>
              forall control | HeldTo(touched, baseline, control) ::
                control.reached == baseline.reached && control.bodies == baseline.bodies
                && control.infected == baseline.infected && control.entered == baseline.entered
  {
    forall control ensures HeldTo(touched, baseline, control) <==>
        control in touched.touches && Comparable(control, baseline) {}
  }

  /** What the knobs make of a control, in what the records hold: every reason it cannot be compared, or what moved. */
  lemma ComparedMeans(control: Touch, touched: Touched)
    ensures var baseline, compared := LastBaseline(touched.touches, control.target), Compared(control, touched);
            var retried := control.target in touched.retried;
            var unparsed := !control.whole || (baseline.Some? && !baseline.value.whole);
            var otherTests := baseline.Some? && baseline.value.passed != control.passed;
            && (compared.Uncompared? <==> retried || unparsed || otherTests || baseline.None?)
            && (compared.Uncompared? ==>
                  forall because :: because in compared.because <==>
                    match because
                    case BaselineRetried => retried
                    case Unparsed => unparsed
                    case OtherTests => otherTests
                    case NoBaseline => baseline.None?)
            && (compared == Stable ==>
                  control.reached == baseline.value.reached && control.bodies == baseline.value.bodies
                  && control.infected == baseline.value.infected)
            && (compared.Moving? ==>
                  && (control.reached != baseline.value.reached || control.bodies != baseline.value.bodies
                      || control.infected != baseline.value.infected)
                  && compared.moves.reached == Between(baseline.value.reached, control.reached)
                  && compared.moves.bodies == Between(baseline.value.bodies, control.bodies)
                  && compared.moves.infected == Between(baseline.value.infected, control.infected))
  {
  }

  // ---------------------------------------------------------------- the two comparers

  lemma {:induction false} LastBaselineIsOne(touches: seq<Touch>, target: string)
    ensures LastBaseline(touches, target).Some? ==>
              LastBaseline(touches, target).value in touches && LastBaseline(touches, target).value.measured == Baseline
              && LastBaseline(touches, target).value.target == target
  {
    if touches != [] { LastBaselineIsOne(touches[..|touches| - 1], target); }
  }

  /**
   A comparable control is stable, in the knobs' terms, exactly where nothing keeps it from being compared
   and the three unions the knobs compare are equal.
   */
  lemma StableMeans(control: Touch, baseline: Touch, touched: Touched)
    requires LastBaseline(touched.touches, baseline.target) == Some(baseline) && Comparable(control, baseline)
    ensures Compared(control, touched).Uncompared? <==>
              baseline.target in touched.retried || !control.whole || !baseline.whole
    ensures Compared(control, touched) == Stable <==>
            && baseline.target !in touched.retried && control.whole && baseline.whole
            && control.reached == baseline.reached && control.bodies == baseline.bodies
            && control.infected == baseline.infected
  {
  }

  /** There is a control to compare the baseline with. */
  ghost predicate Controlled(touched: Touched, baseline: Touch) {
    exists control :: control in touched.touches && Comparable(control, baseline)
  }

  /**
   Drift calls a target held exactly where it has a comparable control and every one is stable in the
   knobs' terms and entered the items the baseline did; not measured exactly where it has none or the
   knobs compare nothing of one; and otherwise moved.
   */
  lemma ComparersAgree(touched: Touched, target: string)
    requires LastBaseline(touched.touches, target).Some?
    ensures var baseline := LastBaseline(touched.touches, target).value;
            var standing := StandingAgainst(touched, baseline);
            && (standing == Held <==>
                  Controlled(touched, baseline)
                  && forall control | control in touched.touches && Comparable(control, baseline) ::
                    Compared(control, touched) == Stable && control.entered == baseline.entered)
            && (standing == NotMeasured <==>
                  !Controlled(touched, baseline)
                  || exists control :: control in touched.touches && Comparable(control, baseline)
                                       && Compared(control, touched).Uncompared?)
            && (standing == Drifted ==>
                  exists control :: control in touched.touches && Comparable(control, baseline)
                                    && (Compared(control, touched).Moving? || control.entered != baseline.entered))
  {
    var baseline := LastBaseline(touched.touches, target).value;
    LastBaselineIsOne(touched.touches, target);
    forall control | control in touched.touches && Comparable(control, baseline)
      ensures Compared(control, touched).Uncompared? <==> target in touched.retried || !control.whole || !baseline.whole
      ensures Compared(control, touched) == Stable <==>
              && target !in touched.retried && control.whole && baseline.whole
              && control.reached == baseline.reached && control.bodies == baseline.bodies
              && control.infected == baseline.infected
    {
      StableMeans(control, baseline, touched);
    }
    hide Compared, Reasons;
  }

  /**
   Where every comparable control is stable in the knobs' terms, drift calls the target moved exactly where
   one of them entered other items.
   */
  lemma StableDriftsByEntryAlone(touched: Touched, target: string)
    requires LastBaseline(touched.touches, target).Some?
    requires var baseline := LastBaseline(touched.touches, target).value;
             Controlled(touched, baseline)
             && forall control | control in touched.touches && Comparable(control, baseline) ::
                 Compared(control, touched) == Stable
    ensures var baseline := LastBaseline(touched.touches, target).value;
            StandingAgainst(touched, baseline) == Drifted <==>
              exists control :: control in touched.touches && Comparable(control, baseline)
                                && control.entered != baseline.entered
  {
    hide Compared, StandingAgainst, Comparable;
    ComparersAgree(touched, target);
  }

  /**
   A control stable in the knobs' terms can still be one drift calls moved: it entered an item its baseline
   did not, which only drift compares.
   */
  lemma StableCanDrift() returns (touched: Touched, control: Touch)
    ensures control in touched.touches && Compared(control, touched) == Stable
    ensures LastBaseline(touched.touches, control.target).Some?
    ensures StandingAgainst(touched, LastBaseline(touched.touches, control.target).value) == Drifted
  {
    var baseline := Touch("t", Baseline, {}, true, {}, {}, {}, {});
    control := Touch("t", Control, {}, true, {}, {}, {}, {1});
    touched := Touched([baseline, control], {});
    assert touched.touches[..1] == [baseline];
    assert LastBaseline([baseline], "t") == Some(baseline);
    assert LastBaseline(touched.touches, "t") == Some(baseline);
    assert touched.touches[1] == control && Comparable(control, baseline);
    StableMeans(control, baseline, touched);
    ComparersAgree(touched, "t");
    assert 1 in control.entered && 1 !in baseline.entered;
    forall other | other in touched.touches && Comparable(other, baseline) ensures other == control {}
  }
}
