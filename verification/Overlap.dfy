/**
 The overlap of a suite's toolchain tests (`scripts/suite-cost.py`): a sweep over the instants
 at which tests start and end, over exact time.
 */
module Overlap {
  import opened Wrappers

  /**
   One test of the suite: the binary it is in, how long it took, and when it started where that is recorded.
   */
  datatype Row = Row(binary: string, seconds: real, timestamp: Option<real>)

  /** A test starting or ending. */
  datatype Event = Event(at: real, change: int)

  datatype Report = Report(peak: int, levels: map<int, real>, active: real, mean: real)

  datatype Failure = WentNegative | DidNotClose

  // ---------------------------------------------------------------- tests and their events

  predicate Toolchain(binary: string) {
    exists i :: 0 <= i <= |binary| && "::toolchain_" <= binary[i..]
  }

  /** Whether the sweep looks at a test at all. */
  predicate Swept(row: Row) {
    Toolchain(row.binary) && row.seconds != 0.0
  }

  /** A test counts where its binary's name says it is a toolchain test, and it took any time at all. */
  ghost predicate Counts(row: Row) {
    (exists before, after :: row.binary == before + "::toolchain_" + after) && row.seconds != 0.0
  }

  lemma SweptCounts(row: Row)
    ensures Swept(row) <==> Counts(row)
    ensures Toolchain(row.binary) && row.seconds != 0.0 <==> Counts(row)
  {
    if i :| 0 <= i <= |row.binary| && "::toolchain_" <= row.binary[i..] {
      assert row.binary == row.binary[..i] + "::toolchain_" + row.binary[i..][12..];
    }
    if before, after :| row.binary == before + "::toolchain_" + after {
      assert row.binary[|before|..] == "::toolchain_" + after;
    }
  }

  function EventsOf(row: Row): seq<Event> {
    if Swept(row) && row.timestamp.Some?
    then [Event(row.timestamp.value, 1), Event(row.timestamp.value + row.seconds, -1)] else []
  }

  function Events(rows: seq<Row>): seq<Event> {
    if rows == [] then [] else Events(rows[..|rows| - 1]) + EventsOf(rows[|rows| - 1])
  }

  /** How many tests run at an instant, each from its start up to but not including its end. */
  ghost function RunningAt(rows: seq<Row>, t: real): nat {
    if rows == [] then 0
    else
      var row := rows[|rows| - 1];
      RunningAt(rows[..|rows| - 1], t) +
      if Counts(row) && row.timestamp.Some? && row.timestamp.value <= t < row.timestamp.value + row.seconds
      then 1 else 0
  }

  /** How long the tests took in all. */
  ghost function Taken(rows: seq<Row>): real {
    if rows == [] then 0.0
    else
      Taken(rows[..|rows| - 1]) + if Counts(rows[|rows| - 1]) && rows[|rows| - 1].timestamp.Some?
          then rows[|rows| - 1].seconds else 0.0
  }

  /** Some swept test has no recorded start. */
  ghost predicate Unstamped(rows: seq<Row>) {
    exists row :: row in rows && Counts(row) && row.timestamp.None?
  }

  // ---------------------------------------------------------------- sums over events

  function Sum(events: seq<Event>, f: Event -> int): int {
    if events == [] then 0 else Sum(events[..|events| - 1], f) + f(events[|events| - 1])
  }

  /** A time weighed by a count. */
  function Weight(count: real, time: real): real {
    count * time
  }

  /** Each change weighed by its instant. */
  function Moment(events: seq<Event>): real {
    if events == [] then 0.0
    else Moment(events[..|events| - 1]) + Weight(events[|events| - 1].change as real, events[|events| - 1].at)
  }

  function Changes(): Event -> int { (event: Event) => event.change }

  /** The changes made by an instant. */
  function By(t: real): Event -> int { (event: Event) => if event.at <= t then event.change else 0 }

  /** The ends made by an instant and the starts made before it. */
  function EndedBy(t: real): Event -> int {
    (event: Event) => if event.at < t || (event.at == t && event.change < 0) then event.change else 0
  }

  lemma {:induction false} SumOfParts(events: seq<Event>, more: seq<Event>, f: Event -> int)
    ensures Sum(events + more, f) == Sum(events, f) + Sum(more, f)
    ensures Moment(events + more) == Moment(events) + Moment(more)
  {
    hide Weight;
    if more == [] {
      assert events + more == events;
    } else {
      var last := more[|more| - 1];
      assert (events + more)[..|events + more| - 1] == events + more[..|more| - 1];
      SumOfParts(events, more[..|more| - 1], f);
    }
  }

  lemma SumOfOne(event: Event, f: Event -> int)
    ensures Sum([event], f) == f(event) && Moment([event]) == Weight(event.change as real, event.at)
  {
  }

  lemma SumOfRow(row: Row, f: Event -> int)
    requires Swept(row) && row.timestamp.Some?
    ensures Sum(EventsOf(row), f) == f(EventsOf(row)[0]) + f(EventsOf(row)[1])
    ensures Moment(EventsOf(row)) == -row.seconds
  {
    var start, end := EventsOf(row)[0], EventsOf(row)[1];
    assert EventsOf(row) == [start] + [end];
    SumOfParts([start], [end], f);
    SumOfOne(start, f);
    SumOfOne(end, f);
  }

  /**
   Over the tests' events: every change cancels, the moment is the time taken, and the changes by an
   instant are the tests that run at it.
   */
  lemma {:induction false} EventsAddUp(rows: seq<Row>, t: real)
    ensures Sum(Events(rows), Changes()) == 0
    ensures Moment(Events(rows)) == -Taken(rows)
    ensures (forall row | row in rows && Counts(row) :: row.seconds > 0.0) ==>
              Sum(Events(rows), By(t)) == RunningAt(rows, t) && Sum(Events(rows), EndedBy(t)) >= 0
  {
    if rows != [] {
      var before, row := rows[..|rows| - 1], rows[|rows| - 1];
      EventsAddUp(before, t);
      SweptCounts(row);
      SumOfParts(Events(before), EventsOf(row), Changes());
      SumOfParts(Events(before), EventsOf(row), By(t));
      SumOfParts(Events(before), EventsOf(row), EndedBy(t));
      if Swept(row) && row.timestamp.Some? {
        SumOfRow(row, Changes());
        SumOfRow(row, By(t));
        SumOfRow(row, EndedBy(t));
      }
    }
  }

  // ---------------------------------------------------------------- sorting

  /** The order events are swept in: by instant, and at one instant ends before starts. */
  predicate Before(one: Event, other: Event) {
    one.at < other.at || (one.at == other.at && one.change <= other.change)
  }

  ghost predicate Ordered(events: seq<Event>) {
    forall i, j :: 0 <= i < j < |events| ==> Before(events[i], events[j])
  }

  function Inserted(events: seq<Event>, event: Event): seq<Event> {
    if events == [] || Before(events[|events| - 1], event) then events + [event]
    else Inserted(events[..|events| - 1], event) + [events[|events| - 1]]
  }

  function Sorted(events: seq<Event>): seq<Event> {
    if events == [] then [] else Inserted(Sorted(events[..|events| - 1]), events[|events| - 1])
  }

  lemma {:induction false} InsertedInOrder(events: seq<Event>, event: Event)
    requires Ordered(events)
    ensures Ordered(Inserted(events, event))
    ensures |Inserted(events, event)| == |events| + 1
    ensures forall e :: e in Inserted(events, event) <==> e in events || e == event
  {
    if events == [] {
    } else if Before(events[|events| - 1], event) {
      forall e | e in events ensures Before(e, event) {
        var i :| 0 <= i < |events| && events[i] == e;
        if i < |events| - 1 { assert Before(events[i], events[|events| - 1]); }
      }
      OrderedThenLast(events, event);
    } else {
      var init, last := events[..|events| - 1], events[|events| - 1];
      InsertedInOrder(init, event);
      forall e | e in Inserted(init, event) ensures Before(e, last) {
        if e in init {
          var i :| 0 <= i < |init| && init[i] == e;
          assert Before(events[i], events[|events| - 1]);
        }
      }
      OrderedThenLast(Inserted(init, event), last);
      assert events == init + [last];
    }
  }

  lemma OrderedThenLast(events: seq<Event>, last: Event)
    requires Ordered(events) && forall e | e in events :: Before(e, last)
    ensures Ordered(events + [last])
  {
    hide Before;
    forall i, j | 0 <= i < j < |events + [last]| ensures Before((events + [last])[i], (events + [last])[j]) {
      assert events[i] in events;
    }
  }

  lemma {:induction false} SortedInOrder(events: seq<Event>)
    ensures Ordered(Sorted(events)) && |Sorted(events)| == |events|
    ensures forall e :: e in Sorted(events) <==> e in events
  {
    if events != [] {
      var init, last := events[..|events| - 1], events[|events| - 1];
      SortedInOrder(init);
      InsertedInOrder(Sorted(init), last);
      assert events == init + [last];
    }
  }

  lemma {:induction false} InsertedAddsUp(events: seq<Event>, event: Event, f: Event -> int)
    ensures Sum(Inserted(events, event), f) == Sum(events, f) + f(event)
    ensures Moment(Inserted(events, event)) == Moment(events) + Weight(event.change as real, event.at)
  {
    hide Weight;
    if events == [] || Before(events[|events| - 1], event) {
      SumOfParts(events, [event], f);
      SumOfOne(event, f);
    } else {
      var init, last := events[..|events| - 1], events[|events| - 1];
      InsertedAddsUp(init, event, f);
      SumOfParts(Inserted(init, event), [last], f);
      SumOfOne(last, f);
    }
  }

  lemma {:induction false} SortedAddsUp(events: seq<Event>, f: Event -> int)
    ensures Sum(Sorted(events), f) == Sum(events, f)
    ensures Moment(Sorted(events)) == Moment(events)
  {
    hide Inserted, Weight;
    if events != [] {
      var init, last := events[..|events| - 1], events[|events| - 1];
      SortedAddsUp(init, f);
      InsertedAddsUp(Sorted(init), last, f);
    }
  }

  // ---------------------------------------------------------------- time at each level

  /** The time held at some of the levels, each weighed by its level. */
  ghost function WeighedOver(levels: map<int, real>, some: set<int>, f: (int, real) -> real): real
    requires some <= levels.Keys
    decreases some
  {
    if exists level :: level in some then
      var level :| level in some;
      f(level, levels[level]) + WeighedOver(levels, some - {level}, f)
    else 0.0
  }

  /** The time held at all the levels, each weighed by its level. */
  ghost function Weighed(levels: map<int, real>, f: (int, real) -> real): real {
    WeighedOver(levels, levels.Keys, f)
  }

  function Held(levels: map<int, real>, level: int): real {
    if level in levels then levels[level] else 0.0
  }

  function Add(levels: map<int, real>, level: int, time: real): map<int, real> {
    levels[level := Held(levels, level) + time]
  }

  lemma {:induction false} WeighedWithout(levels: map<int, real>, some: set<int>, f: (int, real) -> real, level: int)
    requires level in some && some <= levels.Keys
    ensures WeighedOver(levels, some, f) == f(level, levels[level]) + WeighedOver(levels, some - {level}, f)
    decreases some
  {
    var first :| first in some && WeighedOver(levels, some, f) == f(first, levels[first])
        + WeighedOver(levels, some - {first}, f);
    if first != level {
      WeighedWithout(levels, some - {first}, f, level);
      WeighedWithout(levels, some - {level}, f, first);
      assert some - {first} - {level} == some - {level} - {first};
    }
  }

  lemma {:induction false} WeighedAlike(levels: map<int, real>, other: map<int, real>, some: set<int>,
      f: (int, real) -> real)
    requires some <= levels.Keys && some <= other.Keys && forall level | level in some :: levels[level] == other[level]
    ensures WeighedOver(levels, some, f) == WeighedOver(other, some, f)
    decreases some
  {
    if level :| level in some {
      WeighedWithout(levels, some, f, level);
      WeighedWithout(other, some, f, level);
      WeighedAlike(levels, other, some - {level}, f);
    }
  }

  lemma WeighedMore(levels: map<int, real>, f: (int, real) -> real, level: int, time: real)
    requires f(level, Held(levels, level) + time) == f(level, Held(levels, level)) + f(level, time)
             && f(level, 0.0) == 0.0
    ensures Weighed(Add(levels, level, time), f) == Weighed(levels, f) + f(level, time)
  {
    var more := Add(levels, level, time);
    var others := levels.Keys - {level};
    assert more.Keys - {level} == others;
    WeighedWithout(more, more.Keys, f, level);
    WeighedAlike(levels, more, others, f);
    if level in levels {
      WeighedWithout(levels, levels.Keys, f, level);
    } else {
      assert others == levels.Keys;
    }
  }

  function Every(): (int, real) -> real { (level: int, time: real) => time }
  function Level(): (int, real) -> real { (level: int, time: real) => Weight(level as real, time) }
  function Active(): (int, real) -> real { (level: int, time: real) => if level != 0 then time else 0.0 }

  /** Adds up the levels one by one. */
  method SumLevels(levels: map<int, real>, f: (int, real) -> real) returns (sum: real)
    ensures sum == Weighed(levels, f)
  {
    sum := 0.0;
    var rest := levels.Keys;
    while exists level :: level in rest
      invariant rest <= levels.Keys
      invariant sum + WeighedOver(levels, rest, f) == Weighed(levels, f)
      decreases rest
    {
      var level :| level in rest;
      WeighedWithout(levels, rest, f, level);
      sum := sum + f(level, levels[level]);
      rest := rest - {level};
    }
  }

  // ---------------------------------------------------------------- the sweep

  /**
   How long exactly `level` changes have been made, over the instants swept: from each event to the next,
   by the changes made by it.
   */
  function TimeAt(events: seq<Event>, swept: seq<Event>, level: int): real {
    if |swept| < 2 then 0.0
    else
      var from, to := swept[|swept| - 2], swept[|swept| - 1];
      TimeAt(events, swept[..|swept| - 1], level) + if Sum(events, By(from.at)) == level then to.at - from.at else 0.0
  }

  /** The first `i` of the events in order are those made by an instant between the last of them and the next. */
  lemma {:induction false} PrefixIsBy(events: seq<Event>, i: nat, t: real)
    requires i <= |events|
    requires forall j | 0 <= j < i :: events[j].at <= t
    requires forall j | i <= j < |events| :: t < events[j].at
    ensures Sum(events, By(t)) == Sum(events[..i], Changes())
  {
    if events != [] {
      var init, last := events[..|events| - 1], events[|events| - 1];
      if i == |events| {
        PrefixIsBy(init, i - 1, t);
        assert events[..i] == events && init[..i - 1] == init;
      } else {
        PrefixIsBy(init, i, t);
        assert events[..i] == init[..i];
      }
    }
  }

  lemma OneMoreEvent(events: seq<Event>, i: nat, f: Event -> int)
    requires i < |events|
    ensures Sum(events[..i + 1], f) == Sum(events[..i], f) + f(events[i])
    ensures Moment(events[..i + 1]) == Moment(events[..i]) + Weight(events[i].change as real, events[i].at)
  {
    assert events[..i + 1][..i] == events[..i];
  }

  /**
   What the sweep has counted once it has swept the first `i` events: never below none, and up to a peak it
   reached at a start.
   */
  ghost predicate Counted(events: seq<Event>, i: nat, running: int, peak: int)
    requires 0 < i <= |events|
  {
    && running == Sum(events[..i], Changes())
    && (forall j | 0 <= j <= i :: 0 <= Sum(events[..j], Changes()) <= peak)
    && (peak > 0 ==> exists j :: 0 < j <= i && Peaks(events, j, peak))
  }

  /** The `j`th event is a start that raised the count to `peak`. */
  predicate Peaks(events: seq<Event>, j: nat, peak: int)
    requires 0 < j <= |events|
  {
    events[j - 1].change > 0 && Sum(events[..j], Changes()) == peak
  }

  /** What the sweep has timed once it has swept the first `i` events. */
  ghost predicate Timed(events: seq<Event>, i: nat, running: int, levels: map<int, real>)
    requires 0 < i <= |events|
  {
    && (forall level | level in levels :: level >= 0 && levels[level] >= 0.0)
    && Weighed(levels, Every()) == events[i - 1].at - events[0].at
    && Weighed(levels, Level()) == running as real * events[i - 1].at - Moment(events[..i])
    && (forall level :: Held(levels, level) == TimeAt(events, events[..i], level))
  }

  lemma CountsOn(events: seq<Event>, i: nat, running: int, peak: int)
    requires 0 < i < |events| && Counted(events, i, running, peak)
    requires (events[i].change == 1 || events[i].change == -1) && running + events[i].change >= 0
    ensures var next := running + events[i].change; Counted(events, i + 1, next, if next > peak then next else peak)
  {
    hide Sum;
    var next := running + events[i].change;
    var peak' := if next > peak then next else peak;
    OneMoreEvent(events, i, Changes());
    forall j | 0 <= j <= i + 1 ensures 0 <= Sum(events[..j], Changes()) <= peak' {}
    if next > peak {
      assert Peaks(events, i + 1, peak');
    } else if peak > 0 {
      var j :| 0 < j <= i && Peaks(events, j, peak);
      assert Peaks(events, j, peak');
    }
  }

  lemma Shifts(running: real, change: real, from: real, to: real, weighed: real, moment: real)
    requires weighed == running * from - moment
    ensures weighed + running * (to - from) == (running + change) * to - (moment + change * to)
  {
  }

  lemma TimesOn(events: seq<Event>, i: nat, running: int, levels: map<int, real>)
    requires 0 < i < |events| && Ordered(events) && Timed(events, i, running, levels)
    requires running == Sum(events[..i], Changes()) >= 0
    ensures Timed(events, i + 1, running + events[i].change, Add(levels, running, events[i].at - events[i - 1].at))
  {
    hide Sum, TimeAt, Moment, Weighed;
    var event, span := events[i], events[i].at - events[i - 1].at;
    var levels' := Add(levels, running, span);
    assert Before(events[i - 1], event);
    OneMoreEvent(events, i, Changes());
    WeighedMore(levels, Every(), running, span);
    WeighedLevelMore(levels, running, span);
    Shifts(running as real, event.change as real, events[i - 1].at, event.at, Weighed(levels, Level()),
        Moment(events[..i]));
    assert (running + event.change) as real == running as real + event.change as real;
    forall level ensures Held(levels', level) == TimeAt(events, events[..i + 1], level) {
      TimeGrows(events, i, level);
    }
  }

  lemma WeighedLevelMore(levels: map<int, real>, level: int, time: real)
    ensures Weighed(Add(levels, level, time), Level()) == Weighed(levels, Level()) + level as real * time
  {
    hide Weighed, Add;
    assert level as real * (Held(levels, level) + time) == level as real * Held(levels, level) + level as real * time;
    WeighedMore(levels, Level(), level, time);
  }

  /** The time at each level grows by the instants between the last event swept and the next. */
  lemma TimeGrows(events: seq<Event>, i: nat, level: int)
    requires 0 < i < |events| && Ordered(events)
    ensures TimeAt(events, events[..i + 1], level) ==
            TimeAt(events, events[..i], level) + if Sum(events[..i], Changes()) == level
                then events[i].at - events[i - 1].at else 0.0
  {
    var swept := events[..i + 1];
    assert swept[..|swept| - 1] == events[..i];
    assert Before(events[i - 1], events[i]);
    if events[i - 1].at < events[i].at {
      forall j | 0 <= j < i ensures events[j].at <= events[i - 1].at {
        assert j < i - 1 ==> Before(events[j], events[i - 1]);
      }
      forall j | i <= j < |events| ensures events[i - 1].at < events[j].at {
        assert i < j ==> Before(events[i], events[j]);
      }
      PrefixIsBy(events, i, events[i - 1].at);
    }
  }

  /** The earliest instant of the events. */
  method Earliest(events: seq<Event>) returns (earliest: real)
    requires events != []
    ensures earliest == Sorted(events)[0].at
  {
    SortedInOrder(events);
    earliest := events[0].at;
    for i := 1 to |events|
      invariant exists j :: 0 <= j < |events| && events[j].at == earliest
      invariant forall j | 0 <= j < i :: earliest <= events[j].at
    {
      if events[i].at < earliest { earliest := events[i].at; }
    }
    var first := Sorted(events)[0];
    assert first in events;
    ghost var j :| 0 <= j < |events| && events[j].at == earliest;
    assert events[j] in Sorted(events);
    ghost var k :| 0 <= k < |events| && Sorted(events)[k] == events[j];
    assert k > 0 ==> Before(Sorted(events)[0], Sorted(events)[k]);
  }

  /** The events of every swept test, or nothing where one has no recorded start. */
  method Recovered(rows: seq<Row>) returns (events: Option<seq<Event>>)
    ensures events == if Unstamped(rows) then None else Some(Events(rows))
  {
    hide Toolchain, Counts;
    var found := [];
    for i := 0 to |rows|
      invariant found == Events(rows[..i])
      invariant !Unstamped(rows[..i])
    {
      assert rows[..i + 1][..i] == rows[..i];
      SweptCounts(rows[i]);
      if !Toolchain(rows[i].binary) || rows[i].seconds == 0.0 { continue; }
      if rows[i].timestamp.None? {
        assert rows[i] in rows;
        return None;
      }
      var start := rows[i].timestamp.value;
      found := found + [Event(start, 1), Event(start + rows[i].seconds, -1)];
    }
    assert rows[..|rows|] == rows;
    events := Some(found);
  }

  /** Sweeping the first event: a level of no tests for no time. */
  lemma Opens(events: seq<Event>, levels: map<int, real>)
    requires events != [] && events[0].change >= 0 && levels == Add(map[], 0, 0.0)
    ensures Counted(events, 1, events[0].change, events[0].change) && Timed(events, 1, events[0].change, levels)
    ensures Weighed(levels, Active()) == 0.0
  {
    WeighedMore(map[], Every(), 0, 0.0);
    WeighedMore(map[], Level(), 0, 0.0);
    WeighedMore(map[], Active(), 0, 0.0);
    OneMoreEvent(events, 0, Changes());
    assert events[0].change > 0 ==> Peaks(events, 1, events[0].change);
  }

  /** Until some test has run for some time, every event swept is a start at the first instant. */
  ghost predicate Opening(events: seq<Event>, i: nat, running: int)
    requires 0 < i <= |events|
  {
    running == i && forall j | 0 <= j < i :: events[j].change == 1 && events[j].at == events[0].at
  }

  lemma RunsOn(events: seq<Event>, i: nat, running: int, levels: map<int, real>)
    requires 0 < i < |events| && Ordered(events) && (events[i].change == 1 || events[i].change == -1)
    requires running >= 0 && Weighed(levels, Active()) >= 0.0
             && (Opening(events, i, running) || Weighed(levels, Active()) > 0.0)
    ensures var active := Weighed(Add(levels, running, events[i].at - events[i - 1].at), Active());
            active >= 0.0 && (Opening(events, i + 1, running + events[i].change) || active > 0.0)
  {
    hide Weighed, Add;
    assert Before(events[i - 1], events[i]);
    WeighedMore(levels, Active(), running, events[i].at - events[i - 1].at);
  }

  lemma WeightIsBounded(level: real, peak: real, time: real, rest: real)
    requires (level == 0.0 || 1.0 <= level) && 0.0 <= level <= peak && time >= 0.0
    ensures level != 0.0 ==> time <= Weight(level, time) <= Weight(peak, time)
    ensures level == 0.0 ==> Weight(level, time) == 0.0
    ensures Weight(peak, time + rest) == Weight(peak, time) + Weight(peak, rest)
  {
  }

  /** The time weighed by level lies between the time active and the peak's share of it. */
  lemma {:induction false} WeightsAreBounded(levels: map<int, real>, some: set<int>, peak: nat)
    requires some <= levels.Keys
    requires forall level | level in some :: 0 <= level <= peak && levels[level] >= 0.0
    ensures var active := WeighedOver(levels, some, Active());
            active <= WeighedOver(levels, some, Level()) <= Weight(peak as real, active)
    decreases some
  {
    hide Weight;
    var active := WeighedOver(levels, some, Active());
    if level :| level in some {
      WeighedWithout(levels, some, Active(), level);
      WeighedWithout(levels, some, Level(), level);
      WeightsAreBounded(levels, some - {level}, peak);
      WeightIsBounded(level as real, peak as real, levels[level], WeighedOver(levels, some - {level}, Active()));
    } else {
      WeightIsBounded(0.0, peak as real, 0.0, 0.0);
    }
  }

  lemma MeanIsBounded(weighed: real, active: real, peak: real)
    requires active > 0.0 && active <= weighed <= Weight(peak, active)
    ensures weighed / active * active == weighed && 1.0 <= weighed / active <= peak
  {
  }

  /** How many of the events in order are made by an instant. */
  lemma {:induction false} PrefixAt(events: seq<Event>, t: real) returns (i: nat)
    requires Ordered(events)
    ensures i <= |events| && Sum(events, By(t)) == Sum(events[..i], Changes())
    ensures forall j | 0 <= j < |events| :: events[j].at <= t <==> j < i
  {
    i := 0;
    while i < |events| && events[i].at <= t
      invariant i <= |events|
      invariant forall j | 0 <= j < i :: events[j].at <= t
    {
      i := i + 1;
    }
    assert forall j | i <= j < |events| :: Before(events[i], events[j]) || i == j;
    PrefixIsBy(events, i, t);
  }

  /** The greatest count of the sweep is the greatest at any instant. */
  lemma PeakIsReached(events: seq<Event>, peak: int)
    requires events != [] && Ordered(events) && Counted(events, |events|, 0, peak)
    ensures forall t: real :: Sum(events, By(t)) <= peak
    ensures peak > 0 ==> exists t: real :: Sum(events, By(t)) == peak
  {
    hide Sum;
    forall t: real ensures Sum(events, By(t)) <= peak {
      var i := PrefixAt(events, t);
    }
    if peak > 0 {
      var j :| 0 < j <= |events| && Peaks(events, j, peak);
      var t := events[j - 1].at;
      var i := PrefixAt(events, t);
      assert j <= i;
      StartsOnlyAdd(events, j, i);
      assert Sum(events, By(t)) == peak;
    }
  }

  /** After a start, the events at the same instant are starts. */
  lemma {:induction false} StartsOnlyAdd(events: seq<Event>, j: nat, i: nat)
    requires 0 < j <= i <= |events| && Ordered(events)
    requires events[j - 1].change > 0 && events[i - 1].at == events[j - 1].at
    ensures Sum(events[..i], Changes()) >= Sum(events[..j], Changes())
    decreases i
  {
    if j < i {
      OneMoreEvent(events, i - 1, Changes());
      assert Before(events[j - 1], events[i - 1]);
      assert i - 1 > j - 1 && (i - 2 >= j - 1 ==> Before(events[i - 2], events[i - 1]));
      assert i - 2 > j - 1 ==> Before(events[j - 1], events[i - 2]);
      StartsOnlyAdd(events, j, i - 1);
    }
  }

  /** Where every test took some time, no event finds more tests ended than started, however their instants coincide. */
  lemma NeverDips(rows: seq<Row>)
    requires forall row | row in rows && Counts(row) :: row.seconds > 0.0
    ensures !Dips(Sorted(Events(rows)))
  {
    hide Sorted, Events;
    var events := Sorted(Events(rows));
    forall i | 0 <= i <= |events| ensures Sum(events[..i], Changes()) >= 0 {
      if i == 0 {
        NoEvents();
      } else {
        var t := events[i - 1].at;
        SortedInOrder(Events(rows));
        SortedAddsUp(Events(rows), EndedBy(t));
        EventsAddUp(rows, t);
        EventsAreUnit(rows);
        EndedIsLeast(events, i, |events|);
        assert events[..|events|] == events;
      }
    }
  }

  lemma {:induction false} EventsAreUnit(rows: seq<Row>)
    ensures forall event | event in Events(rows) :: event.change == 1 || event.change == -1
  {
    if rows != [] { EventsAreUnit(rows[..|rows| - 1]); }
  }

  /** The ends made by an instant and the starts before it come to no more than any events swept up to that instant. */
  lemma {:induction false} EndedIsLeast(events: seq<Event>, i: nat, n: nat)
    requires 0 < i <= |events| && n <= |events| && Ordered(events)
    requires forall j | 0 <= j < |events| :: events[j].change == 1 || events[j].change == -1
    ensures Sum(events[..n], EndedBy(events[i - 1].at)) <= Sum(events[..if n < i then n else i], Changes())
    decreases n
  {
    hide Ordered, Sum, Moment;
    if n > 0 {
      EndedIsLeast(events, i, n - 1);
      OneMoreEvent(events, n - 1, EndedBy(events[i - 1].at));
      if n <= i {
        OneMoreEvent(events, n - 1, Changes());
        if n < i { OneBeforeOther(events, n - 1, i - 1); }
      } else {
        OneBeforeOther(events, i - 1, n - 1);
      }
    } else {
      NothingSums(events, EndedBy(events[i - 1].at));
      NothingSums(events, Changes());
    }
  }

  lemma OneBeforeOther(events: seq<Event>, i: nat, j: nat)
    requires i < j < |events| && Ordered(events)
    ensures Before(events[i], events[j])
  {
  }

  lemma NothingSums(events: seq<Event>, f: Event -> int)
    ensures Sum(events[..0], f) == 0
  {
  }

  /** What a report of the overlap says of the tests swept. */
  ghost predicate Reports(report: Report, rows: seq<Row>) {
    var events := Sorted(Events(rows));
    && events != []
    // The peak is the greatest count at any instant, and is reached.
    && (forall t: real :: Sum(events, By(t)) <= report.peak) && (exists t: real :: Sum(events, By(t)) == report.peak)
    && report.peak > 0
    // Each level holds the time at exactly that count; together they are the whole span.
    && (forall level :: Held(report.levels, level) == TimeAt(events, events, level))
    && Weighed(report.levels, Every()) == events[|events| - 1].at - events[0].at
    // Weighed by their counts they are the time the tests took.
    && Weighed(report.levels, Level()) == Taken(rows)
    && report.active == Weighed(report.levels, Active()) && report.active > 0.0
    && report.mean * report.active == Taken(rows)
    && 1.0 <= report.mean <= report.peak as real
  }

  lemma SortedFacts(rows: seq<Row>)
    ensures var events := Sorted(Events(rows));
            && Ordered(events) && |events| == |Events(rows)|
            && (forall i | 0 <= i < |events| :: events[i].change == 1 || events[i].change == -1)
            && Sum(events, Changes()) == 0 && Moment(events) == -Taken(rows)
  {
    hide Sorted, Events;
    SortedInOrder(Events(rows));
    EventsAreUnit(rows);
    SortedAddsUp(Events(rows), Changes());
    EventsAddUp(rows, 0.0);
  }

  /** At some event more tests have ended than have started. */
  ghost predicate Dips(events: seq<Event>) {
    exists i :: 0 <= i <= |events| && Sum(events[..i], Changes()) < 0
  }

  /** What the sweep has established at its end is what its report says. */
  lemma SweepReports(rows: seq<Row>, peak: int, levels: map<int, real>)
    requires var events := Sorted(Events(rows));
             && events != [] && Counted(events, |events|, 0, peak) && Timed(events, |events|, 0, levels)
             && Weighed(levels, Active()) >= 0.0 && (Opening(events, |events|, 0) || Weighed(levels, Active()) > 0.0)
             && forall level | level in levels :: level <= peak
    ensures var active, weighed := Weighed(levels, Active()), Weighed(levels, Level());
            active > 0.0 && Reports(Report(peak, levels, active, weighed / active), rows) && !Dips(Sorted(Events(rows)))
  {
    hide Sorted, Events, Sum, TimeAt;
    var events := Sorted(Events(rows));
    var active, weighed := Weighed(levels, Active()), Weighed(levels, Level());
    assert events[..|events|] == events;
    SortedFacts(rows);
    PeakIsReached(events, peak);
    WeightsAreBounded(levels, levels.Keys, peak);
    MeanIsBounded(weighed, active, peak as real);
  }

  /** Recovers the overlap of the toolchain tests: nothing where no test was swept or one has no recorded start. */
  method Concurrency(rows: seq<Row>) returns (result: Result<Option<Report>, Failure>)
    ensures result == Ok(None) <==> Unstamped(rows) || forall row | row in rows :: !Counts(row)
    ensures result.Ok? && result.value.Some? ==> Reports(result.value.value, rows)
    ensures result.Err? <==>
            !Unstamped(rows) && exists t: real :: MoreEnded(rows, t)
    ensures result.Err? ==> result.error == WentNegative
  {
    hide Reports, Counted, Timed, Sorted, Events, Sum, Opening, Weighed, TimeAt, Moment, Unstamped, Counts, MoreEnded,
        Dips;
    var recovered := Recovered(rows);
    NoEvents();
    NoneCounts(rows);
    DipsMeans(rows);
    NothingDips(rows);
    if recovered.None? || recovered.value == [] { return Ok(None); }
    var events := Sorted(recovered.value);
    SortedFacts(rows);
    var running, peak, levels := 0, 0, map[];
    var previous := Earliest(recovered.value);
    assert events[..0] == [];
    for i := 0 to |events|
      invariant running == Sum(events[..i], Changes()) && running >= 0
      invariant i == 0 ==> peak == 0 && levels == map[] && previous == events[0].at
      invariant i > 0 ==>
          && previous == events[i - 1].at && Counted(events, i, running, peak) && Timed(events, i, running, levels)
          && Weighed(levels, Active()) >= 0.0 && (Opening(events, i, running) || Weighed(levels, Active()) > 0.0)
          && peak >= running && forall level | level in levels :: level <= peak
    {
      var event := events[i];
      ghost var before := levels;
      levels := Add(levels, running, event.at - previous);
      OneMoreEvent(events, i, Changes());
      if running + event.change < 0 {
        assert Dips(events) by { DipsThere(events, i + 1); }
        return Err(WentNegative);
      }
      if i == 0 {
        Opens(events, levels);
        assert Opening(events, 1, event.change) by { OpensWithAStart(events); }
      } else {
        CountsOn(events, i, running, peak);
        TimesOn(events, i, running, before);
        RunsOn(events, i, running, before);
      }
      running := running + event.change;
      peak := if running > peak then running else peak;
      previous := event.at;
    }
    assert events[..|events|] == events;
    if running != 0 { return Err(DidNotClose); }
    SweepReports(rows, peak, levels);
    var active := SumLevels(levels, Active());
    var weighed := SumLevels(levels, Level());
    return Ok(Some(Report(peak, levels, active, weighed / active)));
  }

  lemma DipsThere(events: seq<Event>, i: nat)
    requires i <= |events| && Sum(events[..i], Changes()) < 0
    ensures Dips(events)
  {
  }

  /** How many tests that count have ended by an instant, and how many started before it. */
  ghost function EndedAt(rows: seq<Row>, t: real): nat {
    if rows == [] then 0
    else
      var row := rows[|rows| - 1];
      EndedAt(rows[..|rows| - 1], t)
      + if Counts(row) && row.timestamp.Some? && row.timestamp.value + row.seconds <= t then 1 else 0
  }

  ghost function StartedBefore(rows: seq<Row>, t: real): nat {
    if rows == [] then 0
    else
      var row := rows[|rows| - 1];
      StartedBefore(rows[..|rows| - 1], t)
      + if Counts(row) && row.timestamp.Some? && row.timestamp.value < t then 1 else 0
  }

  lemma {:induction false} EndedIsCounted(rows: seq<Row>, t: real)
    ensures Sum(Events(rows), EndedBy(t)) == StartedBefore(rows, t) - EndedAt(rows, t)
  {
    hide Toolchain, Counts;
    if rows != [] {
      var before, row := rows[..|rows| - 1], rows[|rows| - 1];
      EndedIsCounted(before, t);
      SweptCounts(row);
      SumOfParts(Events(before), EventsOf(row), EndedBy(t));
      if Swept(row) && row.timestamp.Some? { SumOfRow(row, EndedBy(t)); }
    }
  }

  /** The events counted as ended or started by an instant are the first ones in order. */
  lemma {:induction false} EndedIsAPrefix(events: seq<Event>, t: real) returns (i: nat)
    requires Ordered(events)
    ensures i <= |events| && Sum(events, EndedBy(t)) == Sum(events[..i], Changes())
  {
    i := 0;
    while i < |events| && (events[i].at < t || (events[i].at == t && events[i].change < 0))
      invariant i <= |events|
      invariant forall j | 0 <= j < i :: events[j].at < t || (events[j].at == t && events[j].change < 0)
    {
      i := i + 1;
    }
    forall j | i <= j < |events| ensures !(events[j].at < t || (events[j].at == t && events[j].change < 0)) {
      assert j > i ==> Before(events[i], events[j]);
    }
    OnlyThePrefixEnded(events, i, t);
  }

  lemma {:induction false} OnlyThePrefixEnded(events: seq<Event>, i: nat, t: real)
    requires i <= |events|
    requires forall j | 0 <= j < |events| ::
               (events[j].at < t || (events[j].at == t && events[j].change < 0)) <==> j < i
    ensures Sum(events, EndedBy(t)) == Sum(events[..i], Changes())
    decreases |events|
  {
    if events != [] {
      var init, last := events[..|events| - 1], |events| - 1;
      if i == |events| {
        OnlyThePrefixEnded(init, i - 1, t);
        assert events[..i] == events && init[..i - 1] == init;
      } else {
        OnlyThePrefixEnded(init, i, t);
        assert init[..i] == events[..i];
      }
    }
  }

  /** More tests have ended by the instant than started before it. */
  ghost predicate MoreEnded(rows: seq<Row>, t: real) {
    EndedAt(rows, t) > StartedBefore(rows, t)
  }

  lemma EndedInOrder(rows: seq<Row>, t: real)
    ensures Sum(Sorted(Events(rows)), EndedBy(t)) < 0 <==> MoreEnded(rows, t)
  {
    hide Sorted, Events, Sum, EndedAt, StartedBefore;
    SortedAddsUp(Events(rows), EndedBy(t));
    EndedIsCounted(rows, t);
  }

  /** The sweep goes negative exactly where, at some instant, more tests have ended by it than started before it. */
  lemma DipsMeans(rows: seq<Row>)
    ensures Dips(Sorted(Events(rows))) <==> exists t: real :: MoreEnded(rows, t)
  {
    hide Sorted, Events, Sum, MoreEnded;
    var events := Sorted(Events(rows));
    SortedInOrder(Events(rows));
    EventsAreUnit(rows);
    NoEvents();
    assert events[..0] == [];
    if i :| 0 <= i <= |events| && Sum(events[..i], Changes()) < 0 {
      EndedIsLeast(events, i, |events|);
      assert events[..|events|] == events;
      EndedInOrder(rows, events[i - 1].at);
    }
    if t: real :| MoreEnded(rows, t) {
      EndedInOrder(rows, t);
      var i := EndedIsAPrefix(events, t);
      DipsThere(events, i);
    }
  }

  lemma {:induction false} NoneCounts(rows: seq<Row>)
    ensures !Unstamped(rows) ==> (Events(rows) == [] <==> forall row | row in rows :: !Counts(row))
  {
    hide Toolchain, Counts;
    if rows != [] {
      var before, row := rows[..|rows| - 1], rows[|rows| - 1];
      NoneCounts(before);
      SweptCounts(row);
      assert rows == before + [row];
    }
  }

  lemma NothingDips(rows: seq<Row>)
    ensures Events(rows) == [] ==> !Dips(Sorted(Events(rows)))
  {
    if Events(rows) == [] { NoEvents(); }
  }

  lemma NoEvents()
    ensures Sum([], Changes()) == 0 && Sorted([]) == []
  {
  }

  lemma OpensWithAStart(events: seq<Event>)
    requires events != [] && events[0].change == 1
    ensures Opening(events, 1, 1)
  {
  }

  /** Where every test took some time, the peak is the greatest number of tests running at one instant. */
  lemma PeakIsGreatestOverlap(rows: seq<Row>, report: Report)
    requires Reports(report, rows) && forall row | row in rows && Counts(row) :: row.seconds > 0.0
    ensures forall t: real :: RunningAt(rows, t) <= report.peak
    ensures exists t: real :: RunningAt(rows, t) == report.peak
  {
    hide Sorted, Events, Sum, Weighed, TimeAt, RunningAt;
    forall t: real ensures Sum(Sorted(Events(rows)), By(t)) == RunningAt(rows, t) {
      SortedAddsUp(Events(rows), By(t));
      EventsAddUp(rows, t);
    }
  }
}
