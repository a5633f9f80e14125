/**
 What the next run reads in a lane's record: the holder that wrote it, the groups that holder's
 work ran in, and whether it let the lane go itself.  Writing and reading are held to each other
 over every run of appends, any of which may be cut.
 */
module Takeover {
  import opened Wrappers
  import opened Record

  // ---------------------------------------------------------------- numbers

  /** The largest process id a record can name. */
  const MAX_ID: nat := 0xFFFF_FFFF

  predicate IsDigit(byte: char) {
    '0' <= byte <= '9'
  }

  function DigitOf(value: nat): (digit: char)
    requires value < 10
    ensures IsDigit(digit) && digit as int - '0' as int == value
  {
    (value + '0' as int) as char
  }

  function Decimal(value: nat): (text: Bytes)
    ensures text != "" && forall byte | byte in text :: IsDigit(byte)
  {
    if value < 10 then [DigitOf(value)] else Decimal(value / 10) + [DigitOf(value % 10)]
  }

  function ValueOf(digits: Bytes): nat
    requires forall byte | byte in digits :: IsDigit(byte)
  {
    if digits == "" then 0
    else
      var last := |digits| - 1;
      assert IsDigit(digits[last]) by { assert digits[last] in digits; }
      10 * ValueOf(digits[..last]) + (digits[last] as int - '0' as int)
  }

  /** A process id as it is read back: decimal digits, after a plus sign or none, that a 32-bit id can hold. */
  function NumberOf(text: Bytes): Option<nat> {
    var digits := if text != "" && text[0] == '+' then text[1..] else text;
    if digits == "" || exists byte | byte in digits :: !IsDigit(byte) then None
    else if ValueOf(digits) > MAX_ID then None
    else Some(ValueOf(digits))
  }

  lemma {:induction false} DecimalHasItsValue(value: nat)
    ensures ValueOf(Decimal(value)) == value
  {
    if value >= 10 {
      DecimalHasItsValue(value / 10);
      assert Decimal(value)[..|Decimal(value)| - 1] == Decimal(value / 10);
    }
  }

  lemma NumberOfDecimal(value: nat)
    requires value <= MAX_ID
    ensures NumberOf(Decimal(value)) == Some(value)
  {
    DecimalHasItsValue(value);
    assert Decimal(value)[0] in Decimal(value);
  }

  // ---------------------------------------------------------------- one line

  /** Where `separator` first begins in `text`. */
  function IndexOf(text: Bytes, separator: Bytes): (at: Option<nat>)
    ensures at.Some? ==> at.value + |separator| <= |text|
  {
    if separator <= text then Some(0)
    else if text == "" then None
    else match IndexOf(text[1..], separator) case None => None case Some(at) => Some(at + 1)
  }

  function SplitOnce(text: Bytes, separator: Bytes): Option<(Bytes, Bytes)> {
    match IndexOf(text, separator)
    case None => None
    case Some(at) => Some((text[..at], text[at + |separator|..]))
  }

  lemma {:induction false} SplitsAtTheFirst(before: Bytes, separator: Bytes, after: Bytes)
    requires separator != "" && separator[0] !in before
    ensures SplitOnce(before + separator + after, separator) == Some((before, after))
  {
    IndexOfFirst(before, separator, after);
    var text := before + separator + after;
    assert text[..|before|] == before;
    assert text[|before| + |separator|..] == after;
  }

  lemma {:induction false} IndexOfFirst(before: Bytes, separator: Bytes, after: Bytes)
    requires separator != "" && separator[0] !in before
    ensures IndexOf(before + separator + after, separator) == Some(|before|)
    decreases |before|
  {
    var text := before + separator + after;
    if before == "" {
      assert text == separator + after;
    } else {
      assert before[0] in before;
      assert text[0] == before[0];
      assert text[1..] == before[1..] + separator + after;
      IndexOfFirst(before[1..], separator, after);
    }
  }

  function After'(line: Bytes, prefix: Bytes): Option<Bytes> {
    if prefix <= line then Some(line[|prefix|..]) else None
  }

  /** What a group line says: the leader's id and start, and the session where one could be read. */
  datatype Group = Group(pid: nat, born: Bytes, session: Option<nat>)

  function SessionText(session: Option<nat>): Bytes {
    match session case None => "" case Some(id) => Decimal(id)
  }

  /** The line that records a group under the holder its writer read in the record. */
  function GroupLine(group: Group, under: Bytes): Bytes {
    "group=" + GroupText(group, under)
  }

  function GroupText(group: Group, under: Bytes): Bytes {
    Decimal(group.pid) + " " + ("holder=" + under + " "
        + ("session=" + SessionText(group.session) + " born=" + group.born))
  }

  /** A group line read back, or nothing where it names another holder or is no such line. */
  function RecordedOf(line: Bytes, holder: Option<Bytes>): Option<Group> {
    match SplitOnce(line, " ")
    case None => None
    case Some((pid, rest)) =>
      if NumberOf(pid).None? then None
      else
        match After'(rest, "holder=")
        case None => Some(Group(NumberOf(pid).value, rest, None))
        case Some(tagged) => TaggedOf(NumberOf(pid).value, tagged, holder)
  }

  function TaggedOf(leader: nat, tagged: Bytes, holder: Option<Bytes>): Option<Group> {
    match SplitOnce(tagged, " ")
    case None => None
    case Some((under, rest)) =>
      if holder.Some? && holder.value != under then None else SessionOf(leader, rest)
  }

  function SessionOf(leader: nat, text: Bytes): Option<Group> {
    match After'(text, "session=")
    case None => None
    case Some(said) =>
      match SplitOnce(said, " born=")
      case None => None
      case Some((session, born)) => Some(Group(leader, born, NumberOf(session)))
  }

  ghost predicate Recordable(group: Group, under: Bytes) {
    && group.pid <= MAX_ID && (group.session.Some? ==> group.session.value <= MAX_ID)
    && Plain(group.born) && Plain(under) && ' ' !in under
  }

  function SessionBorn(group: Group): Bytes {
    SessionText(group.session) + " born=" + group.born
  }

  lemma SessionReadsBack(group: Group)
    requires group.session.Some? ==> group.session.value <= MAX_ID
    ensures SessionOf(group.pid, "session=" + SessionBorn(group)) == Some(group)
  {
    StripsPrefix("session=", SessionBorn(group));
    SplitsAtTheFirst(SessionText(group.session), " born=", group.born);
    if group.session.Some? {
      NumberOfDecimal(group.session.value);
    }
  }

  lemma StripsPrefix(prefix: Bytes, rest: Bytes)
    ensures After'(prefix + rest, prefix) == Some(rest)
  {
  }

  /** A group line reads back as the group it records, exactly under the holder it was recorded under. */
  lemma GroupLineReadsBack(group: Group, under: Bytes, holder: Option<Bytes>)
    requires Recordable(group, under)
    ensures RecordedOf(GroupText(group, under), holder)
            == if holder.Some? && holder.value != under then None else Some(group)
  {
    var said := "session=" + SessionBorn(group);
    assert "session=" + SessionText(group.session) + " born=" + group.born == said;
    var tagged := under + " " + said;
    var rest := "holder=" + under + " " + said;
    assert rest == "holder=" + tagged;
    assert GroupText(group, under) == Decimal(group.pid) + " " + rest;
    SplitsAtTheFirst(Decimal(group.pid), " ", rest);
    NumberOfDecimal(group.pid);
    StripsPrefix("holder=", tagged);
    SplitsAtTheFirst(under, " ", said);
    SessionReadsBack(group);
  }

  // ---------------------------------------------------------------- a whole record

  /** What follows `name=` on the first line beginning so. */
  function FieldOf(lines: seq<Bytes>, name: Bytes): Option<Bytes> {
    if lines == [] then None
    else match After'(lines[0], name + "=") case Some(value) => Some(value) case None => FieldOf(lines[1..], name)
  }

  /** The groups the lines name under `holder`, in order. */
  function GroupsUnder(lines: seq<Bytes>, holder: Option<Bytes>): seq<Group> {
    if lines == [] then []
    else
      (match GroupOn(lines[0], holder) case None => [] case Some(group) => [group]) + GroupsUnder(lines[1..], holder)
  }

  function GroupOn(line: Bytes, holder: Option<Bytes>): Option<Group> {
    match After'(line, "group=")
    case Some(text) => RecordedOf(text, holder)
    case None => match After'(line, "leader=") case Some(text) => RecordedOf(text, holder) case None => None
  }

  /** The groups on the holder's own lines, unless its release is among them or it wrote in a different boot. */
  function UnreleasedOf(record: Record, thisBoot: Option<Bytes>): seq<Group> {
    var boot := FieldOf(record.lines, "boot");
    if boot.Some? && boot.value != "" && thisBoot.Some? && boot.value != thisBoot.value then []
    else if "released" in record.lines then []
    else GroupsUnder(record.lines, FieldOf(record.lines, "pid"))
  }

  /** The id and start on the record's first `pid=` and `holder_born=` lines, where both say something. */
  function HolderOf(record: Record): Option<(nat, Bytes)> {
    match (FieldOf(record.lines, "pid"), FieldOf(record.lines, "holder_born"))
    case (Some(pid), Some(born)) =>
      if NumberOf(pid).None? || born == "" then None else Some((NumberOf(pid).value, born))
    case _ => None
  }

  /** What a run that holds the lock has to see gone before it takes the lane over a record. */
  datatype Left = Nothing | Work(pid: nat, born: Bytes, groups: seq<Group>)

  function LeftBy(record: Record, thisBoot: Option<Bytes>): Left {
    match HolderOf(record)
    case None => Nothing
    case Some((pid, born)) =>
      var groups := UnreleasedOf(record, thisBoot);
      if groups == [] then Nothing else Work(pid, born, groups)
  }

  // ---------------------------------------------------------------- what a line says

  ghost function Tens(power: nat): nat {
    if power == 0 then 1 else 10 * Tens(power - 1)
  }

  /** Decimal notation: each digit times the power of ten of its place. */
  ghost function InDecimal(digits: Bytes): int {
    if digits == "" then 0
    else (digits[0] as int - '0' as int) * Tens(|digits| - 1) + InDecimal(digits[1..])
  }

  lemma {:induction false} ValueIsInDecimal(digits: Bytes)
    requires forall byte | byte in digits :: IsDigit(byte)
    ensures ValueOf(digits) == InDecimal(digits)
  {
    if digits != "" {
      var last := |digits| - 1;
      assert forall byte | byte in digits[..last] :: byte in digits;
      ValueIsInDecimal(digits[..last]);
      OneMoreDigit(digits[..last], digits[last]);
      assert digits == digits[..last] + [digits[last]];
    }
  }

  lemma {:induction false} OneMoreDigit(digits: Bytes, last: char)
    ensures InDecimal(digits + [last]) == 10 * InDecimal(digits) + (last as int - '0' as int)
  {
    if digits == "" {
      assert digits + [last] == [last] && [last][1..] == "";
    } else {
      assert (digits + [last])[1..] == digits[1..] + [last];
      OneMoreDigit(digits[1..], last);
    }
  }

  /** Digits, and a plus sign before them or none, for a number below two to the thirty-second. */
  ghost predicate IsNumber(text: Bytes, value: nat) {
    exists digits ::
      && (text == digits || text == "+" + digits) && digits != ""
      && (forall byte | byte in digits :: byte in "0123456789")
      && InDecimal(digits) == value && value < 0x1_0000_0000
  }

  lemma NumberMeans(text: Bytes, value: nat)
    ensures NumberOf(text) == Some(value) <==> IsNumber(text, value)
  {
    hide ValueOf, InDecimal;
    forall byte ensures IsDigit(byte) <==> byte in "0123456789" {
      if IsDigit(byte) { assert byte == "0123456789"[byte as int - '0' as int]; }
    }
    var digits := if text != "" && text[0] == '+' then text[1..] else text;
    if NumberOf(text).Some? {
      ValueIsInDecimal(digits);
      assert text == digits || text == "+" + digits;
    }
    if other :| (text == other || text == "+" + other) && other != ""
                && (forall byte | byte in other :: byte in "0123456789")
                && InDecimal(other) == value && value < 0x1_0000_0000
    {
      assert other[0] in other;
      assert other == digits;
      ValueIsInDecimal(digits);
    }
  }

  /** Nowhere in `text` does `separator` begin before `end`. */
  ghost predicate NoneBefore(text: Bytes, separator: Bytes, end: nat)
    requires end <= |text|
  {
    forall i | 0 <= i < end :: !(separator <= text[i..])
  }

  lemma {:induction false} IndexIsFirst(text: Bytes, separator: Bytes)
    ensures match IndexOf(text, separator)
            case None => NoneBefore(text, separator, |text|) && separator != ""
            case Some(at) => separator <= text[at..] && NoneBefore(text, separator, at)
  {
    if !(separator <= text) && text != "" {
      IndexIsFirst(text[1..], separator);
      forall i | 0 < i <= |text| ensures text[i..] == text[1..][i - 1..] {}
    }
  }

  /** Text is divided at the first separator in it. */
  lemma SplitMeans(text: Bytes, separator: Bytes, before: Bytes, after: Bytes)
    requires separator != ""
    ensures SplitOnce(text, separator) == Some((before, after))
            <==> text == before + separator + after && NoneBefore(text, separator, |before|)
  {
    hide IndexOf;
    IndexIsFirst(text, separator);
    var at := IndexOf(text, separator);
    if at.Some? {
      var end := at.value + |separator|;
      assert text == text[..at.value] + separator + text[end..];
    }
    if text == before + separator + after && NoneBefore(text, separator, |before|) {
      assert separator <= text[|before|..];
      assert at.Some? && at.value == |before|;
      assert text[..|before|] == before && text[|before| + |separator|..] == after;
    }
  }

  /** A session and a start, divided at the first ` born=`. */
  ghost predicate SessionAndStart(text: Bytes, session: Bytes, born: Bytes) {
    text == "session=" + (session + " born=" + born) && NoneBefore(session + " born=" + born, " born=", |session|)
  }

  ghost predicate IsSession(text: Bytes, session: Option<nat>) {
    match session case Some(id) => IsNumber(text, id) case None => forall id: nat :: !IsNumber(text, id)
  }

  ghost predicate Tagged(text: Bytes, holder: Option<Bytes>, under: Bytes, tail: Bytes) {
    text == "holder=" + (under + " " + tail) && ' ' !in under && (holder.Some? ==> holder.value == under)
  }

  /** What follows the leader's id: a start alone, or the holder it was recorded under, a session and the start. */
  ghost predicate SaysUnder(text: Bytes, holder: Option<Bytes>, group: Group) {
    || (!("holder=" <= text) && group.born == text && group.session.None?)
    || exists under, tail, session ::
         Tagged(text, holder, under, tail) && SessionAndStart(tail, session, group.born)
             && IsSession(session, group.session)
  }

  /** A line names a group: after either word, the leader's id, a blank, and the rest. */
  ghost predicate Says(line: Bytes, holder: Option<Bytes>, group: Group) {
    exists number, rest ::
      && (line == "group=" + (number + " " + rest) || line == "leader=" + (number + " " + rest))
      && IsNumber(number, group.pid) && SaysUnder(rest, holder, group)
  }

  lemma BlankMeans(text: Bytes, end: nat)
    requires end <= |text|
    ensures NoneBefore(text, " ", end) <==> ' ' !in text[..end]
  {
    forall i | 0 <= i < end ensures " " <= text[i..] <==> text[..end][i] == ' ' {}
  }

  lemma SplitAtBlank(text: Bytes, before: Bytes, after: Bytes)
    ensures SplitOnce(text, " ") == Some((before, after)) <==> text == before + " " + after && ' ' !in before
  {
    hide SplitOnce, NoneBefore;
    SplitMeans(text, " ", before, after);
    if text == before + " " + after {
      BlankMeans(text, |before|);
      assert text[..|before|] == before;
    }
  }

  lemma PrefixMeans(text: Bytes, prefix: Bytes, rest: Bytes)
    ensures After'(text, prefix) == Some(rest) <==> text == prefix + rest
  {
    if prefix <= text { assert text == prefix + text[|prefix|..]; }
  }

  lemma NumbersMean(text: Bytes, session: Option<nat>)
    ensures NumberOf(text) == session <==> IsSession(text, session)
  {
    hide NumberOf, IsNumber;
    forall id: nat ensures NumberOf(text) == Some(id) <==> IsNumber(text, id) { NumberMeans(text, id); }
  }

  lemma SessionMeans(pid: nat, text: Bytes, group: Group)
    ensures SessionOf(pid, text) == Some(group)
            <==> group.pid == pid && exists session ::
                   SessionAndStart(text, session, group.born) && IsSession(session, group.session)
  {
    hide SplitOnce, NumberOf, IsSession, NoneBefore, After';
    if SessionOf(pid, text) == Some(group) {
      var said := After'(text, "session=").value;
      var parts := SplitOnce(said, " born=").value;
      PrefixMeans(text, "session=", said);
      SplitMeans(said, " born=", parts.0, parts.1);
      NumbersMean(parts.0, group.session);
      assert SessionAndStart(text, parts.0, group.born);
    }
    if session :| group.pid == pid && SessionAndStart(text, session, group.born) && IsSession(session, group.session) {
      var said := session + " born=" + group.born;
      PrefixMeans(text, "session=", said);
      SplitMeans(said, " born=", session, group.born);
      NumbersMean(session, group.session);
    }
  }

  lemma TaggedMeans(pid: nat, tagged: Bytes, holder: Option<Bytes>, group: Group)
    ensures TaggedOf(pid, tagged, holder) == Some(group)
            <==> group.pid == pid && exists under, tail, session ::
                   && Tagged("holder=" + tagged, holder, under, tail)
                   && SessionAndStart(tail, session, group.born) && IsSession(session, group.session)
  {
    hide SplitOnce, SessionOf, SessionAndStart, IsSession;
    if TaggedOf(pid, tagged, holder) == Some(group) {
      var parts := SplitOnce(tagged, " ").value;
      SplitAtBlank(tagged, parts.0, parts.1);
      SessionMeans(pid, parts.1, group);
      assert Tagged("holder=" + tagged, holder, parts.0, parts.1);
    }
    if under, tail, session :| group.pid == pid && Tagged("holder=" + tagged, holder, under, tail)
                               && SessionAndStart(tail, session, group.born) && IsSession(session, group.session)
    {
      assert ("holder=" + tagged)[7..] == tagged && ("holder=" + (under + " " + tail))[7..] == under + " " + tail;
      SplitAtBlank(tagged, under, tail);
      SessionMeans(pid, tail, group);
    }
  }

  lemma RecordedMeans(text: Bytes, holder: Option<Bytes>, group: Group)
    ensures RecordedOf(text, holder) == Some(group)
            <==> exists number, rest ::
                   text == number + " " + rest && IsNumber(number, group.pid) && SaysUnder(rest, holder, group)
  {
    hide SplitOnce, NumberOf, TaggedOf, IsNumber, SessionAndStart, IsSession;
    forall number, rest | SplitOnce(text, " ") == Some((number, rest)) && NumberOf(number) == Some(group.pid)
      ensures RecordedOf(text, holder) == Some(group) <==> SaysUnder(rest, holder, group)
    {
      if "holder=" <= rest {
        assert rest == "holder=" + rest[7..];
        TaggedMeans(group.pid, rest[7..], holder, group);
      } else {
        forall under, tail ensures !Tagged(rest, holder, under, tail) {}
      }
    }
    if RecordedOf(text, holder) == Some(group) {
      var parts := SplitOnce(text, " ").value;
      SplitAtBlank(text, parts.0, parts.1);
      if "holder=" <= parts.1 { TaggedKeepsId(NumberOf(parts.0).value, parts.1[7..], holder); }
      NumberMeans(parts.0, group.pid);
      assert text == parts.0 + " " + parts.1;
    }
    if number, rest :| text == number + " " + rest && IsNumber(number, group.pid) && SaysUnder(rest, holder, group) {
      NumberMeans(number, group.pid);
      NumberHasNoBlank(number, group.pid);
      SplitAtBlank(text, number, rest);
    }
  }

  lemma NumberHasNoBlank(text: Bytes, value: nat)
    requires IsNumber(text, value)
    ensures ' ' !in text
  {
  }

  lemma TaggedKeepsId(pid: nat, tagged: Bytes, holder: Option<Bytes>)
    ensures TaggedOf(pid, tagged, holder).Some? ==> TaggedOf(pid, tagged, holder).value.pid == pid
  {
    hide SplitOnce, NumberOf;
  }

  /** A group is read off a line exactly where the line says so. */
  lemma GroupMeans(line: Bytes, holder: Option<Bytes>, group: Group)
    ensures GroupOn(line, holder) == Some(group) <==> Says(line, holder, group)
  {
    hide RecordedOf, IsNumber, SaysUnder, After';
    var said, before := After'(line, "group="), After'(line, "leader=");
    if said.Some? { PrefixMeans(line, "group=", said.value); RecordedMeans(said.value, holder, group); }
    if before.Some? { PrefixMeans(line, "leader=", before.value); RecordedMeans(before.value, holder, group); }
    if number, rest :| (line == "group=" + (number + " " + rest) || line == "leader=" + (number + " " + rest))
                       && IsNumber(number, group.pid) && SaysUnder(rest, holder, group)
    {
      var text := number + " " + rest;
      PrefixMeans(line, "group=", text);
      PrefixMeans(line, "leader=", text);
      if line == "leader=" + text { assert line[0] == 'l'; NotAGroup(line); }
    }
  }

  lemma NotAGroup(line: Bytes)
    requires "leader=" <= line
    ensures After'(line, "group=").None?
  {
    assert line[0] == "leader="[0] && "group="[0] == 'g';
  }

  // ---------------------------------------------------------------- what a record leaves

  /** The first line that says `name=` gives it `value`. */
  ghost predicate FirstSays(lines: seq<Bytes>, name: Bytes, value: Bytes) {
    exists i :: 0 <= i < |lines| && lines[i] == name + "=" + value && forall k | 0 <= k < i :: !(name + "=" <= lines[k])
  }

  lemma {:induction false} FieldMeans(lines: seq<Bytes>, name: Bytes, value: Bytes)
    ensures FieldOf(lines, name) == Some(value) <==> FirstSays(lines, name, value)
  {
    if lines != [] {
      hide After';
      var said := After'(lines[0], name + "=");
      FieldMeans(lines[1..], name, value);
      PrefixMeans(lines[0], name + "=", value);
      if said.Some? { PrefixMeans(lines[0], name + "=", said.value); }
      assert said.Some? <==> name + "=" <= lines[0] by { SaysSomething(lines[0], name + "="); }
      if FirstSays(lines[1..], name, value) {
        var i :| 0 <= i < |lines[1..]| && lines[1..][i] == name + "=" + value
                 && forall k | 0 <= k < i :: !(name + "=" <= lines[1..][k]);
        if said.None? {
          assert lines[i + 1] == name + "=" + value;
          forall k | 0 <= k < i + 1 ensures !(name + "=" <= lines[k]) {
            if k > 0 { assert lines[k] == lines[1..][k - 1]; }
          }
        }
      }
      if i :| 0 <= i < |lines| && lines[i] == name + "=" + value && forall k | 0 <= k < i :: !(name + "=" <= lines[k]) {
        if i > 0 {
          assert lines[1..][i - 1] == lines[i];
          forall k | 0 <= k < i - 1 ensures !(name + "=" <= lines[1..][k]) { assert lines[1..][k] == lines[k + 1]; }
        }
      }
    }
  }

  lemma SaysSomething(line: Bytes, prefix: Bytes)
    ensures After'(line, prefix).Some? <==> prefix <= line
  {
  }

  /** The record was written in another boot than this one, by its own word. */
  ghost predicate OfAnotherBoot(lines: seq<Bytes>, thisBoot: Option<Bytes>) {
    thisBoot.Some? && exists boot :: FirstSays(lines, "boot", boot) && boot != "" && boot != thisBoot.value
  }

  /**
   A record leaves work exactly where it says who held the lane and since when, was not written in another
   boot, holds no release, and names groups under that holder.
   */
  lemma WorkIsLeft(record: Record, thisBoot: Option<Bytes>, pid: nat, born: Bytes, groups: seq<Group>)
    ensures LeftBy(record, thisBoot) == Work(pid, born, groups)
            <==> exists number ::
                   && FirstSays(record.lines, "pid", number) && IsNumber(number, pid)
                   && FirstSays(record.lines, "holder_born", born) && born != ""
                   && !OfAnotherBoot(record.lines, thisBoot) && "released" !in record.lines
                   && groups != [] && groups == GroupsUnder(record.lines, Some(number))
  {
    hide FieldOf, NumberOf, IsNumber, GroupsUnder, FirstSays;
    forall name, value ensures FieldOf(record.lines, name) == Some(value) <==> FirstSays(record.lines, name, value) {
      FieldMeans(record.lines, name, value);
    }
    forall number ensures NumberOf(number) == Some(pid) <==> IsNumber(number, pid) { NumberMeans(number, pid); }
  }

  ghost predicate SaysSome(line: Bytes, holder: Option<Bytes>) {
    exists group :: Says(line, holder, group)
  }

  /** One group for each line that says one, in the lines' order: `at` are those lines. */
  ghost predicate SaidAt(lines: seq<Bytes>, holder: Option<Bytes>, groups: seq<Group>, at: seq<nat>) {
    && |at| == |groups| && (forall k | 0 <= k < |at| :: at[k] < |lines| && Says(lines[at[k]], holder, groups[k]))
    && (forall k, l | 0 <= k < l < |at| :: at[k] < at[l])
    && forall i: nat | i < |lines| && SaysSome(lines[i], holder) :: i in at
  }

  /** The groups a record names are those its lines say, line by line. */
  lemma {:induction false} GroupsAreSaid(lines: seq<Bytes>, holder: Option<Bytes>)
    ensures exists at :: SaidAt(lines, holder, GroupsUnder(lines, holder), at)
  {
    hide GroupOn, Says, SaidAt, SaysSome;
    if lines == [] {
      NothingSaid(holder);
      assert SaidAt(lines, holder, GroupsUnder(lines, holder), []);
    } else {
      var n := |lines| - 1;
      GroupsAreSaid(lines[..n], holder);
      var at :| SaidAt(lines[..n], holder, GroupsUnder(lines[..n], holder), at);
      GroupsDivide(lines[..n], [lines[n]], holder);
      assert lines == lines[..n] + [lines[n]];
      OneMoreLine(lines[..n], lines[n], holder, GroupsUnder(lines[..n], holder), at);
    }
  }

  lemma NothingSaid(holder: Option<Bytes>)
    ensures SaidAt([], holder, [], [])
  {
  }

  lemma OneMoreLine(lines: seq<Bytes>, line: Bytes, holder: Option<Bytes>, groups: seq<Group>, at: seq<nat>)
    requires SaidAt(lines, holder, groups, at)
    ensures exists more :: SaidAt(lines + [line], holder, groups + GroupsUnder([line], holder), more)
  {
    hide GroupOn, Says;
    var said := GroupOn(line, holder);
    forall group ensures said == Some(group) <==> Says(line, holder, group) { GroupMeans(line, holder, group); }
    assert GroupsUnder([], holder) == [] && [line][1..] == [];
    if said.Some? {
      assert GroupsUnder([line], holder) == [said.value];
      assert SaidAt(lines + [line], holder, groups + [said.value], at + [|lines|]) by {
        assert (at + [|lines|])[|at|] == |lines|;
        forall i: nat | i < |lines + [line]| && SaysSome((lines + [line])[i], holder) ensures i in at + [|lines|] {
          if i < |lines| { assert (lines + [line])[i] == lines[i]; }
        }
      }
    } else {
      assert groups + GroupsUnder([line], holder) == groups;
      assert SaidAt(lines + [line], holder, groups, at);
    }
  }

  // ---------------------------------------------------------------- the record a holder writes

  /** What a holder writes of itself when it takes the lane. */
  datatype Holder = Holder(
    pid: nat, born: Bytes, since: Bytes, worktree: Bytes, revision: Bytes, command: Bytes, load: Bytes, boot: Bytes)

  function HeaderLines(holder: Holder): seq<Bytes> {
    [ "pid=" + Decimal(holder.pid), "holder_born=" + holder.born, "since=" + holder.since,
      "worktree=" + holder.worktree, "revision=" + holder.revision, "command=" + holder.command,
      "load=" + holder.load, "boot=" + holder.boot ]
  }

  function Ended(lines: seq<Bytes>): Bytes {
    if lines == [] then "" else lines[0] + [NEWLINE] + Ended(lines[1..])
  }

  ghost predicate OneLineFields(holder: Holder) {
    && holder.pid <= MAX_ID
    && forall line | line in HeaderLines(holder) :: Writable(line)
  }

  /** One line added to the record: a group the work ran in, or that the holder let the lane go. */
  datatype Note = Works(group: Group, under: Bytes) | Released

  /** A note whose writer finished it or was killed `lost` bytes short. */
  datatype Noted = Noted(note: Note, lost: nat)

  function NoteLine(note: Note): Bytes {
    match note case Works(group, under) => GroupLine(group, under) case Released => "released"
  }

  ghost predicate AllRecordable(noted: seq<Noted>) {
    forall one | one in noted && one.note.Works? :: Recordable(one.note.group, one.note.under)
  }

  function Writes(noted: seq<Noted>): (writes: seq<Write>)
    ensures |writes| == |noted|
    ensures forall i | 0 <= i < |noted| :: writes[i] == Write(NoteLine(noted[i].note), noted[i].lost)
  {
    seq(|noted|, i requires 0 <= i < |noted| => Write(NoteLine(noted[i].note), noted[i].lost))
  }

  /** The notes whose writing finished, in order. */
  function FinishedNotes(noted: seq<Noted>): seq<Note> {
    if noted == [] then [] else (if noted[0].lost == 0 then [noted[0].note] else []) + FinishedNotes(noted[1..])
  }

  /** The groups finished notes record under `under`, in order. */
  function GroupsNoted(notes: seq<Note>, under: Bytes): seq<Group> {
    if notes == [] then []
    else
      (if notes[0].Works? && notes[0].under == under then [notes[0].group] else []) + GroupsNoted(notes[1..], under)
  }

  function NoteLines(notes: seq<Note>): seq<Bytes> {
    if notes == [] then [] else [NoteLine(notes[0])] + NoteLines(notes[1..])
  }

  lemma {:induction false} LinesReadBack(lines: seq<Bytes>)
    requires forall line | line in lines :: Writable(line)
    ensures ReadOf(Ended(lines)) == Record(lines, [])
    ensures !Unfinished(Ended(lines))
  {
    if lines != [] {
      assert Writable(lines[0]) by { assert lines[0] in lines; }
      LinesReadBack(lines[1..]);
      LineThenLines(lines[0], lines[1..]);
      assert [lines[0]] + lines[1..] == lines;
    }
  }

  lemma LineThenLines(line: Bytes, lines: seq<Bytes>)
    requires Writable(line)
    requires ReadOf(Ended(lines)) == Record(lines, []) && !Unfinished(Ended(lines))
    ensures ReadOf(line + [NEWLINE] + Ended(lines)) == Record([line] + lines, [])
    ensures !Unfinished(line + [NEWLINE] + Ended(lines))
  {
    var piece := line + [NEWLINE];
    assert piece[..|piece| - 1] == line;
    OnePiece(line);
    LinesDivide(piece, Ended(lines));
  }

  lemma {:induction false} FinishedLinesAreNotes(noted: seq<Noted>)
    ensures Finished(Writes(noted)) == NoteLines(FinishedNotes(noted))
  {
    if noted != [] {
      FinishedLinesAreNotes(noted[1..]);
      assert Writes(noted)[1..] == Writes(noted[1..]);
      var rest := FinishedNotes(noted[1..]);
      assert ([noted[0].note] + rest)[1..] == rest;
      assert [] + rest == rest;
      assert noted[0].lost == 0 ==> FinishedNotes(noted) == [noted[0].note] + rest;
    }
  }

  lemma {:induction false} FinishedAreNoted(noted: seq<Noted>)
    ensures forall note | note in FinishedNotes(noted) :: exists one :: one in noted && one.note == note
  {
    if noted != [] {
      FinishedAreNoted(noted[1..]);
      assert noted[0] in noted;
    }
  }

  lemma {:induction false} GroupsDivide(first: seq<Bytes>, second: seq<Bytes>, holder: Option<Bytes>)
    ensures GroupsUnder(first + second, holder) == GroupsUnder(first, holder) + GroupsUnder(second, holder)
  {
    if first == [] {
      assert first + second == second;
    } else {
      assert (first + second)[1..] == first[1..] + second;
      GroupsDivide(first[1..], second, holder);
    }
  }

  lemma {:induction false} NotesReadBack(notes: seq<Note>, under: Bytes)
    requires forall note | note in notes && note.Works? :: Recordable(note.group, note.under)
    ensures GroupsUnder(NoteLines(notes), Some(under)) == GroupsNoted(notes, under)
    ensures "released" in NoteLines(notes) <==> Released in notes
  {
    if notes != [] {
      hide NoteLine, GroupOn, Recordable;
      NotesReadBack(notes[1..], under);
      assert NoteLines(notes) == [NoteLine(notes[0])] + NoteLines(notes[1..]);
      assert notes == [notes[0]] + notes[1..];
      NoteReadsBack(notes[0], under);
    }
  }

  lemma NoteReadsBack(note: Note, under: Bytes)
    requires note.Works? ==> Recordable(note.group, note.under)
    ensures GroupOn(NoteLine(note), Some(under))
            == if note.Works? && note.under == under then Some(note.group) else None
    ensures NoteLine(note) == "released" <==> note.Released?
  {
    match note
    case Released =>
      assert "released"[0] != "group="[0] && "released"[0] != "leader="[0];
    case Works(group, tag) =>
      var line := GroupLine(group, tag);
      assert line[0] == 'g';
      assert After'(line, "group=") == Some(GroupText(group, tag));
      GroupLineReadsBack(group, tag, Some(under));
  }

  lemma GroupLineIsPlain(group: Group, under: Bytes)
    requires Recordable(group, under)
    ensures Plain(GroupLine(group, under))
  {
  }

  lemma NotesAreWritable(note: Note)
    requires note.Works? ==> Recordable(note.group, note.under)
    ensures Writable(NoteLine(note))
  {
    if note.Works? {
      GroupLineIsPlain(note.group, note.under);
    }
    PlainIsWritable(NoteLine(note));
  }

  // ---------------------------------------------------------------- what the next run reads

  lemma FieldBelow(line: Bytes, lines: seq<Bytes>, name: Bytes)
    requires !(name + "=" <= line)
    ensures FieldOf([line] + lines, name) == FieldOf(lines, name)
  {
  }

  lemma FieldHere(value: Bytes, lines: seq<Bytes>, name: Bytes)
    ensures FieldOf([name + "=" + value] + lines, name) == Some(value)
  {
  }

  /** The fields the next run looks for are the ones the holder wrote, whatever was appended after them. */
  lemma HeaderFields(holder: Holder, more: seq<Bytes>)
    ensures FieldOf(HeaderLines(holder) + more, "pid") == Some(Decimal(holder.pid))
    ensures FieldOf(HeaderLines(holder) + more, "holder_born") == Some(holder.born)
    ensures FieldOf(HeaderLines(holder) + more, "boot") == Some(holder.boot)
  {
    var h := HeaderLines(holder);
    var rest := h[7..] + more;
    var r6 := [h[6]] + rest;
    var r5 := [h[5]] + r6;
    var r4 := [h[4]] + r5;
    var r3 := [h[3]] + r4;
    var r2 := [h[2]] + r3;
    var r1 := [h[1]] + r2;
    assert h + more == [h[0]] + r1;
    assert "pid" + "=" == "pid=" && "holder_born" + "=" == "holder_born=" && "boot" + "=" == "boot=";
    FieldHere(Decimal(holder.pid), r1, "pid");
    assert h[0][0] == 'p' && h[1][0] == 'h' && h[2][0] == 's' && h[3][0] == 'w';
    assert h[4][0] == 'r' && h[5][0] == 'c' && h[6][0] == 'l';
    FieldBelow(h[0], r1, "holder_born");
    FieldHere(holder.born, r2, "holder_born");
    FieldBelow(h[0], r1, "boot");
    FieldBelow(h[1], r2, "boot");
    FieldBelow(h[2], r3, "boot");
    FieldBelow(h[3], r4, "boot");
    FieldBelow(h[4], r5, "boot");
    FieldBelow(h[5], r6, "boot");
    FieldBelow(h[6], rest, "boot");
    assert rest == [h[7]] + more;
    FieldHere(holder.boot, more, "boot");
  }

  /** What a holder writes of itself names no group and no release. */
  lemma HeaderNamesNoWork(holder: Holder, under: Option<Bytes>)
    ensures "released" !in HeaderLines(holder)
    ensures GroupsUnder(HeaderLines(holder), under) == []
  {
    var lines := HeaderLines(holder);
    forall line | line in lines
      ensures line != "released" && !NamesWork(line)
    {
      assert line[0] != 'g';
      assert line[0] == 'r' ==> line[2] == 'v';
      assert line[0] == 'l' ==> line[1] == 'o';
    }
    NoGroups(lines, under);
  }

  ghost predicate NamesWork(line: Bytes) {
    "group=" <= line || "leader=" <= line
  }

  lemma {:induction false} NoGroups(lines: seq<Bytes>, under: Option<Bytes>)
    requires forall line | line in lines :: !NamesWork(line)
    ensures GroupsUnder(lines, under) == []
  {
    if lines != [] {
      assert lines[0] in lines;
      NoGroups(lines[1..], under);
    }
  }

  /**
   Over a record a holder wrote and any run of appends to it, each finished or cut anywhere, the next run
   reads the holder, and exactly the groups whose lines were finished under that holder, unless its release
   was finished or this is another boot.
   */
  lemma NextRunReadsFinishedWork(holder: Holder, noted: seq<Noted>, thisBoot: Option<Bytes>)
    requires OneLineFields(holder) && AllRecordable(noted)
    ensures var record := ReadOf(After(Ended(HeaderLines(holder)), Writes(noted)));
            && HolderOf(record) == (if holder.born == "" then None else Some((holder.pid, holder.born)))
            && UnreleasedOf(record, thisBoot)
               == if holder.boot != "" && thisBoot.Some? && thisBoot.value != holder.boot then []
                  else if Released in FinishedNotes(noted) then []
                  else GroupsNoted(FinishedNotes(noted), Decimal(holder.pid))
  {
    var header := Ended(HeaderLines(holder));
    var notes := FinishedNotes(noted);
    forall write | write in Writes(noted) ensures Writable(write.line) {
      var i :| 0 <= i < |noted| && write == Writes(noted)[i];
      assert noted[i] in noted;
      NotesAreWritable(noted[i].note);
    }
    LinesReadBack(HeaderLines(holder));
    RecordKeepsFinishedLines(header, Writes(noted));
    FinishedLinesAreNotes(noted);
    FinishedAreNoted(noted);
    WhatLinesSay(holder, notes, thisBoot, ReadOf(After(header, Writes(noted))));
  }

  lemma WhatLinesSay(holder: Holder, notes: seq<Note>, thisBoot: Option<Bytes>, record: Record)
    requires holder.pid <= MAX_ID
    requires forall note | note in notes && note.Works? :: Recordable(note.group, note.under)
    requires record.lines == HeaderLines(holder) + NoteLines(notes)
    ensures HolderOf(record) == (if holder.born == "" then None else Some((holder.pid, holder.born)))
    ensures UnreleasedOf(record, thisBoot)
            == if holder.boot != "" && thisBoot.Some? && thisBoot.value != holder.boot then []
               else if Released in notes then []
               else GroupsNoted(notes, Decimal(holder.pid))
  {
    var under := Decimal(holder.pid);
    HeaderFields(holder, NoteLines(notes));
    HeaderNamesNoWork(holder, Some(under));
    NotesReadBack(notes, under);
    GroupsDivide(HeaderLines(holder), NoteLines(notes), Some(under));
    NumberOfDecimal(holder.pid);
  }
}
