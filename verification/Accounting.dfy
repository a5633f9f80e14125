/**
 The closed accounting of a suite's builds (`scripts/suite-cost.py`): each record's keys and
 unbound identities are read closed, merged into their test, and merged again into binaries
 and the suite.
 */
module Accounting {
  import opened Wrappers

  /** The greatest count a record could measure. */
  const WIDEST := 0xFFFF_FFFF_FFFF_FFFF

  /** What one bound key's work came to. */
  datatype KeyWork = KeyWork(requests: int, hits: int, misses: int, processes: int, failed: int,
                             reasons: map<string, int>, refused: map<string, int>, causes: map<string, int>)

  /** What the work of one identity no key bound came to. */
  datatype UnboundWork = UnboundWork(requests: int, misses: int, processes: int, failed: int, causes: map<string, int>)

  /** Cargo processes: those seen to start, and those whose role was to probe or to ask for metadata. */
  datatype Cargo = Cargo(starts: int, probes: int, metadata: int)

  /** Counts that are added up and held to the width, and nothing else. */
  datatype Measures = Measures(units: int, buildMs: int, probeMs: int, metadataMs: int, rustcProbes: int,
      rustcProbeMs: int)

  /** What a record, a test, a binary or the suite holds of its builds. */
  datatype Holding = Holding(keys: map<string, KeyWork>, unbound: map<string, UnboundWork>,
                             builds: int, requests: int, hits: int, misses: int, failures: int,
                             cargo: Cargo, measures: Measures)

  /** What a test, a binary or the suite holds of its modules. */
  datatype Modules = Modules(requests: int, preparations: int, instances: int, hits: int, misses: int, compileNs: int,
      executionNs: int)

  /** Everything a test, a binary or the suite holds, of how many records. */
  datatype Row = Row(held: Holding, records: int, modules: Modules)

  /** How the cache answered for a module that was prepared, and how long that took. */
  datatype Compilation = Compilation(hits: int, misses: int, durationNs: int)

  /** The work of one sealed module. */
  datatype Sealed = Sealed(compiles: int, instances: int, compilation: Option<Compilation>, executionNs: Option<int>)

  /** Which accounting a record was written under. */
  datatype Schema = WithoutProvenance | Current | OtherSchema

  /** One cost record. */
  datatype Record = Record(schema: Schema, product: bool, test: Test, failed: bool, work: Holding,
                           platformRequests: int, platform: seq<Sealed>, bench: Option<Sealed>, unobserved: seq<string>)

  /** A test, by its binary and its name. */
  datatype Test = Test(binary: string, name: string)

  datatype Refusal =
    | NotACount | NoReason | Unclassed | Misnamed | Wide
    | HitsOpen | MissesOpen | ReasonsOpen | CausesOpen | RefusedOpen
    | UnboundOpen | UnboundMissesOpen
    | UnknownTest | ProcessesOpen | RequestsOpen | FailuresOpen
    | UnknownSchema | WorkFailed | UnnamedUnobserved | StartsUncovered
    | Untimed | ModulesOpen | Unrequested | Redundant

  // ---------------------------------------------------------------- sums over mappings

  /** The sum of a measure over some keys of a mapping. */
  ghost function SumOver<K, V>(m: map<K, V>, some: set<K>, f: V -> int): int
    requires some <= m.Keys
    decreases some
  {
    if exists key :: key in some then
      var key :| key in some;
      f(m[key]) + SumOver(m, some - {key}, f)
    else 0
  }

  ghost function Sum<V>(m: map<string, V>, f: V -> int): int {
    SumOver(m, m.Keys, f)
  }

  lemma {:induction false} SumWithout<K, V>(m: map<K, V>, some: set<K>, f: V -> int, key: K)
    requires some <= m.Keys && key in some
    ensures SumOver(m, some, f) == f(m[key]) + SumOver(m, some - {key}, f)
    decreases some
  {
    var first :| first in some && SumOver(m, some, f) == f(m[first]) + SumOver(m, some - {first}, f);
    if first != key {
      SumWithout(m, some - {first}, f, key);
      SumWithout(m, some - {key}, f, first);
      assert some - {first} - {key} == some - {key} - {first};
    }
  }

  method SumUpOver<V>(m: map<string, V>, some: set<string>, f: V -> int) returns (sum: int)
    requires some <= m.Keys
    ensures sum == SumOver(m, some, f)
  {
    sum := 0;
    var rest := some;
    while exists key :: key in rest
      invariant rest <= some
      invariant sum + SumOver(m, rest, f) == SumOver(m, some, f)
      decreases rest
    {
      var key :| key in rest;
      SumWithout(m, rest, f, key);
      sum := sum + f(m[key]);
      rest := rest - {key};
    }
  }

  method SumUp<V>(m: map<string, V>, f: V -> int) returns (sum: int)
    ensures sum == Sum(m, f)
  {
    sum := SumUpOver(m, m.Keys, f);
  }

  /** Two mappings as one, what both hold added together. */
  function Join<V>(one: map<string, V>, other: map<string, V>, plus: (V, V) -> V): map<string, V> {
    map key | key in one.Keys + other.Keys ::
      if key !in other then one[key] else if key !in one then other[key] else plus(one[key], other[key])
  }

  /** A measure that adds up over what is added together adds up over what is joined. */
  lemma {:induction false} JoinAddsUpOver<V(!new)>(one: map<string, V>, other: map<string, V>,
      plus: (V, V) -> V, some: set<string>, f: V -> int)
    requires forall x, y :: f(plus(x, y)) == f(x) + f(y)
    requires some <= one.Keys + other.Keys
    ensures SumOver(Join(one, other, plus), some, f) == SumOver(one, some * one.Keys, f)
            + SumOver(other, some * other.Keys, f)
    decreases some
  {
    var joined := Join(one, other, plus);
    if key :| key in some {
      var rest := some - {key};
      SumWithout(joined, some, f, key);
      JoinAddsUpOver(one, other, plus, rest, f);
      assert rest * one.Keys == some * one.Keys - {key};
      assert rest * other.Keys == some * other.Keys - {key};
      if key in one {
        SumWithout(one, some * one.Keys, f, key);
      } else {
        assert rest * one.Keys == some * one.Keys;
      }
      if key in other {
        SumWithout(other, some * other.Keys, f, key);
      } else {
        assert rest * other.Keys == some * other.Keys;
      }
    } else {
      assert some * one.Keys == {} && some * other.Keys == {};
    }
  }

  lemma JoinAddsUp<V(!new)>(one: map<string, V>, other: map<string, V>, plus: (V, V) -> V, f: V -> int)
    requires forall x, y :: f(plus(x, y)) == f(x) + f(y)
    ensures Sum(Join(one, other, plus), f) == Sum(one, f) + Sum(other, f)
  {
    var joined := Join(one, other, plus);
    assert joined.Keys == one.Keys + other.Keys;
    JoinAddsUpOver(one, other, plus, joined.Keys, f);
    assert joined.Keys * one.Keys == one.Keys && joined.Keys * other.Keys == other.Keys;
  }

  /** Part of a mapping. */
  function Only<V>(m: map<string, V>, some: set<string>): map<string, V> {
    map key | key in some && key in m :: m[key]
  }

  /** Joining one more key of a mapping. */
  lemma JoinOneMore<V>(into: map<string, V>, held: map<string, V>, plus: (V, V) -> V, done: set<string>, key: string)
    requires key in held && key !in done
    ensures Join(into, Only(held, done + {key}), plus) ==
            var joined := Join(into, Only(held, done), plus);
            joined[key := if key in joined then plus(joined[key], held[key]) else held[key]]
  {
  }

  lemma JoinNoneOrAll<V>(into: map<string, V>, held: map<string, V>, plus: (V, V) -> V)
    ensures Join(into, Only(held, {}), plus) == into && Only(held, held.Keys) == held
  {
  }

  /** Merges one mapping into another, key by key. */
  method MergeInto<V>(into: map<string, V>, held: map<string, V>, plus: (V, V) -> V) returns (merged: map<string, V>)
    ensures merged == Join(into, held, plus)
  {
    hide Join, Only;
    JoinNoneOrAll(into, held, plus);
    merged := into;
    var rest, done: set<string> := held.Keys, {};
    while exists key :: key in rest
      invariant rest + done == held.Keys && rest !! done
      invariant merged == Join(into, Only(held, done), plus)
      decreases rest
    {
      var key :| key in rest;
      JoinOneMore(into, held, plus, done, key);
      merged := merged[key := if key in merged then plus(merged[key], held[key]) else held[key]];
      rest, done := rest - {key}, done + {key};
    }
    assert done == held.Keys;
  }

  // ---------------------------------------------------------------- merging work

  function Itself(): int -> int { (count: int) => count }
  function Added(): (int, int) -> int { (x: int, y: int) => x + y }

  /** Two works of one key as one, no repeat dropped. */
  function MergedKey(into: KeyWork, held: KeyWork): KeyWork {
    KeyWork(into.requests + held.requests, into.hits + held.hits, into.misses + held.misses,
            into.processes + held.processes, into.failed + held.failed,
            Join(into.reasons, held.reasons, Added()), Join(into.refused, held.refused, Added()),
            Join(into.causes, held.causes, Added()))
  }

  function MergedUnbound(into: UnboundWork, held: UnboundWork): UnboundWork {
    UnboundWork(into.requests + held.requests, into.misses + held.misses, into.processes + held.processes,
                into.failed + held.failed, Join(into.causes, held.causes, Added()))
  }

  /**
   A key's requests close into hits and misses, its misses into starts and failures, and each of those into
   its concrete reasons.
   */
  ghost predicate ClosedKey(work: KeyWork) {
    && work.hits + work.misses == work.requests
    && work.processes + work.failed == work.misses
    && Sum(work.reasons, Itself()) == work.misses
    && Sum(work.causes, Itself()) == work.failed
    && Sum(work.refused, Itself()) <= work.processes
  }

  /** Whether the cache was asked for an identity no key bound. */
  predicate Asked(identity: string) {
    "unbound" <= identity
  }

  ghost predicate ClosedUnbound(identity: string, work: UnboundWork) {
    && work.requests == work.processes + work.failed
    && work.misses == (if Asked(identity) then work.requests else 0)
    && Sum(work.causes, Itself()) == work.failed
  }

  /** Merging closed works of a key leaves them closed. */
  lemma MergedKeyCloses(into: KeyWork, held: KeyWork)
    requires ClosedKey(into) && ClosedKey(held)
    ensures ClosedKey(MergedKey(into, held))
  {
    JoinAddsUp(into.reasons, held.reasons, Added(), Itself());
    JoinAddsUp(into.refused, held.refused, Added(), Itself());
    JoinAddsUp(into.causes, held.causes, Added(), Itself());
  }

  lemma MergedUnboundCloses(identity: string, into: UnboundWork, held: UnboundWork)
    requires ClosedUnbound(identity, into) && ClosedUnbound(identity, held)
    ensures ClosedUnbound(identity, MergedUnbound(into, held))
  {
    JoinAddsUp(into.causes, held.causes, Added(), Itself());
  }

  method MergeKey(into: KeyWork, held: KeyWork) returns (merged: KeyWork)
    ensures merged == MergedKey(into, held)
  {
    var reasons := MergeInto(into.reasons, held.reasons, Added());
    var refused := MergeInto(into.refused, held.refused, Added());
    var causes := MergeInto(into.causes, held.causes, Added());
    merged := KeyWork(into.requests + held.requests, into.hits + held.hits, into.misses + held.misses,
                      into.processes + held.processes, into.failed + held.failed, reasons, refused, causes);
  }

  method MergeUnbound(into: UnboundWork, held: UnboundWork) returns (merged: UnboundWork)
    ensures merged == MergedUnbound(into, held)
  {
    var causes := MergeInto(into.causes, held.causes, Added());
    merged := UnboundWork(into.requests + held.requests, into.misses + held.misses, into.processes + held.processes,
        into.failed + held.failed, causes);
  }

  const EMPTY_KEY := KeyWork(0, 0, 0, 0, 0, map[], map[], map[])
  const EMPTY_UNBOUND := UnboundWork(0, 0, 0, 0, map[])

  /** Merging into a work just opened gives what is merged, so a mapping may take the first work of a key as it is. */
  lemma OpenedThenMerged(held: KeyWork, unbound: UnboundWork)
    ensures MergedKey(EMPTY_KEY, held) == held && MergedUnbound(EMPTY_UNBOUND, unbound) == unbound
  {
    assert Join(map[], held.reasons, Added()) == held.reasons;
    assert Join(map[], held.refused, Added()) == held.refused;
    assert Join(map[], held.causes, Added()) == held.causes;
    assert Join(map[], unbound.causes, Added()) == unbound.causes;
  }

  // ---------------------------------------------------------------- what a holder holds

  const NOTHING := Holding(map[], map[], 0, 0, 0, 0, 0, Cargo(0, 0, 0), Measures(0, 0, 0, 0, 0, 0))

  function KeyProcesses(): KeyWork -> int { (work: KeyWork) => work.processes }
  function KeyRequests(): KeyWork -> int { (work: KeyWork) => work.requests }
  function KeyHits(): KeyWork -> int { (work: KeyWork) => work.hits }
  function KeyMisses(): KeyWork -> int { (work: KeyWork) => work.misses }
  function KeyFailed(): KeyWork -> int { (work: KeyWork) => work.failed }
  function UnboundProcesses(): UnboundWork -> int { (work: UnboundWork) => work.processes }
  function UnboundRequests(): UnboundWork -> int { (work: UnboundWork) => work.requests }
  function UnboundMisses(): UnboundWork -> int { (work: UnboundWork) => work.misses }
  function UnboundFailed(): UnboundWork -> int { (work: UnboundWork) => work.failed }

  /** The keys and identities account for every process, request, hit, miss and failed launch counted. */
  ghost predicate Closes(held: Holding) {
    && Sum(held.keys, KeyProcesses()) + Sum(held.unbound, UnboundProcesses()) == held.builds
    && Sum(held.keys, KeyRequests()) + Sum(held.unbound, UnboundRequests()) == held.requests
    && Sum(held.keys, KeyHits()) == held.hits
    && Sum(held.keys, KeyMisses()) + Sum(held.unbound, UnboundMisses()) == held.misses
    && Sum(held.keys, KeyFailed()) + Sum(held.unbound, UnboundFailed()) == held.failures
  }

  /** Every key and identity is itself closed. */
  ghost predicate Sound(held: Holding) {
    && (forall key | key in held.keys :: ClosedKey(held.keys[key]))
    && (forall identity | identity in held.unbound :: ClosedUnbound(identity, held.unbound[identity]))
  }

  function PlusKey(): (KeyWork, KeyWork) -> KeyWork { (into: KeyWork, held: KeyWork) => MergedKey(into, held) }
  function PlusUnbound(): (UnboundWork, UnboundWork) -> UnboundWork {
    (into: UnboundWork, held: UnboundWork) => MergedUnbound(into, held)
  }

  /** What two holders hold together. */
  function Together(into: Holding, held: Holding): Holding {
    Holding(Join(into.keys, held.keys, PlusKey()), Join(into.unbound, held.unbound, PlusUnbound()),
            into.builds + held.builds, into.requests + held.requests, into.hits + held.hits,
            into.misses + held.misses, into.failures + held.failures,
            CargoTogether(into.cargo, held.cargo), MeasuresTogether(into.measures, held.measures))
  }

  function CargoTogether(into: Cargo, held: Cargo): Cargo {
    Cargo(into.starts + held.starts, into.probes + held.probes, into.metadata + held.metadata)
  }

  function MeasuresTogether(into: Measures, held: Measures): Measures {
    Measures(into.units + held.units, into.buildMs + held.buildMs, into.probeMs + held.probeMs,
             into.metadataMs + held.metadataMs, into.rustcProbes + held.rustcProbes,
             into.rustcProbeMs + held.rustcProbeMs)
  }

  function ModulesTogether(into: Modules, held: Modules): Modules {
    Modules(into.requests + held.requests, into.preparations + held.preparations, into.instances + held.instances,
            into.hits + held.hits, into.misses + held.misses, into.compileNs + held.compileNs,
            into.executionNs + held.executionNs)
  }

  const NO_MODULES := Modules(0, 0, 0, 0, 0, 0, 0)
  const EMPTY_ROW := Row(NOTHING, 0, NO_MODULES)

  /** What two rows hold together. */
  function RowsTogether(into: Row, row: Row): Row {
    Row(Together(into.held, row.held), into.records + row.records, ModulesTogether(into.modules, row.modules))
  }

  /** Holders whose keys and identities are closed hold closed ones together. */
  lemma TogetherIsSound(into: Holding, held: Holding)
    requires Sound(into) && Sound(held)
    ensures Sound(Together(into, held))
  {
    hide ClosedKey, ClosedUnbound;
    forall key | key in into.keys && key in held.keys ensures ClosedKey(MergedKey(into.keys[key], held.keys[key])) {
      MergedKeyCloses(into.keys[key], held.keys[key]);
    }
    forall identity | identity in into.unbound && identity in held.unbound
      ensures ClosedUnbound(identity, MergedUnbound(into.unbound[identity], held.unbound[identity]))
    {
      MergedUnboundCloses(identity, into.unbound[identity], held.unbound[identity]);
    }
  }

  /** Holders that close account together for everything each accounted for. */
  lemma TogetherCloses(into: Holding, held: Holding)
    requires Closes(into) && Closes(held)
    ensures Closes(Together(into, held))
  {
    hide Sum, Join;
    JoinAddsUp(into.keys, held.keys, PlusKey(), KeyProcesses());
    JoinAddsUp(into.keys, held.keys, PlusKey(), KeyRequests());
    JoinAddsUp(into.keys, held.keys, PlusKey(), KeyHits());
    JoinAddsUp(into.keys, held.keys, PlusKey(), KeyMisses());
    JoinAddsUp(into.keys, held.keys, PlusKey(), KeyFailed());
    JoinAddsUp(into.unbound, held.unbound, PlusUnbound(), UnboundProcesses());
    JoinAddsUp(into.unbound, held.unbound, PlusUnbound(), UnboundRequests());
    JoinAddsUp(into.unbound, held.unbound, PlusUnbound(), UnboundMisses());
    JoinAddsUp(into.unbound, held.unbound, PlusUnbound(), UnboundFailed());
  }

  lemma NothingAddsUp<V>(f: V -> int)
    ensures Sum(map[], f) == 0
  {
  }

  lemma NothingCloses()
    ensures Sound(NOTHING) && Closes(NOTHING)
  {
    hide Sum;
    NothingAddsUp(KeyProcesses());
    NothingAddsUp(KeyRequests());
    NothingAddsUp(KeyHits());
    NothingAddsUp(KeyMisses());
    NothingAddsUp(KeyFailed());
    NothingAddsUp(UnboundProcesses());
    NothingAddsUp(UnboundRequests());
    NothingAddsUp(UnboundMisses());
    NothingAddsUp(UnboundFailed());
  }

  /** What three holders hold together does not depend on which are merged first. */
  lemma TogetherInAnyOrder(into: Holding, one: Holding, other: Holding)
    ensures Together(Together(into, one), other) == Together(Together(into, other), one)
  {
    KeysMergeInAnyOrder();
    UnboundMergeInAnyOrder();
    JoinInAnyOrder(into.keys, one.keys, other.keys, PlusKey());
    JoinInAnyOrder(into.unbound, one.unbound, other.unbound, PlusUnbound());
  }

  lemma KeysMergeInAnyOrder()
    ensures forall x, y :: PlusKey()(x, y) == PlusKey()(y, x)
    ensures forall x, y, z :: PlusKey()(PlusKey()(x, y), z) == PlusKey()(PlusKey()(x, z), y)
  {
    hide Join;
    forall x, y ensures PlusKey()(x, y) == PlusKey()(y, x) {
      CountsInAnyOrder(x.reasons, y.reasons, map[]);
      CountsInAnyOrder(x.refused, y.refused, map[]);
      CountsInAnyOrder(x.causes, y.causes, map[]);
    }
    forall x, y, z ensures PlusKey()(PlusKey()(x, y), z) == PlusKey()(PlusKey()(x, z), y) {
      CountsInAnyOrder(x.reasons, y.reasons, z.reasons);
      CountsInAnyOrder(x.refused, y.refused, z.refused);
      CountsInAnyOrder(x.causes, y.causes, z.causes);
    }
  }

  lemma UnboundMergeInAnyOrder()
    ensures forall x, y :: PlusUnbound()(x, y) == PlusUnbound()(y, x)
    ensures forall x, y, z :: PlusUnbound()(PlusUnbound()(x, y), z) == PlusUnbound()(PlusUnbound()(x, z), y)
  {
    hide Join;
    forall x, y ensures PlusUnbound()(x, y) == PlusUnbound()(y, x) { CountsInAnyOrder(x.causes, y.causes, map[]); }
    forall x, y, z ensures PlusUnbound()(PlusUnbound()(x, y), z) == PlusUnbound()(PlusUnbound()(x, z), y) {
      CountsInAnyOrder(x.causes, y.causes, z.causes);
    }
  }

  lemma CountsInAnyOrder(x: map<string, int>, y: map<string, int>, z: map<string, int>)
    ensures Join(Join(x, y, Added()), z, Added()) == Join(Join(x, z, Added()), y, Added())
    ensures Join(x, y, Added()) == Join(y, x, Added())
  {
    JoinInAnyOrder(x, y, z, Added());
  }

  lemma JoinInAnyOrder<V(!new)>(x: map<string, V>, y: map<string, V>, z: map<string, V>, plus: (V, V) -> V)
    requires forall a, b :: plus(a, b) == plus(b, a)
    requires forall a, b, c :: plus(plus(a, b), c) == plus(plus(a, c), b)
    ensures Join(Join(x, y, plus), z, plus) == Join(Join(x, z, plus), y, plus)
    ensures Join(x, y, plus) == Join(y, x, plus)
  {
    var one, other := Join(Join(x, y, plus), z, plus), Join(Join(x, z, plus), y, plus);
    assert one.Keys == other.Keys;
    forall key | key in one ensures one[key] == other[key] {}
    assert Join(x, y, plus).Keys == Join(y, x, plus).Keys;
  }

  // ---------------------------------------------------------------- reading a record

  predicate IsCount(count: int) {
    0 <= count <= WIDEST
  }

  predicate IsSpace(c: char) {
    var code := c as int;
    || 0x09 <= code <= 0x0D || 0x1C <= code <= 0x20 || code == 0x85 || code == 0xA0 || code == 0x1680
    || 0x2000 <= code <= 0x200A || code == 0x2028 || code == 0x2029 || code == 0x202F || code == 0x205F
    || code == 0x3000
  }

  /** Whether a cause says anything. */
  predicate Concrete(cause: string) {
    exists i :: 0 <= i < |cause| && !IsSpace(cause[i])
  }

  /** A miss reason is `cold: ` or `repair: ` and then a cause that says something. */
  predicate Classed(reason: string) {
    ("cold: " <= reason && Concrete(reason[6..])) || ("repair: " <= reason && Concrete(reason[8..]))
  }

  predicate Causes(causes: map<string, int>) {
    forall cause | cause in causes :: Concrete(cause) && IsCount(causes[cause])
  }

  predicate KeyCounts(work: KeyWork) {
    && IsCount(work.requests) && IsCount(work.hits) && IsCount(work.misses) && IsCount(work.processes)
    && IsCount(work.failed)
    && Causes(work.reasons) && Causes(work.refused) && Causes(work.causes)
  }

  predicate UnboundCounts(work: UnboundWork) {
    && IsCount(work.requests) && IsCount(work.misses) && IsCount(work.processes) && IsCount(work.failed)
    && Causes(work.causes)
  }

  ghost predicate ReadableKey(work: KeyWork) {
    KeyCounts(work) && (forall reason | reason in work.reasons :: Classed(reason)) && ClosedKey(work)
  }

  ghost predicate ReadableUnbound(identity: string, work: UnboundWork) {
    UnboundCounts(work) && ClosedUnbound(identity, work)
  }

  /** A sum no wider than a record could measure. */
  method SummedOver<V>(m: map<string, V>, some: set<string>, f: V -> int) returns (sum: Option<int>)
    requires some <= m.Keys
    ensures sum == if IsCount(SumOver(m, some, f)) then Some(SumOver(m, some, f)) else None
  {
    var total := SumUpOver(m, some, f);
    sum := if IsCount(total) then Some(total) else None;
  }

  method Summed<V>(m: map<string, V>, f: V -> int) returns (sum: Option<int>)
    ensures sum == if IsCount(Sum(m, f)) then Some(Sum(m, f)) else None
  {
    sum := SummedOver(m, m.Keys, f);
  }

  /** What a cause has to say: some character that is none of Unicode's white space or separators. */
  ghost predicate SaysSomething(cause: string) {
    exists c :: c in cause
                && c !in "\t\n\U{B}\U{C}\r\U{1C}\U{1D}\U{1E}\U{1F} \U{85}\U{A0}\U{1680}"
                && c !in "\U{2000}\U{2001}\U{2002}\U{2003}\U{2004}\U{2005}\U{2006}\U{2007}\U{2008}\U{2009}\U{200A}"
                && c !in "\U{2028}\U{2029}\U{202F}\U{205F}\U{3000}"
  }

  lemma SpacesAre(c: char)
    ensures IsSpace(c) <==>
            || c in "\t\n\U{B}\U{C}\r\U{1C}\U{1D}\U{1E}\U{1F} \U{85}\U{A0}\U{1680}"
            || c in "\U{2000}\U{2001}\U{2002}\U{2003}\U{2004}\U{2005}\U{2006}\U{2007}\U{2008}\U{2009}\U{200A}"
            || c in "\U{2028}\U{2029}\U{202F}\U{205F}\U{3000}"
  {
  }

  lemma ConcreteSays(cause: string)
    ensures Concrete(cause) <==> SaysSomething(cause)
  {
    hide IsSpace;
    forall c | c in cause { SpacesAre(c); }
    if Concrete(cause) {
      var i :| 0 <= i < |cause| && !IsSpace(cause[i]);
      assert cause[i] in cause;
    }
  }

  lemma ClassedMeans(reason: string)
    ensures Classed(reason) <==> OfAClass(reason)
  {
    hide Concrete, SaysSomething;
    if "cold: " <= reason {
      ConcreteSays(reason[6..]);
      assert reason == "cold: " + reason[6..];
    }
    if "repair: " <= reason {
      ConcreteSays(reason[8..]);
      assert reason == "repair: " + reason[8..];
    }
    forall cause | SaysSomething(cause) && (reason == "cold: " + cause || reason == "repair: " + cause)
      ensures Classed(reason)
    {
      ConcreteSays(cause);
      if reason == "cold: " + cause { assert reason[6..] == cause; } else { assert reason[8..] == cause; }
    }
  }

  /** What 64 bits can count. */
  ghost predicate Counted(count: int) {
    0 <= count <= 18446744073709551615
  }

  /** Every reason says something, and how often is counted. */
  ghost predicate ReasonsCounted(counts: map<string, int>) {
    forall reason | reason in counts :: SaysSomething(reason) && Counted(counts[reason])
  }

  /** The class of a miss: a cold build, or a repair, and then what of. */
  ghost predicate OfAClass(reason: string) {
    exists cause :: SaysSomething(cause) && (reason == "cold: " + cause || reason == "repair: " + cause)
  }

  /** A key's work can be read exactly where its counts close, each into the reasons it is given. */
  lemma ReadableKeyMeans(work: KeyWork)
    ensures ReadableKey(work) <==>
            && Counted(work.requests) && Counted(work.hits) && Counted(work.misses) && Counted(work.processes)
            && Counted(work.failed)
            && ReasonsCounted(work.reasons) && ReasonsCounted(work.refused) && ReasonsCounted(work.causes)
            && (forall reason | reason in work.reasons :: OfAClass(reason))
            && work.requests == work.hits + work.misses && work.misses == work.processes + work.failed
            && work.misses == SumOver(work.reasons, work.reasons.Keys, Itself())
            && work.failed == SumOver(work.causes, work.causes.Keys, Itself())
            && work.processes >= SumOver(work.refused, work.refused.Keys, Itself())
  {
    hide Concrete, SaysSomething, Classed, SumOver;
    forall reason ensures Concrete(reason) <==> SaysSomething(reason) { ConcreteSays(reason); }
    forall reason ensures Classed(reason) <==> OfAClass(reason) { ClassedMeans(reason); }
  }

  /**
   An identity's work can be read exactly where every request was a start or a failure, and its misses are
   as its name says.
   */
  lemma ReadableUnboundMeans(identity: string, work: UnboundWork)
    ensures ReadableUnbound(identity, work) <==>
            && Counted(work.requests) && Counted(work.misses) && Counted(work.processes) && Counted(work.failed)
            && ReasonsCounted(work.causes)
            && work.requests == work.processes + work.failed
            && work.misses == (if "unbound" <= identity then work.requests else 0)
            && work.failed == SumOver(work.causes, work.causes.Keys, Itself())
  {
    hide Concrete, SaysSomething, SumOver;
    forall reason ensures Concrete(reason) <==> SaysSomething(reason) { ConcreteSays(reason); }
  }

  /** What a refusal says against a key's work is so. */
  ghost predicate AgainstKey(refusal: Refusal, work: KeyWork) {
    var reasons, causes := Sum(work.reasons, Itself()), Sum(work.causes, Itself());
    match refusal
    case NotACount =>
      || !Counted(work.requests) || !Counted(work.hits) || !Counted(work.misses) || !Counted(work.processes)
      || !Counted(work.failed)
    case NoReason => !ReasonsCounted(work.reasons) || !ReasonsCounted(work.refused) || !ReasonsCounted(work.causes)
    case Unclassed => exists reason :: reason in work.reasons && !OfAClass(reason)
    case Wide =>
      || !Counted(work.hits + work.misses) || !Counted(work.processes + work.failed) || !Counted(reasons)
      || !Counted(causes) || !Counted(Sum(work.refused, Itself()))
    case HitsOpen => work.requests != work.hits + work.misses
    case MissesOpen => work.misses != work.processes + work.failed
    case ReasonsOpen => work.misses != reasons
    case CausesOpen => work.failed != causes
    case RefusedOpen => work.processes < Sum(work.refused, Itself())
    case _ => false
  }

  /** What a refusal says against an identity's work is so. */
  ghost predicate AgainstUnbound(refusal: Refusal, identity: string, work: UnboundWork) {
    var causes := Sum(work.causes, Itself());
    match refusal
    case NotACount =>
      !Counted(work.requests) || !Counted(work.misses) || !Counted(work.processes) || !Counted(work.failed)
    case NoReason => !ReasonsCounted(work.causes)
    case Wide => !Counted(work.processes + work.failed) || !Counted(causes)
    case UnboundOpen => work.requests != work.processes + work.failed
    case UnboundMissesOpen => work.misses != if "unbound" <= identity then work.requests else 0
    case CausesOpen => work.failed != causes
    case _ => false
  }

  lemma ReasonsMean()
    ensures forall counts :: Causes(counts) <==> ReasonsCounted(counts)
    ensures forall reason :: Classed(reason) <==> OfAClass(reason)
  {
    hide Concrete, SaysSomething, Classed, OfAClass;
    forall reason ensures Concrete(reason) <==> SaysSomething(reason) { ConcreteSays(reason); }
    forall reason ensures Classed(reason) <==> OfAClass(reason) { ClassedMeans(reason); }
  }

  /** Reads one bound key's work, refusing one that does not close. */
  method ReadKey(work: KeyWork) returns (refusal: Option<Refusal>)
    ensures refusal.None? <==> ReadableKey(work)
    ensures refusal.Some? ==> AgainstKey(refusal.value, work)
  {
    hide Sum, Causes, ReasonsCounted, Classed, OfAClass;
    ReasonsMean();
    if !(IsCount(work.requests) && IsCount(work.hits) && IsCount(work.misses) && IsCount(work.processes)
        && IsCount(work.failed)) {
      return Some(NotACount);
    }
    if !(Causes(work.reasons) && Causes(work.refused) && Causes(work.causes)) { return Some(NoReason); }
    if exists reason | reason in work.reasons :: !Classed(reason) { return Some(Unclassed); }
    if !IsCount(work.hits + work.misses) { return Some(Wide); }
    if work.hits + work.misses != work.requests { return Some(HitsOpen); }
    if !IsCount(work.processes + work.failed) { return Some(Wide); }
    if work.processes + work.failed != work.misses { return Some(MissesOpen); }
    var reasons := Summed(work.reasons, Itself());
    if reasons.None? { return Some(Wide); }
    if reasons.value != work.misses { return Some(ReasonsOpen); }
    var causes := Summed(work.causes, Itself());
    if causes.None? { return Some(Wide); }
    if causes.value != work.failed { return Some(CausesOpen); }
    var refused := Summed(work.refused, Itself());
    if refused.None? {
      SumIsCounted(work.refused);
      return Some(Wide);
    }
    if refused.value > work.processes { return Some(RefusedOpen); }
    return None;
  }

  lemma {:induction false} SumIsCountedOver(counts: map<string, int>, some: set<string>)
    requires Causes(counts) && some <= counts.Keys
    ensures SumOver(counts, some, Itself()) >= 0
    decreases some
  {
    if key :| key in some {
      SumWithout(counts, some, Itself(), key);
      SumIsCountedOver(counts, some - {key});
    }
  }

  lemma SumIsCounted(counts: map<string, int>)
    requires Causes(counts)
    ensures Sum(counts, Itself()) >= 0
  {
    SumIsCountedOver(counts, counts.Keys);
  }

  /**
   Reads the work of one identity; its misses are all its requests where its name says the cache was asked,
   else none.
   */
  method ReadUnbound(identity: string, work: UnboundWork) returns (refusal: Option<Refusal>)
    ensures refusal.None? <==> ReadableUnbound(identity, work)
    ensures refusal.Some? ==> AgainstUnbound(refusal.value, identity, work)
  {
    hide Sum, Causes, ReasonsCounted;
    ReasonsMean();
    if !(IsCount(work.requests) && IsCount(work.misses) && IsCount(work.processes) && IsCount(work.failed)) {
      return Some(NotACount);
    }
    if !Causes(work.causes) { return Some(NoReason); }
    if !IsCount(work.processes + work.failed) { return Some(Wide); }
    if work.requests != work.processes + work.failed { return Some(UnboundOpen); }
    var expected := if Asked(identity) then work.requests else 0;
    if work.misses != expected { return Some(UnboundMissesOpen); }
    var causes := Summed(work.causes, Itself());
    if causes.None? { return Some(Wide); }
    if causes.value != work.failed { return Some(CausesOpen); }
    return None;
  }

  /** A content-addressed build key is sixty-four hexadecimal digits. */
  predicate KeyName(key: string) {
    |key| == 64 && forall i | 0 <= i < 64 :: '0' <= key[i] <= '9' || 'a' <= key[i] <= 'f'
  }

  /** An identity no key bound gives its explicit reason. */
  predicate UnboundName(identity: string) {
    "unbound: " <= identity || "direct: " <= identity
  }

  predicate Totals(held: Holding) {
    && IsCount(held.builds) && IsCount(held.requests) && IsCount(held.hits) && IsCount(held.misses)
    && IsCount(held.failures)
    && CargoFits(held.cargo) && MeasuresFit(held.measures)
  }

  predicate CargoFits(cargo: Cargo) {
    IsCount(cargo.starts) && IsCount(cargo.probes) && IsCount(cargo.metadata)
  }

  predicate MeasuresFit(measures: Measures) {
    && IsCount(measures.units) && IsCount(measures.buildMs) && IsCount(measures.probeMs)
    && IsCount(measures.metadataMs) && IsCount(measures.rustcProbes) && IsCount(measures.rustcProbeMs)
  }

  predicate ModulesFit(modules: Modules) {
    && IsCount(modules.requests) && IsCount(modules.preparations) && IsCount(modules.instances) && IsCount(modules.hits)
    && IsCount(modules.misses) && IsCount(modules.compileNs) && IsCount(modules.executionNs)
  }

  /** Every aggregate of a row stays inside the width. */
  predicate RowFits(row: Row) {
    Fits(row.held) && IsCount(row.records) && ModulesFit(row.modules)
  }

  /**
   The cargo processes something accounts for: those attributed to a key or identity, the probes and the
   askings for metadata.
   */
  function Roles(held: Holding): int {
    held.builds + held.cargo.probes + held.cargo.metadata
  }

  /** Every cargo process seen to start has a role. */
  predicate Covered(held: Holding) {
    held.cargo.starts <= Roles(held)
  }

  /** A key is sixty-four digits of a hash, and an identity says whether the cache was asked and then why. */
  lemma NamesMean(name: string)
    ensures KeyName(name) <==> |name| == 64 && forall c | c in name :: c in "0123456789abcdef"
    ensures UnboundName(name) <==> exists why :: name == "unbound: " + why || name == "direct: " + why
    ensures UnboundName(name) ==> (Asked(name) <==> exists why :: name == "unbound: " + why)
  {
    forall c: char ensures c in "0123456789abcdef" <==> '0' <= c <= '9' || 'a' <= c <= 'f' {}
    if KeyName(name) {
      forall c | c in name ensures c in "0123456789abcdef" { var i :| 0 <= i < |name| && name[i] == c; }
    }
    if |name| == 64 && forall c | c in name :: c in "0123456789abcdef" {
      forall i | 0 <= i < 64 ensures '0' <= name[i] <= '9' || 'a' <= name[i] <= 'f' { assert name[i] in name; }
    }
    if "unbound: " <= name { assert name == "unbound: " + name[9..]; }
    if "direct: " <= name { assert name == "direct: " + name[8..] && name[0] == 'd'; }
  }

  /** Whether the work of a record is counted and closed, by itself. */
  ghost predicate Readable(record: Holding) {
    && Totals(record)
    && (forall key | key in record.keys :: KeyName(key) && ReadableKey(record.keys[key]))
    && (forall identity | identity in record.unbound ::
        UnboundName(identity) && ReadableUnbound(identity, record.unbound[identity]))
  }

  /** Every count of a holder is a count, however many were added up. */
  predicate Fits(held: Holding) {
    && Totals(held)
    && (forall key | key in held.keys :: KeyFits(held.keys[key]))
    && (forall identity | identity in held.unbound :: UnboundFits(held.unbound[identity]))
  }

  predicate CountsFit(counts: map<string, int>) {
    forall cause | cause in counts :: IsCount(counts[cause])
  }

  predicate KeyFits(work: KeyWork) {
    && IsCount(work.requests) && IsCount(work.hits) && IsCount(work.misses) && IsCount(work.processes)
    && IsCount(work.failed)
    && CountsFit(work.reasons) && CountsFit(work.refused) && CountsFit(work.causes)
  }

  predicate UnboundFits(work: UnboundWork) {
    && IsCount(work.requests) && IsCount(work.misses) && IsCount(work.processes) && IsCount(work.failed)
    && CountsFit(work.causes)
  }

  /** Some key is misnamed, or has work the refusal is so of. */
  ghost predicate AgainstKeys(refusal: Refusal, held: map<string, KeyWork>) {
    exists key :: key in held && ((refusal.Misnamed? && !KeyName(key)) || AgainstKey(refusal, held[key]))
  }

  ghost predicate AgainstUnbounds(refusal: Refusal, held: map<string, UnboundWork>) {
    exists identity ::
      && identity in held
      && ((refusal.Misnamed? && !UnboundName(identity)) || AgainstUnbound(refusal, identity, held[identity]))
  }

  /** Reads every key of a record and merges it into what a test holds. */
  method TakeKeys(into: map<string, KeyWork>, held: map<string, KeyWork>)
    returns (merged: Result<map<string, KeyWork>, Refusal>)
    ensures merged.Ok? <==> forall key | key in held :: KeyName(key) && ReadableKey(held[key])
    ensures merged.Ok? ==> merged.value == Join(into, held, PlusKey())
    ensures merged.Err? ==> AgainstKeys(merged.error, held)
  {
    hide AgainstKey, ReadableKey, MergedKey, Join, Only, KeyName;
    JoinNoneOrAll(into, held, PlusKey());
    var all := into;
    var rest, done: set<string> := held.Keys, {};
    while exists key :: key in rest
      invariant rest + done == held.Keys && rest !! done
      invariant forall key | key in done :: KeyName(key) && ReadableKey(held[key])
      invariant all == Join(into, Only(held, done), PlusKey())
      decreases rest
    {
      var key :| key in rest;
      if !KeyName(key) { return Err(Misnamed); }
      var refusal := ReadKey(held[key]);
      if refusal.Some? { return Err(refusal.value); }
      OpenedThenMerged(held[key], EMPTY_UNBOUND);
      JoinOneMore(into, held, PlusKey(), done, key);
      var work := MergeKey(if key in all then all[key] else EMPTY_KEY, held[key]);
      all := all[key := work];
      rest, done := rest - {key}, done + {key};
    }
    assert done == held.Keys;
    return Ok(all);
  }

  method TakeUnbound(into: map<string, UnboundWork>, held: map<string, UnboundWork>)
    returns (merged: Result<map<string, UnboundWork>, Refusal>)
    ensures merged.Ok? <==>
              forall identity | identity in held :: UnboundName(identity) && ReadableUnbound(identity, held[identity])
    ensures merged.Ok? ==> merged.value == Join(into, held, PlusUnbound())
    ensures merged.Err? ==> AgainstUnbounds(merged.error, held)
  {
    hide AgainstUnbound, ReadableUnbound, MergedUnbound, Join, Only, UnboundName;
    JoinNoneOrAll(into, held, PlusUnbound());
    var all := into;
    var rest, done: set<string> := held.Keys, {};
    while exists identity :: identity in rest
      invariant rest + done == held.Keys && rest !! done
      invariant forall identity | identity in done :: UnboundName(identity) && ReadableUnbound(identity, held[identity])
      invariant all == Join(into, Only(held, done), PlusUnbound())
      decreases rest
    {
      var identity :| identity in rest;
      if !UnboundName(identity) { return Err(Misnamed); }
      var refusal := ReadUnbound(identity, held[identity]);
      if refusal.Some? { return Err(refusal.value); }
      OpenedThenMerged(EMPTY_KEY, held[identity]);
      JoinOneMore(into, held, PlusUnbound(), done, identity);
      var work := MergeUnbound(if identity in all then all[identity] else EMPTY_UNBOUND, held[identity]);
      all := all[identity := work];
      rest, done := rest - {identity}, done + {identity};
    }
    assert done == held.Keys;
    return Ok(all);
  }

  /** What a refusal says of a holding's inventory is so. */
  ghost predicate AgainstInventory(refusal: Refusal, held: Holding) {
    var processes := Sum(held.keys, KeyProcesses()) + Sum(held.unbound, UnboundProcesses());
    var requests := Sum(held.keys, KeyRequests()) + Sum(held.unbound, UnboundRequests());
    var misses := Sum(held.keys, KeyMisses()) + Sum(held.unbound, UnboundMisses());
    var failed := Sum(held.keys, KeyFailed()) + Sum(held.unbound, UnboundFailed());
    match refusal
    case ProcessesOpen => held.builds != processes
    case RequestsOpen => held.requests != requests
    case HitsOpen => held.hits != Sum(held.keys, KeyHits())
    case MissesOpen => held.misses != misses
    case FailuresOpen => held.failures != failed
    case Wide =>
      || !Counted(processes) || !Counted(requests) || !Counted(Sum(held.keys, KeyHits())) || !Counted(misses)
      || !Counted(failed)
    case _ => false
  }

  /** Checks that what is held accounts for every process, request, hit, miss and failed launch. */
  method CheckCloses(held: Holding) returns (refusal: Option<Refusal>)
    requires Totals(held)
    ensures refusal.None? <==> Closes(held)
    ensures refusal.Some? ==> AgainstInventory(refusal.value, held)
  {
    hide Sum;
    var keyed := SumUp(held.keys, KeyProcesses());
    var unkeyed := SumUp(held.unbound, UnboundProcesses());
    if keyed + unkeyed != held.builds { return Some(if IsCount(keyed + unkeyed) then ProcessesOpen else Wide); }
    keyed := SumUp(held.keys, KeyRequests());
    unkeyed := SumUp(held.unbound, UnboundRequests());
    if keyed + unkeyed != held.requests { return Some(if IsCount(keyed + unkeyed) then RequestsOpen else Wide); }
    keyed := SumUp(held.keys, KeyHits());
    if keyed != held.hits { return Some(if IsCount(keyed) then HitsOpen else Wide); }
    keyed := SumUp(held.keys, KeyMisses());
    unkeyed := SumUp(held.unbound, UnboundMisses());
    if keyed + unkeyed != held.misses { return Some(if IsCount(keyed + unkeyed) then MissesOpen else Wide); }
    keyed := SumUp(held.keys, KeyFailed());
    unkeyed := SumUp(held.unbound, UnboundFailed());
    if keyed + unkeyed != held.failures { return Some(if IsCount(keyed + unkeyed) then FailuresOpen else Wide); }
    return None;
  }

  // ---------------------------------------------------------------- modules

  /** A sealed module's counts are counts, the cache answered for just what it compiled, and what it ran is timed. */
  predicate ReadableSealed(sealed: Sealed) {
    && IsCount(sealed.compiles) && IsCount(sealed.instances)
    && (if sealed.compilation.Some? then ReadableCompilation(sealed.compilation.value, sealed.compiles)
        else sealed.compiles == 0)
    && (if sealed.executionNs.Some? then IsCount(sealed.executionNs.value) else sealed.instances == 0)
  }

  predicate ReadableCompilation(compilation: Compilation, compiles: int) {
    && IsCount(compilation.hits) && IsCount(compilation.misses) && IsCount(compilation.durationNs)
    && compilation.hits + compilation.misses == compiles
  }

  /** What some sealed modules add, beside requests. */
  function ModulesOf(modules: seq<Sealed>): Modules {
    if modules == [] then NO_MODULES
    else ModulesTogether(ModulesOf(modules[..|modules| - 1]), ModuleOf(modules[|modules| - 1]))
  }

  function ModuleOf(sealed: Sealed): Modules {
    var answered := if sealed.compilation.Some? then sealed.compilation.value else Compilation(0, 0, 0);
    Modules(0, sealed.compiles, sealed.instances, answered.hits, answered.misses, answered.durationNs,
            if sealed.executionNs.Some? then sealed.executionNs.value else 0)
  }

  lemma OneMoreModule(modules: seq<Sealed>, sealed: Sealed)
    ensures ModulesOf(modules + [sealed]) == ModulesTogether(ModulesOf(modules), ModuleOf(sealed))
  {
  }

  lemma {:induction false} ReadableModulesAdd(modules: seq<Sealed>)
    requires forall sealed | sealed in modules :: ReadableSealed(sealed)
    ensures var all := ModulesOf(modules);
            && all.requests == 0 && all.preparations == all.hits + all.misses
            && all.hits >= 0 && all.misses >= 0 && all.instances >= 0 && all.compileNs >= 0 && all.executionNs >= 0
  {
    if modules != [] {
      ReadableModulesAdd(modules[..|modules| - 1]);
      assert ReadableSealed(modules[|modules| - 1]);
    }
  }

  /** A module that compiled says what the cache answered, one that ran how long it took, and each is a count. */
  ghost predicate ModuleIsSaid(sealed: Sealed) {
    && Counted(sealed.compiles) && Counted(sealed.instances)
    && (sealed.compiles != 0 ==> sealed.compilation.Some?) && (sealed.instances != 0 ==> sealed.executionNs.Some?)
    && (sealed.executionNs.Some? ==> Counted(sealed.executionNs.value))
    && (sealed.compilation.Some? ==>
          var answered := sealed.compilation.value;
          && Counted(answered.hits) && Counted(answered.misses) && Counted(answered.durationNs)
          && answered.hits + answered.misses == sealed.compiles)
  }

  lemma SealedMeans(sealed: Sealed)
    ensures ReadableSealed(sealed) <==> ModuleIsSaid(sealed)
  {
  }

  /** What a refusal says of a module is so. */
  ghost predicate AgainstModule(refusal: Refusal, sealed: Sealed) {
    var answered := sealed.compilation;
    match refusal
    case NotACount =>
      || !Counted(sealed.compiles) || !Counted(sealed.instances)
      || (sealed.executionNs.Some? && !Counted(sealed.executionNs.value))
      || (answered.Some? && !(Counted(answered.value.hits) && Counted(answered.value.misses)
                              && Counted(answered.value.durationNs)))
    case Untimed => || (sealed.compiles != 0 && answered.None?) || (sealed.instances != 0 && sealed.executionNs.None?)
    case Wide => answered.Some? && !Counted(answered.value.hits + answered.value.misses)
    case ModulesOpen => answered.Some? && answered.value.hits + answered.value.misses != sealed.compiles
    case _ => false
  }

  ghost predicate AgainstModules(refusal: Refusal, modules: seq<Sealed>) {
    exists sealed :: sealed in modules && AgainstModule(refusal, sealed)
  }

  /** Adds one sealed module to those a test holds. */
  method TakeModule(into: Modules, sealed: Sealed) returns (taken: Result<Modules, Refusal>)
    ensures taken.Ok? <==> ReadableSealed(sealed)
    ensures taken.Ok? ==> taken.value == ModulesTogether(into, ModuleOf(sealed))
    ensures taken.Err? ==> AgainstModule(taken.error, sealed)
  {
    if !IsCount(sealed.compiles) || !IsCount(sealed.instances) { return Err(NotACount); }
    var all := into.(preparations := into.preparations + sealed.compiles,
        instances := into.instances + sealed.instances);
    if sealed.compiles != 0 && sealed.compilation.None? { return Err(Untimed); }
    if sealed.compilation.Some? {
      var answered := sealed.compilation.value;
      if !IsCount(answered.hits) || !IsCount(answered.misses) { return Err(NotACount); }
      if !IsCount(answered.hits + answered.misses) { return Err(Wide); }
      if answered.hits + answered.misses != sealed.compiles { return Err(ModulesOpen); }
      if !IsCount(answered.durationNs) { return Err(NotACount); }
      all := all.(hits := all.hits + answered.hits, misses := all.misses + answered.misses,
          compileNs := all.compileNs + answered.durationNs);
    }
    if sealed.executionNs.Some? {
      if !IsCount(sealed.executionNs.value) { return Err(NotACount); }
      all := all.(executionNs := all.executionNs + sealed.executionNs.value);
    } else if sealed.instances != 0 {
      return Err(Untimed);
    }
    return Ok(all);
  }

  /** Adds every module of a record to those a test holds. */
  method TakeModules(into: Modules, modules: seq<Sealed>) returns (taken: Result<Modules, Refusal>)
    ensures taken.Ok? <==> forall sealed | sealed in modules :: ReadableSealed(sealed)
    ensures taken.Ok? ==> taken.value == ModulesTogether(into, ModulesOf(modules))
    ensures taken.Err? ==> AgainstModules(taken.error, modules)
  {
    hide ReadableSealed, ModuleOf, AgainstModule;
    var all := into;
    for i := 0 to |modules|
      invariant forall sealed | sealed in modules[..i] :: ReadableSealed(sealed)
      invariant all == ModulesTogether(into, ModulesOf(modules[..i]))
    {
      var next := TakeModule(all, modules[i]);
      if next.Err? { return Err(next.error); }
      assert modules[..i + 1] == modules[..i] + [modules[i]];
      OneMoreModule(modules[..i], modules[i]);
      all := next.value;
    }
    assert modules[..|modules|] == modules;
    return Ok(all);
  }

  // ---------------------------------------------------------------- one record

  /** The sealed modules of a record: the platform's, and the bench's where it has one. */
  function SealedOf(record: Record): seq<Sealed> {
    record.platform + if record.bench.Some? then [record.bench.value] else []
  }

  /** What a record adds to its test; the modules of the bench count as requested. */
  function RowOf(record: Record): Row {
    var requests := record.platformRequests + if record.bench.Some? then record.bench.value.compiles else 0;
    Row(record.work, 1, ModulesOf(SealedOf(record)).(requests := requests))
  }

  /** What some sealed modules say of one of their counts, added up. */
  ghost function SaidBy(modules: seq<Sealed>, count: Count): int {
    if modules == [] then 0 else Said(modules[0], count) + SaidBy(modules[1..], count)
  }

  /** What one sealed module says: nothing of its cache or of what it ran where it does not. */
  ghost function Said(sealed: Sealed, count: Count): int {
    match count
    case Preparations => sealed.compiles
    case Instances => sealed.instances
    case ModuleHits => if sealed.compilation.Some? then sealed.compilation.value.hits else 0
    case ModuleMisses => if sealed.compilation.Some? then sealed.compilation.value.misses else 0
    case CompileNs => if sealed.compilation.Some? then sealed.compilation.value.durationNs else 0
    case ExecutionNs => if sealed.executionNs.Some? then sealed.executionNs.value else 0
    case _ => 0
  }

  lemma {:induction false} SaidOnceMore(modules: seq<Sealed>, last: Sealed, count: Count)
    ensures SaidBy(modules + [last], count) == SaidBy(modules, count) + Said(last, count)
  {
    if modules == [] {
      assert modules + [last] == [last] && [last][1..] == [];
    } else {
      assert (modules + [last])[1..] == modules[1..] + [last];
      SaidOnceMore(modules[1..], last, count);
    }
  }

  lemma {:induction false} ModulesSay(modules: seq<Sealed>, count: Count)
    ensures Held(EMPTY_ROW.(modules := ModulesOf(modules)), count) == SaidBy(modules, count)
  {
    if modules == [] {
      NothingIsNamed(count);
    } else {
      var init, last := modules[..|modules| - 1], modules[|modules| - 1];
      ModulesSay(init, count);
      SaidOnceMore(init, last, count);
      assert modules == init + [last];
    }
  }

  /**
   What a record adds: itself, its work's counts, what its modules say, and the modules it requested, the
   bench's among them.
   */
  lemma RecordAdds(record: Record, count: Count)
    ensures Held(RowOf(record), Records) == 1
    ensures Held(RowOf(record), ModuleRequests)
            == record.platformRequests + if record.bench.Some? then record.bench.value.compiles else 0
    ensures RowOf(record).held == record.work
    ensures count in {Preparations, Instances, ModuleHits, ModuleMisses, CompileNs, ExecutionNs} ==>
              Held(RowOf(record), count)
              == SaidBy(record.platform + if record.bench.Some? then [record.bench.value] else [], count)
  {
    ModulesSay(SealedOf(record), count);
    NothingIsNamed(count);
  }

  /** A record names at least one class of cargo command nothing observed, and none by an empty name. */
  predicate NamesUnobserved(record: Record) {
    record.unobserved != [] && "" !in record.unobserved
  }

  /**
   Whether a record can be taken into what its test holds: its work did not fail and can be read, and the
   test then fits the width, closes, and, where the suite must pass, has a role for every cargo process.
   */
  ghost predicate Takable(row: Row, record: Record, requirePass: bool) {
    && !record.failed && Readable(record.work) && IsCount(record.platformRequests) && NamesUnobserved(record)
    && (forall sealed | sealed in SealedOf(record) :: ReadableSealed(sealed))
    && var taken := RowsTogether(row, RowOf(record));
       RowFits(taken) && Closes(taken.held) && IsCount(Roles(taken.held)) && (requirePass ==> Covered(taken.held))
  }

  /** Some total is no count, or some key or identity is refused. */
  ghost predicate AgainstWork(refusal: Refusal, work: Holding) {
    || (refusal.NotACount? && !Totals(work)) || AgainstKeys(refusal, work.keys)
    || AgainstUnbounds(refusal, work.unbound)
  }

  /** Reads the work of a record into what its test holds. */
  method TakeWork(into: Holding, work: Holding) returns (taken: Result<Holding, Refusal>)
    ensures taken.Ok? <==> Readable(work)
    ensures taken.Ok? ==> taken.value == Together(into, work)
    ensures taken.Err? ==> AgainstWork(taken.error, work)
  {
    hide AgainstKeys, AgainstUnbounds, Join, ReadableKey, ReadableUnbound, KeyName, UnboundName;
    if !Totals(work) { return Err(NotACount); }
    var keys := TakeKeys(into.keys, work.keys);
    if keys.Err? { return Err(keys.error); }
    var unbound := TakeUnbound(into.unbound, work.unbound);
    if unbound.Err? { return Err(unbound.error); }
    return Ok(Holding(keys.value, unbound.value, into.builds + work.builds, into.requests + work.requests,
                      into.hits + work.hits, into.misses + work.misses, into.failures + work.failures,
                      CargoTogether(into.cargo, work.cargo), MeasuresTogether(into.measures, work.measures)));
  }

  /** What a refusal says of a record, or of what its test then holds, is so. */
  ghost predicate AgainstRecord(refusal: Refusal, row: Row, record: Record, requirePass: bool) {
    var held := Together(row.held, record.work);
    || AgainstWork(refusal, record.work) || AgainstInventory(refusal, held) || AgainstModules(refusal, SealedOf(record))
    || match refusal
       case WorkFailed => record.failed
       case NotACount => !Counted(record.platformRequests)
       case UnnamedUnobserved => record.unobserved == [] || "" in record.unobserved
       case StartsUncovered => requirePass && held.cargo.starts > Roles(held)
       case Wide => TooWide(row, record)
       case _ => false
  }

  /**
   The test with the record, with its modules or before them, or the roles it then holds, are more than can
   be counted.
   */
  ghost predicate TooWide(row: Row, record: Record) {
    var held := Together(row.held, record.work);
    var requests := row.modules.requests + record.platformRequests;
    || !Counted(Roles(held)) || !RowFits(RowsTogether(row, RowOf(record)))
    || !RowFits(Row(held, row.records + 1, row.modules.(requests := requests)))
  }

  /** Takes a record into what its test holds, exactly where it can be. */
  method TakeRow(row: Row, record: Record, requirePass: bool) returns (taken: Result<Row, Refusal>)
    requires ModulesFit(row.modules)
    ensures taken.Ok? <==> Takable(row, record, requirePass)
    ensures taken.Ok? ==> taken.value == RowsTogether(row, RowOf(record))
    ensures taken.Err? ==> AgainstRecord(taken.error, row, record, requirePass)
  {
    hide AgainstWork, AgainstInventory, AgainstModules;
    hide Readable, Closes, Together, Fits, ReadableSealed, ModulesOf;
    if record.failed { return Err(WorkFailed); }
    var work := TakeWork(row.held, record.work);
    if work.Err? { return Err(work.error); }
    if !IsCount(record.platformRequests) { return Err(NotACount); }
    if !NamesUnobserved(record) { return Err(UnnamedUnobserved); }
    var held := Row(work.value, row.records + 1,
                    row.modules.(requests := row.modules.requests + record.platformRequests));
    if !RowFits(held) {
      FitsBeforeModules(row, record, requirePass);
      return Err(Wide);
    }
    FitsMeansTotals(held.held);
    var open := CheckCloses(held.held);
    if open.Some? { return Err(open.value); }
    if !IsCount(Roles(held.held)) { return Err(Wide); }
    if requirePass && !Covered(held.held) { return Err(StartsUncovered); }
    if record.bench.Some? {
      assert record.bench.value == SealedOf(record)[|record.platform|];
      if !IsCount(record.bench.value.compiles) {
        BenchIsCounted(record);
        return Err(NotACount);
      }
      held := held.(modules := held.modules.(requests := held.modules.requests + record.bench.value.compiles));
    }
    var modules := TakeModules(held.modules, SealedOf(record));
    if modules.Err? { return Err(modules.error); }
    ReadableModulesAdd(SealedOf(record));
    held := held.(modules := modules.value);
    assert held == RowsTogether(row, RowOf(record));
    return if RowFits(held) then Ok(held) else Err(Wide);
  }

  lemma BenchIsCounted(record: Record)
    requires record.bench.Some? && record.bench.value in SealedOf(record) && !IsCount(record.bench.value.compiles)
    ensures exists sealed :: sealed in SealedOf(record) && !ReadableSealed(sealed)
    ensures AgainstModules(NotACount, SealedOf(record))
  {
    assert !ReadableSealed(record.bench.value) && AgainstModule(NotACount, record.bench.value);
  }

  /** What does not fit before the modules are added does not fit with them. */
  lemma FitsBeforeModules(row: Row, record: Record, requirePass: bool)
    requires ModulesFit(row.modules)
    ensures Takable(row, record, requirePass) ==>
              RowFits(Row(Together(row.held, record.work), row.records + 1,
                          row.modules.(requests := row.modules.requests + record.platformRequests)))
  {
    hide Readable, Closes, Together, Fits, ModulesOf;
    if record.bench.Some? {
      assert SealedOf(record)[|record.platform|] == record.bench.value;
      assert record.bench.value in SealedOf(record);
    }
  }

  // ---------------------------------------------------------------- all tests together

  /** What some of the tests hold together, in whatever order they are merged. */
  ghost function Whole(tests: map<Test, Row>, some: set<Test>): Row
    requires some <= tests.Keys
    decreases some
  {
    if exists test :: test in some then
      var test :| test in some;
      RowsTogether(Whole(tests, some - {test}), tests[test])
    else EMPTY_ROW
  }

  lemma RowsTogetherInAnyOrder(into: Row, one: Row, other: Row)
    ensures RowsTogether(RowsTogether(into, one), other) == RowsTogether(RowsTogether(into, other), one)
  {
    hide Together;
    TogetherInAnyOrder(into.held, one.held, other.held);
  }

  lemma {:induction false} WholeWithout(tests: map<Test, Row>, some: set<Test>, test: Test)
    requires some <= tests.Keys && test in some
    ensures Whole(tests, some) == RowsTogether(Whole(tests, some - {test}), tests[test])
    decreases some
  {
    hide RowsTogether;
    var last :| last in some && Whole(tests, some) == RowsTogether(Whole(tests, some - {last}), tests[last]);
    if last != test {
      WholeWithout(tests, some - {last}, test);
      WholeWithout(tests, some - {test}, last);
      assert some - {last} - {test} == some - {test} - {last};
      RowsTogetherInAnyOrder(Whole(tests, some - {last} - {test}), tests[test], tests[last]);
    }
  }

  ghost predicate AllClose(tests: map<Test, Row>) {
    forall test | test in tests :: Sound(tests[test].held) && Closes(tests[test].held)
  }

  /** Tests that close account together for everything each accounted for. */
  lemma {:induction false} WholeCloses(tests: map<Test, Row>, some: set<Test>)
    requires some <= tests.Keys && AllClose(tests)
    ensures Sound(Whole(tests, some).held) && Closes(Whole(tests, some).held)
    decreases some
  {
    hide Together, Sound, Closes;
    if test :| test in some {
      WholeWithout(tests, some, test);
      WholeCloses(tests, some - {test});
      TogetherIsSound(Whole(tests, some - {test}).held, tests[test].held);
      TogetherCloses(Whole(tests, some - {test}).held, tests[test].held);
    } else {
      NothingCloses();
    }
  }

  ghost predicate AllCovered(tests: map<Test, Row>) {
    forall test | test in tests :: Covered(tests[test].held)
  }

  /** Tests with a role for every cargo process have one for all of them together. */
  lemma {:induction false} WholeIsCovered(tests: map<Test, Row>, some: set<Test>)
    requires some <= tests.Keys && AllCovered(tests)
    ensures Covered(Whole(tests, some).held)
    decreases some
  {
    if test :| test in some {
      WholeWithout(tests, some, test);
      WholeIsCovered(tests, some - {test});
    }
  }

  function OfBinary(tests: set<Test>, binary: string): (of: set<Test>)
    ensures of <= tests
  {
    set test | test in tests && test.binary == binary
  }

  // ---------------------------------------------------------------- every count adds up

  /** One of the counts a row holds: by itself, of a key or an identity, or of a reason of one. */
  datatype Count =
    | Builds | Requests | Hits | Misses | Failures
    | Starts | Probes | Metadata
    | Units | BuildMs | ProbeMs | MetadataMs | RustcProbes | RustcProbeMs
    | Records
    | ModuleRequests | Preparations | Instances | ModuleHits | ModuleMisses | CompileNs | ExecutionNs
    | OfKey(key: string, part: Part) | KeyReason(key: string, reason: string)
    | KeyRefused(key: string, reason: string) | KeyCause(key: string, reason: string)
    | OfUnbound(key: string, part: Part) | UnboundCause(key: string, reason: string)

  datatype Part = TheRequests | TheHits | TheMisses | TheProcesses | TheFailed

  /** A count of a mapping: none where it names no such thing. */
  ghost function Entry(counts: map<string, int>, name: string): int {
    if name in counts then counts[name] else 0
  }

  ghost function KeyPart(work: KeyWork, part: Part): int {
    match part
    case TheRequests => work.requests
    case TheHits => work.hits
    case TheMisses => work.misses
    case TheProcesses => work.processes
    case TheFailed => work.failed
  }

  ghost function UnboundPart(work: UnboundWork, part: Part): int {
    match part
    case TheRequests => work.requests
    case TheHits => 0
    case TheMisses => work.misses
    case TheProcesses => work.processes
    case TheFailed => work.failed
  }

  /** What a row holds of a count; none of a key or an identity it does not name. */
  ghost function Held(row: Row, count: Count): int {
    match count
    case Builds => row.held.builds
    case Requests => row.held.requests
    case Hits => row.held.hits
    case Misses => row.held.misses
    case Failures => row.held.failures
    case Starts => row.held.cargo.starts
    case Probes => row.held.cargo.probes
    case Metadata => row.held.cargo.metadata
    case Units => row.held.measures.units
    case BuildMs => row.held.measures.buildMs
    case ProbeMs => row.held.measures.probeMs
    case MetadataMs => row.held.measures.metadataMs
    case RustcProbes => row.held.measures.rustcProbes
    case RustcProbeMs => row.held.measures.rustcProbeMs
    case Records => row.records
    case ModuleRequests => row.modules.requests
    case Preparations => row.modules.preparations
    case Instances => row.modules.instances
    case ModuleHits => row.modules.hits
    case ModuleMisses => row.modules.misses
    case CompileNs => row.modules.compileNs
    case ExecutionNs => row.modules.executionNs
    case OfKey(key, part) => if key in row.held.keys then KeyPart(row.held.keys[key], part) else 0
    case KeyReason(key, reason) => if key in row.held.keys then Entry(row.held.keys[key].reasons, reason) else 0
    case KeyRefused(key, reason) => if key in row.held.keys then Entry(row.held.keys[key].refused, reason) else 0
    case KeyCause(key, reason) => if key in row.held.keys then Entry(row.held.keys[key].causes, reason) else 0
    case OfUnbound(key, part) => if key in row.held.unbound then UnboundPart(row.held.unbound[key], part) else 0
    case UnboundCause(key, reason) => if key in row.held.unbound then Entry(row.held.unbound[key].causes, reason) else 0
  }

  /** Whether a row names the key, the identity or the reason a count is of. */
  ghost predicate Names(row: Row, count: Count) {
    match count
    case OfKey(key, _) => key in row.held.keys
    case KeyReason(key, reason) => key in row.held.keys && reason in row.held.keys[key].reasons
    case KeyRefused(key, reason) => key in row.held.keys && reason in row.held.keys[key].refused
    case KeyCause(key, reason) => key in row.held.keys && reason in row.held.keys[key].causes
    case OfUnbound(key, _) => key in row.held.unbound
    case UnboundCause(key, reason) => key in row.held.unbound && reason in row.held.unbound[key].causes
    case _ => false
  }

  ghost function HeldOf(count: Count): Row -> int {
    (row: Row) => Held(row, count)
  }

  /** A key of either mapping is one of both joined, with what each holds of it added. */
  lemma JoinedAt<V>(one: map<string, V>, other: map<string, V>, plus: (V, V) -> V, key: string)
    ensures var joined := Join(one, other, plus);
            && (key in joined <==> key in one || key in other)
            && (key in one && key !in other ==> joined[key] == one[key])
            && (key !in one && key in other ==> joined[key] == other[key])
            && (key in one && key in other ==> joined[key] == plus(one[key], other[key]))
  {
  }

  lemma KeyRowsAddUp(into: KeyWork, held: KeyWork, reason: string)
    ensures Entry(MergedKey(into, held).reasons, reason) == Entry(into.reasons, reason) + Entry(held.reasons, reason)
    ensures Entry(MergedKey(into, held).refused, reason) == Entry(into.refused, reason) + Entry(held.refused, reason)
    ensures Entry(MergedKey(into, held).causes, reason) == Entry(into.causes, reason) + Entry(held.causes, reason)
  {
  }

  lemma UnboundRowsAddUp(into: UnboundWork, held: UnboundWork, reason: string)
    ensures Entry(MergedUnbound(into, held).causes, reason) == Entry(into.causes, reason) + Entry(held.causes, reason)
  {
  }

  /** Two rows hold together of every count what each holds. */
  lemma RowsAddUp(into: Row, row: Row, count: Count)
    ensures Held(RowsTogether(into, row), count) == Held(into, count) + Held(row, count)
  {
    hide Join, Entry;
    var keys, identities := into.held.keys, into.held.unbound;
    match count
    case OfKey(key, _) =>
      JoinedAt(keys, row.held.keys, PlusKey(), key);
    case KeyReason(key, reason) =>
      JoinedAt(keys, row.held.keys, PlusKey(), key);
      if key in keys && key in row.held.keys { KeyRowsAddUp(keys[key], row.held.keys[key], reason); }
    case KeyRefused(key, reason) =>
      JoinedAt(keys, row.held.keys, PlusKey(), key);
      if key in keys && key in row.held.keys { KeyRowsAddUp(keys[key], row.held.keys[key], reason); }
    case KeyCause(key, reason) =>
      JoinedAt(keys, row.held.keys, PlusKey(), key);
      if key in keys && key in row.held.keys { KeyRowsAddUp(keys[key], row.held.keys[key], reason); }
    case OfUnbound(key, _) =>
      JoinedAt(identities, row.held.unbound, PlusUnbound(), key);
    case UnboundCause(key, reason) =>
      JoinedAt(identities, row.held.unbound, PlusUnbound(), key);
      if key in identities && key in row.held.unbound {
        UnboundRowsAddUp(identities[key], row.held.unbound[key], reason);
      }
    case _ =>
  }

  /** And they name what either names. */
  lemma RowsNameTogether(into: Row, row: Row, count: Count)
    ensures Names(RowsTogether(into, row), count) <==> Names(into, count) || Names(row, count)
  {
  }

  /**
   Whatever tests are taken together, every count is the sum of theirs, and what is named is what one of
   them names.
   */
  lemma {:induction false} WholeAddsUp(tests: map<Test, Row>, some: set<Test>, count: Count)
    requires some <= tests.Keys
    ensures Held(Whole(tests, some), count) == SumOver(tests, some, HeldOf(count))
    ensures Names(Whole(tests, some), count) <==> exists test :: test in some && Names(tests[test], count)
    decreases some
  {
    hide Held, Names, RowsTogether;
    if test :| test in some {
      var rest := some - {test};
      WholeWithout(tests, some, test);
      SumWithout(tests, some, HeldOf(count), test);
      WholeAddsUp(tests, rest, count);
      RowsAddUp(Whole(tests, rest), tests[test], count);
      RowsNameTogether(Whole(tests, rest), tests[test], count);
    } else {
      NothingIsNamed(count);
    }
  }

  lemma NothingIsNamed(count: Count)
    ensures Held(EMPTY_ROW, count) == 0 && !Names(EMPTY_ROW, count)
  {
  }

  /** A row fits exactly where every count it holds is one that 64 bits can count. */
  lemma FittingMeans(row: Row)
    ensures RowFits(row) <==> forall count :: Counted(Held(row, count))
  {
    hide Held;
    if RowFits(row) {
      forall count ensures Counted(Held(row, count)) { FitsEach(row, count); }
    }
    if forall count :: Counted(Held(row, count)) { EachFits(row); }
  }

  lemma FitsEach(row: Row, count: Count)
    requires RowFits(row)
    ensures Counted(Held(row, count))
  {
    match count
    case OfKey(key, part) => if key in row.held.keys { assert KeyFits(row.held.keys[key]); }
    case KeyReason(key, _) => if key in row.held.keys { assert KeyFits(row.held.keys[key]); }
    case KeyRefused(key, _) => if key in row.held.keys { assert KeyFits(row.held.keys[key]); }
    case KeyCause(key, _) => if key in row.held.keys { assert KeyFits(row.held.keys[key]); }
    case OfUnbound(key, part) => if key in row.held.unbound { assert UnboundFits(row.held.unbound[key]); }
    case UnboundCause(key, _) => if key in row.held.unbound { assert UnboundFits(row.held.unbound[key]); }
    case _ =>
  }

  lemma EachFits(row: Row)
    requires forall count :: Counted(Held(row, count))
    ensures RowFits(row)
  {
    forall key | key in row.held.keys ensures KeyFits(row.held.keys[key]) { EachFitsKey(row, key); }
    forall key | key in row.held.unbound ensures UnboundFits(row.held.unbound[key]) { EachFitsUnbound(row, key); }
    EachFitsTotals(row);
  }

  lemma EachFitsTotals(row: Row)
    requires forall count :: Counted(Held(row, count))
    ensures Totals(row.held) && IsCount(row.records) && ModulesFit(row.modules)
  {
    assert Counted(Held(row, Builds)) && Counted(Held(row, Requests)) && Counted(Held(row, Hits));
    assert Counted(Held(row, Misses)) && Counted(Held(row, Failures)) && Counted(Held(row, Records));
    assert Counted(Held(row, Starts)) && Counted(Held(row, Probes)) && Counted(Held(row, Metadata));
    assert Counted(Held(row, Units)) && Counted(Held(row, BuildMs)) && Counted(Held(row, ProbeMs));
    assert Counted(Held(row, MetadataMs)) && Counted(Held(row, RustcProbes)) && Counted(Held(row, RustcProbeMs));
    assert Counted(Held(row, ModuleRequests)) && Counted(Held(row, Preparations)) && Counted(Held(row, Instances));
    assert Counted(Held(row, ModuleHits)) && Counted(Held(row, ModuleMisses)) && Counted(Held(row, CompileNs));
    assert Counted(Held(row, ExecutionNs));
  }

  lemma EachFitsKey(row: Row, key: string)
    requires key in row.held.keys && forall count :: Counted(Held(row, count))
    ensures KeyFits(row.held.keys[key])
  {
    var work := row.held.keys[key];
    forall part: Part ensures Counted(KeyPart(work, part)) { assert Counted(Held(row, OfKey(key, part))); }
    assert Counted(KeyPart(work, TheRequests)) && Counted(KeyPart(work, TheHits)) && Counted(KeyPart(work, TheMisses));
    assert Counted(KeyPart(work, TheProcesses)) && Counted(KeyPart(work, TheFailed));
    forall reason | reason in work.reasons ensures IsCount(work.reasons[reason]) {
      assert Counted(Held(row, KeyReason(key, reason)));
    }
    forall reason | reason in work.refused ensures IsCount(work.refused[reason]) {
      assert Counted(Held(row, KeyRefused(key, reason)));
    }
    forall reason | reason in work.causes ensures IsCount(work.causes[reason]) {
      assert Counted(Held(row, KeyCause(key, reason)));
    }
  }

  lemma EachFitsUnbound(row: Row, key: string)
    requires key in row.held.unbound && forall count :: Counted(Held(row, count))
    ensures UnboundFits(row.held.unbound[key])
  {
    var work := row.held.unbound[key];
    forall part: Part ensures Counted(UnboundPart(work, part)) { assert Counted(Held(row, OfUnbound(key, part))); }
    assert Counted(UnboundPart(work, TheRequests)) && Counted(UnboundPart(work, TheMisses));
    assert Counted(UnboundPart(work, TheProcesses)) && Counted(UnboundPart(work, TheFailed));
    forall reason | reason in work.causes ensures IsCount(work.causes[reason]) {
      assert Counted(Held(row, UnboundCause(key, reason)));
    }
  }

  /** Starts are covered where no more were seen than processes attributed, probes and askings for metadata. */
  lemma CoverageMeans(row: Row)
    ensures Covered(row.held) <==> Held(row, Starts) - Held(row, Probes) - Held(row, Metadata) <= Held(row, Builds)
    ensures Roles(row.held) == Held(row, Builds) + Held(row, Probes) + Held(row, Metadata)
  {
  }

  /** Unobserved commands are named where there is one, and each by some text. */
  lemma UnobservedMeans(record: Record)
    ensures NamesUnobserved(record) <==>
            |record.unobserved| > 0 && forall i | 0 <= i < |record.unobserved| :: |record.unobserved[i]| > 0
  {
  }

  // ---------------------------------------------------------------- redundancy

  function ColdReasons(reasons: map<string, int>): (cold: set<string>)
    ensures cold <= reasons.Keys
  {
    set reason | reason in reasons && "cold:" <= reason
  }

  lemma ColdReasonsMean(reasons: map<string, int>, reason: string)
    ensures reason in ColdReasons(reasons) <==> reason in reasons && exists what :: reason == "cold:" + what
  {
    if "cold:" <= reason { assert reason == "cold:" + reason[5..]; }
  }

  /** How often one key was built cold. */
  ghost function Cold(work: KeyWork): int {
    SumOver(work.reasons, ColdReasons(work.reasons), Itself())
  }

  ghost function ColdIn(key: string): Row -> int {
    (row: Row) => if key in row.held.keys then Cold(row.held.keys[key]) else 0
  }

  lemma ColdAddsUp(into: KeyWork, held: KeyWork)
    ensures Cold(MergedKey(into, held)) == Cold(into) + Cold(held)
  {
    var joined := Join(into.reasons, held.reasons, Added());
    JoinAddsUpOver(into.reasons, held.reasons, Added(), ColdReasons(joined), Itself());
    assert ColdReasons(joined) * into.reasons.Keys == ColdReasons(into.reasons);
    assert ColdReasons(joined) * held.reasons.Keys == ColdReasons(held.reasons);
  }

  /** A key was built cold in the suite as often as the tests built it cold, however it is spread over them. */
  lemma {:induction false} ColdAcrossTests(tests: map<Test, Row>, some: set<Test>, key: string)
    requires some <= tests.Keys
    ensures ColdIn(key)(Whole(tests, some)) == SumOver(tests, some, ColdIn(key))
    decreases some
  {
    hide Cold;
    if test :| test in some {
      WholeWithout(tests, some, test);
      SumWithout(tests, some, ColdIn(key), test);
      ColdAcrossTests(tests, some - {test}, key);
      var before := Whole(tests, some - {test}).held;
      if key in before.keys && key in tests[test].held.keys {
        ColdAddsUp(before.keys[key], tests[test].held.keys[key]);
      }
    }
  }

  /** The keys the tests built cold twice or more between them. */
  ghost function BuiltColdTwice(tests: map<Test, Row>): set<string> {
    set test, key | test in tests && key in tests[test].held.keys && SumOver(tests, tests.Keys, ColdIn(key)) >= 2 :: key
  }

  lemma {:induction false} KeysOfTests(tests: map<Test, Row>, some: set<Test>, key: string)
    requires some <= tests.Keys
    ensures key in Whole(tests, some).held.keys <==> exists test :: test in some && key in tests[test].held.keys
    decreases some
  {
    if test :| test in some {
      WholeWithout(tests, some, test);
      KeysOfTests(tests, some - {test}, key);
    }
  }

  /** What is redundant in the suite is what the tests built cold twice or more. */
  lemma RedundantMeansBuiltTwice(tests: map<Test, Row>)
    ensures var inventory := Whole(tests, tests.Keys).held.keys;
            (set key | key in inventory && Cold(inventory[key]) >= 2) == BuiltColdTwice(tests)
  {
    hide Cold, SumOver, RowsTogether;
    var suite := Whole(tests, tests.Keys);
    forall key ensures key in suite.held.keys && Cold(suite.held.keys[key]) >= 2 <==> key in BuiltColdTwice(tests) {
      KeysOfTests(tests, tests.Keys, key);
      ColdAcrossTests(tests, tests.Keys, key);
    }
  }

  lemma {:induction false} PartOfCounts(counts: map<string, int>, some: set<string>, all: set<string>)
    requires some <= all <= counts.Keys && CountsFit(counts)
    ensures 0 <= SumOver(counts, some, Itself()) <= SumOver(counts, all, Itself())
    decreases all
  {
    if key :| key in all {
      SumWithout(counts, all, Itself(), key);
      if key in some {
        SumWithout(counts, some, Itself(), key);
        PartOfCounts(counts, some - {key}, all - {key});
      } else {
        PartOfCounts(counts, some, all - {key});
      }
    }
  }

  /** Finds the keys built cold twice or more; over closed work within the width no sum is refused. */
  method Redundancies(inventory: map<string, KeyWork>) returns (found: Result<set<string>, Refusal>)
    ensures found.Ok? ==> found.value == set key | key in inventory && Cold(inventory[key]) >= 2
    ensures (forall key | key in inventory :: KeyFits(inventory[key]) && ClosedKey(inventory[key])) ==> found.Ok?
  {
    hide SumOver, Cold, ClosedKey, KeyFits;
    var keys: set<string> := {};
    var rest, done: set<string> := inventory.Keys, {};
    while exists key :: key in rest
      invariant rest + done == inventory.Keys && rest !! done
      invariant keys == set key | key in done && Cold(inventory[key]) >= 2
      decreases rest
    {
      var key :| key in rest;
      if KeyFits(inventory[key]) { ClosedColdFits(inventory[key]); }
      var cold := SummedOver(inventory[key].reasons, ColdReasons(inventory[key].reasons), Itself());
      if cold.None? { return Err(Wide); }
      assert cold.value == Cold(inventory[key]) by { ColdIs(inventory[key]); }
      if cold.value >= 2 {
        var refused := SummedOver(inventory[key].refused, inventory[key].refused.Keys, Itself());
        if refused.None? { return Err(Wide); }
        keys := keys + {key};
      }
      rest, done := rest - {key}, done + {key};
    }
    assert done == inventory.Keys;
    return Ok(keys);
  }

  lemma ColdIs(work: KeyWork)
    ensures Cold(work) == SumOver(work.reasons, ColdReasons(work.reasons), Itself())
  {
  }

  lemma ClosedColdFits(work: KeyWork)
    requires KeyFits(work)
    ensures ClosedKey(work) ==> IsCount(SumOver(work.reasons, ColdReasons(work.reasons), Itself()))
    ensures ClosedKey(work) ==> IsCount(SumOver(work.refused, work.refused.Keys, Itself()))
  {
    hide SumOver;
    PartOfCounts(work.reasons, ColdReasons(work.reasons), work.reasons.Keys);
    PartOfCounts(work.refused, work.refused.Keys, work.refused.Keys);
  }

  // ---------------------------------------------------------------- the ledger

  /** Where the cargo processes seen to start are more than those with a role. */
  datatype Gap = OfTest(test: Test) | OfSuite

  /** Some test prepared more modules than were requested. */
  ghost predicate Overprepared(tests: map<Test, Row>) {
    exists test :: test in tests && tests[test].modules.preparations > tests[test].modules.requests
  }

  /** The suite, its binaries and the sum of the suite's roles stay inside the width. */
  ghost predicate AllFit(suite: Row, binaries: map<string, Row>) {
    RowFits(suite) && IsCount(Roles(suite.held)) && forall binary | binary in binaries :: RowFits(binaries[binary])
  }

  /** The suite's ledger: what each test holds, and once closed what each binary and the suite hold. */
  class Ledger {
    const requirePass: bool
    var tests: map<Test, Row>
    var binaries: map<string, Row>
    var suite: Row
    var gaps: seq<Gap>
    var unobserved: set<string>

    ghost predicate Valid()
      reads this
    {
      && AllClose(tests) && (forall test | test in tests :: RowFits(tests[test]))
      && (requirePass ==> gaps == []) && (gaps == [] ==> AllCovered(tests))
    }

    constructor (inventory: set<Test>, requirePass: bool)
      ensures Valid() && this.requirePass == requirePass && tests.Keys == inventory
      ensures binaries == map[] && suite == EMPTY_ROW && gaps == [] && unobserved == {}
      ensures forall test | test in inventory :: tests[test] == EMPTY_ROW
    {
      hide Sound, Closes;
      this.requirePass := requirePass;
      tests, binaries, suite := map test | test in inventory :: EMPTY_ROW, map[], EMPTY_ROW;
      gaps, unobserved := [], {};
      new;
      NothingCloses();
    }

    /**
     Takes one record into its test: exactly a record of a test of the suite that can be taken is; what the
     product itself recorded is passed over.
     */
    method Take(record: Record) returns (refusal: Option<Refusal>)
      requires Valid()
      modifies this`tests, this`gaps, this`unobserved
      ensures Valid()
      ensures refusal.None? <==>
              && record.schema == Current
              && (record.product
                  || (record.test in old(tests) && Takable(old(tests)[record.test], record, requirePass)))
      ensures refusal.Some? ==>
                || (refusal.value == UnknownSchema && record.schema != Current)
                || (refusal.value == UnknownTest && record.test !in old(tests))
                || (record.test in old(tests)
                    && AgainstRecord(refusal.value, old(tests)[record.test], record, requirePass))
      ensures tests == if refusal.None? && !record.product
                       then old(tests)[record.test := RowsTogether(old(tests)[record.test], RowOf(record))]
                       else old(tests)
      ensures refusal.None? && !record.product ==>
                forall count :: Held(tests[record.test], count)
                                == old(Held(tests[record.test], count)) + Held(RowOf(record), count)
      ensures gaps == old(gaps) + if refusal.None? && !record.product && !Covered(tests[record.test].held)
              then [OfTest(record.test)] else []
      ensures unobserved == old(unobserved) + if refusal.None? && !record.product
              then (set name | name in record.unobserved) else {}
    {
      hide AgainstRecord, Takable, RowsTogether, RowOf, Closes, Sound, Fits, Held;
      if record.schema != Current { return Some(UnknownSchema); }
      if record.product { return None; }
      if record.test !in tests { return Some(UnknownTest); }
      var row := tests[record.test];
      var taken := TakeRow(row, record, requirePass);
      if taken.Err? { return Some(taken.error); }
      TakenIsSound(row, record, requirePass);
      tests := tests[record.test := taken.value];
      forall count ensures Held(taken.value, count) == Held(row, count) + Held(RowOf(record), count) {
        RowsAddUp(row, RowOf(record), count);
      }
      if !Covered(taken.value.held) { gaps := gaps + [OfTest(record.test)]; }
      unobserved := unobserved + set name | name in record.unobserved;
      return None;
    }

    /**
     Merges every test into its binary and the suite.  With the tests closed nothing is left to refuse but a
     count too wide and, where the suite must pass, modules prepared unrequested and keys the tests built
     cold twice or more between them; and no gap is found that a record did not already show.
     */
    method Close() returns (redundant: Result<set<string>, Refusal>)
      requires Valid()
      modifies this`binaries, this`suite, this`gaps
      ensures Valid() && gaps == old(gaps)
      ensures redundant == Err(Unrequested) <==> requirePass && Overprepared(tests)
      ensures redundant != Err(Unrequested) ==>
                suite == Whole(tests, tests.Keys) && Sound(suite.held) && Closes(suite.held)
                    && (requirePass ==> Covered(suite.held))
      ensures redundant != Err(Unrequested) ==>
                forall count ::
                  Held(suite, count) == SumOver(tests, tests.Keys, HeldOf(count))
                  && forall binary | binary in binaries ::
                       Held(binaries[binary], count) == SumOver(tests, OfBinary(tests.Keys, binary), HeldOf(count))
      ensures redundant != Err(Unrequested) ==>
                && (forall binary :: binary in binaries <==> exists test :: test in tests && test.binary == binary)
                && forall binary | binary in binaries ::
                     binaries[binary] == Whole(tests, OfBinary(tests.Keys, binary)) && Sound(binaries[binary].held)
                         && Closes(binaries[binary].held)
      ensures redundant != Err(Unrequested) ==>
                redundant == if !AllFit(suite, binaries) then Err(Wide)
                             else if requirePass && BuiltColdTwice(tests) != {} then Err(Redundant)
                               else Ok(BuiltColdTwice(tests))
    {
      hide RowsTogether, Sound, Closes, RowFits, OfBinary, Covered, AllClose, AllCovered, BuiltColdTwice, Cold, Held;
      var over := Merge();
      if over { return Err(Unrequested); }
      WholeCloses(tests, tests.Keys);
      if requirePass || gaps == [] { WholeIsCovered(tests, tests.Keys); }
      forall binary | binary in binaries ensures Sound(binaries[binary].held) && Closes(binaries[binary].held) {
        WholeCloses(tests, OfBinary(tests.Keys, binary));
      }
      forall count ensures Held(suite, count) == SumOver(tests, tests.Keys, HeldOf(count)) {
        WholeAddsUp(tests, tests.Keys, count);
      }
      forall count, binary | binary in binaries
        ensures Held(binaries[binary], count) == SumOver(tests, OfBinary(tests.Keys, binary), HeldOf(count))
      {
        WholeAddsUp(tests, OfBinary(tests.Keys, binary), count);
      }
      if exists binary | binary in binaries :: !RowFits(binaries[binary]) { return Err(Wide); }
      if !RowFits(suite) { return Err(Wide); }
      RowFitsMeans(suite);
      var open, found := CheckSuite(suite.held, gaps);
      if open.Some? { return Err(open.value); }
      gaps := found;
      SoundKeysClose(suite.held);
      redundant := Redundancies(suite.held.keys);
      RedundantMeansBuiltTwice(tests);
      if requirePass && redundant.Ok? && redundant.value != {} { return Err(Redundant); }
    }

    /** Merges every test, stopping where the suite must pass and one prepared more modules than were requested. */
    method Merge() returns (over: bool)
      modifies this`binaries, this`suite
      ensures over <==> requirePass && Overprepared(tests)
      ensures !over ==> suite == Whole(tests, tests.Keys)
      ensures !over ==> forall binary :: binary in binaries <==> exists test :: test in tests && test.binary == binary
      ensures !over ==> forall binary | binary in binaries ::
              binaries[binary] == Whole(tests, OfBinary(tests.Keys, binary))
    {
      hide RowsTogether, OfBinary;
      binaries, suite := map[], EMPTY_ROW;
      var rest, done: set<Test> := tests.Keys, {};
      while exists test :: test in rest
        invariant rest + done == tests.Keys && rest !! done
        invariant suite == Whole(tests, done)
        invariant forall binary :: binary in binaries <==> exists test :: test in done && test.binary == binary
        invariant forall binary | binary in binaries :: binaries[binary] == Whole(tests, OfBinary(done, binary))
        invariant requirePass ==> forall test | test in done ::
                  tests[test].modules.preparations <= tests[test].modules.requests
        decreases rest
      {
        var test :| test in rest;
        if requirePass && tests[test].modules.preparations > tests[test].modules.requests { return true; }
        MergesTest(tests, done, test, binaries);
        var binary := test.binary;
        binaries := binaries[binary := RowsTogether(if binary in binaries then binaries[binary] else EMPTY_ROW,
            tests[test])];
        suite := RowsTogether(suite, tests[test]);
        rest, done := rest - {test}, done + {test};
      }
      assert done == tests.Keys;
      return false;
    }
  }

  lemma FitsMeansTotals(held: Holding)
    requires Fits(held)
    ensures Totals(held)
  {
  }

  lemma RowFitsMeans(row: Row)
    requires RowFits(row)
    ensures Totals(row.held) && forall key | key in row.held.keys :: KeyFits(row.held.keys[key])
  {
  }

  lemma SoundKeysClose(held: Holding)
    requires Sound(held)
    ensures forall key | key in held.keys :: ClosedKey(held.keys[key])
  {
  }

  /** A test that takes a record stays sound and closed, and within the width. */
  lemma TakenIsSound(row: Row, record: Record, requirePass: bool)
    requires Sound(row.held) && Takable(row, record, requirePass)
    ensures var taken := RowsTogether(row, RowOf(record));
            Sound(taken.held) && Closes(taken.held) && RowFits(taken) && (requirePass ==> Covered(taken.held))
  {
    hide Closes, RowFits;
    TogetherIsSound(row.held, record.work);
  }

  /** Merging one more test into its binary and the suite. */
  lemma MergesTest(tests: map<Test, Row>, done: set<Test>, test: Test, binaries: map<string, Row>)
    requires done <= tests.Keys && test in tests && test !in done
    ensures Whole(tests, done + {test}) == RowsTogether(Whole(tests, done), tests[test])
    ensures Whole(tests, OfBinary(done + {test}, test.binary))
            == RowsTogether(Whole(tests, OfBinary(done, test.binary)), tests[test])
    ensures forall binary | binary != test.binary :: OfBinary(done + {test}, binary) == OfBinary(done, binary)
    ensures (forall other | other in done :: other.binary != test.binary) ==>
              Whole(tests, OfBinary(done, test.binary)) == EMPTY_ROW
  {
    hide RowsTogether;
    WholeWithout(tests, done + {test}, test);
    assert done + {test} - {test} == done;
    var of := OfBinary(done + {test}, test.binary);
    WholeWithout(tests, of, test);
    assert of - {test} == OfBinary(done, test.binary);
  }

  /**
   The checks of the suite itself: its processes and failed launches close, and every cargo process has a
   role or some gap says so.
   */
  method CheckSuite(suite: Holding, gaps: seq<Gap>) returns (refusal: Option<Refusal>, found: seq<Gap>)
    requires Totals(suite)
    ensures Closes(suite) ==> refusal == if IsCount(Roles(suite)) then None else Some(Wide)
    ensures refusal.None? ==> found == gaps + if gaps == [] && !Covered(suite) then [OfSuite] else []
  {
    hide Sum;
    found := gaps;
    var keyed := SumUp(suite.keys, KeyProcesses());
    var unkeyed := SumUp(suite.unbound, UnboundProcesses());
    if !IsCount(keyed + unkeyed) { return Some(Wide), gaps; }
    if keyed + unkeyed != suite.builds { return Some(ProcessesOpen), gaps; }
    keyed := SumUp(suite.keys, KeyFailed());
    unkeyed := SumUp(suite.unbound, UnboundFailed());
    if !IsCount(keyed + unkeyed) { return Some(Wide), gaps; }
    if keyed + unkeyed != suite.failures { return Some(FailuresOpen), gaps; }
    if !IsCount(Roles(suite)) { return Some(Wide), gaps; }
    if !Covered(suite) && gaps == [] { found := gaps + [OfSuite]; }
    return None, found;
  }
}
