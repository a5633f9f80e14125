/**
 The conditions an item is compiled under: a three-valued reading of `cfg` predicates, the
 flattening of nested `cfg_attr` into guarded constraints, and the pruned search for an
 assignment that satisfies them.  The specification is classical: an assignment is the set of
 the atoms that hold, and a scope is possible when some assignment satisfies every constraint.
 */
module CfgConditions {

  /** What a partial assignment says of a condition. */
  datatype Truth = Always | Never | Variable

  /** Whether test-only configuration is open, or closed as in a production build. */
  datatype World = Any | Production

  /** The right-hand side of a name-value predicate: a string literal, or anything else as it prints. */
  datatype Value = Text(text: string) | Other(printed: string)

  /** A list's tokens read as metas separated by commas, with whether a comma trails. */
  datatype Parsed = Opaque | Arguments(metas: seq<Meta>, trailing: bool)

  /** One attribute or predicate; `rooted` is a path that begins with `::`. */
  datatype Meta =
    | Path(rooted: bool, path: seq<string>)
    | NameValue(rooted: bool, path: seq<string>, value: Value)
    | List(rooted: bool, path: seq<string>, tokens: string, parsed: Parsed)

  /** The text an atom is told apart by; the three prefixes keep the three kinds apart. */
  datatype Key =
    | PathKey(path: seq<string>)
    | ValueKey(path: seq<string>, value: string)
    | ListKey(path: seq<string>, tokens: string)

  /** How a predicate combines others; anything that does not is an atom. */
  datatype Shape = All(every: seq<Meta>) | OneOf(some: seq<Meta>) | Not(negated: Meta) | Atom

  predicate Named(meta: Meta, name: string) {
    !meta.rooted && meta.path == [name]
  }

  function ShapeOf(meta: Meta): (shape: Shape)
    ensures shape.All? ==> forall one | one in shape.every :: one < meta
    ensures shape.OneOf? ==> forall one | one in shape.some :: one < meta
    ensures shape.Not? ==> shape.negated < meta
  {
    if !meta.List? || meta.parsed.Opaque? then Atom
    else if Named(meta, "all") then All(meta.parsed.metas)
    else if Named(meta, "any") then OneOf(meta.parsed.metas)
    else if Named(meta, "not") && |meta.parsed.metas| == 1 then Not(meta.parsed.metas[0])
    else Atom
  }

  function KeyOf(meta: Meta): Key {
    match meta
    case Path(_, path) => PathKey(path)
    case NameValue(_, path, Text(text)) => ValueKey(path, text)
    case NameValue(_, path, Other(printed)) => ValueKey(path, printed)
    case List(_, path, tokens, _) => ListKey(path, tokens)
  }

  /** Whether a production build settles `meta` as never holding. */
  predicate Closed(meta: Meta, world: World) {
    && world.Production?
    && (|| (meta.Path? && Named(meta, "test"))
        || (meta.NameValue? && Named(meta, "feature") && meta.value == Text("testkit")))
  }

  // ---------------------------------------------------------------- three-valued truth

  function AtomicTruth(meta: Meta, values: map<Key, bool>, world: World): Truth {
    if Closed(meta, world) then Never
    else if KeyOf(meta) !in values then Variable
    else if values[KeyOf(meta)] then Always
    else Never
  }

  function TruthOf(meta: Meta, values: map<Key, bool>, world: World): Truth
    decreases meta
  {
    match ShapeOf(meta)
    case Atom => AtomicTruth(meta, values, world)
    case All(every) =>
      if exists one | one in every :: TruthOf(one, values, world) == Never then Never
      else if exists one | one in every :: TruthOf(one, values, world) == Variable then Variable
      else Always
    case OneOf(some) =>
      if exists one | one in some :: TruthOf(one, values, world) == Always then Always
      else if exists one | one in some :: TruthOf(one, values, world) == Variable then Variable
      else Never
    case Not(negated) =>
      match TruthOf(negated, values, world)
      case Always => Never
      case Never => Always
      case Variable => Variable
  }

  /** The loops that decide a condition come to its three-valued truth. */
  method CfgTruth(meta: Meta, values: map<Key, bool>, world: World) returns (truth: Truth)
    ensures truth == TruthOf(meta, values, world)
    decreases meta
  {
    var shape := ShapeOf(meta);
    match shape {
      case Atom =>
        truth := AtomicTruth(meta, values, world);
      case All(every) =>
        var broken, variable := CfgTruthOfEach(meta, every, Never, values, world);
        truth := if broken then Never else if variable then Variable else Always;
      case OneOf(some) =>
        var met, variable := CfgTruthOfEach(meta, some, Always, values, world);
        truth := if met then Always else if variable then Variable else Never;
      case Not(negated) =>
        var argument := CfgTruth(negated, values, world);
        truth := match argument case Always => Never case Never => Always case Variable => Variable;
    }
  }

  /** Reads the arguments in turn until one is `decides`; where none is, says whether one is not settled. */
  method CfgTruthOfEach(ghost whole: Meta, metas: seq<Meta>, decides: Truth, values: map<Key, bool>, world: World)
      returns (decided: bool, variable: bool)
    requires forall one | one in metas :: one < whole
    requires decides != Variable
    ensures decided <==> exists one | one in metas :: TruthOf(one, values, world) == decides
    ensures !decided ==> (variable <==> exists one | one in metas :: TruthOf(one, values, world) == Variable)
    decreases whole, 0
  {
    variable := false;
    for i := 0 to |metas|
      invariant forall one | one in metas[..i] :: TruthOf(one, values, world) != decides
      invariant variable <==> exists one | one in metas[..i] :: TruthOf(one, values, world) == Variable
    {
      assert metas[..i + 1] == metas[..i] + [metas[i]];
      assert metas[i] in metas;
      var argument := CfgTruth(metas[i], values, world);
      if argument == decides {
        return true, variable;
      }
      if argument == Variable {
        variable := true;
      }
    }
    assert metas[..|metas|] == metas;
    decided := false;
  }

  /** The atoms a condition's truth can turn on. */
  function Atoms(meta: Meta, world: World): set<Key>
    decreases meta
  {
    match ShapeOf(meta)
    case Atom => if Closed(meta, world) then {} else {KeyOf(meta)}
    case All(every) => set one, key | one in every && key in Atoms(one, world) :: key
    case OneOf(some) => set one, key | one in some && key in Atoms(one, world) :: key
    case Not(negated) => Atoms(negated, world)
  }

  function AtomsOfEach(metas: seq<Meta>, world: World): set<Key> {
    set one, key | one in metas && key in Atoms(one, world) :: key
  }

  /** The atoms found so far, which every condition read adds to. */
  class Found {
    var keys: set<Key>

    constructor ()
      ensures keys == {}
    {
      keys := {};
    }

    method CfgAtoms(meta: Meta, world: World)
      modifies this
      ensures keys == old(keys) + Atoms(meta, world)
      decreases meta
    {
      var shape := ShapeOf(meta);
      match shape {
        case Atom =>
          if !Closed(meta, world) {
            keys := keys + {KeyOf(meta)};
          }
        case All(every) =>
          CfgAtomsOfEach(meta, every, world);
          assert Atoms(meta, world) == AtomsOfEach(every, world);
        case OneOf(some) =>
          CfgAtomsOfEach(meta, some, world);
          assert Atoms(meta, world) == AtomsOfEach(some, world);
        case Not(negated) =>
          CfgAtoms(negated, world);
      }
    }

    method CfgAtomsOfEach(ghost whole: Meta, metas: seq<Meta>, world: World)
      requires forall one | one in metas :: one < whole
      modifies this
      ensures keys == old(keys) + AtomsOfEach(metas, world)
      decreases whole, 0
    {
      for i := 0 to |metas|
        invariant keys == old(keys) + AtomsOfEach(metas[..i], world)
      {
        assert metas[i] in metas;
        CfgAtoms(metas[i], world);
        assert metas[..i + 1] == metas[..i] + [metas[i]];
      }
      assert metas[..|metas|] == metas;
    }
  }

  // ---------------------------------------------------------------- classical truth

  /** A list by this one name, not rooted, whose tokens are metas. */
  ghost predicate Lists(meta: Meta, name: string) {
    meta.List? && !meta.rooted && meta.path == [name] && meta.parsed.Arguments?
  }

  /** What a production build never sets: `test`, and the feature `testkit`. */
  ghost predicate NeverSet(meta: Meta, world: World) {
    && world == Production && !meta.rooted
    && (meta.Path? ==> meta.path == ["test"])
    && (meta.NameValue? ==> meta.path == ["feature"] && meta.value == Text("testkit"))
    && !meta.List?
  }

  /**
   An atom holds where its kind, its path and what it says are in `holding`; whether it is rooted is not
   looked at.
   */
  ghost predicate AtomHolds(meta: Meta, holding: iset<Key>) {
    && (meta.Path? ==> PathKey(meta.path) in holding)
    && (meta.NameValue? && meta.value.Text? ==> ValueKey(meta.path, meta.value.text) in holding)
    && (meta.NameValue? && meta.value.Other? ==> ValueKey(meta.path, meta.value.printed) in holding)
    && (meta.List? ==> ListKey(meta.path, meta.tokens) in holding)
  }

  /** The classical reading of a condition where exactly the atoms in `holding` hold. */
  ghost predicate Holds(meta: Meta, holding: iset<Key>, world: World)
    decreases meta
  {
    if Lists(meta, "all") then forall one | one in meta.parsed.metas :: Holds(one, holding, world)
    else if Lists(meta, "any") then exists one :: one in meta.parsed.metas && Holds(one, holding, world)
    else if Lists(meta, "not") && |meta.parsed.metas| == 1 then !Holds(meta.parsed.metas[0], holding, world)
    else !NeverSet(meta, world) && AtomHolds(meta, holding)
  }

  /** `holding` is a total assignment that takes up every value already chosen. */
  ghost predicate TakesUp(holding: iset<Key>, values: map<Key, bool>) {
    forall key | key in values :: values[key] <==> key in holding
  }

  /** A truth already settled is the classical truth under every total assignment that extends the choices. */
  lemma {:induction false} TruthIsSound(meta: Meta, values: map<Key, bool>, holding: iset<Key>, world: World)
    requires TakesUp(holding, values)
    ensures TruthOf(meta, values, world) == Always ==> Holds(meta, holding, world)
    ensures TruthOf(meta, values, world) == Never ==> !Holds(meta, holding, world)
    decreases meta
  {
    match ShapeOf(meta)
    case Atom =>
    case All(every) =>
      forall one | one in every { TruthIsSound(one, values, holding, world); }
    case OneOf(some) =>
      forall one | one in some { TruthIsSound(one, values, holding, world); }
    case Not(negated) =>
      TruthIsSound(negated, values, holding, world);
  }

  /** Choosing more values never changes a truth already settled. */
  lemma {:induction false} TruthIsMonotone(meta: Meta, fewer: map<Key, bool>, more: map<Key, bool>, world: World)
    requires forall key | key in fewer :: key in more && more[key] == fewer[key]
    requires TruthOf(meta, fewer, world) != Variable
    ensures TruthOf(meta, more, world) == TruthOf(meta, fewer, world)
    decreases meta
  {
    match ShapeOf(meta)
    case Atom =>
    case All(every) =>
      forall one | one in every && TruthOf(one, fewer, world) != Variable {
        TruthIsMonotone(one, fewer, more, world);
      }
    case OneOf(some) =>
      forall one | one in some && TruthOf(one, fewer, world) != Variable {
        TruthIsMonotone(one, fewer, more, world);
      }
    case Not(negated) =>
      TruthIsMonotone(negated, fewer, more, world);
  }

  /** Once every atom of a condition has a value, its truth is settled. */
  lemma {:induction false} TruthIsSettled(meta: Meta, values: map<Key, bool>, world: World)
    requires Atoms(meta, world) <= values.Keys
    ensures TruthOf(meta, values, world) != Variable
    decreases meta
  {
    match ShapeOf(meta)
    case Atom =>
    case All(every) =>
      forall one | one in every ensures TruthOf(one, values, world) != Variable {
        assert forall key | key in Atoms(one, world) :: key in Atoms(meta, world);
        TruthIsSettled(one, values, world);
      }
    case OneOf(some) =>
      forall one | one in some ensures TruthOf(one, values, world) != Variable {
        assert forall key | key in Atoms(one, world) :: key in Atoms(meta, world);
        TruthIsSettled(one, values, world);
      }
    case Not(negated) =>
      TruthIsSettled(negated, values, world);
  }

  // ---------------------------------------------------------------- what the three values and the atoms are

  /** How true a truth is. */
  function Rank(truth: Truth): int {
    match truth case Never => -1 case Variable => 0 case Always => 1
  }

  /** `least` is the least of the ranks of some metas, or the highest rank where there are none. */
  ghost predicate IsLeast(least: int, metas: seq<Meta>, values: map<Key, bool>, world: World) {
    && (forall one | one in metas :: least <= Rank(TruthOf(one, values, world)))
    && (least == 1 || exists one :: one in metas && least == Rank(TruthOf(one, values, world)))
  }

  ghost predicate IsGreatest(greatest: int, metas: seq<Meta>, values: map<Key, bool>, world: World) {
    && (forall one | one in metas :: Rank(TruthOf(one, values, world)) <= greatest)
    && (greatest == -1 || exists one :: one in metas && greatest == Rank(TruthOf(one, values, world)))
  }

  lemma AllIsLeast(meta: Meta, values: map<Key, bool>, world: World)
    requires Lists(meta, "all")
    ensures IsLeast(Rank(TruthOf(meta, values, world)), meta.parsed.metas, values, world)
  {
  }

  lemma AnyIsGreatest(meta: Meta, values: map<Key, bool>, world: World)
    requires Lists(meta, "any")
    ensures IsGreatest(Rank(TruthOf(meta, values, world)), meta.parsed.metas, values, world)
  {
  }

  lemma NotTurns(meta: Meta, values: map<Key, bool>, world: World)
    requires Lists(meta, "not") && |meta.parsed.metas| == 1
    ensures Rank(TruthOf(meta, values, world)) == -Rank(TruthOf(meta.parsed.metas[0], values, world))
  {
  }

  lemma AtomIsItsKey(meta: Meta, values: map<Key, bool>, world: World)
    requires IsAtom(meta)
    ensures NeverSet(meta, world) ==> TruthOf(meta, values, world) == Never
    ensures !NeverSet(meta, world) ==>
              forall key | TellsApart(key, meta) ::
                Rank(TruthOf(meta, values, world)) == if key in values then if values[key] then 1 else -1 else 0
  {
  }

  /**
   The three values are Kleene's: `all` is as true as its least true argument, `any` as its most true, `not`
   the opposite of its one; anything else is what was chosen for it, if anything was, and never what a
   production build does not set.
   */
  lemma TruthIsKleenes(meta: Meta, values: map<Key, bool>, world: World)
    ensures Lists(meta, "all") ==> IsLeast(Rank(TruthOf(meta, values, world)), meta.parsed.metas, values, world)
    ensures Lists(meta, "any") ==> IsGreatest(Rank(TruthOf(meta, values, world)), meta.parsed.metas, values, world)
    ensures Lists(meta, "not") && |meta.parsed.metas| == 1 ==>
              Rank(TruthOf(meta, values, world)) == -Rank(TruthOf(meta.parsed.metas[0], values, world))
    ensures IsAtom(meta) && NeverSet(meta, world) ==> TruthOf(meta, values, world) == Never
    ensures IsAtom(meta) && !NeverSet(meta, world) ==>
              forall key | TellsApart(key, meta) ::
                Rank(TruthOf(meta, values, world)) == if key in values then if values[key] then 1 else -1 else 0
  {
    hide IsLeast, IsGreatest, IsAtom, TellsApart, Rank;
    if Lists(meta, "all") { AllIsLeast(meta, values, world); }
    if Lists(meta, "any") { AnyIsGreatest(meta, values, world); }
    if Lists(meta, "not") && |meta.parsed.metas| == 1 { NotTurns(meta, values, world); }
    if IsAtom(meta) { AtomIsItsKey(meta, values, world); }
  }

  ghost predicate IsAtom(meta: Meta) {
    !Lists(meta, "all") && !Lists(meta, "any") && !(Lists(meta, "not") && |meta.parsed.metas| == 1)
  }

  /** The key an atom is told apart by: its kind, its path, and what it says. */
  ghost predicate TellsApart(key: Key, meta: Meta) {
    match meta
    case Path(_, path) => key == PathKey(path)
    case NameValue(_, path, value) => key == ValueKey(path, if value.Text? then value.text else value.printed)
    case List(_, path, tokens, _) => key == ListKey(path, tokens)
  }

  /** `leaf` is an atom found by going down from `meta` through arguments of `all`, `any` and `not`. */
  ghost predicate LeafOf(leaf: Meta, meta: Meta)
    decreases meta
  {
    if IsAtom(meta) then leaf == meta else exists one :: one in meta.parsed.metas && LeafOf(leaf, one)
  }

  /** The atoms of a condition are the keys of its leaves, but for those a production build never sets. */
  lemma {:induction false} AtomsAreOfLeaves(meta: Meta, world: World, key: Key)
    ensures key in Atoms(meta, world) <==>
            exists leaf :: LeafOf(leaf, meta) && !NeverSet(leaf, world) && TellsApart(key, leaf)
    decreases meta
  {
    if IsAtom(meta) {
      assert LeafOf(meta, meta);
    } else {
      forall one | one in meta.parsed.metas { AtomsAreOfLeaves(one, world, key); }
    }
  }

  // ---------------------------------------------------------------- guarded constraints

  /** A requirement that binds where every guard holds. */
  datatype Constraint = Constraint(guards: seq<Meta>, requirement: Meta)

  function ConstraintTruthOf(constraint: Constraint, values: map<Key, bool>, world: World): Truth {
    if exists guard | guard in constraint.guards :: TruthOf(guard, values, world) == Never then Always
    else if forall guard | guard in constraint.guards :: TruthOf(guard, values, world) == Always then
      TruthOf(constraint.requirement, values, world)
    else if TruthOf(constraint.requirement, values, world) == Always then Always
    else Variable
  }

  method CfgConstraintTruth(constraint: Constraint, values: map<Key, bool>, world: World) returns (truth: Truth)
    ensures truth == ConstraintTruthOf(constraint, values, world)
  {
    hide TruthOf;
    var guards := constraint.guards;
    var guard := Always;
    for i := 0 to |guards|
      invariant guard != Never
      invariant forall j | 0 <= j < i :: TruthOf(guards[j], values, world) != Never
      invariant guard == Always <==> forall j | 0 <= j < i :: TruthOf(guards[j], values, world) == Always
    {
      var condition := CfgTruth(guards[i], values, world);
      match condition {
        case Never =>
          assert guards[i] in guards;
          return Always;
        case Variable => guard := Variable;
        case Always =>
      }
    }
    assert guard == Always <==> forall one | one in guards :: TruthOf(one, values, world) == Always;
    var requirement := CfgTruth(constraint.requirement, values, world);
    truth := if guard.Always? || requirement.Always? then requirement else Variable;
  }

  /** A constraint is as true as Kleene's implication: as its requirement, or as its least true guard is false. */
  lemma ConstraintTruthIsKleenes(constraint: Constraint, values: map<Key, bool>, world: World, least: int)
    requires IsLeast(least, constraint.guards, values, world)
    ensures var requirement := Rank(TruthOf(constraint.requirement, values, world));
            Rank(ConstraintTruthOf(constraint, values, world)) == if requirement >= -least then requirement else -least
  {
    hide TruthOf;
  }

  ghost predicate ConstraintHolds(constraint: Constraint, holding: iset<Key>, world: World) {
    (forall guard | guard in constraint.guards :: Holds(guard, holding, world)) ==>
      Holds(constraint.requirement, holding, world)
  }

  function ConstraintAtoms(constraint: Constraint, world: World): set<Key> {
    AtomsOfEach(constraint.guards, world) + Atoms(constraint.requirement, world)
  }

  function AtomsOfConstraints(conditions: seq<Constraint>, world: World): set<Key> {
    set condition, key | condition in conditions && key in ConstraintAtoms(condition, world) :: key
  }

  lemma NoConstraints(world: World)
    ensures AtomsOfConstraints([], world) == {}
  {
  }

  lemma OneMoreConstraint(conditions: seq<Constraint>, last: Constraint, world: World)
    ensures AtomsOfConstraints(conditions + [last], world) == AtomsOfConstraints(conditions, world)
            + ConstraintAtoms(last, world)
  {
  }

  lemma ConstraintTruthIsSound(constraint: Constraint, values: map<Key, bool>, holding: iset<Key>, world: World)
    requires TakesUp(holding, values)
    ensures ConstraintTruthOf(constraint, values, world) == Always ==> ConstraintHolds(constraint, holding, world)
    ensures ConstraintTruthOf(constraint, values, world) == Never ==> !ConstraintHolds(constraint, holding, world)
  {
    forall guard | guard in constraint.guards { TruthIsSound(guard, values, holding, world); }
    TruthIsSound(constraint.requirement, values, holding, world);
  }

  lemma ConstraintTruthIsSettled(constraint: Constraint, values: map<Key, bool>, world: World)
    requires ConstraintAtoms(constraint, world) <= values.Keys
    ensures ConstraintTruthOf(constraint, values, world) != Variable
  {
    forall guard | guard in constraint.guards ensures TruthOf(guard, values, world) != Variable {
      assert forall key | key in Atoms(guard, world) :: key in ConstraintAtoms(constraint, world);
      TruthIsSettled(guard, values, world);
    }
    TruthIsSettled(constraint.requirement, values, world);
  }

  /** Some total assignment that takes up `values` satisfies every constraint. */
  ghost predicate Satisfiable(conditions: seq<Constraint>, world: World, values: map<Key, bool>) {
    exists holding: iset<Key> :: Satisfies(holding, conditions, world, values)
  }

  ghost predicate Satisfies(holding: iset<Key>, conditions: seq<Constraint>, world: World, values: map<Key, bool>) {
    && TakesUp(holding, values)
    && forall condition | condition in conditions :: ConstraintHolds(condition, holding, world)
  }

  // ---------------------------------------------------------------- flattening

  /** The requirement of a `cfg` attribute, which is exactly one meta and no trailing comma. */
  predicate Requires(meta: Meta) {
    && meta.List? && Named(meta, "cfg") && meta.parsed.Arguments?
    && |meta.parsed.metas| == 1 && !meta.parsed.trailing
  }

  /** A `cfg_attr` attribute with a condition, whatever it applies. */
  predicate Applies(meta: Meta) {
    && meta.List? && !Named(meta, "cfg") && Named(meta, "cfg_attr")
    && meta.parsed.Arguments? && |meta.parsed.metas| > 0
  }

  function Flatten(meta: Meta, guards: seq<Meta>): seq<Constraint>
    decreases meta
  {
    if Requires(meta) then [Constraint(guards, meta.parsed.metas[0])]
    else if Applies(meta) then FlattenEach(meta.parsed.metas[1..], guards + [meta.parsed.metas[0]])
    else []
  }

  function FlattenEach(metas: seq<Meta>, guards: seq<Meta>): seq<Constraint>
    decreases metas
  {
    if metas == [] then [] else Flatten(metas[0], guards) + FlattenEach(metas[1..], guards)
  }

  lemma FlattensAs(meta: Meta, guards: seq<Meta>)
    ensures Requires(meta) ==>
              meta.List? && meta.parsed.Arguments? && |meta.parsed.metas| == 1
              && Flatten(meta, guards) == [Constraint(guards, meta.parsed.metas[0])]
    ensures !Requires(meta) && Applies(meta) ==>
              meta.List? && meta.parsed.Arguments? && |meta.parsed.metas| > 0
              && Flatten(meta, guards) == FlattenEach(meta.parsed.metas[1..], guards + [meta.parsed.metas[0]])
    ensures !Requires(meta) && !Applies(meta) ==> Flatten(meta, guards) == []
  {
  }

  lemma FlattensNext(metas: seq<Meta>, guards: seq<Meta>, i: nat)
    requires i < |metas|
    ensures FlattenEach(metas[i..], guards) == Flatten(metas[i], guards) + FlattenEach(metas[i + 1..], guards)
  {
    assert metas[i..][1..] == metas[i + 1..];
  }

  lemma FlattensNone(metas: seq<Meta>, guards: seq<Meta>)
    ensures FlattenEach(metas[|metas|..], guards) == []
  {
  }

  lemma Associates(first: seq<Constraint>, second: seq<Constraint>, third: seq<Constraint>)
    ensures first + (second + third) == (first + second) + third
  {
  }

  /** The attributes left on an item once every `cfg_attr` has been expanded, outermost first. */
  ghost function Expand(meta: Meta, holding: iset<Key>, world: World): seq<Meta>
    decreases meta
  {
    if Lists(meta, "cfg_attr") && meta.parsed.metas != [] then
      if Holds(meta.parsed.metas[0], holding, world)
      then ExpandEach(meta.parsed.metas[1..], holding, world)
      else []
    else [meta]
  }

  ghost function ExpandEach(metas: seq<Meta>, holding: iset<Key>, world: World): seq<Meta>
    decreases metas
  {
    if metas == [] then [] else Expand(metas[0], holding, world) + ExpandEach(metas[1..], holding, world)
  }

  /** Whether no `cfg` among expanded attributes removes the item; a `cfg` that cannot be read removes nothing. */
  ghost predicate Kept(expanded: seq<Meta>, holding: iset<Key>, world: World) {
    forall meta | meta in expanded && Lists(meta, "cfg") && |meta.parsed.metas| == 1 && !meta.parsed.trailing ::
      Holds(meta.parsed.metas[0], holding, world)
  }

  ghost predicate GuardsHold(guards: seq<Meta>, holding: iset<Key>, world: World) {
    forall guard | guard in guards :: Holds(guard, holding, world)
  }

  ghost predicate AllHold(constraints: seq<Constraint>, holding: iset<Key>, world: World) {
    forall constraint | constraint in constraints :: ConstraintHolds(constraint, holding, world)
  }

  /**
   Flattening one attribute keeps its meaning: its constraints hold exactly when, under its guards, its
   expansion keeps the item.
   */
  lemma {:induction false} FlattenMeansExpand(meta: Meta, guards: seq<Meta>, holding: iset<Key>, world: World)
    ensures AllHold(Flatten(meta, guards), holding, world) <==>
            (GuardsHold(guards, holding, world) ==> Kept(Expand(meta, holding, world), holding, world))
    decreases meta
  {
    if Requires(meta) {
      var constraint := Constraint(guards, meta.parsed.metas[0]);
      assert Flatten(meta, guards) == [constraint] && constraint in Flatten(meta, guards);
      assert Expand(meta, holding, world) == [meta] && meta in Expand(meta, holding, world);
    } else if Applies(meta) {
      var condition, attributes := meta.parsed.metas[0], meta.parsed.metas[1..];
      FlattenEachMeansExpandEach(attributes, guards + [condition], holding, world);
      assert GuardsHold(guards + [condition], holding, world) <==>
             GuardsHold(guards, holding, world) && Holds(condition, holding, world);
    }
  }

  lemma {:induction false} FlattenEachMeansExpandEach(metas: seq<Meta>, guards: seq<Meta>, holding: iset<Key>,
      world: World)
    ensures AllHold(FlattenEach(metas, guards), holding, world) <==>
            (GuardsHold(guards, holding, world) ==> Kept(ExpandEach(metas, holding, world), holding, world))
    decreases metas
  {
    if metas != [] {
      FlattenMeansExpand(metas[0], guards, holding, world);
      FlattenEachMeansExpandEach(metas[1..], guards, holding, world);
    }
  }

  // ---------------------------------------------------------------- the scope and its search

  /** The values chosen so far, which the search edits in place. */
  class Values {
    var chosen: map<Key, bool>

    constructor ()
      ensures chosen == map[]
    {
      chosen := map[];
    }
  }

  /** The constraints of the items a walk is inside of. */
  class CfgScope {
    const world: World
    var conditions: seq<Constraint>

    constructor (world: World)
      ensures this.world == world && conditions == []
    {
      this.world := world;
      conditions := [];
    }

    /** Adds an attribute's constraints, and says whether it had any. */
    method Push(attribute: Meta) returns (grew: bool)
      modifies this
      ensures conditions == old(conditions) + Flatten(attribute, [])
      ensures grew <==> Flatten(attribute, []) != []
    {
      var previous := |conditions|;
      CfgConstraints(attribute, []);
      grew := |conditions| > previous;
    }

    method CfgConstraints(meta: Meta, guards: seq<Meta>)
      modifies this
      ensures conditions == old(conditions) + Flatten(meta, guards)
      decreases meta
    {
      hide Flatten, FlattenEach, Requires, Applies;
      FlattensAs(meta, guards);
      if Requires(meta) {
        conditions := conditions + [Constraint(guards, meta.parsed.metas[0])];
      } else if Applies(meta) {
        var nested := guards + [meta.parsed.metas[0]];
        var attributes := meta.parsed.metas[1..];
        for i := 0 to |attributes|
          invariant conditions + FlattenEach(attributes[i..], nested) == old(conditions) + Flatten(meta, guards)
        {
          assert attributes[i] in meta.parsed.metas;
          ghost var before := conditions;
          FlattensNext(attributes, nested, i);
          CfgConstraints(attributes[i], nested);
          Associates(before, Flatten(attributes[i], nested), FlattenEach(attributes[i + 1..], nested));
        }
        FlattensNone(attributes, nested);
      }
    }

    /** Forgets every constraint pushed since the mark. */
    method Truncate(mark: nat)
      modifies this
      ensures conditions == if mark <= |old(conditions)| then old(conditions)[..mark] else old(conditions)
    {
      if mark <= |conditions| {
        conditions := conditions[..mark];
      }
    }

    /** Whether some configuration of this world satisfies every constraint. */
    method Possible() returns (possible: bool)
      ensures possible <==> Satisfiable(conditions, world, map[])
    {
      hide Satisfiable, Atoms, AtomsOfConstraints;
      assert AtomsOfConstraints([], world) == {} by { NoConstraints(world); }
      var found := new Found();
      for i := 0 to |conditions|
        invariant fresh(found)
        invariant found.keys == AtomsOfConstraints(conditions[..i], world)
      {
        var guards := conditions[i].guards;
        label before:
        for j := 0 to |guards|
          invariant fresh(found)
          invariant found.keys == old@before(found.keys) + AtomsOfEach(guards[..j], world)
        {
          found.CfgAtoms(guards[j], world);
          assert guards[..j + 1] == guards[..j] + [guards[j]];
        }
        assert guards[..|guards|] == guards;
        found.CfgAtoms(conditions[i].requirement, world);
        OneMoreConstraint(conditions[..i], conditions[i], world);
        assert conditions[..i + 1] == conditions[..i] + [conditions[i]];
      }
      assert conditions[..|conditions|] == conditions;
      var atoms := Listed(found.keys);
      var values := new Values();
      possible := AssignmentPossible(atoms, 0, values);
    }

    /**
     Whether the values chosen so far extend to an assignment that satisfies every constraint, leaving them
     as they were.
     */
    method AssignmentPossible(atoms: seq<Key>, next: nat, values: Values) returns (possible: bool)
      requires next <= |atoms|
      requires forall i, j | 0 <= i < j < |atoms| :: atoms[i] != atoms[j]
      requires forall i | next <= i < |atoms| :: atoms[i] !in values.chosen
      requires forall key | key in AtomsOfConstraints(conditions, world) :: key in values.chosen || key in atoms[next..]
      modifies values
      ensures values.chosen == old(values.chosen)
      ensures possible <==> Satisfiable(conditions, world, values.chosen)
      decreases |atoms| - next
    {
      hide Satisfiable, ConstraintTruthOf, ConstraintAtoms;
      var unresolved := false;
      for i := 0 to |conditions|
        invariant values.chosen == old(values.chosen)
        invariant forall j | 0 <= j < i :: ConstraintTruthOf(conditions[j], values.chosen, world) != Never
        invariant unresolved <==>
                  exists j | 0 <= j < i :: ConstraintTruthOf(conditions[j], values.chosen, world) == Variable
      {
        var truth := CfgConstraintTruth(conditions[i], values.chosen, world);
        match truth {
          case Never =>
            PrunedIsUnsatisfiable(conditions, conditions[i], world, values.chosen);
            return false;
          case Variable => unresolved := true;
          case Always =>
        }
      }
      if !unresolved {
        ResolvedIsSatisfiable(conditions, world, values.chosen);
        return true;
      }
      if next == |atoms| {
        forall condition | condition in conditions
          ensures ConstraintTruthOf(condition, values.chosen, world) != Variable
        {
          assert forall key | key in ConstraintAtoms(condition, world) :: key in AtomsOfConstraints(conditions, world);
          ConstraintTruthIsSettled(condition, values.chosen, world);
        }
        assert false;
        return false;
      }
      ghost var before := values.chosen;
      var atom := atoms[next];
      assert atoms[next..] == [atom] + atoms[next + 1..];
      SplitOn(conditions, world, before, atom);
      values.chosen := values.chosen[atom := true];
      var withAtom := AssignmentPossible(atoms, next + 1, values);
      if withAtom {
        values.chosen := values.chosen - {atom};
        assert values.chosen == before;
        return true;
      }
      values.chosen := values.chosen[atom := false];
      assert values.chosen == before[atom := false];
      possible := AssignmentPossible(atoms, next + 1, values);
      values.chosen := values.chosen - {atom};
      assert values.chosen == before;
    }
  }

  /** The elements of a set, each once. */
  method Listed(keys: set<Key>) returns (listed: seq<Key>)
    ensures forall key :: key in listed <==> key in keys
    ensures forall i, j | 0 <= i < j < |listed| :: listed[i] != listed[j]
  {
    listed := [];
    var rest := keys;
    while rest != {}
      invariant rest <= keys
      invariant forall key :: key in listed <==> key in keys && key !in rest
      invariant forall i, j | 0 <= i < j < |listed| :: listed[i] != listed[j]
      decreases rest
    {
      var key :| key in rest;
      listed := listed + [key];
      rest := rest - {key};
    }
  }

  /** A constraint already settled as broken rules out every extension. */
  lemma PrunedIsUnsatisfiable(conditions: seq<Constraint>, broken: Constraint, world: World, values: map<Key, bool>)
    requires broken in conditions && ConstraintTruthOf(broken, values, world) == Never
    ensures !Satisfiable(conditions, world, values)
  {
    forall holding: iset<Key> | TakesUp(holding, values) ensures !ConstraintHolds(broken, holding, world) {
      ConstraintTruthIsSound(broken, values, holding, world);
    }
  }

  /** Constraints all settled as holding are satisfied by every extension, and there is one. */
  lemma ResolvedIsSatisfiable(conditions: seq<Constraint>, world: World, values: map<Key, bool>)
    requires forall condition | condition in conditions :: ConstraintTruthOf(condition, values, world) == Always
    ensures Satisfiable(conditions, world, values)
  {
    var holding := iset key | key in values && values[key];
    forall condition | condition in conditions { ConstraintTruthIsSound(condition, values, holding, world); }
    assert Satisfies(holding, conditions, world, values);
  }

  /** Every assignment gives an atom not yet chosen one of its two values. */
  lemma SplitOn(conditions: seq<Constraint>, world: World, values: map<Key, bool>, atom: Key)
    requires atom !in values
    ensures Satisfiable(conditions, world, values) <==>
            Satisfiable(conditions, world, values[atom := true])
                || Satisfiable(conditions, world, values[atom := false])
  {
    if Satisfiable(conditions, world, values) {
      var holding: iset<Key> :| Satisfies(holding, conditions, world, values);
      assert Satisfies(holding, conditions, world, values[atom := atom in holding]);
    }
    ChoosingNarrows(conditions, world, values, atom, true);
    ChoosingNarrows(conditions, world, values, atom, false);
  }

  lemma ChoosingNarrows(conditions: seq<Constraint>, world: World, values: map<Key, bool>, atom: Key, value: bool)
    requires atom !in values
    ensures Satisfiable(conditions, world, values[atom := value]) ==> Satisfiable(conditions, world, values)
  {
    var chosen := values[atom := value];
    if Satisfiable(conditions, world, chosen) {
      var holding: iset<Key> :| Satisfies(holding, conditions, world, chosen);
      assert forall key | key in values :: key in chosen && chosen[key] == values[key];
      assert Satisfies(holding, conditions, world, values);
    }
  }

  /** Whether an item with these attributes is compiled in the configuration where exactly `holding` hold. */
  ghost predicate Compiled(attributes: seq<Meta>, holding: iset<Key>, world: World) {
    Kept(ExpandEach(attributes, holding, world), holding, world)
  }

  /**
   The whole engine: the constraints pushed for an item's attributes are satisfiable exactly when some
   configuration of the world compiles the item.
   */
  lemma PossibleMeansCompiled(attributes: seq<Meta>, world: World)
    ensures Satisfiable(FlattenEach(attributes, []), world, map[]) <==>
            exists holding: iset<Key> :: Compiled(attributes, holding, world)
  {
    var conditions := FlattenEach(attributes, []);
    forall holding: iset<Key>
      ensures Satisfies(holding, conditions, world, map[]) <==> Compiled(attributes, holding, world)
    {
      FlattenEachMeansExpandEach(attributes, [], holding, world);
      assert GuardsHold([], holding, world);
      assert Satisfies(holding, conditions, world, map[]) <==> AllHold(conditions, holding, world);
    }
  }

  /** Pushing more attributes never makes an impossible scope possible. */
  lemma PushingOnlyNarrows(conditions: seq<Constraint>, more: seq<Constraint>, world: World, values: map<Key, bool>)
    requires Satisfiable(conditions + more, world, values)
    ensures Satisfiable(conditions, world, values) && Satisfiable(more, world, values)
  {
    var holding: iset<Key> :| Satisfies(holding, conditions + more, world, values);
    assert Satisfies(holding, conditions, world, values) && Satisfies(holding, more, world, values);
  }
}
