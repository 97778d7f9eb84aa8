/** What `CompareHelper.AssertProperties` does, as functions: the leaf
    checks it performs for two instances, in order, and the outcome and
    output lines of running them. `CompareHelper` is proved to do exactly
    this. */
module Comparison {
  import opened Wrappers
  import Text

  /** A property value as the comparison sees it. `Atom` is anything it
      does not look into (a number, a string, an object); `id` stands for
      its equality and `text` for what string interpolation prints. A
      `Coll` is an enumerable; `referenceElements` says whether it is an
      `IEnumerable<object?>`, which holds for sequences of a reference type
      only, and `typeName` is what it prints as. */
  datatype Val =
    | Null
    | Atom(id: int, text: string)
    | Coll(referenceElements: bool, typeName: string, items: seq<Val>)

  /** A public instance property of `T`: its name and whether its declared
      type is an array. */
  datatype Prop = Prop(name: string, declaredArray: bool)

  /** xUnit's equality of two values: structural over collections, at
      every depth. */
  predicate Same(a: Val, b: Val)
  {
    match a
    case Null => b.Null?
    case Atom(i, _) => b.Atom? && b.id == i
    case Coll(_, _, xs) =>
      b.Coll? && |xs| == |b.items| && forall k :: 0 <= k < |xs| ==> Same(xs[k], b.items[k])
  }

  /** Which of the two leaf checks the engine runs with. */
  datatype Mode =
    /** `AssertEqual`: `Assert.Equal` at every leaf. */
    | AllEqual
    /** `AssertCompletelyUnequal`: `Assert.NotEqual` at every leaf. */
    | AllUnequal

  /** One call of the leaf check. */
  datatype Leaf = Leaf(indentation: string, propertyName: string, expected: Val, actual: Val)

  /** What the engine does next: call the leaf check, or index past the end
      of the actual array. */
  datatype Step = Check(leaf: Leaf) | OutOfBounds

  /** How a comparison ends when it does not pass. */
  datatype CompareError =
    /** `Assert.False(ReferenceEquals(expected, actual))` failed. */
    | SameInstance
    /** `GetValue` on a null instance threw `TargetException`. */
    | TargetMissing
    /** The leaf check threw `EqualException` / `NotEqualException`. */
    | LeafFailed(failed: Leaf)
    /** `actualArray.GetValue(i)` threw `IndexOutOfRangeException`. */
    | IndexOutOfRange

  predicate Passes(mode: Mode, l: Leaf)
  {
    if mode == AllEqual then Same(l.expected, l.actual) else !Same(l.expected, l.actual)
  }

  /** What `{a}` prints: nothing for null. */
  function Show(v: Val): string
  {
    match v
    case Null => ""
    case Atom(_, text) => text
    case Coll(_, typeName, _) => typeName
  }

  function Header(l: Leaf): string
  {
    l.indentation + "[" + l.propertyName + "]"
  }

  function Confirmation(mode: Mode, l: Leaf): string
  {
    var op := if mode == AllEqual then "==" else "!=";
    l.indentation + "[\U{1F44D} '" + Show(l.expected) + "' " + op + " '" + Show(l.actual) + "']"
  }

  /** The lines one leaf check writes: the header always, the confirmation
      and an empty line only when the check passes. */
  function LeafLines(mode: Mode, l: Leaf): (lines: seq<string>)
    ensures |lines| == (if Passes(mode, l) then 3 else 1) && lines[0] == Header(l)
  {
    if Passes(mode, l) then [Header(l), Confirmation(mode, l), ""] else [Header(l)]
  }

  /** Running the steps in order: the first check that does not pass, or
      the first index past the end, stops the run. */
  function Run(mode: Mode, steps: seq<Step>): (Outcome<CompareError>, seq<string>)
  {
    if steps == [] then (Pass, [])
    else match steps[0]
      case OutOfBounds => (Fail(IndexOutOfRange), [])
      case Check(l) =>
        if Passes(mode, l) then
          var (outcome, lines) := Run(mode, steps[1..]);
          (outcome, LeafLines(mode, l) + lines)
        else (Fail(LeafFailed(l)), LeafLines(mode, l))
  }

  const TAB: string := "\t"

  /** The two enumerators advanced together for `n` rounds, each pair
      labelled with the bare property name. */
  function Lockstep(name: string, xs: seq<Val>, ys: seq<Val>, n: nat): (steps: seq<Step>)
    requires n <= |xs| && n <= |ys|
    ensures |steps| == n
  {
    if n == 0 then []
    else Lockstep(name, xs, ys, n - 1) + [Check(Leaf(TAB, name, xs[n - 1], ys[n - 1]))]
  }

  /** The first `n` rounds of the index loop over the expected array,
      labelled `name[i]`; an index the actual array lacks cannot be read. */
  function Indexed(name: string, xs: seq<Val>, ys: seq<Val>, n: nat): (steps: seq<Step>)
    requires n <= |xs|
    ensures |steps| == n
  {
    if n == 0 then []
    else
      var i := n - 1;
      Indexed(name, xs, ys, i)
      + [if i < |ys| then Check(Leaf(TAB, name + "[" + Text.NatToString(i) + "]", xs[i], ys[i])) else OutOfBounds]
  }

  predicate IsReferenceSequence(v: Val)
  {
    v.Coll? && v.referenceElements
  }

  function Min(a: nat, b: nat): nat
  {
    if a <= b then a else b
  }

  /** The element-level steps for one property: none when either value is
      null, lockstep for two reference sequences, by index for a declared
      array, none otherwise. */
  function ElementSteps(p: Prop, a: Val, b: Val): seq<Step>
  {
    if a.Null? || b.Null? then []
    else if IsReferenceSequence(a) && IsReferenceSequence(b) then
      Lockstep(p.name, a.items, b.items, Min(|a.items|, |b.items|))
    else if p.declaredArray && a.Coll? && b.Coll? then
      Indexed(p.name, a.items, b.items, |a.items|)
    else []
  }

  /** The leaf on the two whole values of a property. */
  function WholeLeaf(p: Prop, a: Val, b: Val): Leaf
  {
    Leaf("", p.name, a, b)
  }

  function MemberSteps(p: Prop, a: Val, b: Val): seq<Step>
  {
    [Check(WholeLeaf(p, a, b))] + ElementSteps(p, a, b)
  }

  /** The steps for the first `n` properties. */
  function Plan(props: seq<Prop>, ev: seq<Val>, av: seq<Val>, n: nat): seq<Step>
    requires n <= |props| && |ev| == |props| && |av| == |props|
  {
    if n == 0 then []
    else Plan(props, ev, av, n - 1) + MemberSteps(props[n - 1], ev[n - 1], av[n - 1])
  }

  /** The run of the first `n` properties, property by property. */
  function RunProperties(mode: Mode, props: seq<Prop>, ev: seq<Val>, av: seq<Val>, n: nat): (Outcome<CompareError>, seq<string>)
    requires n <= |props| && |ev| == |props| && |av| == |props|
  {
    if n == 0 then (Pass, [])
    else
      var previous := RunProperties(mode, props, ev, av, n - 1);
      if previous.0 != Pass then previous
      else
        var member := Run(mode, MemberSteps(props[n - 1], ev[n - 1], av[n - 1]));
        (member.0, previous.1 + member.1)
  }

  /** `AssertProperties(expected, actual, assert)`: `expected` and `actual`
      are the property values of the two instances (`None` for a null
      instance) and `sameInstance` says whether they are one object. */
  function Compare(mode: Mode, props: seq<Prop>, expected: Option<seq<Val>>, actual: Option<seq<Val>>,
                   sameInstance: bool): (Outcome<CompareError>, seq<string>)
    requires expected.Some? ==> |expected.value| == |props|
    requires actual.Some? ==> |actual.value| == |props|
  {
    if sameInstance then (Fail(SameInstance), [])
    else if expected.None? || actual.None? then (if props == [] then Pass else Fail(TargetMissing), [])
    else Run(mode, Plan(props, expected.value, actual.value, |props|))
  }
}
