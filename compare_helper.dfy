/** `CompareHelper`: one engine, `AssertProperties`, that walks the public
    properties of two instances and hands each pair of values (and, one
    level down, each pair of elements) to a leaf check that writes to the
    test output. Proved to do what `Comparison.Compare` says. */
module CompareHelper {
  import opened Wrappers
  import opened Comparison
  import ComparisonLaws
  import Logging
  import Text

  /** An instance of `T`: the values of its public instance properties, in
      the order `typeof(T).GetProperties` lists them. */
  class Record {
    var values: seq<Val>

    constructor(values: seq<Val>)
      ensures this.values == values
    {
      this.values := values;
    }
  }

  /** The property values of an instance, `None` for a null one. */
  function ValuesOf(r: Record?): Option<seq<Val>>
    reads r
  {
    if r == null then Option.None else Some(r.values)
  }

  /** The leaf check of `AssertEqual` (`AllEqual`) or `AssertCompletelyUnequal`
      (`AllUnequal`): the header, the assertion, and on success the
      confirmation and an empty line. */
  method CheckLeaf(mode: Mode, indentation: string, propertyName: string, a: Val, b: Val,
                   testOutput: Logging.OutputSink) returns (passed: bool)
    modifies testOutput
    ensures var l := Leaf(indentation, propertyName, a, b);
            passed == Passes(mode, l) && testOutput.lines == old(testOutput.lines) + LeafLines(mode, l)
  {
    testOutput.WriteLine(indentation + "[" + propertyName + "]");
    passed := if mode == AllEqual then Same(a, b) else !Same(a, b);
    if !passed {
      return;
    }
    testOutput.WriteLine(Confirmation(mode, Leaf(indentation, propertyName, a, b)));
    testOutput.WriteLine("");
  }

  /** `AssertProperties(expected, actual, assert)`. */
  method AssertProperties(props: seq<Prop>, expected: Record?, actual: Record?, mode: Mode,
                          testOutput: Logging.OutputSink) returns (outcome: Outcome<CompareError>)
    requires expected != null ==> |expected.values| == |props|
    requires actual != null ==> |actual.values| == |props|
    modifies testOutput
    ensures var (o, lines) := Compare(mode, props, ValuesOf(expected), ValuesOf(actual), expected == actual);
            outcome == o && testOutput.lines == old(testOutput.lines) + lines
  {
    if expected == actual {
      return Fail(SameInstance);
    }
    if expected == null || actual == null {
      // `prop.GetValue(null)` throws on the first property.
      return if props == [] then Pass else Fail(TargetMissing);
    }
    outcome := CompareProperties(mode, props, expected.values, actual.values, testOutput);
    ComparisonLaws.RunPropertiesIsRun(mode, props, expected.values, actual.values, |props|);
  }

  /** The `foreach` of `AssertProperties` over the properties of `T`, with
      the values `GetValue` reads from the two instances. */
  method CompareProperties(mode: Mode, props: seq<Prop>, ev: seq<Val>, av: seq<Val>,
                           testOutput: Logging.OutputSink) returns (outcome: Outcome<CompareError>)
    requires |ev| == |props| && |av| == |props|
    modifies testOutput
    ensures var (o, lines) := RunProperties(mode, props, ev, av, |props|);
            outcome == o && testOutput.lines == old(testOutput.lines) + lines
  {
    ghost var start := testOutput.lines;
    for i := 0 to |props|
      invariant RunProperties(mode, props, ev, av, i).0 == Pass
      invariant testOutput.lines == start + RunProperties(mode, props, ev, av, i).1
    {
      outcome := PropertyRound(mode, props, ev, av, i, start, testOutput);
      if outcome.Fail? {
        return;
      }
    }
    outcome := Pass;
  }

  /** One round of that loop: property `i`, after the earlier ones passed. */
  method PropertyRound(mode: Mode, props: seq<Prop>, ev: seq<Val>, av: seq<Val>, i: nat,
                       ghost start: seq<string>, testOutput: Logging.OutputSink) returns (outcome: Outcome<CompareError>)
    requires |ev| == |props| && |av| == |props| && i < |props|
    requires RunProperties(mode, props, ev, av, i).0 == Pass
    requires testOutput.lines == start + RunProperties(mode, props, ev, av, i).1
    modifies testOutput
    ensures outcome == RunProperties(mode, props, ev, av, i + 1).0
    ensures testOutput.lines == start + RunProperties(mode, props, ev, av, i + 1).1
    ensures outcome.Fail? ==> RunProperties(mode, props, ev, av, |props|) == RunProperties(mode, props, ev, av, i + 1)
  {
    ghost var before := RunProperties(mode, props, ev, av, i).1;
    outcome := CompareProperty(mode, props[i], ev[i], av[i], testOutput);
    ComparisonLaws.ConcatAssoc(start, before, Run(mode, MemberSteps(props[i], ev[i], av[i])).1);
    if outcome.Fail? {
      ComparisonLaws.RunPropertiesStops(mode, props, ev, av, i + 1, |props|);
    }
  }

  /** The body of the `foreach` in `AssertProperties`: the leaf on the two
      whole values, then the elements below them. */
  method CompareProperty(mode: Mode, prop: Prop, expectedValue: Val, actualValue: Val,
                         testOutput: Logging.OutputSink) returns (outcome: Outcome<CompareError>)
    modifies testOutput
    ensures var (o, lines) := Run(mode, MemberSteps(prop, expectedValue, actualValue));
            outcome == o && testOutput.lines == old(testOutput.lines) + lines
  {
    ghost var whole := WholeLeaf(prop, expectedValue, actualValue);
    ComparisonLaws.RunAppend(mode, [Check(whole)], ElementSteps(prop, expectedValue, actualValue));
    ComparisonLaws.RunSingle(mode, whole);
    var passed := CheckLeaf(mode, "", prop.name, expectedValue, actualValue, testOutput);
    if !passed {
      return Fail(LeafFailed(WholeLeaf(prop, expectedValue, actualValue)));
    }
    outcome := CompareElements(mode, prop, expectedValue, actualValue, testOutput);
    ComparisonLaws.ConcatAssoc(old(testOutput.lines), LeafLines(mode, whole),
                               Run(mode, ElementSteps(prop, expectedValue, actualValue)).1);
  }

  /** Below a whole-value leaf that passed: nothing under a null value, the
      elements of two reference sequences in lockstep, or those of a
      declared array by index. */
  method CompareElements(mode: Mode, prop: Prop, expectedValue: Val, actualValue: Val,
                         testOutput: Logging.OutputSink) returns (outcome: Outcome<CompareError>)
    modifies testOutput
    ensures var (o, lines) := Run(mode, ElementSteps(prop, expectedValue, actualValue));
            outcome == o && testOutput.lines == old(testOutput.lines) + lines
  {
    if expectedValue.Null? || actualValue.Null? {
      outcome := Pass;
      assert testOutput.lines == old(testOutput.lines) + [];
    } else if IsReferenceSequence(expectedValue) && IsReferenceSequence(actualValue) {
      outcome := CompareEnumerations(mode, prop.name, expectedValue.items, actualValue.items, testOutput);
    } else if prop.declaredArray && expectedValue.Coll? && actualValue.Coll? {
      outcome := CompareArrays(mode, prop.name, expectedValue.items, actualValue.items, testOutput);
    } else {
      outcome := Pass;
      assert testOutput.lines == old(testOutput.lines) + [];
    }
  }

  /** The `while` loop of `AssertProperties`: both enumerators advance
      together until either is exhausted; no recursion below one level. */
  method CompareEnumerations(mode: Mode, name: string, xs: seq<Val>, ys: seq<Val>,
                             testOutput: Logging.OutputSink) returns (outcome: Outcome<CompareError>)
    modifies testOutput
    ensures var (o, lines) := Run(mode, Lockstep(name, xs, ys, Min(|xs|, |ys|)));
            outcome == o && testOutput.lines == old(testOutput.lines) + lines
  {
    ghost var start := testOutput.lines;
    var k := 0;
    while k < |xs| && k < |ys|
      invariant k <= |xs| && k <= |ys|
      invariant Run(mode, Lockstep(name, xs, ys, k)).0 == Pass
      invariant testOutput.lines == start + Run(mode, Lockstep(name, xs, ys, k)).1
    {
      outcome := LockstepRound(mode, name, xs, ys, k, start, testOutput);
      if outcome.Fail? {
        return;
      }
      k := k + 1;
    }
    outcome := Pass;
  }

  /** One round of that loop: the leaf on the `k`-th pair of elements. */
  method LockstepRound(mode: Mode, name: string, xs: seq<Val>, ys: seq<Val>, k: nat,
                       ghost start: seq<string>, testOutput: Logging.OutputSink) returns (outcome: Outcome<CompareError>)
    requires k < |xs| && k < |ys|
    requires Run(mode, Lockstep(name, xs, ys, k)).0 == Pass
    requires testOutput.lines == start + Run(mode, Lockstep(name, xs, ys, k)).1
    modifies testOutput
    ensures outcome == Run(mode, Lockstep(name, xs, ys, k + 1)).0
    ensures testOutput.lines == start + Run(mode, Lockstep(name, xs, ys, k + 1)).1
    ensures outcome.Fail? ==> Run(mode, Lockstep(name, xs, ys, Min(|xs|, |ys|))) == Run(mode, Lockstep(name, xs, ys, k + 1))
  {
    ghost var l := Leaf(TAB, name, xs[k], ys[k]);
    ghost var before := Run(mode, Lockstep(name, xs, ys, k));
    var passed := CheckLeaf(mode, TAB, name, xs[k], ys[k], testOutput);
    ComparisonLaws.RunAppend(mode, Lockstep(name, xs, ys, k), [Check(l)]);
    ComparisonLaws.RunSingle(mode, l);
    ComparisonLaws.ConcatAssoc(start, before.1, LeafLines(mode, l));
    if !passed {
      ComparisonLaws.LockstepPrefix(name, xs, ys, k + 1, Min(|xs|, |ys|));
      ComparisonLaws.RunPrefix(mode, Lockstep(name, xs, ys, k + 1), Lockstep(name, xs, ys, Min(|xs|, |ys|)));
      return Fail(LeafFailed(Leaf(TAB, name, xs[k], ys[k])));
    }
    outcome := Pass;
  }

  /** The `for` loop of `AssertProperties`: the index runs over the expected
      array and reads the actual one at the same index; no recursion below
      one level. */
  method CompareArrays(mode: Mode, name: string, xs: seq<Val>, ys: seq<Val>,
                       testOutput: Logging.OutputSink) returns (outcome: Outcome<CompareError>)
    modifies testOutput
    ensures var (o, lines) := Run(mode, Indexed(name, xs, ys, |xs|));
            outcome == o && testOutput.lines == old(testOutput.lines) + lines
  {
    ghost var start := testOutput.lines;
    for i := 0 to |xs|
      invariant Run(mode, Indexed(name, xs, ys, i)).0 == Pass
      invariant testOutput.lines == start + Run(mode, Indexed(name, xs, ys, i)).1
    {
      outcome := IndexedRound(mode, name, xs, ys, i, start, testOutput);
      if outcome.Fail? {
        return;
      }
    }
    outcome := Pass;
  }

  /** One round of that loop: index `i`, which the actual array may lack. */
  method IndexedRound(mode: Mode, name: string, xs: seq<Val>, ys: seq<Val>, i: nat,
                      ghost start: seq<string>, testOutput: Logging.OutputSink) returns (outcome: Outcome<CompareError>)
    requires i < |xs|
    requires Run(mode, Indexed(name, xs, ys, i)).0 == Pass
    requires testOutput.lines == start + Run(mode, Indexed(name, xs, ys, i)).1
    modifies testOutput
    ensures outcome == Run(mode, Indexed(name, xs, ys, i + 1)).0
    ensures testOutput.lines == start + Run(mode, Indexed(name, xs, ys, i + 1)).1
    ensures outcome.Fail? ==> Run(mode, Indexed(name, xs, ys, |xs|)) == Run(mode, Indexed(name, xs, ys, i + 1))
  {
    if i >= |ys| {
      ComparisonLaws.RunAppend(mode, Indexed(name, xs, ys, i), [OutOfBounds]);
      ComparisonLaws.IndexedPrefix(name, xs, ys, i + 1, |xs|);
      ComparisonLaws.RunPrefix(mode, Indexed(name, xs, ys, i + 1), Indexed(name, xs, ys, |xs|));
      return Fail(IndexOutOfRange);
    }
    var indexLabel := name + "[" + Text.NatToString(i) + "]";
    ghost var l := Leaf(TAB, indexLabel, xs[i], ys[i]);
    ghost var before := Run(mode, Indexed(name, xs, ys, i));
    var passed := CheckLeaf(mode, TAB, indexLabel, xs[i], ys[i], testOutput);
    ComparisonLaws.RunAppend(mode, Indexed(name, xs, ys, i), [Check(l)]);
    ComparisonLaws.RunSingle(mode, l);
    ComparisonLaws.ConcatAssoc(start, before.1, LeafLines(mode, l));
    if !passed {
      ComparisonLaws.IndexedPrefix(name, xs, ys, i + 1, |xs|);
      ComparisonLaws.RunPrefix(mode, Indexed(name, xs, ys, i + 1), Indexed(name, xs, ys, |xs|));
      return Fail(LeafFailed(Leaf(TAB, indexLabel, xs[i], ys[i])));
    }
    outcome := Pass;
  }

  /** `AssertEqual(expected, actual, testOutput)`. */
  method AssertEqual(props: seq<Prop>, expected: Record?, actual: Record?, testOutput: Logging.OutputSink)
      returns (outcome: Outcome<CompareError>)
    requires expected != null ==> |expected.values| == |props|
    requires actual != null ==> |actual.values| == |props|
    modifies testOutput
    ensures var (o, lines) := Compare(AllEqual, props, ValuesOf(expected), ValuesOf(actual), expected == actual);
            outcome == o && testOutput.lines == old(testOutput.lines) + lines
  {
    outcome := AssertProperties(props, expected, actual, AllEqual, testOutput);
  }

  /** `AssertCompletelyUnequal(expected, actual, testOutput)`. */
  method AssertCompletelyUnequal(props: seq<Prop>, expected: Record?, actual: Record?, testOutput: Logging.OutputSink)
      returns (outcome: Outcome<CompareError>)
    requires expected != null ==> |expected.values| == |props|
    requires actual != null ==> |actual.values| == |props|
    modifies testOutput
    ensures var (o, lines) := Compare(AllUnequal, props, ValuesOf(expected), ValuesOf(actual), expected == actual);
            outcome == o && testOutput.lines == old(testOutput.lines) + lines
  {
    outcome := AssertProperties(props, expected, actual, AllUnequal, testOutput);
  }

  /** Two instances of a class with one property, compared with
      `AssertEqual`: they pass exactly when the two values are equal, and
      otherwise fail at the leaf on the whole values (null against a value,
      or collections of different lengths, included). */
  method CompareOneProperty(prop: Prop, a: Val, b: Val) returns (outcome: Outcome<CompareError>)
    ensures outcome == Pass <==> Same(a, b)
    ensures outcome != Pass ==> outcome == Fail(LeafFailed(WholeLeaf(prop, a, b)))
  {
    var obj1 := new Record([a]);
    var obj2 := new Record([b]);
    var testConsole := new Logging.OutputSink();
    outcome := AssertEqual([prop], obj1, obj2, testConsole);
    ComparisonLaws.AssertEqualIff([prop], [a], [b]);
    if !Same(a, b) {
      ComparisonLaws.FirstDifference([prop], [a], [b], 0);
    }
  }
}
