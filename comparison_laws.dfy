/** What the comparison promises: how a run ends, which leaves it
    checks, and when `AssertEqual` and `AssertCompletelyUnequal` pass. */
module ComparisonLaws {
  import opened Wrappers
  import opened Comparison
  import Text

  // ----- running steps --------------------------------------------------------

  /** Running two batches of steps is running the first, and the second
      only when the first passed. */
  lemma {:induction false} RunAppend(mode: Mode, s1: seq<Step>, s2: seq<Step>)
    ensures Run(mode, s1 + s2)
            == if Run(mode, s1).0 == Pass then (Run(mode, s2).0, Run(mode, s1).1 + Run(mode, s2).1)
               else Run(mode, s1)
  {
    if s1 == [] {
      assert s1 + s2 == s2;
      assert Run(mode, s1).1 + Run(mode, s2).1 == Run(mode, s2).1;
    } else {
      assert (s1 + s2)[0] == s1[0] && (s1 + s2)[1..] == s1[1..] + s2;
      RunAppend(mode, s1[1..], s2);
      if s1[0].Check? && Passes(mode, s1[0].leaf) {
        var first, rest, next := LeafLines(mode, s1[0].leaf), Run(mode, s1[1..]).1, Run(mode, s2).1;
        assert first + (rest + next) == (first + rest) + next;
      }
    }
  }

  /** A single check. */
  lemma RunSingle(mode: Mode, l: Leaf)
    ensures Run(mode, [Check(l)]) == (if Passes(mode, l) then Pass else Fail(LeafFailed(l)), LeafLines(mode, l))
  {
    assert [Check(l)][1..] == [];
    assert LeafLines(mode, l) + [] == LeafLines(mode, l);
  }

  /** Two batches pass together exactly when each passes, and neither
      indexes past an end when neither does alone. */
  lemma RunAppendOutcome(mode: Mode, s1: seq<Step>, s2: seq<Step>)
    ensures Run(mode, s1 + s2).0 == Pass <==> Run(mode, s1).0 == Pass && Run(mode, s2).0 == Pass
    ensures Run(mode, s1).0 != Fail(IndexOutOfRange) && Run(mode, s2).0 != Fail(IndexOutOfRange) ==>
              Run(mode, s1 + s2).0 != Fail(IndexOutOfRange)
  {
    RunAppend(mode, s1, s2);
  }

  /** Once a prefix of the steps has failed, the rest is never reached. */
  lemma RunPrefix(mode: Mode, s1: seq<Step>, s2: seq<Step>)
    requires s1 <= s2 && Run(mode, s1).0 != Pass
    ensures Run(mode, s2) == Run(mode, s1)
  {
    assert s2 == s1 + s2[|s1|..];
    RunAppend(mode, s1, s2[|s1|..]);
  }

  /** A run passes exactly when every step is a check that passes; then it
      writes three lines per check. */
  lemma {:induction false} RunPassIff(mode: Mode, s: seq<Step>)
    ensures Run(mode, s).0 == Pass <==> forall i :: 0 <= i < |s| ==> s[i].Check? && Passes(mode, s[i].leaf)
    ensures Run(mode, s).0 == Pass ==> |Run(mode, s).1| == 3 * |s|
  {
    if s != [] {
      RunPassIff(mode, s[1..]);
      assert forall i :: 1 <= i < |s| ==> s[1..][i - 1] == s[i];
    }
  }

  /** A run that fails stops at one step: every step before it passed, and
      that step is an index past the end or a check that did not pass
      (whose header is the last line written). */
  lemma RunFailure(mode: Mode, s: seq<Step>)
    requires Run(mode, s).0 != Pass
    ensures exists i :: 0 <= i < |s|
              && (forall j :: 0 <= j < i ==> s[j].Check? && Passes(mode, s[j].leaf))
              && (if s[i].OutOfBounds? then Run(mode, s).0 == Fail(IndexOutOfRange)
                  else !Passes(mode, s[i].leaf) && Run(mode, s).0 == Fail(LeafFailed(s[i].leaf))
                       && Run(mode, s).1[|Run(mode, s).1| - 1] == Header(s[i].leaf))
  {
    var i := FailingStep(mode, s);
    assert 0 <= i < |s|
              && (forall j :: 0 <= j < i ==> s[j].Check? && Passes(mode, s[j].leaf))
              && (if s[i].OutOfBounds? then Run(mode, s).0 == Fail(IndexOutOfRange)
                  else !Passes(mode, s[i].leaf) && Run(mode, s).0 == Fail(LeafFailed(s[i].leaf))
                       && Run(mode, s).1[|Run(mode, s).1| - 1] == Header(s[i].leaf));
  }

  /** The step at which a failing run stops. */
  lemma {:induction false} FailingStep(mode: Mode, s: seq<Step>) returns (i: nat)
    requires Run(mode, s).0 != Pass
    ensures i < |s|
    ensures forall j :: 0 <= j < i ==> s[j].Check? && Passes(mode, s[j].leaf)
    ensures s[i].OutOfBounds? ==> Run(mode, s).0 == Fail(IndexOutOfRange)
    ensures s[i].Check? ==> !Passes(mode, s[i].leaf) && Run(mode, s).0 == Fail(LeafFailed(s[i].leaf))
                            && |Run(mode, s).1| > 0 && Run(mode, s).1[|Run(mode, s).1| - 1] == Header(s[i].leaf)
  {
    if s[0].Check? && Passes(mode, s[0].leaf) {
      var rest := Run(mode, s[1..]);
      var k := FailingStep(mode, s[1..]);
      i := k + 1;
      assert s[i] == s[1..][k];
      assert forall j :: 1 <= j < i ==> s[j] == s[1..][j - 1];
      assert Run(mode, s).1 == LeafLines(mode, s[0].leaf) + rest.1;
    } else {
      i := 0;
    }
  }

  /** Steps that only check never index past an end. */
  lemma {:induction false} ChecksNeverOutOfBounds(mode: Mode, s: seq<Step>)
    requires forall i :: 0 <= i < |s| ==> s[i].Check?
    ensures Run(mode, s).0 != Fail(IndexOutOfRange)
  {
    if s != [] {
      assert forall i :: 0 <= i < |s[1..]| ==> s[1..][i] == s[i + 1];
      ChecksNeverOutOfBounds(mode, s[1..]);
    }
  }

  // ----- which leaves are checked ---------------------------------------------

  lemma {:induction false} LockstepShape(name: string, xs: seq<Val>, ys: seq<Val>, n: nat)
    requires n <= |xs| && n <= |ys|
    ensures forall k :: 0 <= k < n ==> Lockstep(name, xs, ys, n)[k] == Check(Leaf(TAB, name, xs[k], ys[k]))
  {
    if n > 0 {
      LockstepShape(name, xs, ys, n - 1);
    }
  }

  lemma {:induction false} IndexedShape(name: string, xs: seq<Val>, ys: seq<Val>, n: nat)
    requires n <= |xs|
    ensures forall k :: 0 <= k < n ==>
              Indexed(name, xs, ys, n)[k]
              == if k < |ys| then Check(Leaf(TAB, name + "[" + Text.NatToString(k) + "]", xs[k], ys[k])) else OutOfBounds
  {
    if n > 0 {
      IndexedShape(name, xs, ys, n - 1);
    }
  }

  /** One level only: besides the leaf on the whole values, a property's
      leaves compare the items of the two collections at equal positions,
      indented by a tab; nothing is compared when either value is null. Two
      reference sequences are compared up to the shorter one, a declared
      array up to the expected one's end. */
  lemma ElementLeaves(p: Prop, a: Val, b: Val)
    ensures var e := ElementSteps(p, a, b);
            (a.Null? || b.Null? ==> e == [])
            && (!a.Null? && !b.Null? && IsReferenceSequence(a) && IsReferenceSequence(b) ==>
                  |e| == Min(|a.items|, |b.items|)
                  && forall k :: 0 <= k < |e| ==> e[k] == Check(Leaf(TAB, p.name, a.items[k], b.items[k])))
            && (!(IsReferenceSequence(a) && IsReferenceSequence(b)) && p.declaredArray && a.Coll? && b.Coll? ==>
                  |e| == |a.items|
                  && forall k :: 0 <= k < |e| ==>
                       e[k] == if k < |b.items| then Check(Leaf(TAB, p.name + "[" + Text.NatToString(k) + "]", a.items[k], b.items[k]))
                               else OutOfBounds)
            && (!(a.Coll? && b.Coll? && ((IsReferenceSequence(a) && IsReferenceSequence(b)) || p.declaredArray)) ==> e == [])
  {
    if a.Coll? && b.Coll? {
      LockstepShape(p.name, a.items, b.items, Min(|a.items|, |b.items|));
      IndexedShape(p.name, a.items, b.items, |a.items|);
    }
  }

  /** Equal values have equal items at every position and as many of them,
      so every element leaf is a check of equal values. */
  lemma ElementsOfSame(p: Prop, a: Val, b: Val)
    requires Same(a, b)
    ensures forall i :: 0 <= i < |ElementSteps(p, a, b)| ==>
              ElementSteps(p, a, b)[i].Check? && Same(ElementSteps(p, a, b)[i].leaf.expected, ElementSteps(p, a, b)[i].leaf.actual)
  {
    ElementLeaves(p, a, b);
  }

  // ----- prefixes of the plan --------------------------------------------------

  lemma {:induction false} LockstepPrefix(name: string, xs: seq<Val>, ys: seq<Val>, k: nat, n: nat)
    requires k <= n <= |xs| && n <= |ys|
    ensures Lockstep(name, xs, ys, k) <= Lockstep(name, xs, ys, n)
  {
    if k < n {
      LockstepPrefix(name, xs, ys, k, n - 1);
      PrefixExtend(Lockstep(name, xs, ys, k), Lockstep(name, xs, ys, n - 1), [Check(Leaf(TAB, name, xs[n - 1], ys[n - 1]))]);
    }
  }

  lemma {:induction false} IndexedPrefix(name: string, xs: seq<Val>, ys: seq<Val>, k: nat, n: nat)
    requires k <= n <= |xs|
    ensures Indexed(name, xs, ys, k) <= Indexed(name, xs, ys, n)
  {
    if k < n {
      IndexedPrefix(name, xs, ys, k, n - 1);
      var last := Indexed(name, xs, ys, n)[n - 1..];
      assert Indexed(name, xs, ys, n) == Indexed(name, xs, ys, n - 1) + last;
      PrefixExtend(Indexed(name, xs, ys, k), Indexed(name, xs, ys, n - 1), last);
    }
  }

  /** Running the plan property by property is running it in one go. */
  lemma {:induction false} RunPropertiesIsRun(mode: Mode, props: seq<Prop>, ev: seq<Val>, av: seq<Val>, n: nat)
    requires n <= |props| && |ev| == |props| && |av| == |props|
    ensures RunProperties(mode, props, ev, av, n) == Run(mode, Plan(props, ev, av, n))
  {
    if n > 0 {
      RunPropertiesIsRun(mode, props, ev, av, n - 1);
      var before, member := Plan(props, ev, av, n - 1), MemberSteps(props[n - 1], ev[n - 1], av[n - 1]);
      assert Plan(props, ev, av, n) == before + member;
      RunAppend(mode, before, member);
    }
  }

  /** The run of `n` properties: that of the first `n - 1`, then, if they
      passed, that of the last one; it passes exactly when both do, and
      indexes past an end only when one of them does. */
  lemma RunPropertiesStep(mode: Mode, props: seq<Prop>, ev: seq<Val>, av: seq<Val>, n: nat)
    requires 0 < n <= |props| && |ev| == |props| && |av| == |props|
    ensures var previous, member := RunProperties(mode, props, ev, av, n - 1),
                                    Run(mode, MemberSteps(props[n - 1], ev[n - 1], av[n - 1]));
            (previous.0 == Pass ==> RunProperties(mode, props, ev, av, n) == (member.0, previous.1 + member.1))
            && (previous.0 != Pass ==> RunProperties(mode, props, ev, av, n) == previous)
            && (RunProperties(mode, props, ev, av, n).0 == Pass <==> previous.0 == Pass && member.0 == Pass)
            && (previous.0 != Fail(IndexOutOfRange) && member.0 != Fail(IndexOutOfRange) ==>
                  RunProperties(mode, props, ev, av, n).0 != Fail(IndexOutOfRange))
  {
  }

  /** A property that fails ends the run of all of them. */
  lemma {:induction false} RunPropertiesStops(mode: Mode, props: seq<Prop>, ev: seq<Val>, av: seq<Val>, k: nat, n: nat)
    requires k <= n <= |props| && |ev| == |props| && |av| == |props|
    requires RunProperties(mode, props, ev, av, k).0 != Pass
    ensures RunProperties(mode, props, ev, av, n) == RunProperties(mode, props, ev, av, k)
  {
    if k < n {
      RunPropertiesStops(mode, props, ev, av, k, n - 1);
    }
  }

  /** Steps taken partway through property `i` are a prefix of the whole plan. */
  lemma ConcatAssoc<T>(a: seq<T>, b: seq<T>, c: seq<T>)
    ensures a + b + c == a + (b + c)
  {
  }

  lemma PrefixExtend<T>(a: seq<T>, b: seq<T>, c: seq<T>)
    requires a <= b
    ensures a <= b + c
  {
    assert (b + c)[..|b|] == b;
    PrefixTransitive(a, b, b + c);
  }

  lemma PrefixTransitive<T>(a: seq<T>, b: seq<T>, c: seq<T>)
    requires a <= b && b <= c
    ensures a <= c
  {
    assert c[..|a|] == c[..|b|][..|a|];
  }

  // ----- what the two entry points decide --------------------------------------

  /** Under `AssertEqual` a property passes exactly when its two values are
      equal, and it never indexes past an array's end. */
  lemma MemberEqualIff(p: Prop, a: Val, b: Val)
    ensures Run(AllEqual, MemberSteps(p, a, b)).0 == Pass <==> Same(a, b)
    ensures Run(AllEqual, MemberSteps(p, a, b)).0 != Fail(IndexOutOfRange)
  {
    var whole := [Check(WholeLeaf(p, a, b))];
    var elements := ElementSteps(p, a, b);
    RunAppend(AllEqual, whole, elements);
    if Same(a, b) {
      ElementsOfSame(p, a, b);
      RunPassIff(AllEqual, elements);
      ChecksNeverOutOfBounds(AllEqual, elements);
    }
  }

  /** The first `n` properties hold equal values in the two instances. */
  predicate SameUpTo(ev: seq<Val>, av: seq<Val>, n: nat)
    requires n <= |ev| && n <= |av|
  {
    n == 0 || (SameUpTo(ev, av, n - 1) && Same(ev[n - 1], av[n - 1]))
  }

  lemma {:induction false} SameUpToIff(ev: seq<Val>, av: seq<Val>, n: nat)
    requires n <= |ev| && n <= |av|
    ensures SameUpTo(ev, av, n) <==> forall i :: 0 <= i < n ==> Same(ev[i], av[i])
  {
    if n > 0 {
      SameUpToIff(ev, av, n - 1);
      if !SameUpTo(ev, av, n) && SameUpTo(ev, av, n - 1) {
        assert !Same(ev[n - 1], av[n - 1]);
      }
    }
  }

  /** `AssertEqual` passes over the first `n` properties exactly when each of
      them holds equal values in the two instances, and it never ends by
      indexing past an array's end. */
  lemma {:induction false} PropertiesEqualIff(props: seq<Prop>, ev: seq<Val>, av: seq<Val>, n: nat)
    requires n <= |props| && |ev| == |props| && |av| == |props|
    ensures RunProperties(AllEqual, props, ev, av, n).0 == Pass <==> SameUpTo(ev, av, n)
    ensures RunProperties(AllEqual, props, ev, av, n).0 != Fail(IndexOutOfRange)
  {
    if n > 0 {
      PropertiesEqualIff(props, ev, av, n - 1);
      MemberEqualIff(props[n - 1], ev[n - 1], av[n - 1]);
      RunPropertiesStep(AllEqual, props, ev, av, n);
    }
  }

  /** `AssertEqual` of two distinct, non-null instances passes exactly when
      every property holds equal values, and then writes three lines per
      leaf. */
  lemma AssertEqualIff(props: seq<Prop>, ev: seq<Val>, av: seq<Val>)
    requires |ev| == |props| && |av| == |props|
    ensures var (outcome, lines) := Compare(AllEqual, props, Some(ev), Some(av), false);
            (outcome == Pass <==> forall i :: 0 <= i < |props| ==> Same(ev[i], av[i]))
            && (outcome == Pass ==> |lines| == 3 * |Plan(props, ev, av, |props|)|)
            && outcome != Fail(IndexOutOfRange)
  {
    PropertiesEqualIff(props, ev, av, |props|);
    SameUpToIff(ev, av, |props|);
    RunPropertiesIsRun(AllEqual, props, ev, av, |props|);
    RunPassIff(AllEqual, Plan(props, ev, av, |props|));
  }

  /** The first property whose values differ is where `AssertEqual` fails:
      at the leaf on its whole values, before any of its elements. Values
      of which one is null, and collections of different lengths, are such
      properties. */
  lemma FirstDifference(props: seq<Prop>, ev: seq<Val>, av: seq<Val>, i: nat)
    requires |ev| == |props| && |av| == |props| && i < |props|
    requires forall j :: 0 <= j < i ==> Same(ev[j], av[j])
    requires !Same(ev[i], av[i])
    ensures Compare(AllEqual, props, Some(ev), Some(av), false).0 == Fail(LeafFailed(WholeLeaf(props[i], ev[i], av[i])))
  {
    PropertiesEqualIff(props, ev, av, i);
    SameUpToIff(ev, av, i);
    DifferenceStops(props, ev, av, i);
    RunPropertiesIsRun(AllEqual, props, ev, av, |props|);
  }

  /** Once the first `i` properties passed, a property whose values differ
      ends the run at its whole-value leaf. */
  lemma DifferenceStops(props: seq<Prop>, ev: seq<Val>, av: seq<Val>, i: nat)
    requires |ev| == |props| && |av| == |props| && i < |props|
    requires RunProperties(AllEqual, props, ev, av, i).0 == Pass
    requires !Same(ev[i], av[i])
    ensures RunProperties(AllEqual, props, ev, av, |props|).0 == Fail(LeafFailed(WholeLeaf(props[i], ev[i], av[i])))
  {
    var whole := WholeLeaf(props[i], ev[i], av[i]);
    RunAppend(AllEqual, [Check(whole)], ElementSteps(props[i], ev[i], av[i]));
    RunSingle(AllEqual, whole);
    RunPropertiesStep(AllEqual, props, ev, av, i + 1);
    RunPropertiesStops(AllEqual, props, ev, av, i + 1, |props|);
  }

  /** Under `AssertCompletelyUnequal` a property passes only when its two
      values differ and, for two reference sequences, items at equal
      positions differ as far as the shorter one goes. */
  lemma MemberUnequalSound(p: Prop, a: Val, b: Val)
    requires Run(AllUnequal, MemberSteps(p, a, b)).0 == Pass
    ensures !Same(a, b)
    ensures IsReferenceSequence(a) && IsReferenceSequence(b) ==>
              forall k :: 0 <= k < |a.items| && k < |b.items| ==> !Same(a.items[k], b.items[k])
  {
    RunPassIff(AllUnequal, MemberSteps(p, a, b));
    assert MemberSteps(p, a, b)[0] == Check(WholeLeaf(p, a, b));
    ElementLeaves(p, a, b);
    if IsReferenceSequence(a) && IsReferenceSequence(b) {
      forall k | 0 <= k < |a.items| && k < |b.items|
        ensures !Same(a.items[k], b.items[k])
      {
        assert MemberSteps(p, a, b)[k + 1] == ElementSteps(p, a, b)[k];
      }
    }
  }

  /** A run of the whole plan that passes passed every property's steps. */
  lemma PlanMemberPasses(mode: Mode, props: seq<Prop>, ev: seq<Val>, av: seq<Val>, i: nat)
    requires i < |props| && |ev| == |props| && |av| == |props|
    requires Run(mode, Plan(props, ev, av, |props|)).0 == Pass
    ensures Run(mode, MemberSteps(props[i], ev[i], av[i])).0 == Pass
  {
    RunPropertiesIsRun(mode, props, ev, av, |props|);
    RunPropertiesStep(mode, props, ev, av, i + 1);
    if RunProperties(mode, props, ev, av, i + 1).0 != Pass {
      RunPropertiesStops(mode, props, ev, av, i + 1, |props|);
    }
  }

  /** `AssertCompletelyUnequal` of two distinct, non-null instances passes
      only when every property holds different values and, for two
      reference sequences, items at equal positions differ as far as the
      shorter one goes. */
  lemma AssertCompletelyUnequalSound(props: seq<Prop>, ev: seq<Val>, av: seq<Val>)
    requires |ev| == |props| && |av| == |props|
    requires Compare(AllUnequal, props, Some(ev), Some(av), false).0 == Pass
    ensures forall i :: 0 <= i < |props| ==> !Same(ev[i], av[i])
    ensures forall i :: 0 <= i < |props| && IsReferenceSequence(ev[i]) && IsReferenceSequence(av[i]) ==>
              forall k :: 0 <= k < |ev[i].items| && k < |av[i].items| ==> !Same(ev[i].items[k], av[i].items[k])
  {
    forall i | 0 <= i < |props|
      ensures !Same(ev[i], av[i])
      ensures IsReferenceSequence(ev[i]) && IsReferenceSequence(av[i]) ==>
                forall k :: 0 <= k < |ev[i].items| && k < |av[i].items| ==> !Same(ev[i].items[k], av[i].items[k])
    {
      PlanMemberPasses(AllUnequal, props, ev, av, i);
      MemberUnequalSound(props[i], ev[i], av[i]);
    }
  }

  /** Under `AssertCompletelyUnequal`, a declared array whose actual value
      is shorter than the expected one, with all items up to that length
      different, ends in `IndexOutOfRangeException`: the index loop runs to
      the expected array's end. */
  lemma UnequalShorterArrayThrows(p: Prop, a: Val, b: Val)
    requires p.declaredArray && a.Coll? && b.Coll?
    requires !a.referenceElements && |b.items| < |a.items|
    requires forall k :: 0 <= k < |b.items| ==> !Same(a.items[k], b.items[k])
    ensures Run(AllUnequal, MemberSteps(p, a, b)).0 == Fail(IndexOutOfRange)
  {
    var xs, ys := a.items, b.items;
    var m := |ys|;
    var elements := ElementSteps(p, a, b);
    assert elements == Indexed(p.name, xs, ys, |xs|);
    IndexedUnequalPasses(p.name, xs, ys, m);
    assert Indexed(p.name, xs, ys, m + 1) == Indexed(p.name, xs, ys, m) + [OutOfBounds];
    RunAppend(AllUnequal, Indexed(p.name, xs, ys, m), [OutOfBounds]);
    IndexedPrefix(p.name, xs, ys, m + 1, |xs|);
    RunPrefix(AllUnequal, Indexed(p.name, xs, ys, m + 1), elements);
    RunSingle(AllUnequal, WholeLeaf(p, a, b));
    RunAppend(AllUnequal, [Check(WholeLeaf(p, a, b))], elements);
  }

  /** Index rounds over items that all differ pass `AssertCompletelyUnequal`. */
  lemma {:induction false} IndexedUnequalPasses(name: string, xs: seq<Val>, ys: seq<Val>, m: nat)
    requires m <= |xs| && m <= |ys|
    requires forall k :: 0 <= k < m ==> !Same(xs[k], ys[k])
    ensures Run(AllUnequal, Indexed(name, xs, ys, m)).0 == Pass
  {
    if m > 0 {
      IndexedUnequalPasses(name, xs, ys, m - 1);
      var l := Leaf(TAB, name + "[" + Text.NatToString(m - 1) + "]", xs[m - 1], ys[m - 1]);
      assert Indexed(name, xs, ys, m) == Indexed(name, xs, ys, m - 1) + [Check(l)];
      RunSingle(AllUnequal, l);
      RunAppendOutcome(AllUnequal, Indexed(name, xs, ys, m - 1), [Check(l)]);
    }
  }

  /** Comparing an instance with itself fails before anything is written;
      a null instance against another one fails on its first property. */
  lemma ComparePreconditions(mode: Mode, props: seq<Prop>, expected: Option<seq<Val>>, actual: Option<seq<Val>>)
    requires expected.Some? ==> |expected.value| == |props|
    requires actual.Some? ==> |actual.value| == |props|
    ensures Compare(mode, props, expected, actual, true) == (Fail(SameInstance), [])
    ensures expected.None? || actual.None? ==>
              Compare(mode, props, expected, actual, false) == (if props == [] then Pass else Fail(TargetMissing), [])
  {
  }
}
