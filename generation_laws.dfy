/** Properties of the generator's specification: the ranges each scalar
    comes from, the error split, enum exclusion, the length rules of
    `GenerateArray` and what `SetProperties` leaves alone. */
module GenerationLaws {
  import opened Wrappers
  import opened Types
  import opened Randomness
  import opened Generation
  import Guids

  // ----- single values ---------------------------------------------------------

  /** Every scalar comes from its fixed range; only `DateTimeOffset` can
      fail, when its UTC time leaves the representable range. */
  lemma ScalarRanges(k: ScalarKind, r: Rng)
    ensures var (res, _) := GenScalar(k, r);
            (res.Success? ==> ScalarConforms(res.value, k))
            && (k != DateTimeOffset ==> res.Success?)
            && (res.Failure? ==> res.error == OutOfRange)
  {
    if k == String {
      var (bytes, _) := DrawBytes(r, 16);
      assert Guids.IsGuidText(Guids.GuidText(bytes));
    }
  }

  /** Enum exclusion: a drawn value is one of the enum's and not excluded,
      and the draw succeeds exactly when some value is left. */
  lemma EnumExclusion(e: EnumDecl, except: seq<int>, r: Rng)
    ensures var (res, r1) := GenEnum(e, except, r);
            r1 == Step(r)
            && (res.Success? ==> res.value in e.values && res.value !in except)
            && (res.Success? <==> exists x :: x in e.values && x !in except)
            && (res.Failure? ==> res.error == OutOfRange)
  {
    var allowed := Allowed(e.values, except);
    if exists x :: x in e.values && x !in except {
      var x :| x in e.values && x !in except;
      assert x in allowed;
    }
  }

  /** When all remaining values are one value, that value is drawn. */
  lemma EnumOnlyChoice(e: EnumDecl, except: seq<int>, x: int, r: Rng)
    requires x in e.values && x !in except
    requires forall y :: y in e.values && y !in except ==> y == x
    ensures GenEnum(e, except, r).0 == Success(x)
  {
    var allowed := Allowed(e.values, except);
    assert x in allowed;
    var i := Draw(r, 0, |allowed|).0;
    var y := allowed[i];
    assert y in allowed;
    assert y in e.values && y !in except;
    assert y == x;
  }

  /** An enum property or element never receives the first value of
      `Enum.GetValues` (nor any value equal to it); an enum without values
      fails before anything is drawn, and one whose values all equal the
      first fails on `ElementAt`. */
  lemma EnumNeverFirst(e: EnumDecl, r: Rng)
    ensures var (res, r1) := GenSingle(Enum(e), r);
            (res.Success? ==> res.value.EnumV? && res.value.enumValue in e.values && res.value.enumValue != e.values[0])
            && (|e.values| == 0 ==> res == Failure(IndexOutOfRange) && r1 == r)
            && (res.Success? <==> NeverFails(Enum(e)))
  {
    if |e.values| > 0 {
      EnumExclusion(e, [e.values[0]], r);
      if NeverFails(Enum(e)) {
        var i :| 0 <= i < |e.values| && e.values[i] != e.values[0];
        assert e.values[i] in e.values;
      }
    }
  }

  /** `GenerateClassInstance(Type)` succeeds exactly for classes with a
      parameterless constructor, and then returns the instance as its
      constructor left it. */
  lemma InstanceSplit(t: Ty)
    ensures GenInstance(t).Success? <==> IsClass(t) && HasParameterlessCtor(t)
    ensures GenInstance(t).Success? ==> Conforms(GenInstance(t).value, t)
    ensures GenInstance(t).Failure? ==> GenInstance(t).error == InvalidArgument(t)
  {
  }

  /** The error split of `GenerateSingleValue`: "not supported" exactly for
      a non-scalar, non-enum, non-class type, an argument error exactly for
      a class without a parameterless constructor; neither draws. */
  lemma ErrorSplit(t: Ty, r: Rng)
    ensures var (res, r1) := GenSingle(t, r);
            (res == Failure(NotSupported(t)) <==> !t.Scalar? && !t.Enum? && !IsClass(t))
            && (res == Failure(InvalidArgument(t)) <==> !t.Scalar? && IsClass(t) && !HasParameterlessCtor(t))
            && (res == Failure(IndexOutOfRange) <==> t.Enum? && |t.enumDecl.values| == 0)
            && (res.Failure? && (res.error.NotSupported? || res.error.InvalidArgument?) ==> r1 == r)
  {
    match t
    case Scalar(k) => ScalarRanges(k, r);
    case Enum(e) => EnumNeverFirst(e, r); EnumExclusion(e, [if |e.values| > 0 then e.values[0] else 0], r);
    case _ =>
  }

  /** Whatever `GenerateSingleValue` returns conforms to the type. */
  lemma SingleConforms(t: Ty, r: Rng)
    ensures var (res, _) := GenSingle(t, r);
            res.Success? ==> Conforms(res.value, t)
    ensures NeverFails(t) ==> GenSingle(t, r).0.Success?
  {
    match t
    case Scalar(k) => ScalarRanges(k, r);
    case Enum(e) => EnumNeverFirst(e, r);
    case _ => InstanceSplit(t);
  }

  // ----- arrays ----------------------------------------------------------------

  // The loop itself, for any draw.

  /** One more slot after a successful prefix. */
  lemma FillStep<T>(draw: Rng -> Gen<T>, i: nat, r: Rng)
    requires Fill(draw, i, r).0.Success?
    ensures var (prefix, r1) := Fill(draw, i, r);
            var (v, r2) := draw(r1);
            Fill(draw, i + 1, r) == (if v.Success? then Success(prefix.value + [v.value]) else Failure(v.error), r2)
  {
  }

  /** Once a slot fails, filling more slots ends with the same failure
      and draws nothing more. */
  lemma {:induction false} FillFailureSticks<T>(draw: Rng -> Gen<T>, n: nat, m: nat, r: Rng)
    requires n <= m
    requires Fill(draw, n, r).0.Failure?
    ensures Fill(draw, m, r) == Fill(draw, n, r)
  {
    if n < m {
      FillFailureSticks(draw, n, m - 1, r);
    }
  }

  /** The first `i` slots of a successful fill are the first `i` filled,
      and slot `i` holds what the draw returns from the state they leave. */
  lemma {:induction false} FillPrefix<T>(draw: Rng -> Gen<T>, i: nat, n: nat, r: Rng)
    requires i < n
    requires Fill(draw, n, r).0.Success?
    ensures Fill(draw, i, r).0.Success?
    ensures var items := Fill(draw, n, r).0.value;
            items[..i] == Fill(draw, i, r).0.value && draw(Fill(draw, i, r).1).0 == Success(items[i])
  {
    var (prefix, r1) := Fill(draw, n - 1, r);
    var items := Fill(draw, n, r).0.value;
    assert items == prefix.value + [items[n - 1]];
    if i < n - 1 {
      FillPrefix(draw, i, n - 1, r);
      assert items[..i] == prefix.value[..i];
    } else {
      assert items[..i] == prefix.value;
    }
  }

  /** The slot in which a failed fill failed. */
  lemma {:induction false} FailingSlot<T>(draw: Rng -> Gen<T>, n: nat, r: Rng) returns (i: nat)
    requires Fill(draw, n, r).0.Failure?
    ensures i < n && Fill(draw, i, r).0.Success?
    ensures draw(Fill(draw, i, r).1).0 == Failure(Fill(draw, n, r).0.error)
  {
    var (prefix, r1) := Fill(draw, n - 1, r);
    if prefix.Failure? {
      i := FailingSlot(draw, n - 1, r);
    } else {
      i := n - 1;
    }
  }

  // The loop of `GenerateArray`.

  /** The first `i` slots of a successful fill are the first `i` slots
      filled, and slot `i` holds what the single-value dispatch returns
      from the state the earlier slots leave. */
  lemma ElementsPrefix(t: Ty, i: nat, n: nat, r: Rng)
    requires i < n
    requires GenElements(t, n, r).0.Success?
    ensures GenElements(t, i, r).0.Success?
    ensures var items := GenElements(t, n, r).0.value;
            items[..i] == GenElements(t, i, r).0.value
            && GenSingle(t, GenElements(t, i, r).1).0 == Success(items[i])
  {
    FillPrefix(SingleDraw(t), i, n, r);
  }

  /** A successful fill has exactly `n` slots, each conforming to the type. */
  lemma ElementsConform(t: Ty, n: nat, r: Rng)
    ensures var (res, _) := GenElements(t, n, r);
            res.Success? ==> |res.value| == n && forall i :: 0 <= i < n ==> Conforms(res.value[i], t)
    ensures NeverFails(t) ==> GenElements(t, n, r).0.Success?
  {
    var res := GenElements(t, n, r).0;
    forall i | 0 <= i < n && res.Success?
      ensures Conforms(res.value[i], t)
    {
      ElementsPrefix(t, i, n, r);
      SingleConforms(t, GenElements(t, i, r).1);
    }
    if NeverFails(t) && res.Failure? {
      var i := FailingSlot(SingleDraw(t), n, r);
      SingleConforms(t, GenElements(t, i, r).1);
    }
  }

  /** One more slot after a successful prefix. */
  lemma ElementsStep(t: Ty, i: nat, r: Rng)
    requires GenElements(t, i, r).0.Success?
    ensures var (prefix, r1) := GenElements(t, i, r);
            var (v, r2) := GenSingle(t, r1);
            GenElements(t, i + 1, r) == (if v.Success? then Success(prefix.value + [v.value]) else Failure(v.error), r2)
  {
    FillStep(SingleDraw(t), i, r);
  }

  /** Once a slot fails, filling more slots ends with the same failure
      and draws nothing more. */
  lemma ElementsFailureSticks(t: Ty, n: nat, m: nat, r: Rng)
    requires n <= m
    requires GenElements(t, n, r).0.Failure?
    ensures GenElements(t, m, r) == GenElements(t, n, r)
  {
    FillFailureSticks(SingleDraw(t), n, m, r);
  }

  /** A failed fill failed in one slot, from the state the slots before it left. */
  lemma ElementsFailureIsSlot(t: Ty, n: nat, r: Rng)
    requires GenElements(t, n, r).0.Failure?
    ensures exists i :: 0 <= i < n && GenElements(t, i, r).0.Success?
              && GenSingle(t, GenElements(t, i, r).1).0 == Failure(GenElements(t, n, r).0.error)
  {
    var i := FailingSlot(SingleDraw(t), n, r);
    assert 0 <= i < n && GenElements(t, i, r).0.Success?
           && GenSingle(t, GenElements(t, i, r).1).0 == Failure(GenElements(t, n, r).0.error);
  }

  /** `GenerateArray` throws `ArgumentOutOfRangeException` without drawing
      when a length is negative or the range is inverted; `maxLength`'s
      default of -1 is always such a case. */
  lemma ArrayBadRange(t: Ty, minLength: int, maxLength: int, r: Rng)
    requires BadRange(minLength, maxLength)
    ensures GenArray(t, minLength, maxLength, r) == (Failure(OutOfRange), r)
    ensures GenArray(t, minLength, -1, r) == (Failure(OutOfRange), r)
  {
  }

  /** On success the length is `minLength` when the bounds agree and in
      `[minLength, maxLength)` otherwise, and every element conforms. */
  lemma ArrayLength(t: Ty, minLength: int, maxLength: int, r: Rng)
    ensures var (res, _) := GenArray(t, minLength, maxLength, r);
            res.Success? ==>
              !BadRange(minLength, maxLength)
              && (minLength == maxLength ==> |res.value| == minLength)
              && (minLength < maxLength ==> minLength <= |res.value| < maxLength)
              && forall i :: 0 <= i < |res.value| ==> Conforms(res.value[i], t)
  {
    if !BadRange(minLength, maxLength) {
      var (length, r1) := Draw(r, minLength, maxLength);
      ElementsConform(t, length, r1);
    }
  }

  /** For an element type that cannot fail, `GenerateArray` succeeds
      exactly when the bounds pass the three checks; otherwise a failure
      with valid bounds is the failure of one element. */
  lemma ArraySucceeds(t: Ty, minLength: int, maxLength: int, r: Rng)
    ensures NeverFails(t) ==> (GenArray(t, minLength, maxLength, r).0.Success? <==> !BadRange(minLength, maxLength))
    ensures var (res, _) := GenArray(t, minLength, maxLength, r);
            !BadRange(minLength, maxLength) && res.Failure? ==> exists r0 :: GenSingle(t, r0).0 == Failure(res.error)
  {
    if !BadRange(minLength, maxLength) {
      var (length, r1) := Draw(r, minLength, maxLength);
      ElementsConform(t, length, r1);
      if GenElements(t, length, r1).0.Failure? {
        ElementsFailureIsSlot(t, length, r1);
        var i :| 0 <= i < length && GenElements(t, i, r1).0.Success?
                 && GenSingle(t, GenElements(t, i, r1).1).0 == Failure(GenElements(t, length, r1).0.error);
        var r0 := GenElements(t, i, r1).1;
        assert GenSingle(t, r0).0 == Failure(GenArray(t, minLength, maxLength, r).0.error);
      }
    }
  }

  // ----- properties ------------------------------------------------------------

  /** After `Nullable<>` unwrapping, an array, `IEnumerable<>`, `ICollection<>`
      or `List<>` property receives exactly ten conforming elements, and any
      other property a value conforming to its type. */
  lemma MemberValueConforms(t: Ty, r: Rng)
    ensures var (res, _) := GenMemberValue(t, r);
            res.Success? ==> MemberConforms(res.value, t)
  {
    match ShapeOf(t)
    case AsArray(e) => ArrayLength(e, COLLECTION_LENGTH, COLLECTION_LENGTH, r);
    case AsList(e) => ArrayLength(e, COLLECTION_LENGTH, COLLECTION_LENGTH, r);
    case AsSingle(u) => SingleConforms(u, r);
  }

  /** The names the member loop may assign. */
  function EligibleNames(members: seq<Member>, except: seq<string>): (names: set<string>)
    ensures forall k :: k in names <==> exists m :: m in members && Eligible(m, except) && m.name == k
  {
    if members == [] then {}
    else (if Eligible(members[0], except) then {members[0].name} else {}) + EligibleNames(members[1..], except)
  }

  /** `SetProperties` leaves every excluded, read-only or undeclared
      property as it was, whether it completes or throws, and adds no
      property other than the assigned ones. */
  lemma {:induction false} PopulateLeavesOthers(members: seq<Member>, except: seq<string>, hasTarget: bool,
                                                fields: map<string, Value>, r: Rng)
    ensures var (_, fields', _) := Populate(members, except, hasTarget, fields, r);
            (forall k :: k in fields && k !in EligibleNames(members, except) ==> k in fields' && fields'[k] == fields[k])
            && (forall k :: k in fields' ==> k in fields || k in EligibleNames(members, except))
  {
    if members != [] {
      var m := members[0];
      if !Eligible(m, except) {
        PopulateLeavesOthers(members[1..], except, hasTarget, fields, r);
      } else {
        var (res, r1) := GenMemberValue(m.ty, r);
        if res.Success? && hasTarget {
          PopulateLeavesOthers(members[1..], except, hasTarget, fields[m.name := res.value], r1);
        }
      }
    }
  }

  /** When `SetProperties` completes on a target with unique property
      names, every assigned property holds a value conforming to its type. */
  lemma {:induction false} PopulateConforms(members: seq<Member>, except: seq<string>,
                                            fields: map<string, Value>, r: Rng)
    requires UniqueNames(members)
    ensures var (outcome, fields', _) := Populate(members, except, true, fields, r);
            outcome == Pass ==>
              forall i :: 0 <= i < |members| && Eligible(members[i], except) ==>
                members[i].name in fields' && MemberConforms(fields'[members[i].name], members[i].ty)
  {
    if members != [] {
      var m := members[0];
      var rest := members[1..];
      assert UniqueNames(rest);
      if !Eligible(m, except) {
        PopulateConforms(rest, except, fields, r);
        forall i | 0 < i < |members| ensures members[i] == rest[i - 1] { }
      } else {
        var (res, r1) := GenMemberValue(m.ty, r);
        if res.Success? {
          var next := fields[m.name := res.value];
          MemberValueConforms(m.ty, r);
          PopulateConforms(rest, except, next, r1);
          PopulateLeavesOthers(rest, except, true, next, r1);
          assert m.name !in EligibleNames(rest, except) by {
            forall j | 0 <= j < |rest| ensures rest[j].name != m.name {
              assert rest[j] == members[j + 1];
            }
          }
          forall i | 0 < i < |members| ensures members[i] == rest[i - 1] { }
        }
      }
    }
  }

  /** On a null target `SetProperties` completes, drawing nothing, exactly
      when no property is eligible; otherwise it throws. */
  lemma {:induction false} PopulateNullTarget(members: seq<Member>, except: seq<string>,
                                              fields: map<string, Value>, r: Rng)
    ensures var (outcome, _, r') := Populate(members, except, false, fields, r);
            (outcome == Pass <==> EligibleNames(members, except) == {})
            && (outcome == Pass ==> r' == r)
  {
    if members != [] {
      if !Eligible(members[0], except) {
        PopulateNullTarget(members[1..], except, fields, r);
      } else {
        assert members[0].name in EligibleNames(members, except);
      }
    }
  }

  /** Through the `object` view nothing is visited: no property changes
      and nothing is drawn. */
  lemma ObjectViewChangesNothing(except: seq<string>, hasTarget: bool, fields: map<string, Value>, r: Rng)
    ensures Populate(ObjectClass.members, except, hasTarget, fields, r) == (Pass, fields, r)
  {
  }
}
