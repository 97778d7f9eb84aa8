/** `AutoProperties`: fills objects and arrays with values drawn from an
    owned random source. Every method is proved to compute what the
    functions of `Generation` say, so the laws proved about those carry
    over. */
module Fixtures {
  import opened Wrappers
  import opened Types
  import opened Randomness
  import opened Generation
  import GenerationLaws
  import Guids

  /** An object built by a parameterless constructor; `fields` maps each
      public property to its current value. */
  class Instance {
    const decl: ClassDecl
    var fields: map<string, Value>

    /** `Activator.CreateInstance(type)` / `new T()`. */
    constructor(decl: ClassDecl)
      ensures this.decl == decl && fields == Defaults(decl.members)
    {
      this.decl := decl;
      fields := Defaults(decl.members);
    }
  }

  class AutoProperties {
    /** `_rand`. */
    var rand: RandomSource

    /** `new AutoProperties(rand)`: a null `rand` means a fresh source
        seeded with `DEFAULT_RAND_SEED`; a given one is shared, not copied. */
    constructor(rand: RandomSource?)
      ensures rand != null ==> this.rand == rand
      ensures rand == null ==> fresh(this.rand) && this.rand.rng == Seeded(DEFAULT_RAND_SEED)
    {
      if rand == null {
        this.rand := new RandomSource(DEFAULT_RAND_SEED);
      } else {
        this.rand := rand;
      }
    }

    /** `ResetRandom(seed = DEFAULT_RAND_SEED)`: replaces the source. */
    method ResetRandom(seed: int := DEFAULT_RAND_SEED)
      modifies this
      ensures fresh(rand) && rand.rng == Seeded(seed)
    {
      rand := new RandomSource(seed);
    }

    /** `GenerateGuid()`: the sixteen bytes `NextBytes` fills. */
    method GenerateGuid() returns (guid: seq<Byte>)
      modifies rand
      ensures (guid, rand.rng) == DrawBytes(old(rand.rng), 16)
    {
      var data := new Byte[16];
      rand.NextBytes(data);
      guid := data[..];
    }

    /** `GenerateString()`: the "D" text of a generated GUID. */
    method GenerateString() returns (s: string)
      modifies rand
      ensures (Str(s), rand.rng) == GenString(old(rand.rng))
      ensures Guids.IsGuidText(s)
    {
      var guid := GenerateGuid();
      s := Guids.GuidText(guid);
    }

    /** `GetRandomEnum<TEnum>(except)`. */
    method GetRandomEnum(e: EnumDecl, except: seq<int>) returns (res: Result<int, Error>)
      modifies rand
      ensures (res, rand.rng) == GenEnum(e, except, old(rand.rng))
    {
      res := GetRandomEnumOfType(Enum(e), except);
    }

    /** `GetRandomEnum(enumType, except)`: `Enum.GetValues` rejects a
        non-enum type before anything is drawn. */
    method GetRandomEnumOfType(enumType: Ty, except: seq<int>) returns (res: Result<int, Error>)
      modifies rand
      ensures enumType.Enum? ==> (res, rand.rng) == GenEnum(enumType.enumDecl, except, old(rand.rng))
      ensures !enumType.Enum? ==> res == Failure(InvalidArgument(enumType)) && rand.rng == old(rand.rng)
    {
      if !enumType.Enum? {
        return Failure(InvalidArgument(enumType));
      }
      var allowed := Allowed(enumType.enumDecl.values, except);
      var i := rand.Next(0, |allowed|);
      if i < |allowed| {
        res := Success(allowed[i]);
      } else {
        res := Failure(OutOfRange);
      }
    }

    /** `GenerateClassInstance<T>()`: `new T()`, then `SetProperties` through
        `T`'s own properties. */
    method GenerateClassInstanceOf(decl: ClassDecl) returns (res: Result<Instance, Error>)
      requires decl.hasParameterlessCtor
      modifies rand
      ensures var (outcome, fields, rng) := Populate(decl.members, [], true, Defaults(decl.members), old(rand.rng));
              rand.rng == rng
              && (outcome == Pass ==> res.Success? && fresh(res.value) && res.value.decl == decl && res.value.fields == fields)
              && (outcome.Fail? ==> res == Failure(outcome.error))
    {
      var result := new Instance(decl);
      var outcome := SetProperties(decl, result, []);
      if outcome.Fail? {
        return Failure(outcome.error);
      }
      res := Success(result);
    }

    /** `GenerateClassInstance(type)`: the class and constructor check,
        `Activator.CreateInstance`, then `SetProperties` with the instance
        typed `object`, which visits no property. */
    method GenerateClassInstance(t: Ty) returns (res: Result<Value, Error>)
      modifies rand
      decreases Size(t), 1
      ensures res == GenInstance(t) && rand.rng == old(rand.rng)
    {
      if !IsClass(t) || !HasParameterlessCtor(t) {
        return Failure(InvalidArgument(t));
      }
      match t
      case Class(c) =>
        var obj := new Instance(c);
        GenerationLaws.ObjectViewChangesNothing([], true, obj.fields, rand.rng);
        var outcome := SetProperties(ObjectClass, obj, []);
        res := Success(Obj(c.name, obj.fields));
      case Generic(_, a) =>
        // A new `List<T>`; its own properties are not visited either.
        res := Success(ListV(a, []));
      case _ =>
        assert false;
    }

    /** `SetProperties<T>(target, exceptProperties)`: `view` is `typeof(T)`.
        Each writable, non-excluded property of the view is assigned in
        order; an exception ends the loop with the earlier assignments made. */
    method SetProperties(view: ClassDecl, target: Instance?, exceptProperties: seq<string>) returns (outcome: Outcome<Error>)
      modifies rand, target
      decreases Size(Class(view)), 0
      ensures target != null ==>
                (outcome, target.fields, rand.rng)
                == Populate(view.members, exceptProperties, true, old(target.fields), old(rand.rng))
      ensures target == null ==>
                var (o, _, rng) := Populate(view.members, exceptProperties, false, map[], old(rand.rng));
                outcome == o && rand.rng == rng
    {
      var properties := view.members;
      ghost var start := Populate(properties, exceptProperties, target != null,
                                  if target != null then target.fields else map[], rand.rng);
      for i := 0 to |properties|
        invariant start == Populate(properties[i..], exceptProperties, target != null,
                                     if target != null then target.fields else map[], rand.rng)
      {
        var prop := properties[i];
        assert properties[i..][0] == prop && properties[i..][1..] == properties[i + 1..];
        if prop.name in exceptProperties || !prop.canWrite {
          continue;
        }
        Types.MemberSmaller(properties, i);
        var value := GeneratePropertyValue(prop.ty);
        if value.Failure? {
          return Fail(value.error);
        }
        if target == null {
          return Fail(TargetMissing);
        }
        target.fields := target.fields[prop.name := value.value];
      }
      outcome := Pass;
    }

    /** The branch of the member loop that produces the value for a
        property of type `propertyType`, `Nullable<>` unwrapped first. */
    method GeneratePropertyValue(propertyType: Ty) returns (value: Result<Value, Error>)
      modifies rand
      decreases Size(propertyType), 7
      ensures (value, rand.rng) == GenMemberValue(propertyType, old(rand.rng))
    {
      var t := propertyType;
      if t.Nullable? {
        t := t.underlying;
      }
      assert Size(t) <= Size(propertyType);
      if t.Array? {
        var items := GenerateArrayOfLength(t.element, COLLECTION_LENGTH);
        value := if items.Success? then Success(ArrayV(t.element, items.value)) else Failure(items.error);
      } else if t.Generic? && t.definition == IEnumerableOf {
        var items := GenerateArrayOfLength(t.argument, COLLECTION_LENGTH);
        value := if items.Success? then Success(ArrayV(t.argument, items.value)) else Failure(items.error);
      } else if t.Generic? && t.definition == ICollectionOf {
        var items := GenerateArrayOfLength(t.argument, COLLECTION_LENGTH);
        value := if items.Success? then Success(ArrayV(t.argument, items.value)) else Failure(items.error);
      } else if t.Generic? && t.definition == ListOf {
        var items := GenerateArrayOfLength(t.argument, COLLECTION_LENGTH);
        value := if items.Success? then Success(ListV(t.argument, items.value)) else Failure(items.error);
      } else {
        value := GenerateSingleValue(t);
      }
    }

    /** `GenerateArray<TElement>(length)` and `GenerateArray(elementType, length)`. */
    method GenerateArrayOfLength(elementType: Ty, length: int) returns (res: Result<seq<Value>, Error>)
      modifies rand
      decreases Size(elementType), 6
      ensures (res, rand.rng) == GenArray(elementType, length, length, old(rand.rng))
    {
      res := GenerateArray(elementType, length, length);
    }

    /** `GenerateArray<TElement>(minLength, maxLength = -1)` and
        `GenerateArray(elementType, minLength, maxLength)`: the three range
        checks, one length draw, then one single-value draw per slot. */
    method GenerateArray(elementType: Ty, minLength: int, maxLength: int := -1) returns (res: Result<seq<Value>, Error>)
      modifies rand
      decreases Size(elementType), 5
      ensures (res, rand.rng) == GenArray(elementType, minLength, maxLength, old(rand.rng))
    {
      if minLength < 0 || maxLength < 0 || maxLength - minLength < 0 {
        return Failure(OutOfRange);
      }
      var length := rand.Next(minLength, maxLength);
      var result := new Value[length](_ => Null);
      res := FillSlots(elementType, result);
    }

    /** The `for` loop of `GenerateArray`: `SetValue(GenerateSingleValue(elementType), i)`
        for every slot in turn; the first exception leaves the array unreturned. */
    method FillSlots(elementType: Ty, result: array<Value>) returns (res: Result<seq<Value>, Error>)
      modifies rand, result
      decreases Size(elementType), 4
      ensures (res, rand.rng) == GenElements(elementType, result.Length, old(rand.rng))
    {
      ghost var start := rand.rng;
      for i := 0 to result.Length
        invariant GenElements(elementType, i, start) == (Success(result[..i]), rand.rng)
      {
        var failure := FillSlot(elementType, result, i, start);
        if failure.Some? {
          GenerationLaws.ElementsFailureSticks(elementType, i + 1, result.Length, start);
          return Failure(failure.value);
        }
      }
      assert result[..result.Length] == result[..];
      res := Success(result[..]);
    }

    /** One round of that loop: the value for slot `i`, stored there unless
        generating it threw. */
    method FillSlot(elementType: Ty, result: array<Value>, i: nat, ghost start: Rng) returns (failure: Option<Error>)
      requires i < result.Length
      requires GenElements(elementType, i, start) == (Success(result[..i]), rand.rng)
      modifies rand, result
      decreases Size(elementType), 3
      ensures failure.None? ==> GenElements(elementType, i + 1, start) == (Success(result[..i + 1]), rand.rng)
      ensures failure.Some? ==> GenElements(elementType, i + 1, start) == (Failure(failure.value), rand.rng)
    {
      GenerationLaws.ElementsStep(elementType, i, start);
      var value := GenerateSingleValue(elementType);
      if value.Failure? {
        return Some(value.error);
      }
      result[i] := value.value;
      assert result[..i + 1] == old(result[..i]) + [value.value];
      failure := Option.None;
    }

    /** `GenerateSingleValue(elementType)`: the scalar arms, then enums,
        then classes; anything else is not supported. */
    method GenerateSingleValue(elementType: Ty) returns (res: Result<Value, Error>)
      modifies rand
      decreases Size(elementType), 2
      ensures (res, rand.rng) == GenSingle(elementType, old(rand.rng))
    {
      if elementType.Scalar? {
        res := GenerateScalar(elementType.kind);
      } else if elementType.Enum? {
        var first := DefaultEnumValue(elementType.enumDecl);
        if first.Failure? {
          return Failure(first.error);
        }
        var n := GetRandomEnumOfType(elementType, [first.value]);
        res := if n.Success? then Success(EnumV(n.value)) else Failure(n.error);
      } else if IsClass(elementType) {
        res := GenerateClassInstance(elementType);
      } else {
        res := Failure(NotSupported(elementType));
      }
    }

    /** The arms of `GenerateSingleValue` that compare against a fixed type. */
    method GenerateScalar(k: ScalarKind) returns (res: Result<Value, Error>)
      modifies rand
      ensures (res, rand.rng) == GenScalar(k, old(rand.rng))
    {
      if k == String {
        var s := GenerateString();
        res := Success(Str(s));
      } else if IsFloating(k) {
        var sample := rand.NextDouble();
        res := Success(Floating(k, sample));
      } else if k == Bool {
        var n := rand.Next(0, 2);
        res := Success(Boolean(n == 1));
      } else if k == DateTime {
        var ticks := rand.Next(0, MAX_TICKS);
        res := Success(DateTimeV(ticks));
      } else if k == DateTimeOffset {
        var ticks := rand.Next(0, MAX_TICKS);
        var hours := rand.Next(-12, 12);
        if 0 <= ticks - hours * TICKS_PER_HOUR <= MAX_TICKS {
          res := Success(DateTimeOffsetV(ticks, hours));
        } else {
          res := Failure(OutOfRange);
        }
      } else {
        var range := IntegralRange(k);
        var n := rand.Next(range.0, range.1);
        res := Success(Integral(k, n));
      }
    }
  }

  // ----- the repeatability the generator promises ----------------------------

  /** The fields of a generated instance, or the exception that ended it. */
  function FieldsOf(res: Result<Instance, Error>): Result<map<string, Value>, Error>
    reads if res.Success? then {res.value} else {}
  {
    if res.Success? then Success(res.value.fields) else Failure(res.error)
  }

  /** Two generators built without a source generate the same instance
      and leave their sources in the same state, and every property they
      assign holds a value of its type. */
  method RepeatableAcrossInstances(decl: ClassDecl) returns (a: Result<map<string, Value>, Error>, b: Result<map<string, Value>, Error>, stateA: Rng, stateB: Rng)
    requires decl.hasParameterlessCtor
    ensures a == b && stateA == stateB
    ensures a.Success? && UniqueNames(decl.members) ==>
              forall i :: 0 <= i < |decl.members| && Eligible(decl.members[i], []) ==>
                decl.members[i].name in a.value && MemberConforms(a.value[decl.members[i].name], decl.members[i].ty)
  {
    var autoPropsA := new AutoProperties(null);
    var autoPropsB := new AutoProperties(null);
    var resultA := autoPropsA.GenerateClassInstanceOf(decl);
    var resultB := autoPropsB.GenerateClassInstanceOf(decl);
    a, b := FieldsOf(resultA), FieldsOf(resultB);
    stateA, stateB := autoPropsA.rand.rng, autoPropsB.rand.rng;
    if UniqueNames(decl.members) {
      GenerationLaws.PopulateConforms(decl.members, [], Defaults(decl.members), Seeded(DEFAULT_RAND_SEED));
    }
  }

  /** `ResetRandom()` makes a generator repeat the instance it generated
      first, ending with its source in the same state. */
  method RepeatableAfterReset(decl: ClassDecl) returns (a: Result<map<string, Value>, Error>, b: Result<map<string, Value>, Error>, stateA: Rng, stateB: Rng)
    requires decl.hasParameterlessCtor
    ensures a == b && stateA == stateB
  {
    var autoProps := new AutoProperties(null);
    var resultA := autoProps.GenerateClassInstanceOf(decl);
    a, stateA := FieldsOf(resultA), autoProps.rand.rng;
    autoProps.ResetRandom();
    var resultB := autoProps.GenerateClassInstanceOf(decl);
    b, stateB := FieldsOf(resultB), autoProps.rand.rng;
  }

  /** Excluding every value but `x` leaves `x` as the only choice, whatever
      the seed. */
  method OnlyRemainingEnumValue(e: EnumDecl, x: int, seed: int) returns (value: Result<int, Error>)
    requires x in e.values
    ensures value == Success(x)
  {
    var rand := new RandomSource(seed);
    var unitUnderTest := new AutoProperties(rand);
    var except := Allowed(e.values, [x]);
    value := unitUnderTest.GetRandomEnum(e, except);
    GenerationLaws.EnumOnlyChoice(e, except, x, Seeded(seed));
  }
}
