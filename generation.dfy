/** What `AutoProperties` computes, as functions of the type and of the
    random state: each one returns the value (or the exception that
    aborts the call) together with the state the draws leave behind.
    The class in `AutoProperties` is proved to compute exactly these. */
module Generation {
  import opened Wrappers
  import opened Types
  import opened Randomness
  import Guids

  /** The exceptions an `AutoProperties` call can end with. */
  datatype Error =
    /** `NotSupportedException` from the last arm of `GenerateSingleValue`. */
    | NotSupported(unsupported: Ty)
    /** `ArgumentException`: the type is not a class with a parameterless constructor. */
    | InvalidArgument(argument: Ty)
    /** `ArgumentOutOfRangeException`: a negative or inverted length range, `ElementAt`
        on no remaining enum value, or a `DateTimeOffset` whose UTC time is out of range. */
    | OutOfRange
    /** `IndexOutOfRangeException`: the first value of an enum without values. */
    | IndexOutOfRange
    /** `TargetException`: a property set on a null target. */
    | TargetMissing

  /** A result and the random state after it. */
  type Gen<T> = (Result<T, Error>, Rng)

  const DEFAULT_RAND_SEED: int := 0
  const INT_MIN: int := -2147483648
  const INT_MAX: int := 2147483647
  /** `DateTime.MaxValue.Ticks`; `DateTime.MinValue.Ticks` is 0. */
  const MAX_TICKS: int := 3155378975999999999
  const TICKS_PER_HOUR: int := 36000000000
  /** The length of every generated collection property. */
  const COLLECTION_LENGTH: nat := 10

  predicate IsFloating(k: ScalarKind)
  {
    k == Float || k == Double || k == Decimal
  }

  predicate IsIntegral(k: ScalarKind)
  {
    !(k == String || IsFloating(k) || k == Bool || k == DateTime || k == DateTimeOffset)
  }

  /** The half-open range each integral arm draws from: `Next()` for the
      three wide unsigned and long types, `Next(int.MinValue, int.MaxValue)`
      for `int`, `Next(Max)` for `ushort` and `byte`, `Next(byte.MaxValue)`
      for `char`, and
      `Next(Min, Max)` for `short` and `sbyte`. */
  function IntegralRange(k: ScalarKind): (range: (int, int))
    requires IsIntegral(k)
    ensures range.0 < range.1
  {
    match k
    case ULong => (0, INT_MAX)
    case Long => (0, INT_MAX)
    case UInt => (0, INT_MAX)
    case Int => (INT_MIN, INT_MAX)
    case UShort => (0, 65535)
    case Short => (-32768, 32767)
    case Byte => (0, 255)
    case SByte => (-128, 127)
    case Char => (0, 255)
  }

  /** `GenerateString()`: the text of a GUID made of sixteen drawn bytes. */
  function GenString(r: Rng): (Value, Rng)
  {
    var (bytes, r1) := DrawBytes(r, 16);
    (Str(Guids.GuidText(bytes)), r1)
  }

  /** The scalar arms of `GenerateSingleValue`. */
  function GenScalar(k: ScalarKind, r: Rng): Gen<Value>
  {
    if k == String then
      var (v, r1) := GenString(r);
      (Success(v), r1)
    else if IsFloating(k) then
      var (sample, r1) := Sample(r);
      (Success(Floating(k, sample)), r1)
    else if k == Bool then
      var (n, r1) := Draw(r, 0, 2);
      (Success(Boolean(n == 1)), r1)
    else if k == DateTime then
      var (ticks, r1) := Draw(r, 0, MAX_TICKS);
      (Success(DateTimeV(ticks)), r1)
    else if k == DateTimeOffset then
      var (ticks, r1) := Draw(r, 0, MAX_TICKS);
      var (hours, r2) := Draw(r1, -12, 12);
      var utc := ticks - hours * TICKS_PER_HOUR;
      if 0 <= utc <= MAX_TICKS then (Success(DateTimeOffsetV(ticks, hours)), r2)
      else (Failure(OutOfRange), r2)
    else
      var (lo, hi) := IntegralRange(k);
      var (n, r1) := Draw(r, lo, hi);
      (Success(Integral(k, n)), r1)
  }

  /** The enum values not named in `except`, in their order. */
  function Allowed(values: seq<int>, except: seq<int>): (allowed: seq<int>)
    ensures forall x :: x in allowed <==> x in values && x !in except
  {
    if values == [] then []
    else (if values[0] in except then [] else [values[0]]) + Allowed(values[1..], except)
  }

  /** `GetRandomEnum(enumType, except)`: one draw from `Next(0, count)`, then
      `ElementAt`, which throws when nothing is left. */
  function GenEnum(e: EnumDecl, except: seq<int>, r: Rng): Gen<int>
  {
    var allowed := Allowed(e.values, except);
    var (i, r1) := Draw(r, 0, |allowed|);
    if i < |allowed| then (Success(allowed[i]), r1) else (Failure(OutOfRange), r1)
  }

  /** `GetDefaultEnumValue`: `Enum.GetValues(t).GetValue(0)`. */
  function DefaultEnumValue(e: EnumDecl): Result<int, Error>
  {
    if |e.values| == 0 then Failure(IndexOutOfRange) else Success(e.values[0])
  }

  /** `GenerateClassInstance(Type)`: the constructed instance with the
      properties its constructor left. `SetProperties` runs through the
      `object` view, so nothing is generated and nothing is drawn. */
  function GenInstance(t: Ty): Result<Value, Error>
  {
    if !IsClass(t) || !HasParameterlessCtor(t) then Failure(InvalidArgument(t))
    else match t
      case Class(c) => Success(Obj(c.name, Defaults(c.members)))
      case Generic(_, a) => Success(ListV(a, []))
      case _ => Failure(InvalidArgument(t))
  }

  /** `GenerateSingleValue(t)`. */
  function GenSingle(t: Ty, r: Rng): Gen<Value>
  {
    match t
    case Scalar(k) => GenScalar(k, r)
    case Enum(e) =>
      (match DefaultEnumValue(e)
       case Failure(err) => (Failure(err), r)
       case Success(first) =>
         var (res, r1) := GenEnum(e, [first], r);
         (match res case Success(n) => Success(EnumV(n)) case Failure(err) => Failure(err), r1))
    case _ => if IsClass(t) then (GenInstance(t), r) else (Failure(NotSupported(t)), r)
  }

  /** The first `n` rounds of a loop that takes one draw per slot, filled
      front to back; the first failing draw ends the loop. */
  function Fill<T>(draw: Rng -> Gen<T>, n: nat, r: Rng): (g: Gen<seq<T>>)
    ensures g.0.Success? ==> |g.0.value| == n
  {
    if n == 0 then (Success([]), r)
    else
      var (prefix, r1) := Fill(draw, n - 1, r);
      match prefix
      case Failure(err) => (Failure(err), r1)
      case Success(items) =>
        var (v, r2) := draw(r1);
        match v
        case Failure(err) => (Failure(err), r2)
        case Success(x) => (Success(items + [x]), r2)
  }

  /** `GenerateSingleValue(t)` as a draw. */
  function SingleDraw(t: Ty): Rng -> Gen<Value>
  {
    r => GenSingle(t, r)
  }

  /** The first `n` slots of the array loop of `GenerateArray`. */
  function GenElements(t: Ty, n: nat, r: Rng): Gen<seq<Value>>
  {
    Fill(SingleDraw(t), n, r)
  }

  /** The three argument checks of `GenerateArray`. */
  predicate BadRange(minLength: int, maxLength: int)
  {
    minLength < 0 || maxLength < 0 || maxLength - minLength < 0
  }

  /** `GenerateArray(elementType, minLength, maxLength)`: the items of the
      array it returns. */
  function GenArray(t: Ty, minLength: int, maxLength: int, r: Rng): Gen<seq<Value>>
  {
    if BadRange(minLength, maxLength) then (Failure(OutOfRange), r)
    else
      var (length, r1) := Draw(r, minLength, maxLength);
      GenElements(t, length, r1)
  }

  /** The value the member loop assigns to a property of type `t`. */
  function GenMemberValue(t: Ty, r: Rng): Gen<Value>
  {
    match ShapeOf(t)
    case AsArray(e) =>
      var (res, r1) := GenArray(e, COLLECTION_LENGTH, COLLECTION_LENGTH, r);
      (match res case Success(items) => Success(ArrayV(e, items)) case Failure(err) => Failure(err), r1)
    case AsList(e) =>
      var (res, r1) := GenArray(e, COLLECTION_LENGTH, COLLECTION_LENGTH, r);
      (match res case Success(items) => Success(ListV(e, items)) case Failure(err) => Failure(err), r1)
    case AsSingle(u) => GenSingle(u, r)
  }

  /** Whether the member loop assigns the property. */
  predicate Eligible(m: Member, except: seq<string>)
  {
    m.name !in except && m.canWrite
  }

  /** `SetProperties` over `members`, from the target's `fields` (when
      `hasTarget`) and state `r`: the outcome, the fields and the state at
      the end. A failing member ends the loop with the members before it
      already assigned; the first assignment to a null target throws. */
  function Populate(members: seq<Member>, except: seq<string>, hasTarget: bool,
                    fields: map<string, Value>, r: Rng): (Outcome<Error>, map<string, Value>, Rng)
  {
    if members == [] then (Pass, fields, r)
    else if !Eligible(members[0], except) then Populate(members[1..], except, hasTarget, fields, r)
    else
      var (res, r1) := GenMemberValue(members[0].ty, r);
      match res
      case Failure(err) => (Fail(err), fields, r1)
      case Success(v) =>
        if !hasTarget then (Fail(TargetMissing), fields, r1)
        else Populate(members[1..], except, hasTarget, fields[members[0].name := v], r1)
  }

  // ----- what a generated value looks like -----------------------------------

  predicate ScalarConforms(v: Value, k: ScalarKind)
  {
    if k == String then v.Str? && Guids.IsGuidText(v.text)
    else if IsFloating(k) then v.Floating? && v.floatingKind == k
    else if k == Bool then v.Boolean?
    else if k == DateTime then v.DateTimeV? && 0 <= v.ticks < MAX_TICKS
    else if k == DateTimeOffset then
      v.DateTimeOffsetV? && 0 <= v.localTicks < MAX_TICKS && -12 <= v.offsetHours < 12
      && 0 <= v.localTicks - v.offsetHours * TICKS_PER_HOUR <= MAX_TICKS
    else v.Integral? && v.integralKind == k && IntegralRange(k).0 <= v.n < IntegralRange(k).1
  }

  /** `v` is a value `GenerateSingleValue(t)` can return. */
  predicate Conforms(v: Value, t: Ty)
  {
    match t
    case Scalar(k) => ScalarConforms(v, k)
    case Enum(e) => v.EnumV? && |e.values| > 0 && v.enumValue in e.values && v.enumValue != e.values[0]
    case Class(c) => v == Obj(c.name, Defaults(c.members))
    case Generic(def, a) => def == ListOf && v == ListV(a, [])
    case _ => false
  }

  /** `v` is a value the member loop can assign to a property of type `t`:
      collections hold exactly ten conforming elements. */
  predicate MemberConforms(v: Value, t: Ty)
  {
    match ShapeOf(t)
    case AsArray(e) => v.ArrayV? && v.arrayElement == e && |v.items| == COLLECTION_LENGTH
                       && forall i :: 0 <= i < |v.items| ==> Conforms(v.items[i], e)
    case AsList(e) => v.ListV? && v.listElement == e && |v.listItems| == COLLECTION_LENGTH
                      && forall i :: 0 <= i < |v.listItems| ==> Conforms(v.listItems[i], e)
    case AsSingle(u) => Conforms(v, u)
  }

  /** A type for which `GenerateSingleValue` cannot fail. */
  predicate NeverFails(t: Ty)
  {
    match t
    case Scalar(k) => k != DateTimeOffset
    case Enum(e) => exists i :: 0 <= i < |e.values| && e.values[i] != e.values[0]
    case _ => IsClass(t) && HasParameterlessCtor(t)
  }
}
