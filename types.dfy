/** What the fixture generator learns from .NET reflection, stated as
    data: the shapes of type it distinguishes and the public instance
    properties of a class, together with the values it can produce. */
module Types {

  /** The types `GenerateSingleValue` tests for by equality, in the order
      of its switch. */
  datatype ScalarKind =
    | String | Float | Double | Decimal
    | ULong | Long | UInt | Int | UShort | Short | Byte | SByte
    | Char | Bool | DateTime | DateTimeOffset

  /** The generic type definitions the member loop recognises (besides `Nullable<>`). */
  datatype GenericDef = IEnumerableOf | ICollectionOf | ListOf

  /** A .NET type as far as the generator can tell it apart. */
  datatype Ty =
    | Nullable(underlying: Ty)
    | Array(element: Ty)
    | Generic(definition: GenericDef, argument: Ty)
    | Scalar(kind: ScalarKind)
    | Enum(enumDecl: EnumDecl)
    | Class(classDecl: ClassDecl)
    /** Any other value type (`Guid`, `TimeSpan`, a user struct, ...). */
    | Struct(name: string)
    /** Any other interface. */
    | Interface(name: string)

  /** An enum; `values` is the array `Enum.GetValues` returns, in its order. */
  datatype EnumDecl = EnumDecl(name: string, values: seq<int>)

  /** A class: whether it has a public parameterless constructor, and its
      public instance properties in the order `GetProperties` lists them. */
  datatype ClassDecl = ClassDecl(name: string, hasParameterlessCtor: bool, members: seq<Member>)

  /** A property: its name, declared type, whether it has a setter, and the
      value the parameterless constructor leaves in it. */
  datatype Member = Member(name: string, ty: Ty, canWrite: bool, initial: Value)

  /** A runtime value. Floating-point values keep only the sample they
      were made from. */
  datatype Value =
    | Null
    | Str(text: string)
    | Integral(integralKind: ScalarKind, n: int)
    | Floating(floatingKind: ScalarKind, sample: int)
    | Boolean(b: bool)
    | DateTimeV(ticks: int)
    | DateTimeOffsetV(localTicks: int, offsetHours: int)
    | EnumV(enumValue: int)
    | ArrayV(arrayElement: Ty, items: seq<Value>)
    | ListV(listElement: Ty, listItems: seq<Value>)
    | Obj(className: string, fields: map<string, Value>)

  /** `typeof(object)`: a class with a parameterless constructor and no
      public instance properties. */
  const ObjectClass: ClassDecl := ClassDecl("Object", true, [])

  /** `Type.IsClass`: strings, arrays, `List<T>` and classes. */
  predicate IsClass(t: Ty)
  {
    match t
    case Scalar(k) => k == String
    case Array(_) => true
    case Generic(def, _) => def == ListOf
    case Class(_) => true
    case _ => false
  }

  /** `type.GetConstructor(Type.EmptyTypes) is not null`, for class types. */
  predicate HasParameterlessCtor(t: Ty)
  {
    match t
    case Generic(def, _) => def == ListOf
    case Class(c) => c.hasParameterlessCtor
    case _ => false
  }

  /** The property values a freshly constructed instance holds. */
  function Defaults(members: seq<Member>): (fields: map<string, Value>)
    ensures forall m :: m in members ==> m.name in fields
    ensures forall k :: k in fields ==> exists m :: m in members && m.name == k
  {
    if members == [] then map[]
    else Defaults(members[..|members| - 1])[members[|members| - 1].name := members[|members| - 1].initial]
  }

  /** Property names are unique within a class. */
  predicate UniqueNames(members: seq<Member>)
  {
    forall i, j :: 0 <= i < j < |members| ==> members[i].name != members[j].name
  }

  /** In a class whose property names are unique, a freshly constructed
      instance holds in every property the value its constructor leaves. */
  lemma {:induction false} DefaultsHold(members: seq<Member>)
    requires UniqueNames(members)
    ensures forall m :: m in members ==> Defaults(members)[m.name] == m.initial
  {
    if members != [] {
      var front, last := members[..|members| - 1], members[|members| - 1];
      assert UniqueNames(front);
      DefaultsHold(front);
      var fields := Defaults(front)[last.name := last.initial];
      assert Defaults(members) == fields;
      forall i | 0 <= i < |members|
        ensures fields[members[i].name] == members[i].initial
      {
        if i < |members| - 1 {
          assert members[i] == front[i];
          assert members[i].name != last.name;
        }
      }
    }
  }

  /** The number of type nodes, counting the properties of classes; the
      measure by which the generator's mutual recursion terminates. */
  function Size(t: Ty): (n: nat)
    ensures n >= 1
    decreases t
  {
    match t
    case Nullable(u) => 1 + Size(u)
    case Array(e) => 1 + Size(e)
    case Generic(_, a) => 1 + Size(a)
    case Class(c) => 1 + MembersSize(c.members)
    case _ => 1
  }

  function MembersSize(members: seq<Member>): nat
    decreases members
  {
    if members == [] then 0 else Size(members[0].ty) + MembersSize(members[1..])
  }

  /** Every property type is smaller than its class. */
  lemma {:induction false} MemberSmaller(members: seq<Member>, k: nat)
    requires k < |members|
    ensures Size(members[k].ty) <= MembersSize(members)
  {
    if k > 0 {
      MemberSmaller(members[1..], k - 1);
    }
  }

  /** How the member loop treats a property type once `Nullable<>` is unwrapped. */
  datatype Shape =
    | AsArray(arrayOf: Ty)
    | AsList(listOf: Ty)
    | AsSingle(single: Ty)

  /** The `Nullable<T>` check, then the array, `IEnumerable<>`,
      `ICollection<>` and `List<>` checks, in the order of the member loop. */
  function ShapeOf(t: Ty): (s: Shape)
    ensures match s
            case AsArray(e) => Size(e) < Size(t)
            case AsList(e) => Size(e) < Size(t)
            case AsSingle(u) => Size(u) <= Size(t)
  {
    var u := if t.Nullable? then t.underlying else t;
    match u
    case Array(e) => AsArray(e)
    case Generic(IEnumerableOf, e) => AsArray(e)
    case Generic(ICollectionOf, e) => AsArray(e)
    case Generic(ListOf, e) => AsList(e)
    case _ => AsSingle(u)
  }
}
