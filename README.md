# ErikForwerk.TestAbstractions in Dafny

A model of the core of the `ErikForwerk.TestAbstractions` library. The library
holds helpers for xUnit tests. The model covers these parts:

- **`AutoProperties`** is a fixture generator. It fills the writable public
  properties of an object, and arrays, with values drawn from a
  deterministic random source.
- **`CompareHelper`** compares two instances property by property, one level
  deep. It has two entry points: `AssertEqual` and `AssertCompletelyUnequal`.
- **`TestStringExtensions.EscapeTestOutput`** makes CR, LF and TAB visible.
- **`TestBase`** holds the `B` formatter, the `<null>` and `<empty>`
  sentinels, and the failure messages of the `FailTest` family.
- **`TestOutputLogger`** and **`TestLogger`** are two small `ILogger`s. The
  first writes indented lines to a test output. The second records messages
  and an in-scope flag.

## Layout

| file | module | what it holds |
|---|---|---|
| `wrappers.dfy` | `Wrappers` | `Option`, `Result` and `Outcome` |
| `text.dfy` | `Text` | the .NET string operations the core relies on: `Replace`, `Split` on one character, `Join`, decimal printing |
| `randomness.dfy` | `Randomness` | the random source: a pure state `Rng`, its draws, and the class `RandomSource` standing for `System.Random` |
| `guids.dfy` | `Guids` | the `"D"` text of a `Guid` made of sixteen bytes |
| `types.dfy` | `Types` | reflection stated as data: the kinds of type the generator tells apart, classes with their properties, and runtime values |
| `generation.dfy`, `generation_laws.dfy` | `Generation`, `GenerationLaws` | what each `AutoProperties` operation computes, as functions of the type and the random state, and the laws proved about them |
| `auto_properties.dfy` | `Fixtures` | the class `AutoProperties`: imperative, with the array loop and the property loop. Every method is proved to compute what `Generation` says |
| `comparison.dfy`, `comparison_laws.dfy` | `Comparison`, `ComparisonLaws` | the comparison as a plan of leaf checks and the run of that plan (outcome and output lines), with its laws |
| `compare_helper.dfy` | `CompareHelper` | the imperative comparison: the property `foreach`, the enumerator `while` and the index `for`, writing to an output sink. Every method is proved to do what `Comparison` says |
| `test_string_extensions.dfy` | `TestStringExtensions` | `EscapeTestOutput` |
| `test_base.dfy` | `TestBase` | `B`, the sentinels and the `FailTest` messages |
| `logging.dfy` | `Logging` | log levels, event ids and the output sink (`ITestOutputHelper`) |
| `output_logging.dfy` | `OutputLogging` | the classes `TestOutputLogger` and `IndentionScope` |
| `message_logging.dfy` | `MessageLogging` | the classes `TestLogger` and `ScopeTracker` |

Each stateful source class is a Dafny `class` whose methods carry
`modifies` clauses. Each such method is proved against a pure function of
the old state. For example, `AutoProperties.GenerateArray` returns exactly
`Generation.GenArray` of the old random state, and leaves the state that
function gives. The laws are then proved about those functions.

## Model

| member | source | states |
|---|---|---|
| Randomness.Draw | ErikForwerk.TestAbstractions/Tools/AutoProperties.cs:145 | `Next(lo, hi)` returns `lo` when the bounds agree and a value in `[lo, hi)` otherwise; a draw advances the state by exactly one step |
| Randomness.Sample | ErikForwerk.TestAbstractions/Tools/AutoProperties.cs:161-163 | `NextDouble` is one step of the source; its sample is kept opaque |
| Randomness.DrawByte | ErikForwerk.TestAbstractions/Tools/AutoProperties.cs:28 | one byte of `NextBytes` is one step of the source |
| Randomness.DrawBytes | ErikForwerk.TestAbstractions/Tools/AutoProperties.cs:27-28 | `NextBytes` fills exactly as many bytes as the buffer holds |
| Randomness.DrawBytesSteps | ErikForwerk.TestAbstractions/Tools/AutoProperties.cs:27-28 | filling `n` bytes advances the source by exactly `n` steps |
| Randomness.RandomSource.constructor | ErikForwerk.TestAbstractions/Tools/AutoProperties.cs:15 | `new Random(seed)` starts from the state the seed determines |
| Randomness.RandomSource.Next | ErikForwerk.TestAbstractions/Tools/AutoProperties.cs:145 | the method returns the draw of `Draw` and moves the source to the state after it |
| Randomness.RandomSource.NextDouble | ErikForwerk.TestAbstractions/Tools/AutoProperties.cs:162 | the method returns the sample of `Sample` and moves the source on |
| Randomness.RandomSource.NextBytes | ErikForwerk.TestAbstractions/Tools/AutoProperties.cs:28 | the buffer's whole new contents and the new state are those of `DrawBytes` for the buffer's length |
| Guids.Hex | ErikForwerk.TestAbstractions/Tools/AutoProperties.cs:30 | two lower-case hex digits per byte |
| Guids.GuidText | ErikForwerk.TestAbstractions/Tools/AutoProperties.cs:30-34 | the text of a `Guid` made of sixteen bytes has 36 characters: hyphens at positions 8, 13, 18 and 23, and hex digits everywhere else |
| Guids.GuidGroups | ErikForwerk.TestAbstractions/Tools/AutoProperties.cs:30 | the five groups are the hex of bytes 3..0, the hex of bytes 5,4, the hex of bytes 7,6, the hex of bytes 8..9 and the hex of bytes 10..15 |
| Guids.GuidTextInjective | ErikForwerk.TestAbstractions/Tools/AutoProperties.cs:33-34 | different byte sequences give different strings, so a generated string determines the sixteen bytes drawn for it |
| Guids.HexInjective | ErikForwerk.TestAbstractions/Tools/AutoProperties.cs:30 | equal hex texts of equal length come from equal bytes |
| Types.Defaults | ErikForwerk.TestAbstractions/Tools/AutoProperties.cs:73 | a freshly constructed instance holds a value for every declared property, and for no other name |
| Types.DefaultsHold | ErikForwerk.TestAbstractions/Tools/AutoProperties.cs:73 | when the property names are unique, every property of a freshly constructed instance holds the value its constructor leaves there |
| Types.ShapeOf | ErikForwerk.TestAbstractions/Tools/AutoProperties.cs:92-122 | the element type of a collection shape is strictly smaller than the property type, and a single value is no larger, so the generator's recursion terminates; which shape each property type takes is stated by `GenerationLaws.MemberValueConforms` |
| Generation.IntegralRange | ErikForwerk.TestAbstractions/Tools/AutoProperties.cs:165-174 | every integral arm draws from a non-empty half-open range: `[0, int.MaxValue)` for `ulong`, `long` and `uint`; `[int.MinValue, int.MaxValue)` for `int`; `[0, Max)` for `ushort` and `byte`; `[0, byte.MaxValue)` for `char`; `[Min, Max)` for `short` and `sbyte` |
| Generation.Allowed | ErikForwerk.TestAbstractions/Tools/AutoProperties.cs:43-47 | the values kept are exactly the enum's values that are not excluded |
| Generation.Fill | ErikForwerk.TestAbstractions/Tools/AutoProperties.cs:149-150 | a loop of `n` successful draws holds exactly `n` items |
| GenerationLaws.ScalarRanges | ErikForwerk.TestAbstractions/Tools/AutoProperties.cs:159-178 | each scalar arm gives a value of its kind from its fixed range: a GUID text for `string`, ticks in `[0, MaxTicks)`, offset hours in `[-12, 12)`. Only `DateTimeOffset` can fail, with an out-of-range error, when its UTC time leaves the representable range |
| GenerationLaws.EnumExclusion | ErikForwerk.TestAbstractions/Tools/AutoProperties.cs:41-51 | a drawn enum value is one of the enum's values and never an excluded one; the call succeeds exactly when some value remains, and otherwise `ElementAt` fails with an out-of-range error |
| GenerationLaws.EnumOnlyChoice | ErikForwerk.TestAbstractions/Tools/AutoProperties.cs:43-50 | when exactly one value remains it is chosen, whatever the random state |
| GenerationLaws.EnumNeverFirst | ErikForwerk.TestAbstractions/Tools/AutoProperties.cs:188-199 | an enum property or element never receives the first value of the enum. An enum without values fails with an index-out-of-range error before anything is drawn. Generation succeeds exactly when some value differs from the first |
| GenerationLaws.InstanceSplit | ErikForwerk.TestAbstractions/Tools/AutoProperties.cs:67-77 | `GenerateClassInstance(Type)` succeeds exactly for a class with a parameterless constructor, and otherwise fails with an argument error naming the type; on success the instance holds its constructor's values |
| GenerationLaws.ErrorSplit | ErikForwerk.TestAbstractions/Tools/AutoProperties.cs:188-191 | in `GenerateSingleValue`, "not supported" comes exactly from a type that is not a scalar, not an enum and not a class; an argument error comes exactly from a class without a parameterless constructor; an index-out-of-range error comes exactly from an empty enum. The first two draw nothing |
| GenerationLaws.SingleConforms | ErikForwerk.TestAbstractions/Tools/AutoProperties.cs:155-192 | every value `GenerateSingleValue` returns conforms to its type, and the types that cannot fail never do |
| GenerationLaws.FillStep | ErikForwerk.TestAbstractions/Tools/AutoProperties.cs:149-150 | after a successful prefix, one more round appends the next draw, or ends with its failure |
| GenerationLaws.FillFailureSticks | ErikForwerk.TestAbstractions/Tools/AutoProperties.cs:149-150 | once a draw has failed, later rounds change neither the result nor the state |
| GenerationLaws.FillPrefix | ErikForwerk.TestAbstractions/Tools/AutoProperties.cs:149-150 | in a successful loop, slot `i` holds the draw made from the state the first `i` rounds left |
| GenerationLaws.FailingSlot | ErikForwerk.TestAbstractions/Tools/AutoProperties.cs:149-150 | a failing loop fails at one slot: the slots before it succeeded, and the draw at that slot fails with the loop's error |
| GenerationLaws.ElementsPrefix | ErikForwerk.TestAbstractions/Tools/AutoProperties.cs:149-150 | every slot of a generated array holds `GenerateSingleValue` of the element type, drawn after the slots before it |
| GenerationLaws.ElementsConform | ErikForwerk.TestAbstractions/Tools/AutoProperties.cs:149-150 | every slot conforms to the element type, and an element type that cannot fail fills every slot |
| GenerationLaws.ElementsStep | ErikForwerk.TestAbstractions/Tools/AutoProperties.cs:150 | one round of the array loop appends one single value, or ends with its failure |
| GenerationLaws.ElementsFailureSticks | ErikForwerk.TestAbstractions/Tools/AutoProperties.cs:149-150 | the first failing slot ends the array call |
| GenerationLaws.ElementsFailureIsSlot | ErikForwerk.TestAbstractions/Tools/AutoProperties.cs:149-150 | a failing array loop fails with the error of one slot's single value |
| GenerationLaws.ArrayBadRange | ErikForwerk.TestAbstractions/Tools/AutoProperties.cs:139-143 | a negative `minLength` or `maxLength`, or `maxLength < minLength`, fails with an out-of-range error, draws nothing and returns nothing. So does every call that leaves `maxLength` at its default of -1 |
| GenerationLaws.ArrayLength | ErikForwerk.TestAbstractions/Tools/AutoProperties.cs:139-153 | a successful array has valid bounds. Its length is exactly `minLength` when the bounds agree, and lies in `[minLength, maxLength)` otherwise. Every element conforms to the element type |
| GenerationLaws.ArraySucceeds | ErikForwerk.TestAbstractions/Tools/AutoProperties.cs:139-153 | for an element type that cannot fail, the call succeeds exactly when the bounds pass the three checks; with valid bounds, every failure is the failure of a single value |
| GenerationLaws.MemberValueConforms | ErikForwerk.TestAbstractions/Tools/AutoProperties.cs:91-126 | after `Nullable<>` unwrapping, an array, `IEnumerable<>`, `ICollection<>` or `List<>` property receives exactly ten conforming elements of the argument type; any other property receives a value conforming to its type |
| GenerationLaws.EligibleNames | ErikForwerk.TestAbstractions/Tools/AutoProperties.cs:88-89 | the names the loop may assign are exactly those of writable, non-excluded properties |
| GenerationLaws.PopulateLeavesOthers | ErikForwerk.TestAbstractions/Tools/AutoProperties.cs:84-89 | every excluded or read-only property keeps its value, whether the loop completes or throws, and no other property is added |
| GenerationLaws.PopulateConforms | ErikForwerk.TestAbstractions/Tools/AutoProperties.cs:84-127 | when the loop completes, every writable, non-excluded property holds a value conforming to its type |
| GenerationLaws.PopulateNullTarget | ErikForwerk.TestAbstractions/Tools/AutoProperties.cs:84-127 | on a null target the loop completes exactly when no property is eligible, and then draws nothing; otherwise it throws |
| GenerationLaws.ObjectViewChangesNothing | ErikForwerk.TestAbstractions/Tools/AutoProperties.cs:73-81 | through the `object` view no property is visited: nothing changes and nothing is drawn |
| Fixtures.Instance.constructor | ErikForwerk.TestAbstractions/Tools/AutoProperties.cs:73 | `Activator.CreateInstance`, or `new T()`, leaves the constructor's default values |
| Fixtures.AutoProperties.constructor | ErikForwerk.TestAbstractions/Tools/AutoProperties.cs:8-15 | a supplied `Random` is kept; without one, a fresh source is seeded with `DEFAULT_RAND_SEED`, which is 0 |
| Fixtures.AutoProperties.ResetRandom | ErikForwerk.TestAbstractions/Tools/AutoProperties.cs:22-23 | the source is replaced by a fresh one seeded with the given seed, 0 by default |
| Fixtures.AutoProperties.GenerateGuid | ErikForwerk.TestAbstractions/Tools/AutoProperties.cs:25-31 | the sixteen bytes of one `NextBytes` |
| Fixtures.AutoProperties.GenerateString | ErikForwerk.TestAbstractions/Tools/AutoProperties.cs:33-34 | the method returns the text of a generated GUID, which is a well-formed GUID text |
| Fixtures.AutoProperties.GetRandomEnum | ErikForwerk.TestAbstractions/Tools/AutoProperties.cs:36-39 | `GenEnum` of the enum and the exclusions, and the state after its one draw |
| Fixtures.AutoProperties.GetRandomEnumOfType | ErikForwerk.TestAbstractions/Tools/AutoProperties.cs:41-51 | as `GetRandomEnum` for an enum type; `Enum.GetValues` rejects any other type with an argument error, before any draw |
| Fixtures.AutoProperties.GenerateClassInstanceOf | ErikForwerk.TestAbstractions/Tools/AutoProperties.cs:58-65 | `new T()`, then `SetProperties` over the members of `T`; the fresh instance holds the fields `Populate` gives, or the call ends with `Populate`'s error |
| Fixtures.AutoProperties.GenerateClassInstance | ErikForwerk.TestAbstractions/Tools/AutoProperties.cs:67-77 | returns `GenInstance`: an argument error for a type that is not a class with a parameterless constructor, else the constructed instance; nothing is drawn |
| Fixtures.AutoProperties.SetProperties | ErikForwerk.TestAbstractions/Tools/AutoProperties.cs:79-128 | the target's new fields, the outcome and the new random state are those of `Populate` over the members of `T`; a null target throws at the first assignment, after its value has been drawn |
| Fixtures.AutoProperties.GeneratePropertyValue | ErikForwerk.TestAbstractions/Tools/AutoProperties.cs:91-126 | the branch of the member loop that makes a property's value computes `GenMemberValue` |
| Fixtures.AutoProperties.GenerateArrayOfLength | ErikForwerk.TestAbstractions/Tools/AutoProperties.cs:130-137 | the single-length overloads are `GenArray(length, length)` |
| Fixtures.AutoProperties.GenerateArray | ErikForwerk.TestAbstractions/Tools/AutoProperties.cs:139-153 | returns `GenArray` of the bounds and the old random state, and leaves the state that function gives |
| Fixtures.AutoProperties.FillSlots | ErikForwerk.TestAbstractions/Tools/AutoProperties.cs:149-150 | the `for` loop over an array of length `n` computes `GenElements` for `n` slots, front to back |
| Fixtures.AutoProperties.FillSlot | ErikForwerk.TestAbstractions/Tools/AutoProperties.cs:150 | one round stores slot `i`'s value and extends the loop's result by exactly that value, or ends with its error |
| Fixtures.AutoProperties.GenerateSingleValue | ErikForwerk.TestAbstractions/Tools/AutoProperties.cs:155-192 | the dispatch computes `GenSingle`: the scalar arms, then enums without their first value, then classes, then "not supported" |
| Fixtures.AutoProperties.GenerateScalar | ErikForwerk.TestAbstractions/Tools/AutoProperties.cs:159-178 | the arms that compare against a fixed type compute `GenScalar` |
| Fixtures.RepeatableAcrossInstances | ErikForwerk.TestAbstractions/Tests/AutoPropertisTest.cs:131-147 | two generators built without a source generate the same instance and leave their sources in the same state, and every property they assign holds a value of its type |
| Fixtures.RepeatableAfterReset | ErikForwerk.TestAbstractions/Tests/AutoPropertisTest.cs:150-166 | after `ResetRandom()` a generator repeats the instance it generated first and ends with its source in the same state as after the first run |
| Fixtures.OnlyRemainingEnumValue | ErikForwerk.TestAbstractions/Tests/AutoPropertisTest.cs:359-371 | excluding every value but one returns that value, whatever the seed |
| Comparison.LeafLines | ErikForwerk.TestAbstractions/Tools/CompareHelper.cs:60-66 | a leaf check always writes its header; it writes the confirmation and an empty line only when it passes |
| Comparison.Lockstep | ErikForwerk.TestAbstractions/Tools/CompareHelper.cs:41-42 | `n` rounds of the enumerator loop make exactly `n` leaf checks |
| Comparison.Indexed | ErikForwerk.TestAbstractions/Tools/CompareHelper.cs:49-50 | `n` rounds of the index loop make exactly `n` steps |
| ComparisonLaws.RunAppend | ErikForwerk.TestAbstractions/Tools/CompareHelper.cs:24-51 | running two batches of leaf checks is running the first, and running the second only when the first passed; the lines are concatenated |
| ComparisonLaws.RunSingle | ErikForwerk.TestAbstractions/Tools/CompareHelper.cs:60-66 | one leaf check passes exactly when its assertion holds, and otherwise fails with that leaf |
| ComparisonLaws.RunAppendOutcome | ErikForwerk.TestAbstractions/Tools/CompareHelper.cs:24-51 | two batches pass together exactly when each passes |
| ComparisonLaws.RunPrefix | ErikForwerk.TestAbstractions/Tools/CompareHelper.cs:24-51 | once a prefix of the checks has failed, nothing after it is reached |
| ComparisonLaws.RunPassIff | ErikForwerk.TestAbstractions/Tools/CompareHelper.cs:55-81 | a run passes exactly when every step is a check whose assertion holds; then it writes three lines per check |
| ComparisonLaws.RunFailure | ErikForwerk.TestAbstractions/Tools/CompareHelper.cs:55-81 | a failing run stops at one step: every step before it passed. That step is an index past the end, or a check that failed, whose header is the last line written |
| ComparisonLaws.FailingStep | ErikForwerk.TestAbstractions/Tools/CompareHelper.cs:55-81 | the step at which a failing run stops, as a witness |
| ComparisonLaws.ChecksNeverOutOfBounds | ErikForwerk.TestAbstractions/Tools/CompareHelper.cs:29-42 | checks alone never index past an end |
| ComparisonLaws.LockstepShape | ErikForwerk.TestAbstractions/Tools/CompareHelper.cs:41-42 | round `k` of the enumerator loop checks the `k`-th items, indented by a tab and labelled with the bare property name |
| ComparisonLaws.IndexedShape | ErikForwerk.TestAbstractions/Tools/CompareHelper.cs:49-50 | round `i` of the index loop checks the `i`-th items, labelled `Name[i]`, or indexes past the actual array's end |
| ComparisonLaws.ElementLeaves | ErikForwerk.TestAbstractions/Tools/CompareHelper.cs:31-51 | below the whole-value leaf there is one level only. Nothing is compared when either value is null. Two reference sequences are compared up to the shorter one. A declared array is compared up to the expected array's end. Nothing else is compared |
| ComparisonLaws.ElementsOfSame | ErikForwerk.TestAbstractions/Tools/CompareHelper.cs:35-51 | equal values have equal items at every position, so every element leaf compares equal values |
| ComparisonLaws.RunPropertiesIsRun | ErikForwerk.TestAbstractions/Tools/CompareHelper.cs:24-52 | running property by property is running the whole plan of leaf checks in order |
| ComparisonLaws.RunPropertiesStep | ErikForwerk.TestAbstractions/Tools/CompareHelper.cs:24-52 | property `n` runs only after the first `n - 1` passed; together they pass exactly when both do |
| ComparisonLaws.RunPropertiesStops | ErikForwerk.TestAbstractions/Tools/CompareHelper.cs:24-52 | a property that fails ends the comparison of all of them |
| ComparisonLaws.MemberEqualIff | ErikForwerk.TestAbstractions/Tools/CompareHelper.cs:29-51 | under `AssertEqual`, a property passes exactly when its two values are equal, and it never indexes past an array's end |
| ComparisonLaws.SameUpToIff | ErikForwerk.TestAbstractions/Tools/CompareHelper.cs:24-29 | the recursive "first `n` properties are equal" agrees with its quantified form |
| ComparisonLaws.PropertiesEqualIff | ErikForwerk.TestAbstractions/Tools/CompareHelper.cs:24-52 | `AssertEqual` passes over the first `n` properties exactly when each holds equal values |
| ComparisonLaws.AssertEqualIff | ErikForwerk.TestAbstractions/Tools/CompareHelper.cs:55-67 | for two distinct, non-null instances, `AssertEqual` passes exactly when every property holds equal values; it then writes three lines per leaf, and it never indexes past an array's end |
| ComparisonLaws.FirstDifference | ErikForwerk.TestAbstractions/Tools/CompareHelper.cs:24-29 | the first property whose values differ is where `AssertEqual` fails, at the leaf on the whole values. This covers null against non-null and sequences of different lengths |
| ComparisonLaws.DifferenceStops | ErikForwerk.TestAbstractions/Tools/CompareHelper.cs:24-29 | once the earlier properties passed, a property whose values differ ends the run at its whole-value leaf |
| ComparisonLaws.MemberUnequalSound | ErikForwerk.TestAbstractions/Tools/CompareHelper.cs:29-43 | under `AssertCompletelyUnequal`, a property passes only when its values differ and, for two reference sequences, items at equal positions differ up to the shorter one |
| ComparisonLaws.PlanMemberPasses | ErikForwerk.TestAbstractions/Tools/CompareHelper.cs:24-52 | a comparison that passes passed every property's checks |
| ComparisonLaws.AssertCompletelyUnequalSound | ErikForwerk.TestAbstractions/Tools/CompareHelper.cs:69-81 | when `AssertCompletelyUnequal` of two distinct, non-null instances passes, every property holds different values, and items of reference sequences differ position by position |
| ComparisonLaws.UnequalShorterArrayThrows | ErikForwerk.TestAbstractions/Tools/CompareHelper.cs:46-51 | under `AssertCompletelyUnequal`, take a declared value-type array whose actual value is shorter than the expected one, with all shared items different. Reading past the actual array's end then throws `IndexOutOfRangeException` |
| ComparisonLaws.IndexedUnequalPasses | ErikForwerk.TestAbstractions/Tools/CompareHelper.cs:49-50 | index rounds over items that all differ pass `AssertCompletelyUnequal` |
| ComparisonLaws.ComparePreconditions | ErikForwerk.TestAbstractions/Tools/CompareHelper.cs:19-27 | comparing an instance with itself fails before anything is written; a null instance fails at the first property (`TargetException`) and passes only for a type without properties |
| CompareHelper.Record.constructor | ErikForwerk.TestAbstractions/Tools/CompareHelper.cs:26-27 | an instance is the list of its property values |
| CompareHelper.CheckLeaf | ErikForwerk.TestAbstractions/Tools/CompareHelper.cs:60-80 | the leaf check writes `LeafLines` to the output and reports whether its assertion held |
| CompareHelper.AssertProperties | ErikForwerk.TestAbstractions/Tools/CompareHelper.cs:16-53 | the outcome and the lines appended to the output are exactly those of `Compare` |
| CompareHelper.CompareProperties | ErikForwerk.TestAbstractions/Tools/CompareHelper.cs:24-52 | the property `foreach` produces the outcome and lines of `RunProperties` over all properties |
| CompareHelper.PropertyRound | ErikForwerk.TestAbstractions/Tools/CompareHelper.cs:26-51 | one round extends the run by property `i`; a failure there is the outcome of the whole comparison |
| CompareHelper.CompareProperty | ErikForwerk.TestAbstractions/Tools/CompareHelper.cs:26-51 | the body of the `foreach` runs the property's steps: the whole-value leaf, then the element leaves |
| CompareHelper.CompareElements | ErikForwerk.TestAbstractions/Tools/CompareHelper.cs:31-51 | the element comparison runs `ElementSteps`: nothing under null, lockstep for reference sequences, by index for a declared array, nothing otherwise |
| CompareHelper.CompareEnumerations | ErikForwerk.TestAbstractions/Tools/CompareHelper.cs:35-43 | the `while` loop runs `Lockstep` up to the shorter sequence |
| CompareHelper.LockstepRound | ErikForwerk.TestAbstractions/Tools/CompareHelper.cs:41-42 | one round extends the run by the `k`-th pair; a failure there ends the loop with that outcome |
| CompareHelper.CompareArrays | ErikForwerk.TestAbstractions/Tools/CompareHelper.cs:46-51 | the `for` loop runs `Indexed` up to the expected array's end |
| CompareHelper.IndexedRound | ErikForwerk.TestAbstractions/Tools/CompareHelper.cs:49-50 | one round checks index `i`, or throws when the actual array has no index `i`; a failure ends the loop |
| CompareHelper.AssertEqual | ErikForwerk.TestAbstractions/Tools/CompareHelper.cs:55-67 | the method runs `Compare` with `Assert.Equal` at every leaf |
| CompareHelper.AssertCompletelyUnequal | ErikForwerk.TestAbstractions/Tools/CompareHelper.cs:69-81 | the method runs `Compare` with `Assert.NotEqual` at every leaf |
| CompareHelper.CompareOneProperty | ErikForwerk.TestAbstractions/Tests/CompareHelperTests.cs:30-58 | for a class with one property, `AssertEqual` passes exactly when the two values are equal, and otherwise fails at the whole-value leaf |
| Text.CountAppend | ErikForwerk.TestAbstractions/Models/TestOutputLogger.cs:53 | occurrences of a character add up over a concatenation |
| Text.ReplaceCharAppend | ErikForwerk.TestAbstractions/Tools/TestStringExtensions.cs:22-24 | replacing one character distributes over concatenation |
| Text.ReplaceCharAbsent | ErikForwerk.TestAbstractions/Tools/TestStringExtensions.cs:22-24 | replacing an absent character changes nothing |
| Text.Split | ErikForwerk.TestAbstractions/Models/TestOutputLogger.cs:53 | `Split(sep)` gives one more part than there are separators, and no part contains the separator |
| Text.JoinSplit | ErikForwerk.TestAbstractions/Models/TestOutputLogger.cs:51-53 | joining the parts of a split with the separator gives the text back |
| Text.SplitJoin | ErikForwerk.TestAbstractions/Models/TestOutputLogger.cs:51-53 | splitting the join of separator-free parts gives the parts back |
| Text.SplitFree | ErikForwerk.TestAbstractions/Models/TestOutputLogger.cs:53 | a text without the separator splits into itself alone |
| Text.SplitPrefix | ErikForwerk.TestAbstractions/Models/TestOutputLogger.cs:53 | the text before the first separator is the first part |
| Text.NatToString | ErikForwerk.TestAbstractions/Tools/CompareHelper.cs:50 | the interpolated index is a non-empty string of decimal digits |
| Text.ParseNatToString | ErikForwerk.TestAbstractions/Tools/CompareHelper.cs:50 | reading the printed index back gives the index |
| Text.NatToStringInjective | ErikForwerk.TestAbstractions/Tools/CompareHelper.cs:50 | different indices print differently, so the `Name[i]` labels are distinct |
| TestStringExtensions.EscapeEachAppend | ErikForwerk.TestAbstractions/Tools/TestStringExtensions.cs:20-24 | escaping character by character distributes over concatenation |
| TestStringExtensions.SinglesAreEscapeEach | ErikForwerk.TestAbstractions/Tools/TestStringExtensions.cs:22-24 | the three single-character replacements agree with escaping each character on its own |
| TestStringExtensions.CrlfFirstIsHarmless | ErikForwerk.TestAbstractions/Tools/TestStringExtensions.cs:21 | replacing CRLF first gives the same text as escaping CR and LF separately |
| TestStringExtensions.EscapeIsPerCharacter | ErikForwerk.TestAbstractions/Tools/TestStringExtensions.cs:20-24 | for non-empty input the replacement chain equals escaping each character independently: CR becomes `\r`, LF becomes `\n`, TAB becomes `\t` |
| TestStringExtensions.EscapeSentinels | ErikForwerk.TestAbstractions/Tools/TestStringExtensions.cs:12-16 | null gives `<null>` and the empty text gives `<empty>` |
| TestStringExtensions.EscapeEachHasNoControls | ErikForwerk.TestAbstractions/Tools/TestStringExtensions.cs:20-24 | no CR, LF or TAB survives escaping |
| TestStringExtensions.EscapeRemovesControls | ErikForwerk.TestAbstractions/Tools/TestStringExtensions.cs:20-24 | for non-empty input the result contains no CR, LF or TAB |
| TestStringExtensions.EscapeEachPlain | ErikForwerk.TestAbstractions/Tools/TestStringExtensions.cs:20-24 | text without those characters is its own escape |
| TestStringExtensions.EscapeKeepsPlainText | ErikForwerk.TestAbstractions/Tools/TestStringExtensions.cs:20-24 | non-empty text without CR, LF or TAB comes back unchanged |
| TestStringExtensions.EscapeEachLength | ErikForwerk.TestAbstractions/Tools/TestStringExtensions.cs:20-24 | escaping adds one character per CR, LF and TAB |
| TestStringExtensions.EscapeLength | ErikForwerk.TestAbstractions/Tools/TestStringExtensions.cs:20-24 | for non-empty input the result is as long as the input plus its CR, LF and TAB characters |
| TestStringExtensions.EscapeTabExample | ErikForwerk.TestAbstractions/Tests/TestStringExtensionsTests.cs:17 | a lone tab becomes `\t` |
| TestStringExtensions.EscapeConcat | ErikForwerk.TestAbstractions/Tools/TestStringExtensions.cs:20-24 | escaping two non-empty texts separately and joining them equals escaping their concatenation |
| TestBase.TrimStart | ErikForwerk.TestAbstractions/Models/TestBase.cs:48 | `TrimStart('[', ']')` gives the suffix left when every leading bracket is dropped, and that suffix starts with no bracket |
| TestBase.TrimEnd | ErikForwerk.TestAbstractions/Models/TestBase.cs:48 | `TrimEnd('[', ']')` gives the prefix left when every trailing bracket is dropped, and that prefix ends with no bracket |
| TestBase.TrimIsInterior | ErikForwerk.TestAbstractions/Models/TestBase.cs:48 | `Trim('[', ']')` keeps exactly the slice between the leading and the trailing brackets; that slice neither starts nor ends with a bracket |
| TestBase.TrimBounds | ErikForwerk.TestAbstractions/Models/TestBase.cs:48 | the bounds of that slice, as a witness |
| TestBase.BBrackets | ErikForwerk.TestAbstractions/Models/TestBase.cs:47-48 | for a non-empty text the result starts with `[` and ends with `]`. Between them is the text without its outer brackets, with whitespace untouched. That interior neither starts nor ends with a bracket |
| TestBase.TrimAround | ErikForwerk.TestAbstractions/Models/TestBase.cs:48 | trimming one bracket pair around a text whose edges are not brackets gives the text back |
| TestBase.BIdempotent | ErikForwerk.TestAbstractions/Models/TestBase.cs:48 | `B(B(s)) == B(s)` for non-empty `s` |
| TestBase.BNullNotIdempotent | ErikForwerk.TestAbstractions/Models/TestBase.cs:41-42 | the sentinels are not fixed points: `B(B(null))` is `[<null>]` |
| TestBase.BSentinelExamples | ErikForwerk.TestAbstractions/Tests/TestBaseTests.cs:20-21 | `B(null)` is `<null>` and `B("")` is `<empty>` |
| TestBase.BBlankExample | ErikForwerk.TestAbstractions/Tests/TestBaseTests.cs:22 | two blanks become `[  ]` |
| TestBase.BWordExample | ErikForwerk.TestAbstractions/Tests/TestBaseTests.cs:23 | `foobar` becomes `[foobar]` |
| TestBase.BUnbracketed | ErikForwerk.TestAbstractions/Models/TestBase.cs:47-48 | a non-empty text whose edges are not brackets is only wrapped |
| TestBase.FailMessagesShareSentence | ErikForwerk.TestAbstractions/Models/TestBase.cs:56-76 | the parameterless `FailTest()` message is exactly the fixed sentence, and every other message starts with it |
| TestBase.OneParamMessageRoundTrip | ErikForwerk.TestAbstractions/Models/TestBase.cs:59-76 | the parameter can be read back from a one-parameter message, and the returning and non-returning one-parameter variants give the same failure |
| TestBase.OneParamMessageInjective | ErikForwerk.TestAbstractions/Models/TestBase.cs:59-60 | different parameters give different one-parameter messages |
| TestBase.TwoParamMessageAmbiguous | ErikForwerk.TestAbstractions/Models/TestBase.cs:62-63 | the two-parameter format is ambiguous: two different pairs can give one message |
| TestBase.FailTestExample | ErikForwerk.TestAbstractions/Tests/TestBaseTests.cs:114-124 | the exact parameterless message |
| TestBase.FailTestWithExample | ErikForwerk.TestAbstractions/Tests/TestBaseTests.cs:132-143 | the exact one-parameter message |
| TestBase.FailTestWith2Example | ErikForwerk.TestAbstractions/Tests/TestBaseTests.cs:151-163 | the exact two-parameter message |
| TestBase.FailTestReturningExample | ErikForwerk.TestAbstractions/Tests/TestBaseTests.cs:176-186 | the exact message of the returning variant, with ` [no parameters]` |
| TestBase.FailTestReturningWithExample | ErikForwerk.TestAbstractions/Tests/TestBaseTests.cs:194-205 | the exact message of the returning one-parameter variant |
| Logging.OutputSink.constructor | ErikForwerk.TestAbstractions/Models/TestOutputLogger.cs:35 | a new test output has no lines |
| Logging.OutputSink.WriteLine | ErikForwerk.TestAbstractions/Models/TestOutputLogger.cs:56 | `WriteLine` appends exactly one line and keeps the earlier ones |
| OutputLogging.Indented | ErikForwerk.TestAbstractions/Models/TestOutputLogger.cs:55-56 | one line per segment, each being the indentation followed by its segment, in order |
| OutputLogging.TestOutputLogger.constructor | ErikForwerk.TestAbstractions/Models/TestOutputLogger.cs:34-35 | the indentation starts empty, and the logger writes to the given output |
| OutputLogging.TestOutputLogger.BeginScope | ErikForwerk.TestAbstractions/Models/TestOutputLogger.cs:42-43 | a new scope appends exactly two spaces to the indentation |
| OutputLogging.TestOutputLogger.IsEnabled | ErikForwerk.TestAbstractions/Models/TestOutputLogger.cs:45-46 | every level is enabled |
| OutputLogging.TestOutputLogger.Log | ErikForwerk.TestAbstractions/Models/TestOutputLogger.cs:48-57 | the output gains exactly the lines of `WrittenLines`. Only the output is changed; the indentation is not |
| OutputLogging.IndentionScope.constructor | ErikForwerk.TestAbstractions/Models/TestOutputLogger.cs:19-23 | appends two spaces to its logger's indentation |
| OutputLogging.IndentionScope.Dispose | ErikForwerk.TestAbstractions/Models/TestOutputLogger.cs:25-26 | drops the last two characters of the logger's current indentation, whichever scope added them; with fewer than two left it fails with `ArgumentOutOfRangeException` and changes nothing |
| OutputLogging.NormalizeKeepsLineFeeds | ErikForwerk.TestAbstractions/Models/TestOutputLogger.cs:52 | turning CRLF into LF keeps the number of LFs |
| OutputLogging.LineCount | ErikForwerk.TestAbstractions/Models/TestOutputLogger.cs:51-56 | `Log` writes exactly one more line than the message has LFs |
| OutputLogging.LinesRoundTrip | ErikForwerk.TestAbstractions/Models/TestOutputLogger.cs:51-56 | every written line starts with the indentation; with it removed, the segments joined by LF give back the normalised message |
| OutputLogging.Strip | ErikForwerk.TestAbstractions/Models/TestOutputLogger.cs:56 | removing the indentation from each written line leaves its segment |
| OutputLogging.SingleLine | ErikForwerk.TestAbstractions/Models/TestOutputLogger.cs:51-56 | a message without CR or LF is written as one line after the indentation |
| OutputLogging.NormalizeWithoutCr | ErikForwerk.TestAbstractions/Models/TestOutputLogger.cs:52 | a message without CR is not changed by the normalisation |
| OutputLogging.IndentationScenario | ErikForwerk.TestsAbstractions.Tests/TestOutputLoggerTests.cs:17-59 | unscoped, "Test message" is written as is; inside one scope it is written after two spaces; after disposal the indentation is empty again |
| OutputLogging.DisposeScenario | ErikForwerk.TestAbstractions/Models/TestOutputLogger.cs:25-26 | disposal is counted, not tied to its scope: disposing the outer scope twice empties the indentation, and the inner scope's dispose then fails |
| MessageLogging.TestLogger.constructor | ErikForwerk.TestAbstractions/Models/TestLogger.cs:10-27 | a new logger has no messages and is not in scope |
| MessageLogging.TestLogger.BeginScope | ErikForwerk.TestAbstractions/Models/TestLogger.cs:33-34 | a new scope sets `IsInScope` and leaves the messages alone |
| MessageLogging.TestLogger.IsEnabled | ErikForwerk.TestAbstractions/Models/TestLogger.cs:36-37 | every level is enabled, `None` included |
| MessageLogging.TestLogger.Log | ErikForwerk.TestAbstractions/Models/TestLogger.cs:39-40 | appends the formatted message at the end, keeps the earlier ones in order, and leaves `IsInScope` alone |
| MessageLogging.ScopeTracker.constructor | ErikForwerk.TestAbstractions/Models/TestLogger.cs:16-20 | sets its logger's `IsInScope`; the messages are untouched |
| MessageLogging.ScopeTracker.Dispose | ErikForwerk.TestAbstractions/Models/TestLogger.cs:22-23 | clears its logger's `IsInScope`; the messages are untouched |
| MessageLogging.LoggingScenario | ErikForwerk.TestAbstractions/Tests/TestLoggerTests.cs:13-56 | a new logger has no messages; two logged messages come back in order; the flag is set inside a scope and cleared after it |
| MessageLogging.NestedScopeScenario | ErikForwerk.TestAbstractions/Models/TestLogger.cs:19-23 | the flag is not a counter: closing the inner of two nested scopes already reports that no scope is open |

## Behaviour worth knowing

- **`SetProperties` on a null target.** The code has no null check. The
  first eligible property's value is generated, with its draws, and
  `SetValue` then throws `TargetException`. A target with no eligible
  property completes without error (see `PopulateNullTarget` and
  `SetProperties`).
- **`GenerateArray<TElement>(minLength)`.** `maxLength` defaults to -1, and
  `ThrowIfNegative(maxLength)` rejects that value. So every call that leaves
  the default throws `ArgumentOutOfRangeException` (see `ArrayBadRange`).
- **Scalar ranges.** The integral arms draw from the fixed half-open ranges
  of `IntegralRange`, not from each type's whole domain. For example,
  `ulong`, `long` and `uint` come from `Next()`, so they are never negative
  and stay below `int.MaxValue`. `char` comes from `[0, 255)`, which
  includes control characters.
- **Arrays under `AssertCompletelyUnequal`.** When the actual array is
  shorter, the index loop reads past its end (see
  `UnequalShorterArrayThrows`). Under `AssertEqual` this cannot happen,
  because arrays of different lengths already fail the whole-value leaf
  (see `FirstDifference`).
- **Enum generation.** An enum without values fails with
  `IndexOutOfRangeException` from `GetDefaultEnumValue`, before any draw.
- **`DateTimeOffset`.** Its constructor rejects a UTC time outside the
  representable range, so that arm can fail with
  `ArgumentOutOfRangeException`.
- **Element types.** `GenerateSingleValue` recognises no collection shapes.
  Elements of type `int?`, `IEnumerable<T>` or `ICollection<T>` are "not
  supported". A `T[]` element is a class without a parameterless
  constructor, so it gets an argument error. A `List<T>` element is an
  empty list.

## Left out

- The real `System.Random` algorithm. The source is modelled as an
  abstract deterministic state with one step per draw: `Next`, `NextInt64`,
  `NextDouble`, or one byte of `NextBytes`. The number of internal samples
  .NET takes per call is not modelled, so properties that depend on
  particular seeds are not stated.
- Floating-point values (`float`, `double`, `decimal`). They keep only the
  sample they were made from.
- .NET reflection. A type is a value of `Types.Ty`, and a class is its list
  of properties with name, type, writability and the value its constructor
  leaves there. `GetProperties`, `Activator` and `MakeGenericType` are not
  modelled beyond that.
- Cyclic type graphs. The datatype of types is finite, and the generator's
  mutual recursion terminates by the size of the type.
- A null `Type` passed to `GenerateClassInstance(Type)` or
  `GetRandomEnum(Type, ...)`. The model's types are never null.
- A `List<T>` property gets the generated elements, not a `List<T>`
  object with capacity and identity.
- `Fixtures.AutoProperties.SetProperties`: boxing of struct targets is not
  modelled; the target is always a reference.
- `Fixtures.AutoProperties.GenerateClassInstanceOf`: a struct `T` in
  `GenerateClassInstance<T>()` is not modelled. `SetProperties` fills a
  boxed copy, so the struct comes back holding its constructor's values
  after the draws have been taken.
- An abstract class with a public parameterless constructor passes the
  check at `AutoProperties.cs:70`, and `Activator.CreateInstance` then
  throws. Classes in the model are never abstract.
- Indexers. A writable indexer makes `SetValue` (`AutoProperties.cs:98-124`)
  and `GetValue` (`CompareHelper.cs:26-27`) throw for want of an index.
  Properties in the model take no index.
- xUnit's `Assert.Equal` and `Assert.NotEqual`. They are an abstract
  structural equality, `Comparison.Same`, over atoms and collections. Their
  exception messages are not modelled.
- `CompareHelper`: `ReferenceEquals` is a flag saying whether the two
  arguments are one object. The property values of an instance are given
  as data, and what interpolation prints for a value is its `text` or
  `typeName`.
- `object.ToString()` in `B`, and the `formatter` delegate of both
  loggers' `Log`. Their string results are inputs.
- `TestBase.CreateTestFileCleanUp`, the `TestConsole` and `TestLogger`
  properties. The first is file-system I/O; the other two only hold
  references.
- `TestLoggerGeneric<T>`, an empty subclass. `StaTestBase`,
  `TestFileCleanUp` and `TestLoggerFactory` are not part of this model:
  they are threading, file-system I/O and pass-through code.
- Test attribute classes.
- `CompareHelper.CompareProperties`, `CompareHelper.CompareEnumerations`,
  `CompareHelper.CompareArrays` and `Fixtures.AutoProperties.FillSlots`:
  the body of each loop is a separate method (`PropertyRound`,
  `LockstepRound`, `IndexedRound`, `FillSlot`). The order of the effects is
  unchanged.
