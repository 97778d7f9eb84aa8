/** The pure helpers of the abstract test base class: the two sentinel
    strings, the bracketing formatter `B` and the exact failure messages
    of the `FailTest` family. */
module TestBase {
  import opened Wrappers

  /** Printed for a null value. */
  const NULL_STRING: string := "<null>"
  /** Printed for an empty text. */
  const EMPTY_STRING: string := "<empty>"

  predicate IsBracket(c: char)
  {
    c == '[' || c == ']'
  }

  /** `s.TrimStart('[', ']')`: the suffix left after dropping every leading bracket. */
  function TrimStart(s: string): (r: string)
    ensures |r| <= |s| && r == s[|s| - |r|..]
    ensures forall i :: 0 <= i < |s| - |r| ==> IsBracket(s[i])
    ensures r != [] ==> !IsBracket(r[0])
  {
    if s != [] && IsBracket(s[0]) then TrimStart(s[1..]) else s
  }

  /** `s.TrimEnd('[', ']')`: the prefix left after dropping every trailing bracket. */
  function TrimEnd(s: string): (r: string)
    ensures |r| <= |s| && r == s[..|r|]
    ensures forall i :: |r| <= i < |s| ==> IsBracket(s[i])
    ensures r != [] ==> !IsBracket(r[|r| - 1])
  {
    if s != [] && IsBracket(s[|s| - 1]) then TrimEnd(s[..|s| - 1]) else s
  }

  /** `s.Trim('[', ']')`. */
  function Trim(s: string): string
  {
    TrimEnd(TrimStart(s))
  }

  /** `Trim` keeps exactly the slice between the leading and the trailing
      brackets, and that slice neither starts nor ends with a bracket. */
  lemma TrimIsInterior(s: string)
    ensures exists i, j :: 0 <= i <= j <= |s| && Trim(s) == s[i..j]
              && (forall k :: 0 <= k < i ==> IsBracket(s[k]))
              && (forall k :: j <= k < |s| ==> IsBracket(s[k]))
    ensures Trim(s) != [] ==> !IsBracket(Trim(s)[0]) && !IsBracket(Trim(s)[|Trim(s)| - 1])
  {
    var i, j := TrimBounds(s);
    assert 0 <= i <= j <= |s| && Trim(s) == s[i..j]
      && (forall k :: 0 <= k < i ==> IsBracket(s[k]))
      && (forall k :: j <= k < |s| ==> IsBracket(s[k]));
  }

  /** Where the slice `Trim` keeps starts and ends. */
  lemma TrimBounds(s: string) returns (i: nat, j: nat)
    ensures i <= j <= |s| && Trim(s) == s[i..j]
    ensures forall k :: 0 <= k < i ==> IsBracket(s[k])
    ensures forall k :: j <= k < |s| ==> IsBracket(s[k])
  {
    var a := TrimStart(s);
    var b := TrimEnd(a);
    i := |s| - |a|;
    j := i + |b|;
    assert a == s[i..];
    assert b == a[..|b|];
    assert a[..|b|] == s[i..j];
    forall k | j <= k < |s|
      ensures IsBracket(s[k])
    {
      assert s[k] == a[k - i];
    }
  }

  /** `B(object?)`: the text of `toStringObject?.ToString()` is taken as
      the input (`None` when the object or its ToString result is null). */
  function B(text: Option<string>): (r: string)
  {
    match text
    case None => NULL_STRING
    case Some(s) => if |s| == 0 then EMPTY_STRING else "[" + Trim(s) + "]"
  }

  /** A non-empty text comes out as one pair of brackets around its
      interior, with all of its own outer brackets removed and nothing
      else (whitespace included) touched. */
  lemma BBrackets(s: string)
    requires s != []
    ensures B(Some(s))[0] == '[' && B(Some(s))[|B(Some(s))| - 1] == ']'
    ensures exists i, j :: 0 <= i <= j <= |s| && B(Some(s)) == "[" + s[i..j] + "]"
              && (forall k :: 0 <= k < i ==> IsBracket(s[k]))
              && (forall k :: j <= k < |s| ==> IsBracket(s[k]))
    ensures var inner := B(Some(s))[1..|B(Some(s))| - 1];
            inner != [] ==> !IsBracket(inner[0]) && !IsBracket(inner[|inner| - 1])
  {
    TrimIsInterior(s);
    assert B(Some(s))[1..|B(Some(s))| - 1] == Trim(s);
  }

  /** Trimming a bracket pair placed around a text whose own edges are not
      brackets gives the text back. */
  lemma TrimAround(t: string)
    requires t != [] ==> !IsBracket(t[0]) && !IsBracket(t[|t| - 1])
    ensures Trim("[" + t + "]") == t
  {
    var u := t + "]";
    assert ("[" + t + "]")[1..] == u;
    TrimStartBracket(u);
    if t == [] {
      TrimStartBracket([]);
    } else {
      TrimEndBracket(t);
    }
  }

  lemma TrimStartBracket(t: string)
    ensures TrimStart("[" + t) == TrimStart(t)
  {
    assert ("[" + t)[1..] == t;
  }

  lemma TrimEndBracket(t: string)
    ensures TrimEnd(t + "]") == TrimEnd(t)
  {
    assert (t + "]")[..|t|] == t;
  }

  /** Formatting an already formatted non-empty text changes nothing. */
  lemma BIdempotent(s: string)
    requires s != []
    ensures B(Some(B(Some(s)))) == B(Some(s))
  {
    var t := Trim(s);
    TrimIsInterior(s);
    TrimAround(t);
  }

  /** The sentinels are not fixed points: formatting `B(null)` again brackets it. */
  lemma BNullNotIdempotent()
    ensures B(None) == NULL_STRING && B(Some(B(None))) == "[<null>]"
  {
    assert TrimStart(NULL_STRING) == NULL_STRING;
    assert TrimEnd(NULL_STRING) == NULL_STRING;
  }

  /** The repository's own examples of `B` on null and on an empty text. */
  lemma BSentinelExamples()
    ensures B(None) == "<null>"
    ensures B(Some("")) == "<empty>"
  {
  }

  /** The repository's own example of `B` on blanks. */
  lemma BBlankExample()
    ensures B(Some("  ")) == "[  ]"
  {
    assert TrimStart("  ") == "  ";
    assert TrimEnd("  ") == "  ";
  }

  /** The repository's own example of `B` on a plain word: "[foobar]". */
  lemma BWordExample()
    ensures B(Some("foobar")) == "[" + "foobar" + "]"
  {
    BUnbracketed("foobar");
  }

  /** A text whose edges are not brackets is only wrapped. */
  lemma BUnbracketed(s: string)
    requires s != [] && !IsBracket(s[0]) && !IsBracket(s[|s| - 1])
    ensures B(Some(s)) == "[" + s + "]"
  {
  }

  // ----- FailTest ----------------------------------------------------------

  /** The xUnit failure every FailTest variant raises. */
  datatype TestFailure = FailException(message: string)

  const NOT_EXECUTED: string := "This method should not have been executed."

  /** `FailTest()`. */
  function FailTest(): (f: TestFailure)
  {
    FailException(NOT_EXECUTED)
  }

  /** `FailTest<T1>(p1)`; `p1` is the text its interpolation prints. */
  function FailTestWith(p1: string): (f: TestFailure)
  {
    FailException(NOT_EXECUTED + " [param=" + p1 + "]")
  }

  /** `FailTest<T1, T2>(p1, p2)`. */
  function FailTestWith2(p1: string, p2: string): (f: TestFailure)
  {
    FailException(NOT_EXECUTED + " [param1=" + p1 + "], [param2=" + p2 + "]")
  }

  /** `FailTest<TReturn>()`: never returns a TReturn. */
  function FailTestReturning(): (f: TestFailure)
  {
    FailException(NOT_EXECUTED + " [no parameters]")
  }

  /** `FailTest<T1, TReturn>(p1)`: never returns a TReturn. */
  function FailTestReturningWith(p1: string): (f: TestFailure)
  {
    FailException(NOT_EXECUTED + " [param=" + p1 + "]")
  }

  /** Reads the parameter back out of a one-parameter message. */
  function ParamOf(message: string): Option<string>
  {
    var head := NOT_EXECUTED + " [param=";
    if |message| > |head| && message[..|head|] == head && message[|message| - 1] == ']'
    then Some(message[|head|..|message| - 1])
    else None
  }

  predicate StartsWithSentence(f: TestFailure)
  {
    |f.message| > |NOT_EXECUTED| && f.message[..|NOT_EXECUTED|] == NOT_EXECUTED
  }

  /** Every message starts with the fixed sentence, and the parameterless
      non-returning message is exactly that sentence. */
  lemma FailMessagesShareSentence(p1: string, p2: string)
    ensures FailTest().message == NOT_EXECUTED
    ensures StartsWithSentence(FailTestWith(p1)) && StartsWithSentence(FailTestWith2(p1, p2))
    ensures StartsWithSentence(FailTestReturning()) && StartsWithSentence(FailTestReturningWith(p1))
  {
    assert FailTestWith(p1).message == NOT_EXECUTED + (" [param=" + p1 + "]");
    assert FailTestWith2(p1, p2).message == NOT_EXECUTED + (" [param1=" + p1 + "], [param2=" + p2 + "]");
    assert FailTestReturning().message == NOT_EXECUTED + " [no parameters]";
  }

  /** The one-parameter messages carry their parameter recoverably, so
      distinct parameters give distinct messages; the returning and the
      non-returning variants agree. */
  lemma OneParamMessageRoundTrip(p1: string)
    ensures ParamOf(FailTestWith(p1).message) == Some(p1)
    ensures FailTestReturningWith(p1) == FailTestWith(p1)
  {
    var head := NOT_EXECUTED + " [param=";
    var m := FailTestWith(p1).message;
    assert m == head + p1 + "]";
    assert m[..|head|] == head;
    assert m[|head|..|m| - 1] == p1;
  }

  lemma OneParamMessageInjective(p: string, q: string)
    requires FailTestWith(p) == FailTestWith(q)
    ensures p == q
  {
    OneParamMessageRoundTrip(p);
    OneParamMessageRoundTrip(q);
  }

  /** The two-parameter format is ambiguous: a first parameter that
      itself contains "], [param2=" yields the message of another pair. */
  lemma TwoParamMessageAmbiguous()
    ensures FailTestWith2("a], [param2=b", "c") == FailTestWith2("a", "b], [param2=c")
  {
  }

  /** The messages of the repository's own tests, one lemma per variant. */
  lemma FailTestExample()
    ensures FailTest().message == "This method should not have been executed."
  {
  }

  lemma FailTestWithExample()
    ensures FailTestWith("foobar").message == "This method should not have been executed. [param=foobar]"
  {
  }

  lemma FailTestWith2Example()
    ensures FailTestWith2("foobar", "69").message
              == "This method should not have been executed. [param1=foobar], [param2=69]"
  {
  }

  lemma FailTestReturningExample()
    ensures FailTestReturning().message == "This method should not have been executed. [no parameters]"
  {
  }

  lemma FailTestReturningWithExample()
    ensures FailTestReturningWith("foobar").message == "This method should not have been executed. [param=foobar]"
  {
  }
}
