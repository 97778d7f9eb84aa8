/** `EscapeTestOutput`: makes control characters visible in test output. */
module TestStringExtensions {
  import opened Wrappers
  import TestBase
  import Text

  const CR: char := '\r'
  const LF: char := '\n'
  const TAB: char := '\t'

  /** The source's chain of four `Replace` calls, CRLF first. */
  function ReplaceChain(s: string): string
  {
    var crlf := Text.Replace(s, "\r\n", "\\r\\n");
    var cr := Text.Replace(crlf, [CR], "\\r");
    var lf := Text.Replace(cr, [LF], "\\n");
    Text.Replace(lf, [TAB], "\\t")
  }

  /** `text.EscapeTestOutput()`; `None` is a null string. */
  function EscapeTestOutput(text: Option<string>): string
  {
    match text
    case None => TestBase.NULL_STRING
    case Some(s) => if |s| == 0 then TestBase.EMPTY_STRING else ReplaceChain(s)
  }

  predicate IsControl(c: char)
  {
    c == CR || c == LF || c == TAB
  }

  /** The independent reference: each character escaped on its own. */
  function EscapeChar(c: char): string
  {
    if c == CR then "\\r" else if c == LF then "\\n" else if c == TAB then "\\t" else [c]
  }

  function EscapeEach(s: string): string
  {
    if s == [] then [] else EscapeChar(s[0]) + EscapeEach(s[1..])
  }

  lemma {:induction false} EscapeEachAppend(a: string, b: string)
    ensures EscapeEach(a + b) == EscapeEach(a) + EscapeEach(b)
  {
    if a == [] {
      assert a + b == b;
    } else {
      assert (a + b)[1..] == a[1..] + b;
      EscapeEachAppend(a[1..], b);
    }
  }

  /** The three single-character replacements, in the source's order. */
  function Singles(t: string): string
  {
    Text.Replace(Text.Replace(Text.Replace(t, [CR], "\\r"), [LF], "\\n"), [TAB], "\\t")
  }

  lemma ReplaceOneChar(c: char, d: char, rep: string)
    ensures Text.Replace([c], [d], rep) == if c == d then rep else [c]
  {
    assert [c][..1] == [c] && [c][1..] == [];
    assert rep + [] == rep;
  }

  lemma SinglesOfChar(c: char)
    ensures Singles([c]) == EscapeChar(c)
  {
    ReplaceOneChar(c, CR, "\\r");
    var x := Text.Replace([c], [CR], "\\r");
    if c == CR {
      Text.ReplaceCharAbsent(x, LF, "\\n");
      Text.ReplaceCharAbsent(x, TAB, "\\t");
    } else {
      ReplaceOneChar(c, LF, "\\n");
      if c == LF {
        Text.ReplaceCharAbsent("\\n", TAB, "\\t");
      } else {
        ReplaceOneChar(c, TAB, "\\t");
      }
    }
  }

  lemma SinglesAppend(a: string, b: string)
    ensures Singles(a + b) == Singles(a) + Singles(b)
  {
    Text.ReplaceCharAppend(a, b, CR, "\\r");
    var a1, b1 := Text.Replace(a, [CR], "\\r"), Text.Replace(b, [CR], "\\r");
    Text.ReplaceCharAppend(a1, b1, LF, "\\n");
    var a2, b2 := Text.Replace(a1, [LF], "\\n"), Text.Replace(b1, [LF], "\\n");
    Text.ReplaceCharAppend(a2, b2, TAB, "\\t");
  }

  /** The three single replacements escape each character independently. */
  lemma {:induction false} SinglesAreEscapeEach(t: string)
    ensures Singles(t) == EscapeEach(t)
  {
    if t != [] {
      assert t == [t[0]] + t[1..];
      SinglesAppend([t[0]], t[1..]);
      SinglesOfChar(t[0]);
      SinglesAreEscapeEach(t[1..]);
    }
  }

  /** Replacing CRLF first by its escaped form gives the same text as
      escaping CR and LF separately. */
  lemma {:induction false} CrlfFirstIsHarmless(s: string)
    ensures EscapeEach(Text.Replace(s, "\r\n", "\\r\\n")) == EscapeEach(s)
    decreases |s|
  {
    var crlf := "\r\n";
    if |s| >= 2 {
      if s[..2] == crlf {
        CrlfFirstIsHarmless(s[2..]);
        EscapeEachAppend("\\r\\n", Text.Replace(s[2..], crlf, "\\r\\n"));
        assert s == crlf + s[2..];
        EscapeEachAppend(crlf, s[2..]);
      } else {
        CrlfFirstIsHarmless(s[1..]);
        EscapeEachAppend([s[0]], Text.Replace(s[1..], crlf, "\\r\\n"));
        assert s == [s[0]] + s[1..];
        EscapeEachAppend([s[0]], s[1..]);
      }
    }
  }

  /** The replacement chain of a non-empty text is the per-character escape. */
  lemma EscapeIsPerCharacter(s: string)
    requires s != []
    ensures EscapeTestOutput(Some(s)) == EscapeEach(s)
  {
    var crlf := Text.Replace(s, "\r\n", "\\r\\n");
    SinglesAreEscapeEach(crlf);
    CrlfFirstIsHarmless(s);
  }

  /** Null and empty inputs map to the two sentinels. */
  lemma EscapeSentinels()
    ensures EscapeTestOutput(None) == "<null>"
    ensures EscapeTestOutput(Some("")) == "<empty>"
  {
  }

  lemma {:induction false} EscapeEachHasNoControls(s: string)
    ensures forall i :: 0 <= i < |EscapeEach(s)| ==> !IsControl(EscapeEach(s)[i])
  {
    if s != [] {
      EscapeEachHasNoControls(s[1..]);
    }
  }

  /** A non-empty result holds no CR, LF or TAB. */
  lemma EscapeRemovesControls(s: string)
    requires s != []
    ensures var r := EscapeTestOutput(Some(s)); CR !in r && LF !in r && TAB !in r
  {
    EscapeIsPerCharacter(s);
    EscapeEachHasNoControls(s);
  }

  lemma {:induction false} EscapeEachPlain(s: string)
    requires forall i :: 0 <= i < |s| ==> !IsControl(s[i])
    ensures EscapeEach(s) == s
  {
    if s != [] {
      EscapeEachPlain(s[1..]);
    }
  }

  /** A non-empty text without control characters comes back unchanged. */
  lemma EscapeKeepsPlainText(s: string)
    requires s != []
    requires CR !in s && LF !in s && TAB !in s
    ensures EscapeTestOutput(Some(s)) == s
  {
    EscapeIsPerCharacter(s);
    EscapeEachPlain(s);
  }

  lemma {:induction false} EscapeEachLength(s: string)
    ensures |EscapeEach(s)| == |s| + Text.Count(s, CR) + Text.Count(s, LF) + Text.Count(s, TAB)
  {
    if s != [] {
      EscapeEachLength(s[1..]);
    }
  }

  /** Each escaped control character grows the text by exactly one. */
  lemma EscapeLength(s: string)
    requires s != []
    ensures |EscapeTestOutput(Some(s))| == |s| + Text.Count(s, CR) + Text.Count(s, LF) + Text.Count(s, TAB)
  {
    EscapeIsPerCharacter(s);
    EscapeEachLength(s);
  }

  /** The repository's own examples. */
  lemma EscapeTabExample()
    ensures EscapeTestOutput(Some("\t")) == "\\t"
  {
    EscapeIsPerCharacter("\t");
  }

  /** Escaping works piecewise: the escape of two non-empty texts laid
      end to end is the two escapes laid end to end, even when a CR ends
      the first and an LF starts the second. */
  lemma EscapeConcat(a: string, b: string)
    requires a != [] && b != []
    ensures EscapeTestOutput(Some(a + b)) == EscapeTestOutput(Some(a)) + EscapeTestOutput(Some(b))
  {
    EscapeIsPerCharacter(a);
    EscapeIsPerCharacter(b);
    EscapeIsPerCharacter(a + b);
    EscapeEachAppend(a, b);
  }
}
