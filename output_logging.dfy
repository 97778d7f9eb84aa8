/** `TestOutputLogger`: an `ILogger` that writes each line of a message
    to the test output, prefixed by an indentation that every open scope
    widens by two spaces. */
module OutputLogging {
  import opened Wrappers
  import opened Logging
  import Text

  /** One scope level of indentation. */
  const STEP: string := "  "

  /** The exception `Dispose` raises when `_indentation[..^2]` has no two
      characters to drop. */
  datatype ScopeError = ArgumentOutOfRange

  /** The message after `Replace("\r\n", "\n")`. */
  function Normalize(message: string): string
  {
    Text.Replace(message, "\r\n", "\n")
  }

  /** The segments `Split('\n')` cuts the normalised message into. */
  function Segments(message: string): seq<string>
  {
    Text.Split(Normalize(message), '\n')
  }

  /** Every segment prefixed by the indentation. */
  function Indented(indentation: string, segments: seq<string>): (lines: seq<string>)
    ensures |lines| == |segments|
    ensures forall i :: 0 <= i < |lines| ==> lines[i] == indentation + segments[i]
  {
    if segments == [] then [] else Indented(indentation, segments[..|segments| - 1]) + [indentation + segments[|segments| - 1]]
  }

  /** The lines one `Log` call writes. */
  function WrittenLines(indentation: string, message: string): seq<string>
  {
    Indented(indentation, Segments(message))
  }

  class TestOutputLogger {
    var indentation: string
    const output: OutputSink

    /** `new TestOutputLogger(testOutputHelper)`: the indentation starts empty. */
    constructor(testOutputHelper: OutputSink)
      ensures indentation == [] && output == testOutputHelper
    {
      indentation := [];
      output := testOutputHelper;
    }

    /** `BeginScope(state)`: the state is ignored; the new scope widens
        the indentation. */
    method BeginScope<TState>(state: TState) returns (scope: IndentionScope)
      modifies this
      ensures fresh(scope) && scope.logger == this
      ensures indentation == old(indentation) + STEP
    {
      scope := new IndentionScope(this);
    }

    /** `IsEnabled(logLevel)`: every level is enabled. */
    function IsEnabled(logLevel: LogLevel): (enabled: bool)
      ensures enabled
    {
      true
    }

    /** `Log(logLevel, eventId, state, exception, formatter)`; `message` is
        what `formatter(state, exception)` returned. One line is written
        per segment, in order, and the indentation is left alone. */
    method Log(logLevel: LogLevel, eventId: EventId, message: string)
      modifies output
      ensures output.lines == old(output.lines) + WrittenLines(indentation, message)
    {
      var lines := Segments(message);
      for i := 0 to |lines|
        invariant output.lines == old(output.lines) + Indented(indentation, lines[..i])
      {
        assert lines[..i + 1][..i] == lines[..i];
        output.WriteLine(indentation + lines[i]);
      }
      assert lines[..|lines|] == lines;
    }
  }

  /** The `IDisposable` `BeginScope` hands out. */
  class IndentionScope {
    const logger: TestOutputLogger

    /** `new IndentionScope(logger)`: appends two spaces to the logger's indentation. */
    constructor(logger: TestOutputLogger)
      modifies logger
      ensures this.logger == logger
      ensures logger.indentation == old(logger.indentation) + STEP
    {
      this.logger := logger;
      new;
      logger.indentation := logger.indentation + STEP;
    }

    /** `Dispose()`: drops the last two characters of the logger's current
        indentation, whichever scope widened it, and fails when fewer than
        two are left. */
    method Dispose() returns (outcome: Outcome<ScopeError>)
      modifies logger
      ensures |old(logger.indentation)| >= 2 ==>
                outcome == Pass && logger.indentation == old(logger.indentation)[..|old(logger.indentation)| - 2]
      ensures |old(logger.indentation)| < 2 ==>
                outcome == Fail(ArgumentOutOfRange) && logger.indentation == old(logger.indentation)
    {
      if |logger.indentation| < 2 {
        return Fail(ArgumentOutOfRange);
      }
      logger.indentation := logger.indentation[..|logger.indentation| - 2];
      return Pass;
    }
  }

  // ----- properties of the written lines -------------------------------------

  /** Normalising keeps every LF: a CRLF becomes a LF and a lone LF stays. */
  lemma {:induction false} NormalizeKeepsLineFeeds(message: string)
    ensures Text.Count(Normalize(message), '\n') == Text.Count(message, '\n')
    decreases |message|
  {
    if |message| >= 2 {
      if message[..2] == "\r\n" {
        NormalizeKeepsLineFeeds(message[2..]);
        assert message == "\r\n" + message[2..];
        Text.CountAppend("\r\n", message[2..], '\n');
        Text.CountAppend("\n", Normalize(message[2..]), '\n');
      } else {
        NormalizeKeepsLineFeeds(message[1..]);
        Text.CountAppend([message[0]], Normalize(message[1..]), '\n');
        assert message == [message[0]] + message[1..];
        Text.CountAppend([message[0]], message[1..], '\n');
      }
    }
  }

  /** One line per LF of the original message, plus one. */
  lemma LineCount(indentation: string, message: string)
    ensures |WrittenLines(indentation, message)| == Text.Count(message, '\n') + 1
  {
    NormalizeKeepsLineFeeds(message);
  }

  /** Stripping the indentation and joining with LF gives back the
      normalised message, and no written line holds a LF. */
  lemma LinesRoundTrip(indentation: string, message: string)
    ensures var lines := WrittenLines(indentation, message);
            (forall i :: 0 <= i < |lines| ==>
               |lines[i]| >= |indentation| && lines[i][..|indentation|] == indentation
               && '\n' !in lines[i][|indentation|..])
            && Text.Join(Strip(indentation, lines), '\n') == Normalize(message)
  {
    var lines := WrittenLines(indentation, message);
    var segments := Segments(message);
    forall i | 0 <= i < |lines|
      ensures |lines[i]| >= |indentation| && lines[i][..|indentation|] == indentation
      ensures lines[i][|indentation|..] == segments[i]
    {
      assert lines[i] == indentation + segments[i];
    }
    assert Strip(indentation, lines) == segments;
    Text.JoinSplit(Normalize(message), '\n');
  }

  /** Each line with its first `|indentation|` characters removed. */
  function Strip(indentation: string, lines: seq<string>): (segments: seq<string>)
    requires forall i :: 0 <= i < |lines| ==> |lines[i]| >= |indentation|
    ensures |segments| == |lines|
    ensures forall i :: 0 <= i < |lines| ==> segments[i] == lines[i][|indentation|..]
  {
    if lines == [] then [] else [lines[0][|indentation|..]] + Strip(indentation, lines[1..])
  }

  /** A message without line breaks is written as one indented line. */
  lemma SingleLine(indentation: string, message: string)
    requires '\n' !in message && '\r' !in message
    ensures WrittenLines(indentation, message) == [indentation + message]
  {
    NormalizeWithoutCr(message);
    Text.SplitFree(message, '\n');
  }

  lemma {:induction false} NormalizeWithoutCr(message: string)
    requires '\r' !in message
    ensures Normalize(message) == message
    decreases |message|
  {
    if |message| >= 2 {
      assert message[..2] != "\r\n" by { assert message[0] != '\r'; }
      NormalizeWithoutCr(message[1..]);
      assert [message[0]] + message[1..] == message;
    }
  }

  // ----- scenarios of the repository's own tests -----------------------------

  /** A fresh logger writes "Test message" unindented; inside one scope it
      writes it after two spaces; begin-then-dispose restores the
      indentation. */
  method IndentationScenario() returns (plain: seq<string>, scoped: seq<string>, after: string)
    ensures plain == ["Test message"]
    ensures scoped == ["Test message", "  " + "Test message"]
    ensures after == []
  {
    var sink := new OutputSink();
    var logger := new TestOutputLogger(sink);
    var message := "Test message";
    SingleLine([], message);
    logger.Log(Information, EventId(1, Option.None), message);
    assert [] + message == message;
    assert sink.lines == [message];
    plain := sink.lines;
    var scope := logger.BeginScope("Scope");
    assert logger.indentation == STEP;
    SingleLine(STEP, message);
    logger.Log(Information, EventId(1, Option.None), message);
    assert sink.lines == [message, STEP + message];
    scoped := sink.lines;
    var outcome := scope.Dispose();
    after := logger.indentation;
  }

  /** Disposal is counted, not matched to its scope: disposing the outer
      scope twice empties the indentation while the inner scope is open,
      and the inner scope's own dispose then fails. */
  method DisposeScenario() returns (first: Outcome<ScopeError>, second: Outcome<ScopeError>, last: Outcome<ScopeError>)
    ensures first == Pass && second == Pass
    ensures last == Fail(ArgumentOutOfRange)
  {
    var sink := new OutputSink();
    var logger := new TestOutputLogger(sink);
    var outer := logger.BeginScope(0);
    var inner := logger.BeginScope(1);
    first := outer.Dispose();
    second := outer.Dispose();
    last := inner.Dispose();
  }
}
