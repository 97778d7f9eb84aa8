/** `TestLogger`: an `ILogger` that keeps every formatted message in a
    list and records in a flag whether a scope is open. */
module MessageLogging {
  import opened Wrappers
  import opened Logging

  class TestLogger {
    /** `_messageLog`; the `LogMessages` property returns it. */
    var messageLog: seq<string>
    /** `IsInScope`, whose setter is private to the class. */
    var isInScope: bool

    /** `new TestLogger()`: no messages and no open scope. */
    constructor()
      ensures messageLog == [] && !isInScope
    {
      messageLog := [];
      isInScope := false;
    }

    /** `BeginScope(state)`: the state is ignored; the tracker raises the flag. */
    method BeginScope<TState>(state: TState) returns (scope: ScopeTracker)
      modifies this
      ensures fresh(scope) && scope.testLogger == this
      ensures isInScope && messageLog == old(messageLog)
    {
      scope := new ScopeTracker(this);
    }

    /** `IsEnabled(logLevel)`: every level is enabled, `None` included. */
    function IsEnabled(logLevel: LogLevel): (enabled: bool)
      ensures enabled
    {
      true
    }

    /** `Log(...)`; `message` is what `formatter(state, exception)` returned. */
    method Log(logLevel: LogLevel, eventId: EventId, message: string)
      modifies this
      ensures messageLog == old(messageLog) + [message]
      ensures isInScope == old(isInScope)
    {
      messageLog := messageLog + [message];
    }
  }

  /** The `IDisposable` `BeginScope` hands out. */
  class ScopeTracker {
    const testLogger: TestLogger

    constructor(testLogger: TestLogger)
      modifies testLogger
      ensures this.testLogger == testLogger
      ensures testLogger.isInScope && testLogger.messageLog == old(testLogger.messageLog)
    {
      this.testLogger := testLogger;
      new;
      testLogger.isInScope := true;
    }

    /** `Dispose()`: lowers the flag, whatever other scopes are still open. */
    method Dispose()
      modifies testLogger
      ensures !testLogger.isInScope && testLogger.messageLog == old(testLogger.messageLog)
    {
      testLogger.isInScope := false;
    }
  }

  /** The repository's own tests: messages come back in logging order,
      and the flag is raised inside a `using` block and lowered after it. */
  method LoggingScenario() returns (initial: seq<string>, logged: seq<string>, inside: bool, outside: bool)
    ensures initial == []
    ensures logged == ["Test message", "Another test message"]
    ensures inside && !outside
  {
    var logger := new TestLogger();
    initial := logger.messageLog;
    logger.Log(Information, EventId(1, Option.None), "Test message");
    logger.Log(Warning, EventId(2, Option.None), "Another test message");
    logged := logger.messageLog;
    var scope := logger.BeginScope("Test scope");
    inside := logger.isInScope;
    scope.Dispose();
    outside := logger.isInScope;
  }

  /** The flag is not a counter: closing the inner of two nested scopes
      already reports that no scope is open. */
  method NestedScopeScenario() returns (afterInner: bool, afterOuter: bool)
    ensures !afterInner && !afterOuter
  {
    var logger := new TestLogger();
    var outer := logger.BeginScope(1);
    var inner := logger.BeginScope(2);
    inner.Dispose();
    afterInner := logger.isInScope;
    outer.Dispose();
    afterOuter := logger.isInScope;
  }
}
