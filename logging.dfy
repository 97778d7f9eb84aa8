/** The Microsoft.Extensions.Logging vocabulary the two test loggers
    receive, and the xUnit output sink one of them writes to. */
module Logging {
  import opened Wrappers

  /** `LogLevel`, in declaration order. */
  datatype LogLevel = Trace | Debug | Information | Warning | Error | Critical | None

  /** `EventId(id, name)`. */
  datatype EventId = EventId(id: int, name: Option<string>)

  /** `ITestOutputHelper`: the lines written so far, oldest first. */
  class OutputSink {
    var lines: seq<string>

    constructor()
      ensures lines == []
    {
      lines := [];
    }

    /** `WriteLine(message)`. */
    method WriteLine(message: string)
      modifies this
      ensures lines == old(lines) + [message]
    {
      lines := lines + [message];
    }
  }
}
