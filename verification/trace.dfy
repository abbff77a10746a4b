/** The observable effects of one runner call, recorded in order: spawned
    `opreport` command lines, log entries, error dialogs, adapter runs,
    session and cache-file writes, and the one XML parse. */
module Trace {

  import opened Base
  import opened Sessions

  /** The three data adapters the runner can construct. */
  datatype Adapter =
    | CheckEventAdapter(first: string, second: string, third: string)
    | InfoAdapter
    | ModelDataAdapter

  /** What the SAX reader is pointed at. */
  datatype Source = CacheFile(path: string) | AdapterStream(adapter: Adapter)

  datatype Action =
    | Spawn(command: seq<string>)           // RuntimeProcessFactory exec
    | LogStderr(tool: string, text: string) // OprofileCorePlugin.log(IStatus.ERROR, …)
    | ErrorDialog(key: string)              // OprofileCorePlugin.showErrorDialog(key, null)
    | RunAdapter(adapter: Adapter)          // the adapter's process()
    | WriteSessions(entries: seq<Session>)  // SessionManager.write()
    | SaveFile(path: string)                // saveOpxmlToFile
    | Parse(source: Source)                 // reader.parse(new InputSource(…))

  /** Dialog keys used for I/O and SAX failures. */
  const PARSE_DIALOG := "opxmlParse"
  const SAX_DIALOG := "opxmlSAXParseException"

  /** A step of the runner: it finishes with a value, or an unchecked
      exception escapes; either way with the effects done so far. */
  datatype Step<+T> = Done(value: T, trace: seq<Action>) | Threw(exc: Thrown, trace: seq<Action>)

  predicate Spawns(trace: seq<Action>)
  {
    exists k :: 0 <= k < |trace| && trace[k].Spawn?
  }

  predicate Parses(trace: seq<Action>)
  {
    exists k :: 0 <= k < |trace| && trace[k].Parse?
  }
}
