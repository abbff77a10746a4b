/** `OpxmlRunner.run`: picks, from the request kind (`args[0]`), the argument
    count and whether the cache file exists, one of four courses (rebuild
    the sessions, parse a check-events or info adapter stream, regenerate
    the model data, or read the cached file) and reports whether the final
    parse succeeded. Every outside effect is an input in `Env`. */
module Runner {

  import opened Base
  import opened Sessions
  import opened Trace
  import opened Opreport
  import opened Dom
  import opened EventNames
  import opened CacheFile

  /** The request-kind and session constants of SessionManager, CheckEventAdapter,
      InfoAdapter and ModelDataAdapter. Nothing here assumes any two are equal
      or distinct; `sessionModelData` (SessionManager.MODEL_DATA) and
      `adapterModelData` (ModelDataAdapter.MODEL_DATA) are separate. */
  datatype Names = Names(
    sessions: string,
    current: string,
    sessionModelData: string,
    opxmlPrefix: string,
    checkEvents: string,
    info: string,
    adapterModelData: string)

  /** How `reader.parse` on the chosen source ends. */
  datatype ParseOutcome = ParseOk | ParseSaxError | ParseIoError

  /** The outside world of one call: whether the SAX reader could be created,
      the timer-support flag, whether the cache file exists, the opreport
      host, whether the model-data adapter finds the output parseable, the
      document `getEventNames` would parse, the records the new session
      manager starts from, and how the parse ends. At most one opreport call
      and one parse happen per call, so one answer each suffices. */
  datatype Env = Env(
    readerOk: bool,
    timerSupport: bool,
    cacheExists: bool,
    host: Host,
    modelDataParseable: bool,
    eventsDocument: DomParse,
    storedSessions: seq<Session>,
    parse: ParseOutcome)

  /** The course `run` takes. */
  datatype Plan =
    | RefreshSessions
    | StreamCheckEvents(first: string, second: string, third: string)
    | StreamInfo
    | GenerateModelData
    | RegenerateCurrent
    | ReadCached
    | Reject(exc: Thrown)

  const UNRECOGNIZED := "Unrecognized argument encountered"
  const MODEL_DATA_OPTION := "-Xdg"
  const EVENT_OPTION := "event:"

  /** The one case in which an existing cache file is not trusted: a
      three-argument model-data request for the current session. */
  predicate ForcesRegeneration(n: Names, args: seq<string>)
  {
    |args| == 3 && args[0] == n.sessionModelData && args[2] == n.current
  }

  /** The dispatch of `run`, as a decision table over kind, argument count
      and cache-file existence. */
  function Decide(n: Names, args: seq<string>, cacheExists: bool): (p: Plan)
    ensures |args| > 0 && args[0] == n.sessions ==> p == RefreshSessions
    ensures p == ReadCached <==>
              cacheExists && |args| > 0 && args[0] != n.sessions && !ForcesRegeneration(n, args)
    ensures p == RegenerateCurrent <==>
              cacheExists && |args| > 0 && args[0] != n.sessions && ForcesRegeneration(n, args)
    ensures p.StreamCheckEvents? <==>
              !cacheExists && |args| >= 4 && args[0] != n.sessions && args[0] == n.checkEvents
    ensures p.StreamCheckEvents? ==> p == StreamCheckEvents(args[1], args[2], args[3])
    ensures p == StreamInfo <==>
              !cacheExists && |args| > 0 && args[0] !in {n.sessions, n.checkEvents} && args[0] == n.info
    ensures p == GenerateModelData <==>
              !cacheExists && |args| > 0 && args[0] !in {n.sessions, n.checkEvents, n.info}
              && args[0] == n.adapterModelData
    ensures p == Reject(Unrecognized(UNRECOGNIZED)) <==>
              !cacheExists && |args| > 0
              && args[0] !in {n.sessions, n.checkEvents, n.info, n.adapterModelData}
    ensures p == Reject(IndexOutOfBounds) <==>
              |args| == 0
              || (!cacheExists && args[0] != n.sessions && args[0] == n.checkEvents && |args| < 4)
  {
    if |args| == 0 then Reject(IndexOutOfBounds)
    else if args[0] == n.sessions then RefreshSessions
    else if !cacheExists then
      if args[0] == n.checkEvents then
        if |args| < 4 then Reject(IndexOutOfBounds) else StreamCheckEvents(args[1], args[2], args[3])
      else if args[0] == n.info then StreamInfo
      else if args[0] == n.adapterModelData then GenerateModelData
      else Reject(Unrecognized(UNRECOGNIZED))
    else if ForcesRegeneration(n, args) then RegenerateCurrent
    else ReadCached
  }

  /** The opreport arguments of `handleModelData`: `-Xdg`, then
      `event:<args[1]>` only without timer support. None when that needs an
      `args[1]` the array does not have. */
  function ModelDataCommand(args: seq<string>, timerSupport: bool): (r: Option<seq<string>>)
    ensures r.None? <==> !timerSupport && |args| < 2
    ensures r.Some? ==> 1 <= |r.value| <= 2 && r.value[0] == MODEL_DATA_OPTION
    ensures r.Some? ==> (|r.value| == 2 <==> !timerSupport)
    ensures r.Some? && !timerSupport ==> r.value[1] == EVENT_OPTION + args[1]
  {
    if timerSupport then Some([MODEL_DATA_OPTION])
    else if |args| < 2 then None
    else Some([MODEL_DATA_OPTION] + [EVENT_OPTION + args[1]])
  }

  /** `handleModelData`: false, with no file written, when opreport yields no
      output or the adapter finds it unparseable; otherwise the adapter runs
      and its output is saved to the request's cache file, and it is true. */
  function HandleModelData(n: Names, args: seq<string>, env: Env): (r: Step<bool>)
    ensures ModelDataCommand(args, env.timerSupport).None? ==> r == Threw(IndexOutOfBounds, [])
    ensures ModelDataCommand(args, env.timerSupport).Some? ==>
              var report := RunOpreport(env.host, ModelDataCommand(args, env.timerSupport).value);
              && r.Done?
              && |r.trace| >= |report.trace| && r.trace[..|report.trace|] == report.trace
              && (r.value <==> report.output.Some? && env.modelDataParseable)
              && (!r.value ==> r.trace == report.trace)
              && (r.value ==> r.trace[|r.trace| - 1] == SaveFile(SavedFileName(n.opxmlPrefix, args)))
  {
    match ModelDataCommand(args, env.timerSupport)
    case None => Threw(IndexOutOfBounds, [])
    case Some(cmd) =>
      var report := RunOpreport(env.host, cmd);
      if report.output.None? || !env.modelDataParseable then Done(false, report.trace)
      else
        var trace := report.trace + [RunAdapter(ModelDataAdapter), SaveFile(SavedFileName(n.opxmlPrefix, args))];
        assert trace[..|report.trace|] == report.trace;
        Done(true, trace)
  }

  /** The dialog shown for a failed parse, if any. */
  function ParseDialogs(outcome: ParseOutcome): seq<Action>
  {
    match outcome
    case ParseOk => []
    case ParseSaxError => [ErrorDialog(SAX_DIALOG)]
    case ParseIoError => [ErrorDialog(PARSE_DIALOG)]
  }

  /** Parsing `source` after the effects in `before`: true exactly when the
      parse raises neither a SAX nor an I/O exception. */
  function ParseFrom(source: Source, outcome: ParseOutcome, before: seq<Action>): (r: Step<bool>)
    ensures r.Done? && (r.value <==> outcome == ParseOk)
    ensures |r.trace| > |before| && r.trace[..|before|] == before && r.trace[|before|] == Parse(source)
    ensures forall k :: |before| < k < |r.trace| ==> r.trace[k].ErrorDialog?
  {
    Done(outcome == ParseOk, before + [Parse(source)] + ParseDialogs(outcome))
  }

  /** `run`. */
  function Run(n: Names, tags: Tags, args: seq<string>, env: Env): (r: Step<bool>)
    ensures !env.readerOk ==> r == Done(false, [])
    ensures r.Done? && r.value ==> env.readerOk && env.parse == ParseOk && Parses(r.trace)
    ensures r.Done? && Parses(r.trace) ==> (r.value <==> env.parse == ParseOk)
    ensures r.Threw? ==> r.exc == Unrecognized(UNRECOGNIZED) || r.exc == IndexOutOfBounds || r.exc == NullPointer
    ensures env.readerOk && Decide(n, args, env.cacheExists).Reject? ==>
              r == Threw(Decide(n, args, env.cacheExists).exc, [])
    ensures env.readerOk && Decide(n, args, env.cacheExists) in {ReadCached, StreamInfo} ==>
              r.Done? && (r.value <==> env.parse == ParseOk)
    ensures env.readerOk && Decide(n, args, env.cacheExists).StreamCheckEvents? ==>
              r.Done? && (r.value <==> env.parse == ParseOk)
    ensures env.readerOk && Decide(n, args, env.cacheExists) == RefreshSessions ==>
              var events := GetEventNames(tags, env.timerSupport, env.host, env.eventsDocument);
              (events.Threw? ==> r == Threw(events.exc, events.trace))
              && (events.Done? ==> r.Done? && (r.value <==> env.parse == ParseOk))
    ensures env.readerOk && Decide(n, args, env.cacheExists) in {GenerateModelData, RegenerateCurrent} ==>
              var handled := HandleModelData(n, args, env);
              (handled.Threw? ==> r == Threw(IndexOutOfBounds, []))
              && (handled.Done? ==> r.Done? && (r.value <==> handled.value && env.parse == ParseOk))
  {
    if !env.readerOk then Done(false, [])
    else
      var file := CacheFileName(n.opxmlPrefix, args);
      match Decide(n, args, env.cacheExists)
      case Reject(exc) => Threw(exc, [])
      case RefreshSessions =>
        var events := GetEventNames(tags, env.timerSupport, env.host, env.eventsDocument);
        if events.Threw? then Threw(events.exc, events.trace)
        else
          var entries := Populate(env.storedSessions, n.current, events.value);
          ParseFrom(CacheFile(file), env.parse, events.trace + [WriteSessions(entries)])
      case StreamCheckEvents(a, b, c) =>
        ParseFrom(AdapterStream(CheckEventAdapter(a, b, c)), env.parse, [RunAdapter(CheckEventAdapter(a, b, c))])
      case StreamInfo =>
        ParseFrom(AdapterStream(InfoAdapter), env.parse, [RunAdapter(InfoAdapter)])
      case GenerateModelData => Regenerate(n, args, env, file)
      case RegenerateCurrent => Regenerate(n, args, env, file)
      case ReadCached => ParseFrom(CacheFile(file), env.parse, [])
  }

  /** `handleModelData`, then, if it succeeded, parsing the cache file. */
  function Regenerate(n: Names, args: seq<string>, env: Env, file: string): (r: Step<bool>)
    ensures r.Done? && Parses(r.trace) ==> (r.value <==> env.parse == ParseOk)
    ensures r.Done? && r.value ==> Parses(r.trace)
    ensures r.Threw? ==> r.exc == IndexOutOfBounds
    ensures var h := HandleModelData(n, args, env);
            h.Threw? ==> r == Threw(IndexOutOfBounds, [])
    ensures var h := HandleModelData(n, args, env);
            h.Done? ==> r.Done? && (r.value <==> h.value && env.parse == ParseOk)
    ensures var h := HandleModelData(n, args, env);
            h.Done? && h.value ==>
              |r.trace| > |h.trace| && r.trace[..|h.trace|] == h.trace
              && r.trace[|h.trace|] == Parse(CacheFile(file))
    ensures var h := HandleModelData(n, args, env);
            h.Done? && !h.value ==> r.trace == h.trace
  {
    var handled := HandleModelData(n, args, env);
    if handled.Threw? then Threw(handled.exc, handled.trace)
    else if !handled.value then Done(false, handled.trace)
    else ParseFrom(CacheFile(file), env.parse, handled.trace)
  }

  /** A sessions request rebuilds the current session records from the live
      event names and writes them before the file is parsed, and does so
      whether or not the cache file exists. */
  lemma SessionsAlwaysRefreshed(n: Names, tags: Tags, args: seq<string>, env: Env)
    requires env.readerOk && |args| > 0 && args[0] == n.sessions
    requires GetEventNames(tags, env.timerSupport, env.host, env.eventsDocument).Done?
    ensures var events := GetEventNames(tags, env.timerSupport, env.host, env.eventsDocument);
            var r := Run(n, tags, args, env);
            var w := |events.trace|;
            && r.Done? && |r.trace| > w + 1
            && r.trace[..w] == events.trace
            && r.trace[w] == WriteSessions(Populate(env.storedSessions, n.current, events.value))
            && r.trace[w + 1] == Parse(CacheFile(CacheFileName(n.opxmlPrefix, args)))
    ensures Run(n, tags, args, env) == Run(n, tags, args, env.(cacheExists := !env.cacheExists))
  {
  }

  /** With the cache file present and no forced regeneration, every kind
      but sessions parses exactly that file and never runs opreport. */
  lemma CachedFileIsReadAsIs(n: Names, tags: Tags, args: seq<string>, env: Env)
    requires env.readerOk && env.cacheExists
    requires |args| > 0 && args[0] != n.sessions && !ForcesRegeneration(n, args)
    ensures var r := Run(n, tags, args, env);
            && r.Done?
            && r.trace[0] == Parse(CacheFile(CacheFileName(n.opxmlPrefix, args)))
            && !Spawns(r.trace)
            && (r.value <==> env.parse == ParseOk)
  {
  }

  /** A model-data request whose regeneration fails returns false without
      parsing anything, whether the cache file was absent or forced stale. */
  lemma FailedRegenerationSkipsParse(n: Names, tags: Tags, args: seq<string>, env: Env)
    requires env.readerOk
    requires Decide(n, args, env.cacheExists) in {GenerateModelData, RegenerateCurrent}
    requires HandleModelData(n, args, env) == Done(false, HandleModelData(n, args, env).trace)
    ensures Run(n, tags, args, env) == Done(false, HandleModelData(n, args, env).trace)
    ensures !Parses(Run(n, tags, args, env).trace)
  {
  }

  /** When regeneration succeeds, the file it writes is the file then parsed. */
  lemma RegeneratedFileIsParsed(n: Names, tags: Tags, args: seq<string>, env: Env)
    requires env.readerOk
    requires Decide(n, args, env.cacheExists) in {GenerateModelData, RegenerateCurrent}
    requires HandleModelData(n, args, env) == Done(true, HandleModelData(n, args, env).trace)
    ensures var r := Run(n, tags, args, env);
            && r.Done? && (r.value <==> env.parse == ParseOk)
            && exists i, j :: 0 <= i < j < |r.trace|
                           && r.trace[i] == SaveFile(CacheFileName(n.opxmlPrefix, args))
                           && r.trace[j] == Parse(CacheFile(CacheFileName(n.opxmlPrefix, args)))
  {
    var h := HandleModelData(n, args, env);
    var r := Run(n, tags, args, env);
    var file := CacheFileName(n.opxmlPrefix, args);
    SavedFileIsConstructedFile(n.opxmlPrefix, args);
    assert r == ParseFrom(CacheFile(file), env.parse, h.trace);
    assert r.trace[|h.trace| - 1] == SaveFile(file);
    assert r.trace[|h.trace|] == Parse(CacheFile(file));
  }

  /** With the cache file present, a three-argument model-data request for
      the current session runs opreport with the model-data arguments. */
  lemma CurrentSessionIsRegenerated(n: Names, tags: Tags, args: seq<string>, env: Env)
    requires env.readerOk && env.cacheExists
    requires ForcesRegeneration(n, args) && args[0] != n.sessions
    requires Command(env.host, ModelDataCommand(args, env.timerSupport).value).Some?
    ensures ModelDataCommand(args, env.timerSupport).Some?
    ensures Run(n, tags, args, env).trace[0]
            == Spawn(Command(env.host, ModelDataCommand(args, env.timerSupport).value).value)
  {
  }

  /** An unknown kind with no cache file is rejected with the
      "Unrecognized argument encountered" exception before any effect. */
  lemma UnknownKindThrows(n: Names, tags: Tags, args: seq<string>, env: Env)
    requires env.readerOk && !env.cacheExists && |args| > 0
    requires args[0] !in {n.sessions, n.checkEvents, n.info, n.adapterModelData}
    ensures Run(n, tags, args, env) == Threw(Unrecognized(UNRECOGNIZED), [])
  {
  }

  /** With no cache file, check-events needs four arguments; with them it
      builds its adapter from `args[1..4]` and parses the adapter's stream,
      never a file, and runs no opreport. */
  lemma CheckEventsParsesAdapterStream(n: Names, tags: Tags, args: seq<string>, env: Env)
    requires env.readerOk && !env.cacheExists && |args| > 0
    requires args[0] != n.sessions && args[0] == n.checkEvents
    ensures |args| < 4 ==> Run(n, tags, args, env) == Threw(IndexOutOfBounds, [])
    ensures |args| >= 4 ==>
              var adapter := CheckEventAdapter(args[1], args[2], args[3]);
              var r := Run(n, tags, args, env);
              && r.Done? && r.trace[..2] == [RunAdapter(adapter), Parse(AdapterStream(adapter))]
              && !Spawns(r.trace)
  {
  }

  /** With no cache file, info parses the info adapter's stream and runs no opreport. */
  lemma InfoParsesAdapterStream(n: Names, tags: Tags, args: seq<string>, env: Env)
    requires env.readerOk && !env.cacheExists && |args| > 0
    requires args[0] !in {n.sessions, n.checkEvents} && args[0] == n.info
    ensures var r := Run(n, tags, args, env);
            && r.Done? && r.trace[..2] == [RunAdapter(InfoAdapter), Parse(AdapterStream(InfoAdapter))]
            && !Spawns(r.trace)
  {
  }
}
