# OpxmlRunner decision layer, modelled in Dafny

This project models the decision logic of `OpxmlRunner`, the OProfile
plug-in component that gets profiling data for the IDE. It runs the
`opreport` tool, keeps cached XML report files named after the request, and
parses the XML into adapter-specific data. The
model covers the deterministic part of that component and treats every outside
effect as an input:

- **Cache file name** (`CacheFile`). The name is the opxml prefix followed by all
  request arguments, concatenated in order. `constructFile` builds it with an
  indexed loop (the `ConstructFile` method). `saveOpxmlToFile` builds it with a
  for-each loop (`SavedFileName`).
- **Dispatch of `run`** (`Runner`). `Decide` maps the request kind
  (`args[0]`), the argument count and the cache file's existence to one of
  these courses: rebuild the sessions, parse the check-events or info adapter
  stream, regenerate the model data, read the cached file, or throw.
  `Run` composes that decision with `handleModelData` and the final parse.
  It returns `Done(result, effects)`, or `Threw(exception, effects)` for the
  unchecked Java exceptions that `run` does not catch.
- **Command lines** (`Opreport`, `Runner.ModelDataCommand`). `opreport` comes
  first. With the operf binary, `--session-dir=<working dir>/oprofile_data`
  is inserted at index 1. The caller's arguments follow. `handleModelData`
  passes `-Xdg`, plus `event:<args[1]>` when there is no timer support.
- **Live event names and session refresh** (`EventNames`, `Sessions`).
  Timer mode picks which setup elements and which attribute
  `getEventNames` reads. `populateWithCurrentSession` first removes all
  current records and then appends one `(CURRENT, name)` record per name.

Effects are recorded in order as a trace of `Trace.Action`s: spawned command
lines, stderr log entries, error dialogs, adapter runs, session writes, saved
files and the parse. The string constants of `SessionManager`,
`CheckEventAdapter`, `InfoAdapter`, `ModelDataAdapter` and
`OprofileProject.OPERF_BINARY` do not appear in the source. They are therefore
fields of the `Runner.Names`, `EventNames.Tags` and `Opreport.Host` records.
No two of them are assumed equal or distinct. When two coincide, the order of
the Java if/else chain decides, as it does in the source.

Three consequences of the code are easy to miss, and the model keeps them:

- Two distinct requests can share a cache file, because the name has no
  delimiter between arguments. `["ab","c"]` and `["a","bc"]` both name the
  same file (`CacheFile.DistinctRequestsCanCollide`).
- Live event resolution answers an empty array only when the setup element
  has no matching children. When the document has no profile element, or no
  setup element under it, the code dereferences null
  (`EventNames.MissingSetupThrows`).
- The check-events adapter takes three arguments, but the code reads them
  from `args[1]`, `args[2]` and `args[3]`, so the request needs four
  elements. With fewer, it throws an index exception.

## Model

| member | source | states |
|---|---|---|
| `Runner.Run` | oprofile/org.eclipse.linuxtools.oprofile.core/src/org/eclipse/linuxtools/internal/oprofile/core/linux/OpxmlRunner.java:73-150 | If the reader cannot be created, `run` returns false with no effects. A rejected request throws its exception with no effects. For the check-events, info and cached-file courses, the result is the parse outcome. For sessions, the result is the parse outcome unless the event-name query throws, and then that exception escapes. For model data, the result is true iff `handleModelData` succeeded and the parse was clean. `run` returns true only after a parse that raised neither a SAX nor an I/O exception, and only the unknown-kind, index and null-pointer exceptions escape. |
| `Runner.Decide` | oprofile/org.eclipse.linuxtools.oprofile.core/src/org/eclipse/linuxtools/internal/oprofile/core/linux/OpxmlRunner.java:97-139 | The full dispatch table, with each course stated as an if-and-only-if condition. Sessions wins whatever the cache says. The cached file is read iff it exists and regeneration is not forced. Regeneration of an existing file needs exactly 3 args, `SessionManager.MODEL_DATA` first and `CURRENT` third. Check-events needs 4 args and uses `args[1..3]`. An unknown kind with no cache file throws "Unrecognized argument encountered". Empty args throw an index exception. |
| `Runner.ModelDataCommand` | oprofile/org.eclipse.linuxtools.oprofile.core/src/org/eclipse/linuxtools/internal/oprofile/core/linux/OpxmlRunner.java:182-186 | The argument list starts with `-Xdg`. It has a second element, `event:` + `args[1]`, exactly when there is no timer support. It is undefined (index exception) exactly when that element is needed and `args` has fewer than 2 elements. |
| `Runner.HandleModelData` | oprofile/org.eclipse.linuxtools.oprofile.core/src/org/eclipse/linuxtools/internal/oprofile/core/linux/OpxmlRunner.java:181-201 | The result is true iff opreport produced output and the model-data adapter finds it parseable. On false, the effects are only those of the opreport call, so no file is written. On true, the last effect saves the file `saveOpxmlToFile` names for these args. |
| `Runner.ParseFrom` | oprofile/org.eclipse.linuxtools.oprofile.core/src/org/eclipse/linuxtools/internal/oprofile/core/linux/OpxmlRunner.java:137-149 | After the earlier effects, the source is parsed. The result is true iff the parse raised no SAX or I/O exception. Only an error dialog may follow the parse. |
| `Runner.Regenerate` | oprofile/org.eclipse.linuxtools.oprofile.core/src/org/eclipse/linuxtools/internal/oprofile/core/linux/OpxmlRunner.java:121-125 | An index exception from `handleModelData` escapes with no effects. Otherwise the result is true iff `handleModelData` succeeded and the parse raised no exception. On success, the parse of the constructed file comes right after `handleModelData`'s effects. On failure, there are no effects beyond `handleModelData`'s. |
| `Runner.SessionsAlwaysRefreshed` | oprofile/org.eclipse.linuxtools.oprofile.core/src/org/eclipse/linuxtools/internal/oprofile/core/linux/OpxmlRunner.java:98-103 | A sessions request writes the refreshed records right after the event-name query and before parsing the constructed file. Its whole outcome does not depend on whether the cache file exists. |
| `Runner.CachedFileIsReadAsIs` | oprofile/org.eclipse.linuxtools.oprofile.core/src/org/eclipse/linuxtools/internal/oprofile/core/linux/OpxmlRunner.java:129-139 | With the cache file present and no forced regeneration, the first effect is parsing exactly the constructed file. Opreport is never spawned, and the result is the parse outcome. |
| `Runner.FailedRegenerationSkipsParse` | oprofile/org.eclipse.linuxtools.oprofile.core/src/org/eclipse/linuxtools/internal/oprofile/core/linux/OpxmlRunner.java:117-136 | When model data must be generated or regenerated and `handleModelData` fails, `run` returns false and parses nothing. |
| `Runner.RegeneratedFileIsParsed` | oprofile/org.eclipse.linuxtools.oprofile.core/src/org/eclipse/linuxtools/internal/oprofile/core/linux/OpxmlRunner.java:121-125 | After a successful regeneration, `run` returns the parse outcome. The file saved and the file parsed later are the same file, `constructFile(args)`. |
| `Runner.CurrentSessionIsRegenerated` | oprofile/org.eclipse.linuxtools.oprofile.core/src/org/eclipse/linuxtools/internal/oprofile/core/linux/OpxmlRunner.java:130-136 | With the cache present, a forced current-session request first spawns opreport with the model-data arguments. |
| `Runner.UnknownKindThrows` | oprofile/org.eclipse.linuxtools.oprofile.core/src/org/eclipse/linuxtools/internal/oprofile/core/linux/OpxmlRunner.java:126-128 | An unknown kind with no cache file throws "Unrecognized argument encountered" before any effect. |
| `Runner.CheckEventsParsesAdapterStream` | oprofile/org.eclipse.linuxtools.oprofile.core/src/org/eclipse/linuxtools/internal/oprofile/core/linux/OpxmlRunner.java:107-111 | Check-events with no cache file and fewer than 4 args throws an index exception. With 4 or more args, it runs the adapter built from `args[1..3]` and parses its stream, never a file, and spawns no opreport. |
| `Runner.InfoParsesAdapterStream` | oprofile/org.eclipse.linuxtools.oprofile.core/src/org/eclipse/linuxtools/internal/oprofile/core/linux/OpxmlRunner.java:112-116 | Info with no cache file runs the info adapter and parses its stream. It spawns no opreport. |
| `CacheFile.ConstructFile` | oprofile/org.eclipse.linuxtools.oprofile.core/src/org/eclipse/linuxtools/internal/oprofile/core/linux/OpxmlRunner.java:173-179 | The indexed loop yields the prefix followed by the in-order concatenation of all args. |
| `CacheFile.SavedFileIsConstructedFile` | oprofile/org.eclipse.linuxtools.oprofile.core/src/org/eclipse/linuxtools/internal/oprofile/core/linux/OpxmlRunner.java:152-157 | `saveOpxmlToFile`'s for-each accumulation names the same file as `constructFile`, for every argument array. |
| `CacheFile.SameConcatenationSameFile` | oprofile/org.eclipse.linuxtools.oprofile.core/src/org/eclipse/linuxtools/internal/oprofile/core/linux/OpxmlRunner.java:173-179 | Argument arrays with equal concatenations map to the same file, under both namings. |
| `CacheFile.DistinctRequestsCanCollide` | oprofile/org.eclipse.linuxtools.oprofile.core/src/org/eclipse/linuxtools/internal/oprofile/core/linux/OpxmlRunner.java:174-178 | Distinct arrays `["ab","c"]` and `["a","bc"]` name the same cache file. |
| `Opreport.Command` | oprofile/org.eclipse.linuxtools.oprofile.core/src/org/eclipse/linuxtools/internal/oprofile/core/linux/OpxmlRunner.java:277-296 | The first element is `opreport`. With the operf binary, `--session-dir=<wd>/oprofile_data` is at index 1 and the caller's args follow. Otherwise the caller's args follow directly. There is no command iff the binary is operf and the working directory cannot be resolved. |
| `Opreport.RunOpreport` | oprofile/org.eclipse.linuxtools.oprofile.core/src/org/eclipse/linuxtools/internal/oprofile/core/linux/OpxmlRunner.java:275-341 | Output is returned iff a command exists, the process ran and it exited with 0. The output is the stdout lines, each followed by the line separator. A command is spawned exactly once, as the first effect. Stderr is logged iff reading did not fail and its text is not blank. |
| `Opreport.StderrNeverChangesOutput` | oprofile/org.eclipse.linuxtools.oprofile.core/src/org/eclipse/linuxtools/internal/oprofile/core/linux/OpxmlRunner.java:318-332 | Two runs that differ only in what the process wrote to stderr return the same output. |
| `Opreport.StderrLoggedIffNonBlankLine` | oprofile/org.eclipse.linuxtools.oprofile.core/src/org/eclipse/linuxtools/internal/oprofile/core/linux/OpxmlRunner.java:318-324 | With a blank line separator, stderr is logged iff reading did not fail and some stderr line has a non-blank character. |
| `Opreport.JoinedBlank` | oprofile/org.eclipse.linuxtools.oprofile.core/src/org/eclipse/linuxtools/internal/oprofile/core/linux/OpxmlRunner.java:318-321 | Text accumulated line by line with a blank separator is blank iff every line is. |
| `Base.TrimEmptyIffBlank` | oprofile/org.eclipse.linuxtools.oprofile.core/src/org/eclipse/linuxtools/internal/oprofile/core/linux/OpxmlRunner.java:321 | The stderr check `trim().equals("")` holds iff every character is at most U+0020. |
| `EventNames.GetEventNames` | oprofile/org.eclipse.linuxtools.oprofile.core/src/org/eclipse/linuxtools/internal/oprofile/core/linux/OpxmlRunner.java:220-265 | The effects begin with those of the `-X -d` opreport call. Without output, the answer is null and nothing else happens. A non-null answer needs output and a parsed document. With output, a null answer means the document failed to parse. Only a null dereference on a parsed document can escape. |
| `EventNames.FillNames` | oprofile/org.eclipse.linuxtools.oprofile.core/src/org/eclipse/linuxtools/internal/oprofile/core/linux/OpxmlRunner.java:249-253 | The indexed loop over the setup list yields an array with one entry per element. Entry i is element i's attribute, or "" when the attribute is absent. This equals the list `getEventNames` answers with. |
| `EventNames.NamesFollowTimerMode` | oprofile/org.eclipse.linuxtools.oprofile.core/src/org/eclipse/linuxtools/internal/oprofile/core/linux/OpxmlRunner.java:233-253 | Without timer support, the names are the event-name attributes of the event-setup elements. With timer support, they are the RTC-interrupts attributes of the timer-setup elements. Both are read under the first setup element of the first profile element, one name per element, in document order. |
| `EventNames.MissingSetupThrows` | oprofile/org.eclipse.linuxtools.oprofile.core/src/org/eclipse/linuxtools/internal/oprofile/core/linux/OpxmlRunner.java:231-246 | A parsed document without a profile element, or without a setup element under it, makes `getEventNames` dereference null. |
| `EventNames.DirectSetupChildAnswers` | oprofile/org.eclipse.linuxtools.oprofile.core/src/org/eclipse/linuxtools/internal/oprofile/core/linux/OpxmlRunner.java:245-253 | A setup element that is a direct child of the first profile element is found by `getElementsByTagName`. So no null is dereferenced, and `getEventNames` answers a list of names. |
| `Sessions.RemoveAllCurrent` | oprofile/org.eclipse.linuxtools.oprofile.core/src/org/eclipse/linuxtools/internal/oprofile/core/linux/OpxmlRunner.java:211 | The records kept are exactly those whose tag is not the current tag. |
| `Sessions.AddCurrent` | oprofile/org.eclipse.linuxtools.oprofile.core/src/org/eclipse/linuxtools/internal/oprofile/core/linux/OpxmlRunner.java:213-217 | Earlier records are unchanged. Exactly one `(CURRENT, names[i])` record is appended per name, in order. |
| `Sessions.PopulateCurrentEvents` | oprofile/org.eclipse.linuxtools.oprofile.core/src/org/eclipse/linuxtools/internal/oprofile/core/linux/OpxmlRunner.java:210-218 | After a refresh, the current records' event names are exactly the returned names in order. There are none when the answer is null, whatever current records existed before. |
| `Sessions.PopulateKeepsOtherRecords` | oprofile/org.eclipse.linuxtools.oprofile.core/src/org/eclipse/linuxtools/internal/oprofile/core/linux/OpxmlRunner.java:210-218 | A refresh leaves the records with other tags unchanged, in order. |
| `Sessions.PopulateIdempotent` | oprofile/org.eclipse.linuxtools.oprofile.core/src/org/eclipse/linuxtools/internal/oprofile/core/linux/OpxmlRunner.java:210-218 | Refreshing twice with the same names gives the same records as refreshing once. |

## Left out

- Process spawning, reading the stdout and stderr pipes, waiting, file creation and writing, and `FileReader`/`InputSource` use. Each becomes an input of `Opreport.Host` or `Runner.Env`: the process's lines, a read-failure flag, its exit or interruption, file existence, and the parse outcome. The pipe-draining deadlock (stderr read only after stdout) is a scheduling matter and is not represented.
- SAX and DOM parsing come from JAXP and `org.w3c.dom`. The SAX parse outcome is an input. The DOM document is an input element tree. The `*` wildcard of `getElementsByTagName` and namespaces are not modelled.
- `SessionManager` internals and persistence: the constructor loads records from its location, and `write` persists them. The records the constructor loads are an input. `write` is recorded as an effect carrying the records. `removeAllCurrentSessions` and `addSession` are modelled as "drop records with the current tag" and "append a record".
- The `CheckEventAdapter`, `InfoAdapter` and `ModelDataAdapter` transforms, and what `saveOpxmlToFile` copies into the file. Only which adapter runs and which file is written are recorded. The model-data adapter's `isParseable` answer is an input.
- `InfoAdapter.checkTimerSupport` and `hasTimerSupport`. The flag is an input, read once per call.
- `RemoteProxyManager` working-directory resolution is an input, where None stands for a `CoreException`. The exact message of the stderr log entry comes from a properties file that is not part of this model. The entry records the tool name and the trimmed text.
- Null array elements, a null profiling binary, and `exec` returning null are not modelled. Every string is a value.
- Byte-level UTF-8 encoding of the captured output is not modelled. The output is a string.
- `OprofileSAXHandler` selection by `callData` is not modelled, because it does not affect any decision.
- Everything outside `OpxmlRunner`: the Docker UI command handler, the preference-page and container UI tests, the trace-selection signal, and the gobbler and logger interfaces. They hold no logic of this component.
