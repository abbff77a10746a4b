/** `runOpReport`: the `opreport` command line and what the call yields.
    The host facts it consults (profiling binary, working directory via the
    remote proxy, the spawned process's streams and exit) are inputs. */
module Opreport {

  import opened Base
  import opened Trace

  const OPREPORT := "opreport"
  const SESSION_DIR_OPTION := "--session-dir="
  const DATA_DIR := "oprofile_data"
  const PATH_SEPARATOR := "/"   // IPath.SEPARATOR

  /** How waiting for the process ended. */
  datatype Wait = Exited(code: int) | Interrupted

  /** The spawned process: either exec threw an IOException, or it ran and
      produced these stdout and stderr lines (the lines read before an
      IOException when `readFailed`), then ended as `wait` says. */
  datatype Process =
    | ExecFailed
    | Ran(stdout: seq<string>, stderr: seq<string>, readFailed: bool, wait: Wait)

  /** Host facts: the active profiling binary and the OPERF_BINARY constant,
      the project working directory (None when the proxy throws a
      CoreException), the opreport process, and `line.separator`. */
  datatype Host = Host(
    binary: string,
    operfBinary: string,
    workingDir: Option<string>,
    process: Process,
    lineSeparator: string)

  /** The call's result: the captured output (null is None) and its effects. */
  datatype Report = Report(output: Option<string>, trace: seq<Action>)

  /** Java's `List.add(index, x)`. */
  function Insert<T>(s: seq<T>, i: nat, x: T): seq<T>
    requires i <= |s|
  {
    s[..i] + [x] + s[i..]
  }

  function SessionDirArgument(workingDir: string): string
  {
    SESSION_DIR_OPTION + workingDir + PATH_SEPARATOR + DATA_DIR
  }

  /** The command line: `opreport`, the session directory at index 1 when
      the binary is operf, then the caller's arguments. None when the
      working directory cannot be resolved (the call then returns null). */
  function Command(host: Host, args: seq<string>): (r: Option<seq<string>>)
    ensures r.None? <==> host.binary == host.operfBinary && host.workingDir.None?
    ensures r.Some? ==> |r.value| >= 1 && r.value[0] == OPREPORT
    ensures r.Some? && host.binary != host.operfBinary ==> r.value[1..] == args
    ensures r.Some? && host.binary == host.operfBinary ==>
              |r.value| >= 2 && r.value[1] == SessionDirArgument(host.workingDir.value)
              && r.value[2..] == args
  {
    var cmd := [OPREPORT];
    if host.binary == host.operfBinary then
      if host.workingDir.None? then None
      else Some(Insert(cmd, 1, SessionDirArgument(host.workingDir.value)) + args)
    else
      Some(cmd + args)
  }

  /** What `readLine` plus `append(s + line.separator)` accumulates. */
  function Joined(lines: seq<string>, sep: string): string
  {
    if |lines| == 0 then "" else lines[0] + sep + Joined(lines[1..], sep)
  }

  /** With a blank separator, the joined text is blank exactly when every line is. */
  lemma {:induction false} JoinedBlank(lines: seq<string>, sep: string)
    requires Blank(sep)
    ensures Blank(Joined(lines, sep)) <==> forall i :: 0 <= i < |lines| ==> Blank(lines[i])
  {
    if |lines| > 0 {
      JoinedBlank(lines[1..], sep);
      BlankConcat(lines[0], sep);
      BlankConcat(lines[0] + sep, Joined(lines[1..], sep));
      assert forall i :: 1 <= i < |lines| ==> lines[i] == lines[1..][i - 1];
    }
  }

  predicate LogsStderr(trace: seq<Action>)
  {
    exists k :: 0 <= k < |trace| && trace[k].LogStderr?
  }

  /** The stderr log entry: written only when reading did not fail and the
      trimmed stderr text is non-empty. */
  function StderrLog(stderr: seq<string>, readFailed: bool, sep: string): (r: seq<Action>)
    ensures |r| <= 1 && forall k :: 0 <= k < |r| ==> r[k].LogStderr?
    ensures r != [] <==> !readFailed && !Blank(Joined(stderr, sep))
  {
    var errText := Trim(Joined(stderr, sep));
    TrimEmptyIffBlank(Joined(stderr, sep));
    if !readFailed && errText != "" then [LogStderr(OPREPORT, errText)] else []
  }

  /** What follows spawning `cmd`: output only after exit code 0, and at
      most a stderr log entry or an error dialog besides the spawn. */
  function AfterSpawn(cmd: seq<string>, process: Process, sep: string): (r: Report)
    ensures r.output.Some? <==> process.Ran? && process.wait == Exited(0)
    ensures r.output.Some? ==> r.output.value == Joined(process.stdout, sep)
    ensures |r.trace| >= 1 && r.trace[0] == Spawn(cmd)
    ensures forall k :: 1 <= k < |r.trace| ==> !r.trace[k].Spawn?
    ensures LogsStderr(r.trace) <==>
              process.Ran? && !process.readFailed && !Blank(Joined(process.stderr, sep))
  {
    match process
    case ExecFailed =>
      var trace := [Spawn(cmd), ErrorDialog(PARSE_DIALOG)];
      assert !trace[0].LogStderr? && !trace[1].LogStderr?;
      Report(None, trace)
    case Ran(out, err, readFailed, wait) =>
      var log := StderrLog(err, readFailed, sep);
      SpawnThenLog(cmd, log);
      Report(if wait == Exited(0) then Some(Joined(out, sep)) else None, [Spawn(cmd)] + log)
  }

  lemma SpawnThenLog(cmd: seq<string>, log: seq<Action>)
    requires |log| <= 1 && forall k :: 0 <= k < |log| ==> log[k].LogStderr?
    ensures var trace := [Spawn(cmd)] + log;
            && (forall k :: 1 <= k < |trace| ==> !trace[k].Spawn?)
            && (LogsStderr(trace) <==> log != [])
  {
    var trace := [Spawn(cmd)] + log;
    if log != [] {
      assert trace[1] == log[0];
    }
  }

  /** `runOpReport`: output is returned exactly when the command could be
      built, the process ran and exited with 0; the output is the stdout
      lines joined with the line separator. Standard error is only logged,
      and only when its trimmed text is non-empty. */
  function RunOpreport(host: Host, args: seq<string>): (r: Report)
    ensures r.output.Some? <==>
              Command(host, args).Some? && host.process.Ran? && host.process.wait == Exited(0)
    ensures r.output.Some? ==> r.output.value == Joined(host.process.stdout, host.lineSeparator)
    ensures Command(host, args).None? ==> r.trace == []
    ensures Command(host, args).Some? ==>
              |r.trace| >= 1 && r.trace[0] == Spawn(Command(host, args).value)
              && forall k :: 1 <= k < |r.trace| ==> !r.trace[k].Spawn?
    ensures LogsStderr(r.trace) <==>
              Command(host, args).Some? && host.process.Ran? && !host.process.readFailed
              && !Blank(Joined(host.process.stderr, host.lineSeparator))
  {
    match Command(host, args)
    case None => Report(None, [])
    case Some(cmd) => AfterSpawn(cmd, host.process, host.lineSeparator)
  }

  /** Standard error never changes the output: two runs that differ only in
      what the process wrote to stderr return the same output. */
  lemma StderrNeverChangesOutput(host: Host, args: seq<string>, otherStderr: seq<string>)
    requires host.process.Ran?
    ensures RunOpreport(host.(process := host.process.(stderr := otherStderr)), args).output
            == RunOpreport(host, args).output
  {
  }

  /** With a blank line separator (every platform's `line.separator` is), a
      log entry is written exactly when some stderr line has a non-blank
      character and reading did not fail. */
  lemma StderrLoggedIffNonBlankLine(host: Host, args: seq<string>)
    requires Blank(host.lineSeparator)
    requires Command(host, args).Some? && host.process.Ran?
    ensures LogsStderr(RunOpreport(host, args).trace) <==>
              !host.process.readFailed
              && exists i :: 0 <= i < |host.process.stderr| && !Blank(host.process.stderr[i])
  {
    JoinedBlank(host.process.stderr, host.lineSeparator);
  }
}
