/**
 * The executor of executor.go: locating the Base CLI (an installed binary or
 * a source directory to `go run`), building the argument list of each CLI
 * command, choosing how to run it and wrapping what comes back.
 *
 * The environment is injected: the PATH lookup of "base" is an optional path,
 * os.Stat is a StatOracle and running a command line is a RunOracle. The
 * model therefore states which command line is issued and how its outcome
 * becomes the result, not what the command does.
 */
module Executor {
  import opened Wrappers
  import opened GoStrings

  /** What os.Stat reports for a path: it exists (and is or is not a directory), it does not exist, or another error. */
  datatype StatResult = Found(isDir: bool) | NotExist | StatFailed

  type StatOracle = string -> StatResult

  /** A command line as exec.Command receives it, with the directory it runs in ("" for the server's own). */
  datatype Invocation = Invocation(program: string, args: seq<string>, dir: string)

  /** What CombinedOutput gives back: the combined output and, when the run failed, the error text. */
  datatype RunResult = RunResult(output: string, err: Option<string>)

  type RunOracle = Invocation -> RunResult

  /** How a command is run: the Base CLI binary, or `go run` on its sources. */
  datatype Runner = BaseBinary | GoRun

  /** The decision of executeBaseCommand: a command line to run, or an error without running anything. */
  datatype Plan = Launch(runner: Runner, command: Invocation) | Refuse(message: string)

  /** The Base CLI commands the executor can issue. */
  datatype Command =
    | Generate(name: string, fields: seq<string>)
    | Start(reload: bool, docs: bool)
    | New(name: string, path: string)
    | Destroy(name: string)
    | ShowDocs

  const BaseCandidates: seq<string> :=
    ["/usr/local/bin/base", "/usr/bin/base", "./cmd/base", "../cmd/base", "./base"]
  const DefaultBasePath := "base"
  const CmdCandidates: seq<string> := ["../cmd", "./cmd", "../../cmd"]
  const CliNotFound := "base CLI not found"
  const BaseNotFound := CliNotFound + " - please install Base CLI or run from Base project directory"
  const MainGoNotFound := "base CLI main.go not found at "
  const StatusNotFound := "Base CLI not found"

  // ---------------------------------------------------------------------------
  // Locating the CLI

  predicate Exists(stat: StatOracle, path: string) {
    stat(path).Found?
  }

  predicate IsDirectory(stat: StatOracle, path: string) {
    stat(path) == Found(true)
  }

  /**
   * The outcome findBasePath promises: the PATH lookup's result when there
   * is one, otherwise the first install location that exists, otherwise "base".
   */
  predicate IsBasePathChoice(path: string, lookPath: Option<string>, stat: StatOracle) {
    match lookPath
    case Some(found) => path == found
    case None =>
      (exists i :: 0 <= i < |BaseCandidates| && path == BaseCandidates[i] && Exists(stat, BaseCandidates[i])
         && forall j :: 0 <= j < i ==> !Exists(stat, BaseCandidates[j]))
      || (path == DefaultBasePath && forall j :: 0 <= j < |BaseCandidates| ==> !Exists(stat, BaseCandidates[j]))
  }

  /**
   * The outcome findCmdPath promises: the first candidate source directory
   * that exists and is a directory, otherwise "".
   */
  predicate IsCmdPathChoice(path: string, stat: StatOracle) {
    (exists i :: 0 <= i < |CmdCandidates| && path == CmdCandidates[i] && IsDirectory(stat, CmdCandidates[i])
       && forall j :: 0 <= j < i ==> !IsDirectory(stat, CmdCandidates[j]))
    || (path == "" && forall j :: 0 <= j < |CmdCandidates| ==> !IsDirectory(stat, CmdCandidates[j]))
  }

  /** findBasePath */
  method FindBasePath(lookPath: Option<string>, stat: StatOracle) returns (path: string)
    ensures IsBasePathChoice(path, lookPath, stat)
  {
    if lookPath.Some? {
      return lookPath.value;
    }
    for i := 0 to |BaseCandidates|
      invariant forall j :: 0 <= j < i ==> !Exists(stat, BaseCandidates[j])
    {
      if Exists(stat, BaseCandidates[i]) {
        return BaseCandidates[i];
      }
    }
    return DefaultBasePath;
  }

  /** findCmdPath */
  method FindCmdPath(stat: StatOracle) returns (path: string)
    ensures IsCmdPathChoice(path, stat)
  {
    for i := 0 to |CmdCandidates|
      invariant forall j :: 0 <= j < i ==> !IsDirectory(stat, CmdCandidates[j])
    {
      if IsDirectory(stat, CmdCandidates[i]) {
        return CmdCandidates[i];
      }
    }
    return "";
  }

  /** The search for the base executable has exactly one outcome. */
  lemma BasePathChoiceIsUnique(p: string, q: string, lookPath: Option<string>, stat: StatOracle)
    requires IsBasePathChoice(p, lookPath, stat) && IsBasePathChoice(q, lookPath, stat)
    ensures p == q
  {
    if lookPath.None? {
      var some := exists i :: 0 <= i < |BaseCandidates| && Exists(stat, BaseCandidates[i]);
      if some {
        var i :| 0 <= i < |BaseCandidates| && Exists(stat, BaseCandidates[i]);
        var ip :| 0 <= ip < |BaseCandidates| && p == BaseCandidates[ip] && Exists(stat, BaseCandidates[ip])
          && forall j :: 0 <= j < ip ==> !Exists(stat, BaseCandidates[j]);
        var iq :| 0 <= iq < |BaseCandidates| && q == BaseCandidates[iq] && Exists(stat, BaseCandidates[iq])
          && forall j :: 0 <= j < iq ==> !Exists(stat, BaseCandidates[j]);
        assert ip == iq;
      }
    }
  }

  /** The base path is never empty unless the PATH lookup itself reported "". */
  lemma BasePathIsNeverEmpty(path: string, lookPath: Option<string>, stat: StatOracle)
    requires IsBasePathChoice(path, lookPath, stat)
    requires lookPath.Some? ==> lookPath.value != ""
    ensures path != ""
  {
    if lookPath.None? && path != DefaultBasePath {
      var i :| 0 <= i < |BaseCandidates| && path == BaseCandidates[i];
    }
  }

  /** The cmd path is "" exactly when no candidate source directory exists. */
  lemma CmdPathEmptyIffNoDirectory(path: string, stat: StatOracle)
    requires IsCmdPathChoice(path, stat)
    ensures path == "" <==> forall j :: 0 <= j < |CmdCandidates| ==> !IsDirectory(stat, CmdCandidates[j])
  {
    if path == "" {
      forall i | 0 <= i < |CmdCandidates|
        ensures path != CmdCandidates[i]
      {
      }
    } else {
      var i :| 0 <= i < |CmdCandidates| && path == CmdCandidates[i] && IsDirectory(stat, CmdCandidates[i]);
    }
  }

  // ---------------------------------------------------------------------------
  // Command lines

  /** The argument list each Execute* method passes on, in its order. */
  function Args(c: Command): seq<string> {
    match c
    case Generate(name, fields) => ["generate", name] + fields
    case Start(reload, docs) => ["start"] + (if reload then ["-r"] else []) + (if docs then ["-d"] else [])
    case New(name, path) => ["new", name] + (if path != "" then ["--path", path] else [])
    case Destroy(name) => ["destroy", name]
    case ShowDocs => ["docs"]
  }

  /** How an argument list is read back as a command: a reference reading of the lists `Args` builds. */
  function ParseCommand(args: seq<string>): Option<Command> {
    if |args| == 0 then None
    else if args[0] == "generate" && |args| >= 2 then Some(Generate(args[1], args[2..]))
    else if args[0] == "start" && |args| == 1 then Some(Start(false, false))
    else if args[0] == "start" && |args| == 2 && args[1] == "-r" then Some(Start(true, false))
    else if args[0] == "start" && |args| == 2 && args[1] == "-d" then Some(Start(false, true))
    else if args[0] == "start" && |args| == 3 && args[1] == "-r" && args[2] == "-d" then Some(Start(true, true))
    else if args[0] == "new" && |args| == 2 then Some(New(args[1], ""))
    else if args[0] == "new" && |args| == 4 && args[2] == "--path" && args[3] != "" then Some(New(args[1], args[3]))
    else if args[0] == "destroy" && |args| == 2 then Some(Destroy(args[1]))
    else if args[0] == "docs" && |args| == 1 then Some(ShowDocs)
    else None
  }

  /**
   * Every command's argument list reads back as that command: flags appear
   * exactly when asked for and in a fixed order, the --path pair only for a
   * non-empty path, and the fields of generate in their order.
   */
  lemma CommandRoundTrip(c: Command)
    ensures ParseCommand(Args(c)) == Some(c)
  {
    match c
    case Generate(name, fields) =>
      assert Args(c)[2..] == fields;
    case Start(reload, docs) =>
    case New(name, path) =>
    case Destroy(name) =>
    case ShowDocs =>
  }

  /** filepath.Join(dir, file) for a relative `dir` whose only redundant part is a leading "./". */
  function JoinPath(dir: string, file: string): string {
    if dir == "" then file
    else if |dir| > 2 && dir[..2] == "./" then JoinPath(dir[2..], file)
    else dir + "/" + file
  }

  /** The main.go paths of the three candidate source directories. */
  lemma MainGoOfCandidates()
    ensures JoinPath(CmdCandidates[0], "main.go") == "../cmd/main.go"
    ensures JoinPath(CmdCandidates[1], "main.go") == "cmd/main.go"
    ensures JoinPath(CmdCandidates[2], "main.go") == "../../cmd/main.go"
  {
    assert CmdCandidates[0][..2] != "./" by { assert CmdCandidates[0][1] == '.'; }
    assert CmdCandidates[2][..2] != "./" by { assert CmdCandidates[2][1] == '.'; }
    assert CmdCandidates[1][2..] == "cmd";
    assert "cmd"[..2] != "./" by { assert "cmd"[0] == 'c'; }
  }

  /** The wrapping of the outcome of a run into the executor's (output, error) result. */
  function Complete(plan: Plan, run: RunOracle): (r: Result<string, string>)
    ensures plan.Refuse? ==> r == Failure(plan.message)
    ensures plan.Launch? ==> (r.Success? <==> run(plan.command).err.None?)
    ensures r.Success? ==> plan.Launch? && r.value == run(plan.command).output
  {
    match plan
    case Refuse(message) => Failure(message)
    case Launch(runner, command) =>
      var out := run(command);
      if out.err.Some? then Failure(FailureText(runner, out.err.value, out.output))
      else Success(out.output)
  }

  /** The error text of a failed run, with the command's output appended. */
  function FailureText(runner: Runner, err: string, output: string): string {
    (if runner == BaseBinary then "base command failed: " else "go run failed: ")
      + err + "\nOutput: " + output
  }

  /** The arguments that reach the Base CLI itself: for `go run`, those after "run" and main.go. */
  function ForwardedArgs(plan: Plan): seq<string>
    requires plan.Launch?
  {
    if plan.runner == GoRun && |plan.command.args| >= 2 then plan.command.args[2..]
    else plan.command.args
  }

  // ---------------------------------------------------------------------------
  // The service

  /** ExecutorService: where the Base CLI was found, fixed when the service is created. */
  class ExecutorService {
    const basePath: string
    const cmdPath: string

    /** NewExecutorService: searches for the binary and the source directory once. */
    constructor (lookPath: Option<string>, stat: StatOracle)
      ensures IsBasePathChoice(basePath, lookPath, stat)
      ensures IsCmdPathChoice(cmdPath, stat)
    {
      var found := FindBasePath(lookPath, stat);
      var sources := FindCmdPath(stat);
      basePath := found;
      cmdPath := sources;
    }

    /** IsBaseAvailable: the service is available exactly when its status has a location to report. */
    predicate IsBaseAvailable()
      ensures IsBaseAvailable() <==> StatusLines() != []
    {
      basePath != "" || cmdPath != ""
    }

    /** executeGoDirect's choice: refuse when cmdPath/main.go does not exist, else `go run` it inside cmdPath. */
    function GoDirectPlan(args: seq<string>, stat: StatOracle): Plan {
      var mainGo := JoinPath(cmdPath, "main.go");
      if stat(mainGo) == NotExist then Refuse(MainGoNotFound + mainGo)
      else Launch(GoRun, Invocation("go", ["run", mainGo] + args, cmdPath))
    }

    /** executeBaseCommand's choice: the binary first, then `go run`, then an error. */
    function Dispatch(args: seq<string>, stat: StatOracle): Plan {
      if basePath != "" then Launch(BaseBinary, Invocation(basePath, args, ""))
      else if cmdPath != "" then GoDirectPlan(args, stat)
      else Refuse(BaseNotFound)
    }

    /** executeGoDirect, step by step; what it decides is GoDirectPlan and what it answers is Complete. */
    method ExecuteGoDirect(args: seq<string>, stat: StatOracle, run: RunOracle)
      returns (plan: Plan, result: Result<string, string>)
      ensures plan == GoDirectPlan(args, stat) && result == Complete(plan, run)
    {
      var mainGo := JoinPath(cmdPath, "main.go");
      if stat(mainGo) == NotExist {
        plan := Refuse(MainGoNotFound + mainGo);
        return plan, Failure(plan.message);
      }
      var goArgs := ["run", mainGo];
      goArgs := goArgs + args;
      var command := Invocation("go", goArgs, cmdPath);
      plan := Launch(GoRun, command);
      var out := run(command);
      if out.err.Some? {
        return plan, Failure(FailureText(GoRun, out.err.value, out.output));
      }
      return plan, Success(out.output);
    }

    /** executeBaseCommand, step by step; what it decides is Dispatch and what it answers is Complete. */
    method ExecuteBaseCommand(args: seq<string>, stat: StatOracle, run: RunOracle)
      returns (plan: Plan, result: Result<string, string>)
      ensures plan == Dispatch(args, stat) && result == Complete(plan, run)
    {
      if basePath != "" {
        var command := Invocation(basePath, args, "");
        plan := Launch(BaseBinary, command);
        var out := run(command);
        if out.err.Some? {
          return plan, Failure(FailureText(BaseBinary, out.err.value, out.output));
        }
        return plan, Success(out.output);
      }
      if cmdPath != "" {
        plan, result := ExecuteGoDirect(args, stat, run);
        return;
      }
      plan := Refuse(BaseNotFound);
      result := Failure(BaseNotFound);
    }

    /** ExecuteGenerate */
    method ExecuteGenerate(name: string, fields: seq<string>, stat: StatOracle, run: RunOracle)
      returns (plan: Plan, result: Result<string, string>)
      ensures plan == Dispatch(Args(Generate(name, fields)), stat) && result == Complete(plan, run)
    {
      var args := ["generate", name];
      args := args + fields;
      plan, result := ExecuteBaseCommand(args, stat, run);
    }

    /** ExecuteStart */
    method ExecuteStart(reload: bool, docs: bool, stat: StatOracle, run: RunOracle)
      returns (plan: Plan, result: Result<string, string>)
      ensures plan == Dispatch(Args(Start(reload, docs)), stat) && result == Complete(plan, run)
    {
      var args := ["start"];
      if reload {
        args := args + ["-r"];
      }
      if docs {
        args := args + ["-d"];
      }
      plan, result := ExecuteBaseCommand(args, stat, run);
    }

    /** ExecuteNew */
    method ExecuteNew(name: string, path: string, stat: StatOracle, run: RunOracle)
      returns (plan: Plan, result: Result<string, string>)
      ensures plan == Dispatch(Args(New(name, path)), stat) && result == Complete(plan, run)
    {
      var args := ["new", name];
      if path != "" {
        args := args + ["--path", path];
      }
      plan, result := ExecuteBaseCommand(args, stat, run);
    }

    /** ExecuteDestroy */
    method ExecuteDestroy(name: string, stat: StatOracle, run: RunOracle)
      returns (plan: Plan, result: Result<string, string>)
      ensures plan == Dispatch(Args(Destroy(name)), stat) && result == Complete(plan, run)
    {
      plan, result := ExecuteBaseCommand(["destroy", name], stat, run);
    }

    /** ExecuteDocs */
    method ExecuteDocs(stat: StatOracle, run: RunOracle)
      returns (plan: Plan, result: Result<string, string>)
      ensures plan == Dispatch(Args(ShowDocs), stat) && result == Complete(plan, run)
    {
      plan, result := ExecuteBaseCommand(["docs"], stat, run);
    }

    /** The status lines, the binary's before the source directory's. */
    function StatusLines(): seq<string> {
      (if basePath != "" then ["Base CLI: " + basePath] else [])
        + (if cmdPath != "" then ["Cmd Path: " + cmdPath] else [])
    }

    /** The text GetStatus reports. */
    function Status(): string {
      var lines := StatusLines();
      if |lines| == 0 then StatusNotFound else Join(lines, "\n")
    }

    /** GetStatus, appending line by line; what it answers is Status. */
    method GetStatus() returns (status: string)
      ensures status == Status()
    {
      var lines: seq<string> := [];
      if basePath != "" {
        lines := lines + ["Base CLI: " + basePath];
      }
      if cmdPath != "" {
        lines := lines + ["Cmd Path: " + cmdPath];
      }
      if |lines| == 0 {
        return StatusNotFound;
      }
      return Join(lines, "\n");
    }
  }

  // ---------------------------------------------------------------------------
  // Properties of the service

  /**
   * executeBaseCommand's priority: a known binary always runs with the
   * arguments unchanged; otherwise a known source directory goes to `go run`
   * (or fails when its main.go is missing); otherwise nothing runs.
   */
  lemma DispatchPriority(e: ExecutorService, args: seq<string>, stat: StatOracle)
    ensures e.basePath != "" ==> e.Dispatch(args, stat) == Launch(BaseBinary, Invocation(e.basePath, args, ""))
    ensures e.basePath == "" && e.cmdPath != "" ==>
      var mainGo := JoinPath(e.cmdPath, "main.go");
      e.Dispatch(args, stat)
        == if stat(mainGo) == NotExist then Refuse(MainGoNotFound + mainGo)
           else Launch(GoRun, Invocation("go", ["run", mainGo] + args, e.cmdPath))
    ensures e.basePath == "" && e.cmdPath == "" ==> e.Dispatch(args, stat) == Refuse(BaseNotFound)
  {
  }

  /**
   * Whatever runs receives the command's own arguments, which read back as
   * that command.
   */
  lemma ForwardsTheCommand(e: ExecutorService, c: Command, stat: StatOracle)
    ensures var plan := e.Dispatch(Args(c), stat);
      plan.Launch? ==> ForwardedArgs(plan) == Args(c) && ParseCommand(ForwardedArgs(plan)) == Some(c)
  {
    var plan := e.Dispatch(Args(c), stat);
    if plan.Launch? && plan.runner == GoRun {
      assert plan.command.args == ["run", JoinPath(e.cmdPath, "main.go")] + Args(c);
      assert plan.command.args[2..] == Args(c);
    }
    CommandRoundTrip(c);
  }

  /** The service is available exactly when dispatch does not answer "base CLI not found". */
  lemma AvailableIffDispatchFindsCli(e: ExecutorService, args: seq<string>, stat: StatOracle)
    ensures e.IsBaseAvailable() <==> e.Dispatch(args, stat) != Refuse(BaseNotFound)
  {
    if e.basePath == "" && e.cmdPath != "" {
      var mainGo := JoinPath(e.cmdPath, "main.go");
      assert (MainGoNotFound + mainGo)[9] == MainGoNotFound[9] == 'm';
      assert BaseNotFound[9] == CliNotFound[9] == 'n';
    }
  }

  /**
   * GetStatus reports "Base CLI not found" exactly when the service is not
   * available, and otherwise one line per location found, the binary's first.
   */
  lemma StatusReflectsAvailability(e: ExecutorService)
    ensures e.Status() == StatusNotFound <==> !e.IsBaseAvailable()
    ensures e.basePath != "" && e.cmdPath != "" ==>
      e.Status() == "Base CLI: " + e.basePath + "\n" + "Cmd Path: " + e.cmdPath
    ensures e.basePath != "" && e.cmdPath == "" ==> e.Status() == "Base CLI: " + e.basePath
    ensures e.basePath == "" && e.cmdPath != "" ==> e.Status() == "Cmd Path: " + e.cmdPath
  {
    var lines := e.StatusLines();
    if e.basePath != "" && e.cmdPath != "" {
      assert lines == ["Base CLI: " + e.basePath, "Cmd Path: " + e.cmdPath];
      assert Join(lines, "\n") == lines[0] + "\n" + Join(lines[1..], "\n");
      assert e.Status()[8] == ':' != StatusNotFound[8];
    } else if e.basePath != "" {
      assert lines == ["Base CLI: " + e.basePath];
      assert e.Status()[8] == ':' != StatusNotFound[8];
    } else if e.cmdPath != "" {
      assert lines == ["Cmd Path: " + e.cmdPath];
      assert e.Status()[0] == 'C' != StatusNotFound[0];
    }
  }

  /**
   * Because findBasePath falls back to "base", a service built by
   * NewExecutorService always has a binary to run (as long as a PATH hit is
   * a non-empty path): it is available, it never uses `go run` and never
   * answers "base CLI not found", and its status starts with the binary's line.
   */
  lemma CreatedServiceAlwaysRunsBinary(e: ExecutorService, lookPath: Option<string>, stat: StatOracle, args: seq<string>)
    requires IsBasePathChoice(e.basePath, lookPath, stat) && IsCmdPathChoice(e.cmdPath, stat)
    requires lookPath.Some? ==> lookPath.value != ""
    ensures e.IsBaseAvailable()
    ensures e.Dispatch(args, stat) == Launch(BaseBinary, Invocation(e.basePath, args, ""))
    ensures HasPrefix(e.Status(), "Base CLI: " + e.basePath)
  {
    BasePathIsNeverEmpty(e.basePath, lookPath, stat);
    var line := "Base CLI: " + e.basePath;
    var tail := if e.cmdPath != "" then "\n" + "Cmd Path: " + e.cmdPath else "";
    assert e.Status() == line + tail by {
      StatusReflectsAvailability(e);
    }
    assert (line + tail)[..|line|] == line;
  }
}
