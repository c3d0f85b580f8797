/** The command descriptor of cmd.go and the pure decisions made around it:
    the identity under which an async command is tracked (`hash`), the choice
    of working directory (`getWd`), the descriptors `run`, `bash` and `Start`
    build, the output `command.run` returns, and `toInt`. */
module Cmd {
  import opened Wrappers
  import opened GoStd
  import opened Split

  /** `In`: the optional working-directory argument; only its first element is used. */
  type In = seq<string>

  /** The `command` struct, without its output recorder (captured output is
      what the child run reports, see ChildRun). */
  datatype Command = Command(
    executable: string,
    argv: seq<string>,
    env: seq<string>,
    wd: string,
    captureOutput: bool)

  /** What running a child process produced: the recorder's contents (only
      meaningful when capturing) and the error `exec.Cmd.Run` returned. */
  datatype ChildRun = ChildRun(recorded: string, err: Option<Error>)

  /** Go's `(output string, err error)` result pair. */
  datatype Outcome = Outcome(output: string, err: Option<Error>)

  // ---- hash ----

  /** The identity of an async command: the executable immediately followed by
      the comma-joined arguments. The second ensures is the source's own
      branch for no arguments, where the identity is the executable alone;
      it also follows from the first, since joining nothing gives "". */
  function Hash(c: Command): (id: string)
    ensures id == c.executable + Join(c.argv, ',')
    ensures c.argv == [] ==> id == c.executable
  {
    if |c.argv| > 0 then c.executable + Join(c.argv, ',') else c.executable
  }

  /** The identity depends only on the executable and the arguments, never on
      the environment, the working directory or the capture flag. */
  lemma HashIgnoresContext(c1: Command, c2: Command)
    requires c1.executable == c2.executable && c1.argv == c2.argv
    ensures Hash(c1) == Hash(c2)
  {
  }

  /** No separator stands between the executable and the first argument, so
      `ab c` and `a bc` share one identity, and so do no arguments and one
      empty argument. */
  lemma HashCollisions(env: seq<string>, wd: string, capture: bool)
    ensures Hash(Command("ab", ["c"], env, wd, capture)) == Hash(Command("a", ["bc"], env, wd, capture))
    ensures Hash(Command("a", [], env, wd, capture)) == Hash(Command("a", [""], env, wd, capture))
  {
    assert Join(["c"], ',') == "c" && Join(["bc"], ',') == "bc";
    assert "ab" + "c" == "a" + "bc";
    assert "a" + "" == "a";
  }

  /** For one executable and non-empty argument lists without commas, equal
      identities mean equal arguments. */
  lemma HashDistinguishesArguments(c1: Command, c2: Command)
    requires c1.executable == c2.executable
    requires |c1.argv| > 0 && |c2.argv| > 0
    requires forall i :: 0 <= i < |c1.argv| ==> ',' !in c1.argv[i]
    requires forall i :: 0 <= i < |c2.argv| ==> ',' !in c2.argv[i]
    ensures Hash(c1) == Hash(c2) <==> c1.argv == c2.argv
  {
    var n := |c1.executable|;
    assert Hash(c1)[n..] == Join(c1.argv, ',');
    assert Hash(c2)[n..] == Join(c2.argv, ',');
    JoinInjective(c1.argv, c2.argv, ',');
  }

  // ---- getWd ----

  /** `getWd` indexes the single `In` it is given, so that `In` must not be empty. */
  predicate WdArgsOk(wd: seq<In>) {
    |wd| == 1 ==> |wd[0]| > 0
  }

  /** The working directory: the first element of the one `In` when exactly one
      is given (its other elements are ignored), otherwise what `os.Getwd`
      answered (`getwd`). */
  function GetWd(wd: seq<In>, getwd: Result<string>): (r: Result<string>)
    requires WdArgsOk(wd)
    ensures |wd| == 1 ==> r == Ok(wd[0][0])
    ensures |wd| != 1 ==> r == getwd
  {
    if |wd| == 1 then Ok(wd[0][0]) else getwd
  }

  // ---- command.run ----

  /** `command.run`: the recorder's contents when capturing and "" otherwise,
      whatever the child wrote; the run error is passed through. */
  function RunOutput(c: Command, child: ChildRun): (r: Outcome)
    ensures r.err == child.err
    ensures !c.captureOutput ==> r.output == ""
    ensures c.captureOutput ==> r.output == child.recorded
  {
    if c.captureOutput then Outcome(child.recorded, child.err) else Outcome("", child.err)
  }

  // ---- run and bash ----

  /** The descriptor `run` builds from the split command line. */
  function RunDescriptor(captureOutput: bool, parts: Parts, dir: string): (c: Command)
    ensures c.executable == parts.executable && c.argv == parts.argv && c.env == parts.env
    ensures c.wd == dir && c.captureOutput == captureOutput
  {
    Command(parts.executable, parts.argv, parts.env, dir, captureOutput)
  }

  /** `run(captureOutput, commandstr, wd)`, with the command line already
      tokenized, `os.Getwd`'s answer as `getwd` and the operating system's
      execution of a descriptor as `exec`. */
  function Run(captureOutput: bool, tokens: seq<string>, wd: seq<In>, getwd: Result<string>,
               exec: Command -> ChildRun): (r: Outcome)
    requires WdArgsOk(wd) && (GetWd(wd, getwd).Ok? ==> |tokens| > 0)
    ensures GetWd(wd, getwd).Err? ==> r == Outcome("", Some(GetWd(wd, getwd).error))
    ensures !captureOutput ==> r.output == ""
    ensures GetWd(wd, getwd).Ok? ==>
      var c := RunDescriptor(captureOutput, SplitOf(tokens), GetWd(wd, getwd).value);
      r.err == exec(c).err && (captureOutput ==> r.output == exec(c).recorded)
  {
    match GetWd(wd, getwd)
    case Err(e) => Outcome("", Some(e))
    case Ok(dir) =>
      var c := RunDescriptor(captureOutput, SplitOf(tokens), dir);
      RunOutput(c, exec(c))
  }

  /** The descriptor `bash` builds: `bash -c script`, with no environment overrides. */
  function BashDescriptor(captureOutput: bool, script: string, dir: string): (c: Command)
    ensures c.executable == "bash" && c.argv == ["-c", script] && c.env == []
    ensures c.wd == dir && c.captureOutput == captureOutput
  {
    Command("bash", ["-c", script], [], dir, captureOutput)
  }

  /** `bash(captureOutput, script, wd)`: runs `bash -c script`. */
  function Bash(captureOutput: bool, script: string, wd: seq<In>, getwd: Result<string>,
                exec: Command -> ChildRun): (r: Outcome)
    requires WdArgsOk(wd)
    ensures GetWd(wd, getwd).Err? ==> r == Outcome("", Some(GetWd(wd, getwd).error))
    ensures !captureOutput ==> r.output == ""
    ensures GetWd(wd, getwd).Ok? ==>
      var c := BashDescriptor(captureOutput, script, GetWd(wd, getwd).value);
      r.err == exec(c).err && (captureOutput ==> r.output == exec(c).recorded)
  {
    match GetWd(wd, getwd)
    case Err(e) => Outcome("", Some(e))
    case Ok(dir) =>
      var c := BashDescriptor(captureOutput, script, dir);
      RunOutput(c, exec(c))
  }

  // ---- Start's descriptor ----

  /** The build command `Start` runs first for a `.go` executable. */
  const GoInstall: seq<string> := ["go", "install"]

  /** `go install` runs the `go` executable with the single argument `install`
      and no environment overrides. */
  lemma GoInstallSplit()
    ensures SplitOf(GoInstall) == Parts("go", ["install"], [])
  {
    assert !IsAssignment("go");
    SplitNoAssignments(GoInstall);
  }

  /** Whether `Start` treats the executable as a Go source file: it is some
      stem followed by `.go`. */
  predicate IsGoFile(executable: string): (b: bool)
    ensures b ==> |executable| >= 3 && executable == executable[..|executable| - 3] + ".go"
  {
    HasSuffix(executable, ".go")
  }

  /** Every name ending in `.go` is treated as a Go source file. */
  lemma GoFileStem(stem: string)
    ensures IsGoFile(stem + ".go")
  {
    assert (stem + ".go")[|stem|..] == ".go";
  }

  /** The descriptor `Start` hands to `runAsync`: a `.go` executable is replaced
      by the base name of the working directory (the binary `go install`
      produced); the output is never captured. */
  function StartDescriptor(parts: Parts, dir: string): (c: Command)
    ensures !c.captureOutput
    ensures c.argv == parts.argv && c.env == parts.env && c.wd == dir
    ensures IsGoFile(parts.executable) ==> c.executable == Base(dir)
    ensures !IsGoFile(parts.executable) ==> c.executable == parts.executable
  {
    var executable := if IsGoFile(parts.executable) then Base(dir) else parts.executable;
    Command(executable, parts.argv, parts.env, dir, false)
  }

  /** The synchronous part of `Start`: resolve the working directory, split the
      command line, build a `.go` target with `go install` in the same
      directory, and produce the descriptor to run in the background, or the
      error that stops `Start` before anything is tracked. */
  function StartPlan(tokens: seq<string>, wd: seq<In>, getwd: Result<string>,
                     exec: Command -> ChildRun): (r: Result<Command>)
    requires WdArgsOk(wd) && (GetWd(wd, getwd).Ok? ==> |tokens| > 0)
    ensures GetWd(wd, getwd).Err? ==> r == Err(GetWd(wd, getwd).error)
    ensures r.Ok? ==> !r.value.captureOutput && GetWd(wd, getwd) == Ok(r.value.wd)
    ensures r.Ok? ==> r.value.argv == SplitOf(tokens).argv && r.value.env == SplitOf(tokens).env
    ensures GetWd(wd, getwd).Ok? && !IsGoFile(SplitOf(tokens).executable) ==>
      r.Ok? && r.value.executable == SplitOf(tokens).executable
    ensures GetWd(wd, getwd).Ok? && IsGoFile(SplitOf(tokens).executable) ==>
      var build := exec(Command("go", ["install"], [], GetWd(wd, getwd).value, false));
      (build.err.Some? ==> r == Err(build.err.value)) &&
      (build.err.None? ==> r.Ok? && r.value.executable == Base(GetWd(wd, getwd).value))
  {
    match GetWd(wd, getwd)
    case Err(e) => Err(e)
    case Ok(dir) =>
      var parts := SplitOf(tokens);
      var build := if IsGoFile(parts.executable) then Run(false, GoInstall, wd, getwd, exec).err else None;
      GoInstallSplit();
      if build.Some? then Err(build.value) else Ok(StartDescriptor(parts, dir))
  }

  // ---- toInt ----

  /** `toInt`: `strconv.Atoi`, with 0 for anything it rejects. */
  function ToInt(s: string): (n: int)
    ensures MinInt <= n <= MaxInt
    ensures Atoi(s).Ok? ==> n == Atoi(s).value
    ensures Atoi(s).Err? ==> n == 0
  {
    match Atoi(s)
    case Ok(v) => v
    case Err(_) => 0
  }

  /** `toInt` reads back every 64-bit integer that `strconv.Itoa` prints. */
  lemma ToIntItoa(n: int)
    requires MinInt <= n <= MaxInt
    ensures ToInt(Itoa(n)) == n
  {
    AtoiItoa(n);
  }
}
