# gosu command engine (cmd.go) in Dafny

A model of the decision logic inside `cmd.go` of gosu, a Go task runner: how a
command line is split into environment assignments, an executable and its
arguments; the identity under which a background ("watch"/server) command is
tracked; how the working directory is chosen; which descriptor `run`, `bash`
and `Start` build (including the `.go` "go install, then run the binary named
after the directory" rewrite); what output a synchronous run returns; the
process supervisor (the `spawnedProcesses` registry, the `waitExit` flag and
the `waitgroup` counter) as changed by `runAsync`, `killSpawned` and the
background goroutine; and the scoped directory change `Inside`.

Modules, one file each:

- `wrappers.dfy` — `Wrappers`: `Option`, `Result` and an opaque `Error`.
- `gostd.dfy` — `GoStd`: the Go library functions the engine calls
  (`strings.Join`, `strings.HasSuffix`, `path.Base`, `strconv.Atoi`). `Join`
  is paired with `strings.Split` and `Atoi` with `strconv.Itoa`, each by a
  round-trip lemma; `Base` has a lemma about the base of `dir/name`.
- `split.dfy` — `Split`: `splitCommand` as a loop (`SplitCommand`) proved
  against a specification function (`SplitOf`) and lemmas about that function.
- `cmd.dfy` — `Cmd`: the `command` descriptor, `hash`, `getWd`,
  `command.run`'s output choice, `run`, `bash`, the synchronous part of
  `Start`, and `toInt`.
- `supervisor.dfy` — `Processes`: class `Supervisor` holding the registry,
  flag and counter, with `KillSpawned`, `RunAsync`, `Start` and one method per
  goroutine event (process started, start failed, process exited).
- `inside.dfy` — `Scoped`: class `WorkingDirectory` with `Inside`.

Operating-system interaction is a parameter everywhere: the answer of
`os.Getwd` (`getwd`), the execution of a descriptor by the OS
(`exec: Command -> ChildRun`, giving the recorder contents and the run error),
whether `process.Kill` succeeds, whether each `os.Chdir` succeeds, and which
handle a started process gets. Goroutines are events without interleaving:
each `runAsync` adds a `Job` in phase `Scheduled`, which later moves to
`Running(h)` then `Exited(h)`, or to `StartFailed`.

Behaviour of the code that the model keeps as written:

- In the all-assignments fallback the first token becomes the executable and
  `env` still holds every token, that one included.
- `hash` puts no separator between the executable and the first argument, so
  `ab c` and `a bc` share an identity, as do no arguments and one empty one.
- Registry entries are never removed, not even when the process exits.
- The `waitgroup` counter is only decremented after a started process exits;
  a goroutine whose process fails to start never decrements it, so the counter
  can never again reach zero.
- The doc comment of `Start` (cmd.go:47) says a repeated `Start` of the same
  command kills the previous process. It kills the handle registered at the
  time of the call, and a handle is registered only once its goroutine has
  started the process. So a second `Start` that runs before the first process
  has started finds nothing to kill. Once both processes start, the handle of
  whichever started last is tracked: the newer one in `SupersessionBeforeStart`,
  the older one in `SupersessionStartsReversed`. The untracked process is never
  killed by a later `Start`.
- An environment entry is any leading token containing at least one `=`; in
  the fallback the executable itself contains `=`.
- A lambda that panics inside `Inside` still has the original directory
  restored by the deferred `os.Chdir`, and the panic propagates instead of a
  nil return.

## Model

| member | source | states |
|---|---|---|
| `Split.LeadingAssignments` | cmd.go:119-131 | the scan stops at the first token without `=`: every earlier token is an assignment, and that token is not |
| `Split.SplitOf` | cmd.go:117-135 | the reference split: every `env` entry is an assignment (in the fallback too) and the executable is one of the tokens |
| `Split.SplitCommand` | cmd.go:117-136 | the loop returns exactly the parts `SplitOf` describes: leading assignments in order, first other token, rest; or the fallback |
| `Split.SplitNormal` | cmd.go:119-131 | when some token has no `=`, the tokens are `env ++ [executable] ++ argv`, every `env` entry is an assignment and the executable is not; later `=` tokens stay in `argv` |
| `Split.SplitOfConcat` | cmd.go:119-131 | N leading assignments then a non-assignment and M-1 tokens give exactly those N `env` entries, that executable and those M-1 arguments |
| `Split.SplitFallback` | cmd.go:133-135 | when every token is an assignment: executable is the first token, `argv` the rest, `env` all tokens including the executable |
| `Split.SplitNoAssignments` | cmd.go:119-129 | with no leading assignment, `env` is empty and the first token is the executable |
| `GoStd.Join` | cmd.go:149 | the joined string starts with the first argument and holds a comma as soon as there are two arguments |
| `GoStd.SplitOnJoin` | cmd.go:149 | splitting the comma-joined arguments on `,` recovers them when none contains a comma |
| `GoStd.JoinInjective` | cmd.go:149 | the comma join is injective on non-empty comma-free argument lists |
| `GoStd.Base` | cmd.go:63 | `path.Base` is never empty, is "." for the empty path, and contains `/` only when it is "/" |
| `GoStd.BaseOfChild` | cmd.go:63 | the base of `dir/name` is `name` for a plain non-empty element |
| `GoStd.Atoi` | cmd.go:216 | an accepted number fits a 64-bit `int`; the empty string is rejected |
| `GoStd.AtoiItoa` | cmd.go:216 | parsing the decimal form of any 64-bit integer gives it back |
| `Cmd.Hash` | cmd.go:147-152 | the identity is the executable immediately followed by the comma-joined arguments; the executable alone without arguments |
| `Cmd.HashIgnoresContext` | cmd.go:147-152 | the identity ignores environment, working directory and capture flag |
| `Cmd.HashCollisions` | cmd.go:149 | (`ab`, [`c`]) and (`a`, [`bc`]) collide, and so do no arguments and one empty argument |
| `Cmd.HashDistinguishesArguments` | cmd.go:149 | for one executable and non-empty comma-free argument lists, equal identities iff equal arguments |
| `Cmd.GetWd` | cmd.go:93-98 | exactly one `In`: its first element (extras ignored); zero or several: the current directory or the error from reading it |
| `Cmd.RunOutput` | cmd.go:175-187 | "" whenever not capturing, whatever the child wrote; the recorder contents when capturing; the run error passed through in both cases |
| `Cmd.RunDescriptor` | cmd.go:105-113 | `run`'s descriptor takes executable, arguments and env from the split, the resolved directory and the capture flag |
| `Cmd.Run` | cmd.go:100-115 | a working-directory error returns ("", err) without running, even for an empty command line; otherwise the split command runs in that directory, its error is returned, and the output is "" unless capturing |
| `Cmd.BashDescriptor` | cmd.go:83-88 | `bash`'s descriptor runs `bash` with arguments `-c` and the script, no env overrides, in the resolved directory, with the capture flag |
| `Cmd.Bash` | cmd.go:77-91 | runs `bash -c script` with no env overrides in the chosen directory; working-directory error and capture behaviour as for `run` |
| `Cmd.GoInstallSplit` | cmd.go:59 | the build step runs executable `go` with the single argument `install` and no env overrides |
| `Cmd.IsGoFile` | cmd.go:57 | an executable counts as a Go source file only when it is a stem followed by `.go` |
| `Cmd.GoFileStem` | cmd.go:57 | every name ending in `.go` counts as a Go source file |
| `Cmd.StartDescriptor` | cmd.go:57-71 | a `.go` executable is replaced by the base name of the directory; arguments, env and directory are kept; output is never captured |
| `Cmd.StartPlan` | cmd.go:50-71 | a working-directory error (even for an empty command line) or a failing `go install` (run in the same directory) is returned; otherwise the async descriptor, never capturing |
| `Cmd.ToInt` | cmd.go:215-221 | `Atoi`'s value when it accepts, 0 when it rejects; always within 64-bit range |
| `Cmd.ToIntItoa` | cmd.go:215-221 | `toInt` reads back every 64-bit integer printed in decimal |
| `Processes.PendingAppend` | cmd.go:200 | scheduling a goroutine that has not called `Done` adds exactly one to the count |
| `Processes.Pending` | cmd.go:200-210 | the counter of jobs not yet done never exceeds the number of jobs |
| `Processes.PendingUpdate` | cmd.go:200-210 | changing one job's phase changes the count by that job's contribution only |
| `Processes.FailedStartKeepsPending` | cmd.go:202-205 | a job whose process failed to start keeps the counter above zero forever |
| `Processes.Supervisor.constructor` | cmd.go:19 | the registry starts empty, with no waiting and a zero counter |
| `Processes.Supervisor.KillSpawned` | cmd.go:223-234 | no-op for an unknown identity; otherwise the tracked handle is killed or the kill fails (only logged); the entry stays |
| `Processes.Supervisor.RunAsync` | cmd.go:189-213 | the handle tracked before the call is the one killed; then `waitExit` is set and the counter grows by exactly 1; the registry is unchanged; the result is nil |
| `Processes.Supervisor.ProcessStarted` | cmd.go:202-206 | only after a successful start is the handle recorded under the job's identity, overwriting any previous one |
| `Processes.Supervisor.ProcessStartFailed` | cmd.go:202-205 | a failed start records nothing and does not decrement the counter, which stays positive |
| `Processes.Supervisor.ProcessExited` | cmd.go:207-210 | after exit the counter drops by one and the registry entry is not removed |
| `Processes.Supervisor.Start` | cmd.go:44-73 | on a working-directory or build error the supervisor is untouched and nothing is killed; otherwise the handle tracked under the descriptor's hash before the call is the one killed (or the kill fails, only logged), one job for the `StartPlan` descriptor is scheduled under that hash, the counter grows by 1 and nil is returned |
| `Processes.SupersessionBeforeStart` | cmd.go:195-206 | two starts before either process started: neither kill finds a process; when the older process starts first, the newer handle ends up tracked |
| `Processes.SupersessionStartsReversed` | cmd.go:195-206 | the same two starts when the newer process starts first: the older handle overwrites it and stays tracked, so the last process to start is the tracked one |
| `Scoped.WorkingDirectory.Inside` | cmd.go:238-254 | a failed `Getwd` or `Chdir` returns its error, skips the lambda and leaves the directory; otherwise the lambda runs in `dir`, the old directory is restored whether the lambda returns or panics (a restore failure is ignored), and the result is nil or the propagated panic |
| `Scoped.InsideRestores` | cmd.go:238-254 | a lambda that leaves the directory alone sees `dir`, and when the restore succeeds the caller sees its own directory afterwards, after a return or a panic |

## Left out

- `str.ToArgv`, the tokenizer with its quoting rules: a library outside this model; every operation takes the token list it produces.
- `toCmd`'s stream wiring, `newFileWrapper`, the ANSI colouring of stderr and the recorder's byte contents: I/O tees whose helpers are not part of this model; captured output is the opaque `recorded` string of `ChildRun`.
- `effectiveEnv`: not part of this model; environment merging stays abstract inside `exec`.
- `exec.Cmd.Run/Start/Wait`, `process.Kill`, `os.Getwd`, `os.Chdir`: operating-system calls, replaced by parameters giving their outcomes.
- The goroutine's concurrency and the blocking wait on `waitgroup`: only the sequential effect of each event on the registry, flag and counter is modelled, not interleavings; the code that waits on `waitExit` and `waitgroup` is in a file that is not part of this model.
- `util.Error` logging of a failed kill: a side channel; the kill outcome is returned instead.
- The exported wrappers `Bash`, `BashOutput`, `Run` and `RunOutput`: each is `bash` or `run` with the capture flag fixed (and the output dropped for `Bash` and `Run`); the model exposes the flag as a parameter.
- Panics: a single empty `In` (`wd[0][0]`) is excluded by a precondition everywhere; an empty token list (`argv[0]` in the fallback) is excluded only where the working directory resolved, since `run` and `Start` return a working-directory error before they split the command line.
- Processes.Supervisor.Start: the second `getWd` inside `Run("go install", wd...)` is given the same `os.Getwd` answer as the first.
- Scoped.WorkingDirectory.Inside: directory names are treated as resolved paths; relative-path resolution by `os.Chdir` is not modelled.
- GoStd.Atoi: Go's `int` is taken to be 64 bits wide; 32-bit platforms are not modelled.
