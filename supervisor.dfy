/** The process supervisor of cmd.go: the `spawnedProcesses` registry, the
    `waitExit` flag and the `waitgroup` counter, changed by `runAsync`,
    `killSpawned` and the background goroutine each `runAsync` launches. The
    goroutine is modelled as discrete events, one method each: it was
    scheduled by `runAsync`, then its process started (with a handle) or
    failed to start, and a started process later exited. */
module Processes {
  import opened Wrappers
  import opened GoStd
  import opened Split
  import opened Cmd

  /** An operating-system process handle (`*os.Process`). */
  datatype Handle = Handle(pid: nat)

  /** How far a background goroutine has got. */
  datatype Phase = Scheduled | Running(handle: Handle) | StartFailed | Exited(handle: Handle)
  {
    /** The goroutine has called `waitgroup.Done`. */
    predicate Done() { Exited? }

    /** The goroutine's process started with handle `h`. */
    predicate Launched(h: Handle) { (Running? || Exited?) && handle == h }
  }

  /** A goroutine launched by `runAsync`: the identity it tracks its process
      under, the command it starts, and its phase. */
  datatype Job = Job(id: string, cmd: Command, phase: Phase)

  /** The number of goroutines that have not called `waitgroup.Done`. */
  function Pending(jobs: seq<Job>): (n: nat)
    ensures n <= |jobs|
  {
    if jobs == [] then 0
    else Pending(jobs[..|jobs| - 1]) + (if jobs[|jobs| - 1].phase.Done() then 0 else 1)
  }

  /** Changing one goroutine's phase changes the count by that goroutine only. */
  lemma {:induction false} PendingUpdate(jobs: seq<Job>, t: nat, j: Job)
    requires t < |jobs|
    ensures Pending(jobs[t := j]) + (if jobs[t].phase.Done() then 0 else 1)
         == Pending(jobs) + (if j.phase.Done() then 0 else 1)
  {
    var last := |jobs| - 1;
    if t < last {
      assert jobs[t := j][..last] == jobs[..last][t := j];
      PendingUpdate(jobs[..last], t, j);
    } else {
      assert jobs[t := j][..last] == jobs[..last];
    }
  }

  /** A new goroutine adds one to the count unless it is already done. */
  lemma PendingAppend(jobs: seq<Job>, j: Job)
    ensures Pending(jobs + [j]) == Pending(jobs) + (if j.phase.Done() then 0 else 1)
  {
    assert (jobs + [j])[..|jobs|] == jobs;
  }

  /** A goroutine whose process failed to start never calls `waitgroup.Done`,
      so the counter can never return to zero. */
  lemma {:induction false} FailedStartKeepsPending(jobs: seq<Job>, t: nat)
    requires t < |jobs| && jobs[t].phase == StartFailed
    ensures Pending(jobs) > 0
  {
    var last := |jobs| - 1;
    if t < last {
      FailedStartKeepsPending(jobs[..last], t);
    }
  }

  /** The handle `h` was recorded by a goroutine tracking identity `id`. */
  ghost predicate StartedUnder(jobs: seq<Job>, id: string, h: Handle) {
    exists t :: 0 <= t < |jobs| && jobs[t].id == id && jobs[t].phase.Launched(h)
  }

  /** Scheduling one more goroutine keeps every recorded handle accounted for. */
  lemma StartedUnderAppend(jobs: seq<Job>, j: Job, spawned: map<string, Handle>)
    requires forall id | id in spawned :: StartedUnder(jobs, id, spawned[id])
    ensures forall id | id in spawned :: StartedUnder(jobs + [j], id, spawned[id])
  {
    forall id | id in spawned
      ensures StartedUnder(jobs + [j], id, spawned[id])
    {
      var t :| 0 <= t < |jobs| && jobs[t].id == id && jobs[t].phase.Launched(spawned[id]);
      assert (jobs + [j])[t] == jobs[t];
    }
  }

  /** What `killSpawned` did. */
  datatype KillOutcome = NothingTracked | Killed(handle: Handle) | KillFailed(handle: Handle)

  class Supervisor {
    /** `spawnedProcesses`: identity to the handle of the last process started under it. */
    var spawned: map<string, Handle>
    /** `waitExit`: some async command was started. */
    var waitExit: bool
    /** The `waitgroup` counter. */
    var outstanding: int
    /** The goroutines `runAsync` launched, oldest first. */
    var jobs: seq<Job>

    ghost predicate Valid()
      reads this
    {
      && outstanding == Pending(jobs)
      && (waitExit <==> |jobs| > 0)
      && forall id | id in spawned :: StartedUnder(jobs, id, spawned[id])
    }

    /** The package's initial state: an empty registry, no waiting. */
    constructor ()
      ensures Valid()
      ensures spawned == map[] && !waitExit && outstanding == 0 && jobs == []
    {
      spawned := map[];
      waitExit := false;
      outstanding := 0;
      jobs := [];
    }

    /** `killSpawned(id)`: kills the process tracked under `id`, if any;
        `killSucceeds` is what `process.Kill` answers. A failure is only
        logged. The registry entry stays. */
    method KillSpawned(id: string, killSucceeds: bool) returns (outcome: KillOutcome)
      ensures id !in spawned ==> outcome == NothingTracked
      ensures id in spawned && killSucceeds ==> outcome == Killed(spawned[id])
      ensures id in spawned && !killSucceeds ==> outcome == KillFailed(spawned[id])
    {
      if id !in spawned {
        return NothingTracked;
      }
      var process := spawned[id];
      if !killSucceeds {
        return KillFailed(process);
      }
      outcome := Killed(process);
    }

    /** `runAsync`: kills the process previously tracked under the command's
        identity, sets `waitExit`, adds one to the counter and schedules the
        goroutine that will start the process. It always returns nil. */
    method RunAsync(c: Command, killSucceeds: bool) returns (err: Option<Error>, job: nat, kill: KillOutcome)
      requires Valid()
      modifies this
      ensures Valid()
      ensures err == None
      ensures Hash(c) !in old(spawned) ==> kill == NothingTracked
      ensures Hash(c) in old(spawned) ==>
        kill == if killSucceeds then Killed(old(spawned)[Hash(c)]) else KillFailed(old(spawned)[Hash(c)])
      ensures spawned == old(spawned)
      ensures waitExit && outstanding == old(outstanding) + 1
      ensures job == |old(jobs)| && jobs == old(jobs) + [Job(Hash(c), c, Scheduled)]
    {
      var id := Hash(c);
      kill := KillSpawned(id, killSucceeds);
      var j := Job(id, c, Scheduled);
      PendingAppend(jobs, j);
      StartedUnderAppend(jobs, j, spawned);
      waitExit := true;
      outstanding := outstanding + 1;
      jobs := jobs + [j];
      job := |jobs| - 1;
      err := None;
    }

    /** Event: the process of goroutine `job` started with handle `h`; the
        handle is recorded under the goroutine's identity. */
    method ProcessStarted(job: nat, h: Handle)
      requires Valid() && job < |jobs| && jobs[job].phase == Scheduled
      modifies this
      ensures Valid()
      ensures spawned == old(spawned)[old(jobs)[job].id := h]
      ensures jobs == old(jobs)[job := old(jobs)[job].(phase := Running(h))]
      ensures waitExit == old(waitExit) && outstanding == old(outstanding)
    {
      var j := jobs[job];
      PendingUpdate(jobs, job, j.(phase := Running(h)));
      jobs := jobs[job := j.(phase := Running(h))];
      spawned := spawned[j.id := h];
      forall id | id in spawned
        ensures StartedUnder(jobs, id, spawned[id])
      {
        if id == j.id {
          assert jobs[job].id == id && jobs[job].phase.Launched(h);
        } else {
          var t :| 0 <= t < |old(jobs)| && old(jobs)[t].id == id && old(jobs)[t].phase.Launched(spawned[id]);
          assert t != job;
          assert jobs[t] == old(jobs)[t];
        }
      }
    }

    /** Event: the process of goroutine `job` failed to start. The goroutine
        returns without recording a handle and without `waitgroup.Done`. */
    method ProcessStartFailed(job: nat)
      requires Valid() && job < |jobs| && jobs[job].phase == Scheduled
      modifies this
      ensures Valid()
      ensures jobs == old(jobs)[job := old(jobs)[job].(phase := StartFailed)]
      ensures spawned == old(spawned) && waitExit == old(waitExit) && outstanding == old(outstanding)
      ensures outstanding > 0
    {
      var j := jobs[job];
      PendingUpdate(jobs, job, j.(phase := StartFailed));
      jobs := jobs[job := j.(phase := StartFailed)];
      FailedStartKeepsPending(jobs, job);
      forall id | id in spawned
        ensures StartedUnder(jobs, id, spawned[id])
      {
        var t :| 0 <= t < |old(jobs)| && old(jobs)[t].id == id && old(jobs)[t].phase.Launched(spawned[id]);
        assert t != job;
        assert jobs[t] == old(jobs)[t];
      }
    }

    /** Event: the started process of goroutine `job` exited; the goroutine
        calls `waitgroup.Done`. The registry entry is not removed. */
    method ProcessExited(job: nat)
      requires Valid() && job < |jobs| && jobs[job].phase.Running?
      modifies this
      ensures Valid()
      ensures jobs == old(jobs)[job := old(jobs)[job].(phase := Exited(old(jobs)[job].phase.handle))]
      ensures spawned == old(spawned) && waitExit == old(waitExit)
      ensures outstanding == old(outstanding) - 1
    {
      var j := jobs[job];
      var exited := j.(phase := Exited(j.phase.handle));
      PendingUpdate(jobs, job, exited);
      jobs := jobs[job := exited];
      outstanding := outstanding - 1;
      forall id | id in spawned
        ensures StartedUnder(jobs, id, spawned[id])
      {
        var t :| 0 <= t < |old(jobs)| && old(jobs)[t].id == id && old(jobs)[t].phase.Launched(spawned[id]);
        assert jobs[t].id == id && jobs[t].phase.Launched(spawned[id]);
      }
    }

    /** `Start(commandstr, wd...)`: the synchronous part (StartPlan), then
        `runAsync` with the descriptor. A working-directory or build error is
        returned with the registry, flag and counter untouched. */
    method Start(tokens: seq<string>, wd: seq<In>, getwd: Result<string>,
                 exec: Command -> ChildRun, killSucceeds: bool) returns (err: Option<Error>, kill: KillOutcome)
      requires Valid() && WdArgsOk(wd) && (GetWd(wd, getwd).Ok? ==> |tokens| > 0)
      modifies this
      ensures Valid()
      ensures StartPlan(tokens, wd, getwd, exec).Err? ==>
        err == Some(StartPlan(tokens, wd, getwd, exec).error) && kill == NothingTracked && unchanged(this)
      ensures StartPlan(tokens, wd, getwd, exec).Ok? ==>
        var c := StartPlan(tokens, wd, getwd, exec).value;
        && err == None
        && spawned == old(spawned) && waitExit
        && outstanding == old(outstanding) + 1
        && jobs == old(jobs) + [Job(Hash(c), c, Scheduled)]
        && (Hash(c) !in old(spawned) ==> kill == NothingTracked)
        && (Hash(c) in old(spawned) ==>
              kill == if killSucceeds then Killed(old(spawned)[Hash(c)]) else KillFailed(old(spawned)[Hash(c)]))
    {
      var dir := GetWd(wd, getwd);
      if dir.Err? {
        return Some(dir.error), NothingTracked;
      }
      var executable, argv, env := SplitCommand(tokens);
      if IsGoFile(executable) {
        var build := Run(false, GoInstall, wd, getwd, exec);
        if build.err.Some? {
          GoInstallSplit();
          return build.err, NothingTracked;
        }
        executable := Base(dir.value);
      }
      var c := Command(executable, argv, env, dir.value, false);
      GoInstallSplit();
      assert c == StartPlan(tokens, wd, getwd, exec).value;
      var job;
      err, job, kill := RunAsync(c, killSucceeds);
    }
  }

  /** Two `runAsync`s of one command before either process has started: the
      second finds nothing to kill. Once both processes start, the handle of
      the one that started last is tracked; here the older one starts first,
      so the newer handle is tracked and the older process is never killed. */
  method SupersessionBeforeStart(c: Command, h1: Handle, h2: Handle)
    returns (firstKill: KillOutcome, secondKill: KillOutcome, tracked: Handle, running: nat)
    ensures firstKill == NothingTracked && secondKill == NothingTracked
    ensures tracked == h2 && running == 2
  {
    var s := new Supervisor();
    var err1, job1, err2, job2;
    err1, job1, firstKill := s.RunAsync(c, true);
    err2, job2, secondKill := s.RunAsync(c, true);
    s.ProcessStarted(job1, h1);
    s.ProcessStarted(job2, h2);
    tracked := s.spawned[Hash(c)];
    running := s.outstanding;
  }

  /** The same two `runAsync`s when the newer process starts first: the older
      process's handle overwrites it, so the older process stays tracked and
      the newer one can no longer be killed by a later start. */
  method SupersessionStartsReversed(c: Command, h1: Handle, h2: Handle)
    returns (secondKill: KillOutcome, tracked: Handle, running: nat)
    ensures secondKill == NothingTracked
    ensures tracked == h1 && running == 2
  {
    var s := new Supervisor();
    var err1, job1, firstKill, err2, job2;
    err1, job1, firstKill := s.RunAsync(c, true);
    err2, job2, secondKill := s.RunAsync(c, true);
    s.ProcessStarted(job2, h2);
    s.ProcessStarted(job1, h1);
    tracked := s.spawned[Hash(c)];
    running := s.outstanding;
  }
}
