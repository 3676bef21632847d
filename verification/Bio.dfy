/** Background jobs of one type: one worker, any number of threads that submit jobs, ask for the
    number of pending jobs or wait for a step, and the mutex and conditions between them. */
module Bio {

  type Tid = nat
  type Job = nat

  datatype Holder = Free | ByWorker | ByThread(t: Tid)

  /** Where the worker stands in bioProcessBackgroundJobs. */
  datatype Worker =
    | WantsLock                 // before the first lock, or woken in pthread_cond_wait
    | AtTop                     // top of the loop, with the lock
    | Asleep(signalled: bool)   // in pthread_cond_wait
    | Processing(job: Job)      // without the lock; the job is still queued
    | Finished(job: Job)        // processed, wants the lock
    | Relocked(job: Job)        // with the lock, before listDelNode
    | Unlinked                  // after listDelNode, before the counter falls
    | Counted                   // before the broadcast

  /** Where another thread stands in one of the three calls. */
  datatype Caller =
    | Idle
    | Submitting(job: Job)      // wants the lock
    | Adding(job: Job)          // with the lock, before listAddNodeTail
    | Added                     // before the counter grows
    | Signalling                // before pthread_cond_signal
    | Asking | Reading          // bioPendingJobsOfType: wants the lock; has it
    | Stepping | Checking       // bioWaitStepOfType: wants the lock; has it
    | Waiting(woken: bool)      // in pthread_cond_wait on the step condition
    | Rechecking                // woken, with the lock
    | Leaving(value: nat)       // before the final unlock, except that of a submission
    | Unlocking                 // the final unlock of a submission

  /** `submitted` and `completed` record the jobs in the order they were queued and processed. */
  datatype State = State(lock: Holder, worker: Worker, callers: map<Tid, Caller>, jobs: seq<Job>, pending: nat,
                         submitted: seq<Job>, completed: seq<Job>)

  datatype Step = WorkerStep | WorkerWakes | Call(t: Tid, c: Caller) | CallerStep(t: Tid) | CallerWakes(t: Tid)

  predicate WorkerHolds(w: Worker) {
    w.AtTop? || w.Relocked? || w.Unlinked? || w.Counted?
  }

  predicate CallerHolds(c: Caller) {
    c.Adding? || c.Added? || c.Signalling? || c.Reading? || c.Checking? || c.Rechecking? || c.Leaving? || c.Unlocking?
  }

  /** A caller that cannot move until the lock is free. */
  predicate CallerWantsLock(c: Caller) {
    c.Submitting? || c.Asking? || c.Stepping? || c == Waiting(true)
  }

  predicate Enabled(s: State, step: Step) {
    match step
    case WorkerStep => if s.worker.WantsLock? || s.worker.Finished? then s.lock.Free? else !s.worker.Asleep?
    case WorkerWakes => s.worker.Asleep?
    case Call(t, c) => t in s.callers && s.callers[t].Idle? && (c.Submitting? || c.Asking? || c.Stepping?)
    case CallerStep(t) =>
      && t in s.callers && !s.callers[t].Idle? && s.callers[t] != Waiting(false)
      && (CallerWantsLock(s.callers[t]) ==> s.lock.Free?)
    case CallerWakes(t) => t in s.callers && s.callers[t] == Waiting(false)
  }

  /** pthread_cond_broadcast on the step condition. */
  function Broadcast(callers: map<Tid, Caller>): map<Tid, Caller> {
    map t | t in callers :: if callers[t] == Waiting(false) then Waiting(true) else callers[t]
  }

  function NextWorker(s: State): State {
    match s.worker
    case WantsLock => s.(lock := ByWorker, worker := AtTop)
    case AtTop =>
      if s.jobs == [] then s.(lock := Free, worker := Asleep(false))
      else s.(lock := Free, worker := Processing(s.jobs[0]))
    case Asleep(_) => s
    case Processing(job) => s.(worker := Finished(job), completed := s.completed + [job])
    case Finished(job) => s.(lock := ByWorker, worker := Relocked(job))
    case Relocked(_) => s.(worker := Unlinked, jobs := if s.jobs == [] then [] else s.jobs[1..])
    case Unlinked => s.(worker := Counted, pending := if s.pending > 0 then s.pending - 1 else 0)
    case Counted => s.(worker := AtTop, callers := Broadcast(s.callers))
  }

  function NextCaller(s: State, t: Tid): State
    requires t in s.callers
  {
    var take := s.(lock := ByThread(t));
    match s.callers[t]
    case Idle => s
    case Submitting(job) => take.(callers := s.callers[t := Adding(job)])
    case Adding(job) => s.(jobs := s.jobs + [job], submitted := s.submitted + [job], callers := s.callers[t := Added])
    case Added => s.(pending := s.pending + 1, callers := s.callers[t := Signalling])
    case Signalling =>
      s.(worker := if s.worker.Asleep? then Asleep(true) else s.worker, callers := s.callers[t := Unlocking])
    case Unlocking => s.(lock := Free, callers := s.callers[t := Idle])
    case Asking => take.(callers := s.callers[t := Reading])
    case Reading => s.(callers := s.callers[t := Leaving(s.pending)])
    case Stepping => take.(callers := s.callers[t := Checking])
    case Checking =>
      if s.pending != 0 then s.(lock := Free, callers := s.callers[t := Waiting(false)])
      else s.(callers := s.callers[t := Leaving(0)])
    case Waiting(woken) => if woken then take.(callers := s.callers[t := Rechecking]) else s
    case Rechecking => s.(callers := s.callers[t := Leaving(s.pending)])
    case Leaving(_) => s.(lock := Free, callers := s.callers[t := Idle])
  }

  /** A waiting thread may wake without being signalled. */
  function Next(s: State, step: Step): State
    requires Enabled(s, step)
  {
    match step
    case WorkerStep => NextWorker(s)
    case WorkerWakes => s.(worker := WantsLock)
    case Call(t, c) => s.(callers := s.callers[t := c])
    case CallerStep(t) => NextCaller(s, t)
    case CallerWakes(t) => s.(callers := s.callers[t := Waiting(true)])
  }

  // ---- invariant ----

  /** The lock is held by whoever is inside a critical section. */
  ghost predicate LockOk(s: State) {
    && (s.lock.ByWorker? <==> WorkerHolds(s.worker))
    && forall t :: t in s.callers ==> (s.lock == ByThread(t) <==> CallerHolds(s.callers[t]))
  }

  /** The thread with the lock, if it is a caller. */
  function Inside(s: State): Caller {
    if s.lock.ByThread? && s.lock.t in s.callers then s.callers[s.lock.t] else Idle
  }

  /** The jobs processed but still queued: the one the worker has yet to unlink. */
  function Unfinished(s: State): seq<Job> {
    if (s.worker.Finished? || s.worker.Relocked?) && s.jobs != [] then s.jobs[1..] else s.jobs
  }

  ghost predicate QueueOk(s: State) {
    && (s.worker.Processing? || s.worker.Finished? || s.worker.Relocked? ==> s.jobs != [] && s.worker.job == s.jobs[0])
    && s.submitted == s.completed + Unfinished(s)
    && s.pending + (if Inside(s).Added? then 1 else 0) == |s.jobs| + if s.worker.Unlinked? then 1 else 0
  }

  /** No lost wake-up: the worker sleeps unsignalled only while no job waits, or the thread that
      queued one is about to signal. */
  ghost predicate SleepOk(s: State) {
    s.worker == Asleep(false) && s.jobs != [] ==> Inside(s).Added? || Inside(s).Signalling?
  }

  /** A thread waits for a step, unwoken, only while a job is queued or the broadcast is still to come. */
  ghost predicate StepWaitOk(s: State) {
    forall t :: t in s.callers && s.callers[t] == Waiting(false) ==>
      s.jobs != [] || s.worker.Unlinked? || s.worker.Counted?
  }

  ghost predicate Inv(s: State) {
    LockOk(s) && QueueOk(s) && SleepOk(s) && StepWaitOk(s)
  }

  lemma WorkerKeeps(s: State)
    requires Inv(s) && Enabled(s, WorkerStep)
    ensures Inv(NextWorker(s))
  {
    var s' := NextWorker(s);
    if s.worker.Processing? {
      assert s.completed + s.jobs == s.completed + [s.jobs[0]] + s.jobs[1..];
    }
  }

  lemma CallerKeepsLock(s: State, t: Tid)
    requires Inv(s) && Enabled(s, CallerStep(t))
    ensures LockOk(NextCaller(s, t))
  {
    hide QueueOk, SleepOk, StepWaitOk;
  }

  lemma CallerKeepsQueue(s: State, t: Tid)
    requires Inv(s) && Enabled(s, CallerStep(t))
    ensures QueueOk(NextCaller(s, t))
  {
    hide SleepOk, StepWaitOk;
    if s.callers[t].Adding? {
      var job := s.callers[t].job;
      assert s.jobs != [] ==> (s.jobs + [job])[1..] == s.jobs[1..] + [job];
      assert s.completed + Unfinished(s) + [job] == s.completed + (Unfinished(s) + [job]);
    }
  }

  lemma CallerKeepsSleep(s: State, t: Tid)
    requires Inv(s) && Enabled(s, CallerStep(t))
    ensures SleepOk(NextCaller(s, t))
  {
    hide QueueOk;
  }

  lemma CallerKeepsWait(s: State, t: Tid)
    requires Inv(s) && Enabled(s, CallerStep(t))
    ensures StepWaitOk(NextCaller(s, t))
  {
    hide SleepOk;
  }

  lemma CallerKeeps(s: State, t: Tid)
    requires Inv(s) && Enabled(s, CallerStep(t))
    ensures Inv(NextCaller(s, t))
  {
    hide LockOk, QueueOk, SleepOk, StepWaitOk, NextCaller;
    CallerKeepsLock(s, t);
    CallerKeepsQueue(s, t);
    CallerKeepsSleep(s, t);
    CallerKeepsWait(s, t);
  }

  lemma WakeKeeps(s: State, s': State)
    requires Inv(s) && s'.lock == s.lock && s'.jobs == s.jobs && s'.pending == s.pending
    requires s'.submitted == s.submitted && s'.completed == s.completed && s'.callers.Keys == s.callers.Keys
    requires s'.worker == s.worker || (s.worker.Asleep? && s'.worker.WantsLock?)
    requires forall t :: t in s.callers ==>
      s'.callers[t] == s.callers[t]
        || (!CallerHolds(s.callers[t]) && !CallerHolds(s'.callers[t]) && s'.callers[t] != Waiting(false))
    ensures Inv(s')
  {
  }

  lemma StepKeeps(s: State, step: Step)
    requires Inv(s) && Enabled(s, step)
    ensures Inv(Next(s, step))
    ensures s.submitted <= Next(s, step).submitted && s.completed <= Next(s, step).completed
  {
    hide Inv;
    match step
    case WorkerStep => WorkerKeeps(s);
    case CallerStep(t) => CallerKeeps(s, t);
    case WorkerWakes => WakeKeeps(s, Next(s, step));
    case Call(t, c) => WakeKeeps(s, Next(s, step));
    case CallerWakes(t) => WakeKeeps(s, Next(s, step));
  }

  // ---- whole runs ----

  ghost predicate Initial(s: State) {
    && s.lock.Free? && s.worker.WantsLock? && s.jobs == [] && s.pending == 0 && s.submitted == [] && s.completed == []
    && forall t :: t in s.callers ==> s.callers[t].Idle?
  }

  ghost predicate IsRun(ss: seq<State>, steps: seq<Step>) {
    |ss| == |steps| + 1 && Initial(ss[0]) && forall i :: 0 <= i < |steps| ==>
      Enabled(ss[i], steps[i]) && ss[i + 1] == Next(ss[i], steps[i])
  }

  lemma {:induction false} RunKeepsInv(ss: seq<State>, steps: seq<Step>, k: nat)
    requires IsRun(ss, steps) && k < |ss|
    ensures Inv(ss[k])
  {
    if k > 0 {
      hide Inv, Next, Enabled;
      RunKeepsInv(ss, steps, k - 1);
      StepKeeps(ss[k - 1], steps[k - 1]);
    }
  }

  /** Submissions and completions are only added to. */
  ghost predicate Grows(s: State, s': State) {
    s.submitted <= s'.submitted && s.completed <= s'.completed
  }

  lemma GrowsRefl(s: State)
    ensures Grows(s, s)
  {
  }

  lemma RunLength(ss: seq<State>, steps: seq<Step>)
    requires IsRun(ss, steps)
    ensures |ss| == |steps| + 1
  {
  }

  lemma GrowsTrans(a: State, b: State, c: State)
    requires Grows(a, b) && Grows(b, c)
    ensures Grows(a, c)
  {
  }

  lemma GrowsStep(ss: seq<State>, steps: seq<Step>, k: nat)
    requires IsRun(ss, steps) && k < |steps|
    ensures Grows(ss[k], ss[k + 1])
  {
    hide Inv, Next, Enabled;
    RunKeepsInv(ss, steps, k);
    StepKeeps(ss[k], steps[k]);
  }

  lemma {:induction false} RunGrows(ss: seq<State>, steps: seq<Step>, i: nat, k: nat)
    requires IsRun(ss, steps) && i <= k < |ss|
    ensures Grows(ss[i], ss[k])
    decreases k
  {
    hide Grows, IsRun;
    assert |ss| == |steps| + 1 by { RunLength(ss, steps); }
    if i < k {
      RunGrows(ss, steps, i, k - 1);
      GrowsStep(ss, steps, k - 1);
      GrowsTrans(ss[i], ss[k - 1], ss[k]);
    } else {
      GrowsRefl(ss[i]);
    }
  }

  lemma RunKeeps(ss: seq<State>, steps: seq<Step>, i: nat, k: nat)
    requires IsRun(ss, steps) && i <= k < |ss|
    ensures Inv(ss[i]) && Inv(ss[k]) && ss[i].submitted <= ss[k].submitted && ss[i].completed <= ss[k].completed
  {
    RunKeepsInv(ss, steps, i);
    RunKeepsInv(ss, steps, k);
    RunGrows(ss, steps, i, k);
  }

  /** In every interleaving: jobs complete exactly once and in the order of submission, and whenever
      the lock is free the counter is the length of the queue. */
  lemma CompletesInOrder(ss: seq<State>, steps: seq<Step>, k: nat)
    requires IsRun(ss, steps) && k < |ss|
    ensures ss[k].completed <= ss[k].submitted
    ensures ss[k].lock.Free? ==> ss[k].pending == |ss[k].jobs|
    ensures ss[k].lock.Free? && ss[k].worker == Asleep(false) ==> ss[k].completed == ss[k].submitted
    ensures forall t :: t in ss[k].callers && ss[k].callers[t] == Waiting(false) && ss[k].lock.Free? ==>
      ss[k].jobs != []
  {
    hide IsRun, Next, Enabled;
    RunKeeps(ss, steps, k, k);
    var s := ss[k];
    assert s.submitted == s.completed + Unfinished(s);
  }

  /** The caller's next step reads the counter. */
  predicate Reads(c: Caller) {
    c.Reading? || c.Checking? || c.Rechecking?
  }

  /** A thread that reads a pending count of zero knows that every job submitted before has completed. */
  lemma ZeroMeansDone(ss: seq<State>, steps: seq<Step>, i: nat, k: nat, t: Tid)
    requires IsRun(ss, steps) && i <= k < |steps| && steps[k] == CallerStep(t) && Reads(ss[k].callers[t])
    requires ss[k].pending == 0
    ensures ss[k + 1].callers[t] == Leaving(0)
    ensures ss[k].completed == ss[k].submitted && ss[i].submitted <= ss[k].completed
  {
    RunKeeps(ss, steps, i, k);
    var s := ss[k];
    assert s.lock == ByThread(t);
    assert s.jobs == [];
    assert s.completed + [] == s.completed;
  }

  /** bioPendingJobsOfType and bioWaitStepOfType return the number of jobs that are queued, which are the
      jobs submitted and not yet unlinked; a thread waits for a step exactly if there are some. */
  lemma CountIsExact(ss: seq<State>, steps: seq<Step>, k: nat, t: Tid)
    requires IsRun(ss, steps) && k < |steps| && steps[k] == CallerStep(t) && Reads(ss[k].callers[t])
    ensures t in ss[k + 1].callers
    ensures ss[k + 1].callers[t]
         == if ss[k].callers[t].Checking? && ss[k].jobs != [] then Waiting(false) else Leaving(|ss[k].jobs|)
    ensures ss[k].submitted == ss[k].completed + Unfinished(ss[k])
  {
    RunKeepsInv(ss, steps, k);
    var s := ss[k];
    assert s.lock == ByThread(t);
    assert s.pending == |s.jobs|;
  }

  /** The number of steps of its own after which a call returns, at most. */
  function StepsLeft(c: Caller): nat {
    match c
    case Idle => 0
    case Submitting(_) => 5
    case Adding(_) => 4
    case Added => 3
    case Signalling => 2
    case Unlocking => 1
    case Asking => 3
    case Reading => 2
    case Stepping => 5
    case Checking => 4
    case Waiting(_) => 3
    case Rechecking => 2
    case Leaving(_) => 1
  }

  /** Every step of a thread brings its call nearer to its end, no step of another thread takes it further
      away, and only a read of the counter decides what a call returns. */
  lemma CallsEnd(ss: seq<State>, steps: seq<Step>, k: nat, t: Tid)
    requires IsRun(ss, steps) && k < |steps| && t in ss[k].callers && !steps[k].Call?
    ensures t in ss[k + 1].callers
    ensures var c, c' := ss[k].callers[t], ss[k + 1].callers[t];
      && (steps[k] == CallerStep(t) ==> StepsLeft(c') < StepsLeft(c))
      && (steps[k] != CallerStep(t) ==> StepsLeft(c') == StepsLeft(c))
      && (c'.Leaving? && !c.Leaving? ==> steps[k] == CallerStep(t) && Reads(c))
  {
    var s := ss[k];
    assert Enabled(s, steps[k]) && ss[k + 1] == Next(s, steps[k]);
    hide IsRun;
    match steps[k]
    case CallerStep(u) => if u == t { OwnStep(s, t); } else { OtherStep(s, u, t); }
    case _ =>
  }

  lemma OwnStep(s: State, t: Tid)
    requires Enabled(s, CallerStep(t))
    ensures var c' := NextCaller(s, t).callers;
      t in c' && StepsLeft(c'[t]) < StepsLeft(s.callers[t]) && (c'[t].Leaving? ==> Reads(s.callers[t]))
  {
  }

  lemma OtherStep(s: State, u: Tid, t: Tid)
    requires Enabled(s, CallerStep(u)) && t in s.callers && t != u
    ensures t in NextCaller(s, u).callers && NextCaller(s, u).callers[t] == s.callers[t]
  {
  }

  // ---- what the worker and a submission get done ----

  /** The number of steps of one kind in a run. */
  function StepsOf(steps: seq<Step>, step: Step): nat {
    if steps == [] then 0 else StepsOf(steps[..|steps| - 1], step) + if steps[|steps| - 1] == step then 1 else 0
  }

  /** Where the worker stands after so many steps from the top of its loop, with a job to do. */
  function WorkerAfter(n: nat, job: Job): Worker {
    if n == 1 then Processing(job) else if n == 2 then Finished(job) else if n == 3 then Relocked(job)
    else if n == 4 then Unlinked else if n == 5 then Counted else AtTop
  }

  /** Since s the worker made n steps of its loop for the job, while others may have queued more. */
  ghost predicate WorkedOn(s: State, s': State, n: nat, job: Job) {
    && s.submitted <= s'.submitted && s.jobs != []
    && s'.worker == WorkerAfter(n, job)
    && s'.completed == s.completed + (if n >= 2 then [job] else [])
    && s'.jobs == (if n >= 4 then s.jobs[1..] else s.jobs) + s'.submitted[|s.submitted|..]
  }

  lemma CallerAdds(s: State, t: Tid)
    requires Inv(s) && Enabled(s, CallerStep(t)) && !s.worker.Asleep?
    ensures var s' := NextCaller(s, t);
      && s'.worker == s.worker && s'.completed == s.completed && s.submitted <= s'.submitted
      && s'.jobs == s.jobs + s'.submitted[|s.submitted|..]
  {
    hide Inv;
    assert s.jobs + [] == s.jobs;
  }

  lemma WorkedOnMore(s: State, s1: State, s2: State, n: nat, job: Job)
    requires WorkedOn(s, s1, n, job) && s2.worker == s1.worker && s2.completed == s1.completed
    requires s1.submitted <= s2.submitted && s2.jobs == s1.jobs + s2.submitted[|s1.submitted|..]
    ensures WorkedOn(s, s2, n, job)
  {
    var a, b, c := |s.submitted|, |s1.submitted|, |s2.submitted|;
    assert s2.submitted[..b] == s1.submitted;
    assert s2.submitted[a..] == s1.submitted[a..] + s2.submitted[b..];
    var front := if n >= 4 then s.jobs[1..] else s.jobs;
    assert front + s1.submitted[a..] + s2.submitted[b..] == front + (s1.submitted[a..] + s2.submitted[b..]);
  }

  lemma WorkedOnStep(s: State, s1: State, n: nat)
    requires s.jobs != [] && WorkedOn(s, s1, n, s.jobs[0]) && n < 6
    ensures WorkedOn(s, NextWorker(s1), n + 1, s.jobs[0])
  {
    var job, more := s.jobs[0], s1.submitted[|s.submitted|..];
    if n == 1 { assert s1.completed + [job] == s.completed + [job]; }
    if n == 3 { assert (s.jobs + more)[1..] == s.jobs[1..] + more; }
  }

  lemma WorkedOnNothing(s: State)
    requires s.worker.AtTop? && s.jobs != []
    ensures WorkedOn(s, s, 0, s.jobs[0])
  {
    assert s.submitted[|s.submitted|..] == [];
    assert s.completed + [] == s.completed && s.jobs + [] == s.jobs;
  }

  lemma LastStep(steps: seq<Step>, i: nat, k: nat, step: Step)
    requires i < k <= |steps|
    ensures StepsOf(steps[i..k], step) == StepsOf(steps[i..k - 1], step) + if steps[k - 1] == step then 1 else 0
  {
    assert steps[i..k][..k - i - 1] == steps[i..k - 1];
  }

  /** From the top of its loop with jobs queued, the worker's next six steps, whatever other threads do
      between them, complete exactly the first job and unlink it. */
  lemma {:induction false} WorkerDoes(ss: seq<State>, steps: seq<Step>, i: nat, k: nat)
    requires IsRun(ss, steps) && i <= k < |ss| && ss[i].worker.AtTop? && ss[i].jobs != []
    requires StepsOf(steps[i..k], WorkerStep) <= 6
    ensures WorkedOn(ss[i], ss[k], StepsOf(steps[i..k], WorkerStep), ss[i].jobs[0])
    decreases k
  {
    hide WorkedOn, Inv, NextWorker, NextCaller;
    if i == k {
      assert steps[i..k] == [];
      WorkedOnNothing(ss[i]);
    } else {
      LastStep(steps, i, k, WorkerStep);
      WorkerDoes(ss, steps, i, k - 1);
      RunKeepsInv(ss, steps, k - 1);
      WorkerDoesStep(ss[i], ss[k - 1], steps[k - 1], StepsOf(steps[i..k - 1], WorkerStep));
    }
  }

  lemma WorkerDoesStep(s: State, s1: State, step: Step, n: nat)
    requires Inv(s1) && Enabled(s1, step) && s.jobs != [] && WorkedOn(s, s1, n, s.jobs[0])
    requires step.WorkerStep? ==> n < 6
    ensures WorkedOn(s, Next(s1, step), if step.WorkerStep? then n + 1 else n, s.jobs[0])
  {
    hide Inv, NextWorker, NextCaller;
    match step
    case WorkerStep => WorkedOnStep(s, s1, n);
    case CallerStep(t) =>
      CallerAdds(s1, t);
      WorkedOnMore(s, s1, Next(s1, step), n, s.jobs[0]);
    case WorkerWakes => assert false;
    case Call(t, c) =>
    case CallerWakes(t) =>
  }

  /** A worker that was woken is at the top of its loop after one step; with no job queued it sleeps
      after the next one. */
  lemma WorkerReturns(ss: seq<State>, steps: seq<Step>, k: nat)
    requires IsRun(ss, steps) && k < |steps| && steps[k] == WorkerStep
    ensures ss[k].worker.WantsLock? ==> ss[k + 1].worker.AtTop? && ss[k + 1].jobs == ss[k].jobs
    ensures ss[k].worker.AtTop? && ss[k].jobs == [] ==> ss[k + 1].worker == Asleep(false) && ss[k + 1].lock.Free?
  {
  }

  /** So a whole round of the loop lowers the counter by one, apart from the jobs queued meanwhile. */
  lemma WorkerCountsDown(ss: seq<State>, steps: seq<Step>, i: nat, k: nat)
    requires IsRun(ss, steps) && i <= k < |ss| && ss[i].worker.AtTop? && ss[i].jobs != []
    requires StepsOf(steps[i..k], WorkerStep) == 6
    ensures ss[k].worker.AtTop? && ss[k].completed == ss[i].completed + [ss[i].jobs[0]]
    ensures ss[k].pending == ss[i].pending - 1 + |ss[k].submitted| - |ss[i].submitted|
  {
    WorkerDoes(ss, steps, i, k);
    RunKeepsInv(ss, steps, i);
    RunKeepsInv(ss, steps, k);
  }

  /** Where a thread stands after so many steps of a submission. */
  function SubmitterAfter(n: nat, job: Job): Caller {
    if n == 0 then Submitting(job) else if n == 1 then Adding(job) else if n == 2 then Added
    else if n == 3 then Signalling else if n == 4 then Unlocking else Idle
  }

  lemma OthersLeave(s: State, step: Step, t: Tid)
    requires Inv(s) && Enabled(s, step) && t in s.callers && step != CallerStep(t)
    requires !s.callers[t].Idle? && !s.callers[t].Waiting?
    ensures t in Next(s, step).callers && Next(s, step).callers[t] == s.callers[t]
  {
    hide Inv;
  }

  /** One step of a submission. */
  ghost predicate Submits(s: State, s': State, t: Tid, n: nat, job: Job) {
    && t in s'.callers && s'.callers[t] == SubmitterAfter(n + 1, job)
    && s'.submitted == s.submitted + (if n == 1 then [job] else [])
    && s'.jobs == s.jobs + (if n == 1 then [job] else [])
    && (n == 3 && s.worker.Asleep? ==> s'.worker == Asleep(true))
  }

  lemma SubmitStep(s: State, t: Tid, n: nat, job: Job)
    requires t in s.callers && n < 5 && s.callers[t] == SubmitterAfter(n, job)
    ensures Submits(s, NextCaller(s, t), t, n, job)
  {
    assert s.jobs + [] == s.jobs && s.submitted + [] == s.submitted;
  }

  lemma {:induction false} SubmissionAt(ss: seq<State>, steps: seq<Step>, i: nat, k: nat, t: Tid)
    requires IsRun(ss, steps) && i <= k < |ss| && t in ss[i].callers && ss[i].callers[t].Submitting?
    requires StepsOf(steps[i..k], CallerStep(t)) < 5
    ensures t in ss[k].callers
    ensures ss[k].callers[t] == SubmitterAfter(StepsOf(steps[i..k], CallerStep(t)), ss[i].callers[t].job)
    decreases k
  {
    hide NextCaller, Inv, NextWorker;
    if i == k {
      assert steps[i..k] == [];
    } else {
      LastStep(steps, i, k, CallerStep(t));
      SubmissionAt(ss, steps, i, k - 1, t);
      RunKeepsInv(ss, steps, k - 1);
      if steps[k - 1] == CallerStep(t) {
        SubmitStep(ss[k - 1], t, StepsOf(steps[i..k - 1], CallerStep(t)), ss[i].callers[t].job);
      } else {
        OthersLeave(ss[k - 1], steps[k - 1], t);
      }
    }
  }

  /** A thread that submits a job is done after five steps of its own, of which the second queues the
      job and the fourth signals a sleeping worker; steps of others do not change where it stands. */
  lemma SubmissionDone(ss: seq<State>, steps: seq<Step>, i: nat, k: nat, t: Tid)
    requires IsRun(ss, steps) && i <= k < |steps| && t in ss[i].callers && ss[i].callers[t].Submitting?
    requires StepsOf(steps[i..k], CallerStep(t)) < 5 && steps[k] == CallerStep(t)
    ensures Submits(ss[k], ss[k + 1], t, StepsOf(steps[i..k], CallerStep(t)), ss[i].callers[t].job)
  {
    hide Submits, NextCaller, StepsOf;
    SubmissionAt(ss, steps, i, k, t);
    SubmitStep(ss[k], t, StepsOf(steps[i..k], CallerStep(t)), ss[i].callers[t].job);
  }
}
