/**
 Worker launches, the workers themselves and hard aborts, racing on the registry and on the lease
 slot they share. Every numbered launch owns one execution lease.
 */
module Workers {
  import opened Base
  import opened WorkerRegistry

  /** How far a launch is. `Failed` hands the lease back; `Panicked` is a failed `expect`. */
  datatype Phase = Reserved | Slotted | Spawned | Installed | Started | Failed | Returned | Panicked

  /** The spawned task: `Signalled` has its start signal but has not run yet; from `Body` to `Ending` it holds its completion guard. */
  datatype Task = NotSpawned | Waiting | Signalled | Body | Holding | Ending | Ended

  /** A hard abort of one taken worker; `Joined` has waited for the task. */
  datatype Job = NoJob | Taken | SlotEmptied | Stopping | Joined | Settled | GaveUp

  // Four flags say who could hand the lease to a settlement; `settled` and `dropped` count its fates.
  // `unguarded` records that the runtime stopped the task between its start signal and its guard.
  datatype Launch = Launch(key: Key, generation: Option<nat>, phase: Phase, task: Task, job: Job, stopping: bool, unguarded: bool,
                           byLauncher: bool, inSlot: bool, byWorker: bool, byAbort: bool, settled: nat, dropped: nat)

  datatype State = State(next: nat, tasks: Tasks, launches: seq<Launch>, captured: set<Captured>)

  /** What can happen around one launch. */
  datatype Act =
    | GiveBack
    | FillSlot
    | Spawn(ok: bool)
    | Install
    | Send
    | SettleFailure
    | RuntimeStops
    | WorkerQuits
    | WorkerStarts
    | WorkerTakes
    | WorkerSettles
    | WorkerPanics
    | WorkerEnds
    | WorkerAborted
    | WorkerDetaches
    | EmptySlot
    | Stop
    | Join
    | AbortSettles
    | AbortGivesUp

  datatype Step = Reserve(key: Key) | Capture(seen: set<Captured>) | Take(list: seq<Captured>) | Own(l: nat, act: Act)

  function NewLaunch(s: State, key: Key): Launch {
    var ok := s.next < MAX_U64 && key !in s.tasks;
    Launch(key, if ok then Some(s.next) else None, if ok then Reserved else Failed, NotSpawned, NoJob, false, false,
           true, false, false, false, 0, 0)
  }

  ghost predicate Enabled(s: State, step: Step) {
    match step
    case Reserve(_) => true
    case Capture(seen) => forall c :: c in seen ==> Registered(s.tasks, c)
    case Take(list) => forall c :: c in list ==> c in s.captured
    case Own(l, act) => l < |s.launches| && MayAct(s.launches[l], act)
  }

  predicate MayAct(x: Launch, act: Act) {
    match act
    case GiveBack => x.phase.Reserved?
    case FillSlot => x.phase.Reserved?
    case Spawn(_) => x.phase.Slotted?
    case Install => x.phase.Spawned?
    case Send => x.phase.Installed? && (x.task.Waiting? || x.task.Ended?)
    case SettleFailure => x.phase.Failed? && x.byLauncher
    case RuntimeStops => x.task.Waiting? || x.task.Signalled?
    case WorkerQuits => x.task.Waiting? && (x.phase.Failed? || x.phase.Returned? || x.phase.Panicked?)
    case WorkerStarts => x.task.Signalled?
    case WorkerTakes => x.task.Body?
    case WorkerSettles => x.task.Holding?
    case WorkerPanics => x.task.Holding?
    case WorkerEnds => x.task.Body?
    case WorkerAborted => x.stopping && (x.task.Waiting? || x.task.Signalled? || x.task.Body?)
    case WorkerDetaches => x.task.Ending?
    case EmptySlot => x.job.Taken?
    case Stop => x.job.SlotEmptied?
    case Join => x.job.Stopping? && x.task.Ended?
    case AbortSettles => x.job.Joined?
    case AbortGivesUp => x.job.Stopping? && !x.task.Ended?
  }

  /** A failing launch takes its lease back out of the slot; an empty slot breaks its `expect`. */
  function TakenBack(x: Launch): Launch {
    if x.inSlot then x.(phase := Failed, byLauncher := true, inSlot := false) else x.(phase := Panicked)
  }

  function Count(b: bool): nat {
    if b then 1 else 0
  }

  /** What a step does to the launch it is about. */
  function Stepped(x: Launch, act: Act, tasks: Tasks): Launch {
    match act
    case GiveBack => x.(phase := Failed)
    case FillSlot => x.(phase := Slotted, byLauncher := false, inSlot := true)
    case Spawn(ok) => if ok then x.(phase := Spawned, task := Waiting) else TakenBack(x)
    case Install => if x.key in tasks then TakenBack(x.(stopping := true)) else x.(phase := Installed)
    case Send => if x.task.Waiting? then x.(phase := Started, task := Signalled) else TakenBack(x)
    case SettleFailure => x.(phase := Returned, byLauncher := false, settled := x.settled + 1)
    case RuntimeStops => x.(task := Ended, unguarded := x.task.Signalled?)
    case WorkerQuits => x.(task := Ended)
    case WorkerStarts => x.(task := Body)
    case WorkerTakes => if x.inSlot then x.(task := Holding, inSlot := false, byWorker := true) else x.(task := Ending)
    case WorkerSettles => x.(task := Ending, byWorker := false, settled := x.settled + Count(x.byWorker))
    case WorkerPanics => x.(task := Ending, byWorker := false, dropped := x.dropped + Count(x.byWorker))
    case WorkerEnds => x.(task := Ending)
    case WorkerAborted => x.(task := if x.task.Body? then Ending else Ended)
    case WorkerDetaches => x.(task := Ended)
    case EmptySlot => x.(job := SlotEmptied, byAbort := x.inSlot, inSlot := false)
    case Stop => x.(job := Stopping, stopping := true)
    case Join => x.(job := Joined)
    case AbortSettles => x.(job := Settled, byAbort := false, settled := x.settled + Count(x.byAbort))
    case AbortGivesUp => x.(job := GaveUp, byAbort := false, dropped := x.dropped + Count(x.byAbort))
  }

  /** What a step of one launch does to the registry. */
  function SteppedTasks(x: Launch, l: nat, act: Act, tasks: Tasks): Tasks {
    match act
    case Install => if x.key in tasks || x.generation.None? then tasks else tasks[x.key := Entry(x.generation.value, l)]
    case Send => if x.task.Waiting? then tasks else tasks - {x.key}
    case WorkerDetaches => if x.generation.None? then tasks else Detached(tasks, x.key, x.generation.value)
    case _ => tasks
  }

  /** Taken workers get a hard-abort job each. */
  function WithJobs(launches: seq<Launch>, tasks: Tasks, list: seq<Captured>): (r: seq<Launch>)
    ensures |r| == |launches|
    ensures forall l :: 0 <= l < |r| ==> r[l] == if IsTaken(tasks, list, launches[l].key, l) then launches[l].(job := Taken) else launches[l]
  {
    seq(|launches|, l requires 0 <= l < |launches| =>
      if IsTaken(tasks, list, launches[l].key, l) then launches[l].(job := Taken) else launches[l])
  }

  predicate IsTaken(tasks: Tasks, list: seq<Captured>, key: Key, l: nat) {
    key in tasks && tasks[key].launch == l && Captured(key, tasks[key].generation) in list
  }

  function Do(s: State, step: Step): State
    requires Enabled(s, step)
  {
    match step
    case Reserve(key) => s.(next := if s.next < MAX_U64 then s.next + 1 else s.next, launches := s.launches + [NewLaunch(s, key)])
    case Capture(seen) => s.(captured := s.captured + seen)
    case Take(list) => s.(tasks := Remaining(s.tasks, list), launches := WithJobs(s.launches, s.tasks, list))
    case Own(l, act) => s.(tasks := SteppedTasks(s.launches[l], l, act, s.tasks),
                           launches := s.launches[l := Stepped(s.launches[l], act, s.tasks)])
  }

  // ---- The invariant ---------------------------------------------------------------------------

  /** The lease is in exactly one place. */
  ghost predicate Conserved(x: Launch) {
    Count(x.byLauncher) + Count(x.inSlot) + Count(x.byWorker) + Count(x.byAbort) + x.settled + x.dropped == 1
  }

  predicate Untouched(x: Launch) {
    x.job.NoJob? || x.job.Taken?
  }

  ghost predicate LaunchOk(x: Launch) {
    && Conserved(x)
    && (x.byLauncher ==> x.phase.Reserved? || x.phase.Failed?)
    && (x.byWorker <==> x.task.Holding?)
    && (x.byAbort ==> x.job.SlotEmptied? || x.job.Stopping? || x.job.Joined?)
    && (x.job.Joined? || x.job.Settled? ==> x.task.Ended?)
    && (x.task.Signalled? || x.task.Body? || x.task.Holding? || x.task.Ending? ==> x.phase.Started?)
    && (x.unguarded ==> x.task.Ended?)
    && (!Untouched(x) ==> !x.inSlot)
    && (x.stopping && x.job.NoJob? ==> x.phase.Failed? || x.phase.Returned?)
    && (!x.phase.Failed? && !x.phase.Returned? ==> x.generation.Some?)
    && (match x.phase
        case Reserved => x.byLauncher && x.task.NotSpawned? && x.job.NoJob?
        case Slotted => x.inSlot && x.task.NotSpawned? && x.job.NoJob?
        case Spawned => x.inSlot && (x.task.Waiting? || x.task.Ended?) && x.job.NoJob?
        case Installed => (Untouched(x) <==> x.inSlot) && (x.task.Waiting? || x.task.Ended?)
        case Started => !x.task.NotSpawned? && !x.task.Waiting?
        case Failed => x.byLauncher
        case Returned => x.settled == 1
        case Panicked => !Untouched(x) && !x.inSlot)
  }

  ghost predicate EntryOk(s: State, key: Key) {
    key in s.tasks ==>
      var e := s.tasks[key];
      && e.launch < |s.launches|
      && s.launches[e.launch].key == key
      && s.launches[e.launch].generation == Some(e.generation)
      && s.launches[e.launch].job.NoJob?
      && (s.launches[e.launch].phase.Installed? || s.launches[e.launch].phase.Started?)
      && (s.launches[e.launch].phase.Started? ==> (s.launches[e.launch].task.Ended? <==> s.launches[e.launch].unguarded))
  }

  ghost predicate GenerationsOk(s: State) {
    && (forall l :: 0 <= l < |s.launches| && s.launches[l].generation.Some? ==> s.launches[l].generation.value < s.next)
    && (forall l, m :: 0 <= l < m < |s.launches| && s.launches[l].generation.Some? ==> s.launches[l].generation != s.launches[m].generation)
  }

  ghost predicate Inv(s: State) {
    && (forall l :: 0 <= l < |s.launches| ==> LaunchOk(s.launches[l]))
    && (forall key :: EntryOk(s, key))
    && GenerationsOk(s)
  }

  ghost predicate Init(s: State) {
    s == State(0, map[], [], {})
  }

  lemma ConservedStep(x: Launch, act: Act, tasks: Tasks)
    requires LaunchOk(x) && MayAct(x, act)
    ensures Conserved(Stepped(x, act, tasks))
    ensures Stepped(x, act, tasks).key == x.key && Stepped(x, act, tasks).generation == x.generation
  {
  }

  lemma LaunchStep(x: Launch, act: Act, tasks: Tasks)
    requires LaunchOk(x) && MayAct(x, act)
    ensures LaunchOk(Stepped(x, act, tasks))
    ensures Stepped(x, act, tasks).key == x.key && Stepped(x, act, tasks).generation == x.generation
  {
    ConservedStep(x, act, tasks);
  }

  /** The registered worker itself may move on, as long as it stays unfinished. */
  lemma OwnEntryStep(s: State, step: Step, key: Key)
    requires Inv(s) && Enabled(s, step)
    requires step.Own?
    requires key in s.tasks && key in Do(s, step).tasks && s.tasks[key].launch == step.l
    ensures EntryOk(Do(s, step), key)
  {
    assert EntryOk(s, key);
    LaunchStep(s.launches[step.l], step.act, s.tasks);
  }

  lemma EntryStep(s: State, step: Step, key: Key)
    requires Inv(s) && Enabled(s, step)
    requires step.Own?
    ensures EntryOk(Do(s, step), key)
  {
    assert EntryOk(s, key);
    if key in s.tasks && key in Do(s, step).tasks && s.tasks[key].launch == step.l {
      OwnEntryStep(s, step, key);
    }
  }

  /** Changing one launch, keeping its key and generation, and the registry. */
  lemma OneChanged(s: State, n: State, l: nat, x: Launch)
    requires Inv(s) && l < |s.launches| && LaunchOk(x)
    requires x.key == s.launches[l].key && x.generation == s.launches[l].generation
    requires n.next == s.next && n.launches == s.launches[l := x]
    requires forall key :: EntryOk(n, key)
    ensures Inv(n)
  {
  }

  lemma OneLaunchStep(s: State, step: Step)
    requires Inv(s) && Enabled(s, step)
    requires step.Own?
    ensures Inv(Do(s, step))
  {
    LaunchStep(s.launches[step.l], step.act, s.tasks);
    forall key
      ensures EntryOk(Do(s, step), key)
    {
      EntryStep(s, step, key);
    }
    OneChanged(s, Do(s, step), step.l, Stepped(s.launches[step.l], step.act, s.tasks));
  }

  lemma ReserveStep(s: State, step: Step)
    requires Inv(s) && step.Reserve?
    ensures Inv(Do(s, step))
  {
    forall key
      ensures EntryOk(Do(s, step), key)
    {
      assert EntryOk(s, key);
    }
  }

  lemma TakeStep(s: State, step: Step)
    requires Inv(s) && Enabled(s, step) && step.Take?
    ensures Inv(Do(s, step))
  {
    var n := Do(s, step);
    forall l | 0 <= l < |n.launches|
      ensures LaunchOk(n.launches[l])
    {
      assert LaunchOk(s.launches[l]) && EntryOk(s, s.launches[l].key);
    }
    forall key
      ensures EntryOk(n, key)
    {
      assert EntryOk(s, key);
    }
  }

  lemma CaptureStep(s: State, step: Step)
    requires Inv(s) && Enabled(s, step) && step.Capture?
    ensures Inv(Do(s, step))
  {
    forall key
      ensures EntryOk(Do(s, step), key)
    {
      assert EntryOk(s, key);
    }
  }

  lemma StepKeepsInv(s: State, step: Step)
    requires Inv(s) && Enabled(s, step)
    ensures Inv(Do(s, step))
  {
    if step.Reserve? {
      ReserveStep(s, step);
    } else if step.Capture? {
      CaptureStep(s, step);
    } else if step.Take? {
      TakeStep(s, step);
    } else {
      OneLaunchStep(s, step);
    }
  }

  // ---- Whole runs ------------------------------------------------------------------------------

  ghost predicate IsRun(states: seq<State>, steps: seq<Step>) {
    && |states| == |steps| + 1
    && Init(states[0])
    && (forall i :: 0 <= i < |steps| ==> Next(states, steps, i))
  }

  ghost predicate Next(states: seq<State>, steps: seq<Step>, i: nat)
    requires |states| == |steps| + 1 && i < |steps|
  {
    Enabled(states[i], steps[i]) && states[i + 1] == Do(states[i], steps[i])
  }

  lemma {:induction false} RunKeepsInv(states: seq<State>, steps: seq<Step>, n: nat)
    requires IsRun(states, steps) && n < |states|
    ensures Inv(states[n])
  {
    if n > 0 {
      RunKeepsInv(states, steps, n - 1);
      assert Next(states, steps, n - 1);
      StepKeepsInv(states[n - 1], steps[n - 1]);
    }
  }

  /** Nothing runs again in a task that has ended. */
  lemma EndedStays(x: Launch, act: Act, tasks: Tasks)
    requires LaunchOk(x) && MayAct(x, act) && x.task.Ended?
    ensures Stepped(x, act, tasks).task.Ended?
  {
    assert !x.phase.Slotted? && !x.phase.Reserved?;
  }

  /** A launch keeps its key and generation, and an ended task stays ended. */
  lemma LaunchPersists(s: State, step: Step, l: nat)
    requires Inv(s) && Enabled(s, step) && l < |s.launches|
    ensures l < |Do(s, step).launches|
    ensures Do(s, step).launches[l].key == s.launches[l].key
    ensures Do(s, step).launches[l].generation == s.launches[l].generation
    ensures s.launches[l].task.Ended? ==> Do(s, step).launches[l].task.Ended?
  {
    assert LaunchOk(s.launches[l]);
    if step.Own? && step.l == l {
      LaunchStep(s.launches[l], step.act, s.tasks);
      if s.launches[l].task.Ended? {
        EndedStays(s.launches[l], step.act, s.tasks);
      }
    }
  }

  lemma NextPersists(states: seq<State>, steps: seq<Step>, i: nat, l: nat)
    requires IsRun(states, steps) && i < |steps| && l < |states[i].launches|
    ensures l < |states[i + 1].launches|
    ensures states[i + 1].launches[l].key == states[i].launches[l].key
    ensures states[i + 1].launches[l].generation == states[i].launches[l].generation
    ensures states[i].launches[l].task.Ended? ==> states[i + 1].launches[l].task.Ended?
  {
    RunKeepsInv(states, steps, i);
    assert Next(states, steps, i);
    LaunchPersists(states[i], steps[i], l);
  }

  lemma {:induction false} LaunchStays(states: seq<State>, steps: seq<Step>, i: nat, j: nat, l: nat)
    requires IsRun(states, steps) && i <= j < |states| && l < |states[i].launches|
    ensures l < |states[j].launches|
    ensures states[j].launches[l].key == states[i].launches[l].key
    ensures states[j].launches[l].generation == states[i].launches[l].generation
    ensures states[i].launches[l].task.Ended? ==> states[j].launches[l].task.Ended?
  {
    if i < j {
      LaunchStays(states, steps, i, j - 1, l);
      NextPersists(states, steps, j - 1, l);
    }
  }

  /**
   Generations are never reused: a generation seen at any moment of a run names the same launch, and
   so the same worker, at every later moment.
   */
  lemma GenerationsNeverReused(states: seq<State>, steps: seq<Step>, i: nat, j: nat, l: nat, m: nat)
    requires IsRun(states, steps) && i <= j < |states|
    requires l < |states[i].launches| && m < |states[j].launches|
    requires states[i].launches[l].generation.Some? && states[i].launches[l].generation == states[j].launches[m].generation
    ensures l == m
  {
    LaunchStays(states, steps, i, j, l);
    RunKeepsInv(states, steps, j);
  }

  /** A captured worker that is still registered later is the very worker that was captured. */
  lemma CapturedIsSameWorker(states: seq<State>, steps: seq<Step>, i: nat, j: nat, c: Captured)
    requires IsRun(states, steps) && i <= j < |states|
    requires Registered(states[i].tasks, c) && Registered(states[j].tasks, c)
    ensures states[i].tasks[c.key].launch == states[j].tasks[c.key].launch
  {
    RunKeepsInv(states, steps, i);
    RunKeepsInv(states, steps, j);
    assert EntryOk(states[i], c.key) && EntryOk(states[j], c.key);
    GenerationsNeverReused(states, steps, i, j, states[i].tasks[c.key].launch, states[j].tasks[c.key].launch);
  }

  /**
   Fencing. An entry leaves the registry only through the completion guard of that very worker,
   through a hard abort that captured that very generation, or through a failed start signal of a
   launch on the same path; and it is never overwritten.
   */
  lemma RemovalsAreFenced(states: seq<State>, steps: seq<Step>, i: nat, key: Key)
    requires IsRun(states, steps) && i < |steps|
    requires key in states[i].tasks
    ensures key in states[i + 1].tasks ==> states[i + 1].tasks[key] == states[i].tasks[key]
    ensures key !in states[i + 1].tasks ==>
              || steps[i] == Own(states[i].tasks[key].launch, WorkerDetaches)
              || (steps[i].Take? && Captured(key, states[i].tasks[key].generation) in steps[i].list)
              || (steps[i].Own? && steps[i].act.Send? && steps[i].l < |states[i].launches| && states[i].launches[steps[i].l].key == key && states[i].launches[steps[i].l].task.Ended?)
  {
    var s := states[i];
    RunKeepsInv(states, steps, i);
    assert Next(states, steps, i);
    assert EntryOk(s, key);
    if steps[i].Own? && steps[i].act.WorkerDetaches? {
      var m := s.tasks[key].launch;
      assert s.launches[steps[i].l].generation == s.launches[m].generation ==> steps[i].l == m;
    }
  }

  /** Each lease reaches at most one settlement, and a settled or dropped lease is in nobody's hands. */
  lemma AtMostOneSettlement(states: seq<State>, steps: seq<Step>, n: nat, l: nat)
    requires IsRun(states, steps) && n < |states| && l < |states[n].launches|
    ensures var x := states[n].launches[l];
            && x.settled + x.dropped <= 1
            && (x.settled + x.dropped == 1 <==> !x.byLauncher && !x.inSlot && !x.byWorker && !x.byAbort)
  {
    RunKeepsInv(states, steps, n);
    assert LaunchOk(states[n].launches[l]);
  }

  /** Nothing can happen around this launch any more, save a new hard abort of a worker still registered. */
  ghost predicate AtRest(x: Launch) {
    forall act :: !MayAct(x, act)
  }

  /**
   No lease is forgotten: once nothing can happen around a launch, its lease was settled or dropped, or
   it lies in the slot of an ended worker that no hard abort has taken.
   */
  lemma NoLeaseForgotten(states: seq<State>, steps: seq<Step>, n: nat, l: nat)
    requires IsRun(states, steps) && n < |states| && l < |states[n].launches| && AtRest(states[n].launches[l])
    ensures var x := states[n].launches[l];
            x.settled + x.dropped == 1 || (x.inSlot && x.phase.Started? && x.task.Ended? && x.job.NoJob?)
  {
    RunKeepsInv(states, steps, n);
    AtRestExactly(states[n].launches[l]);
  }

  lemma AtRestExactly(x: Launch)
    requires LaunchOk(x) && AtRest(x)
    ensures x.settled + x.dropped == 1 || (x.inSlot && x.phase.Started? && x.task.Ended? && x.job.NoJob?)
  {
    assert !MayAct(x, GiveBack) && !MayAct(x, Install) && !MayAct(x, Send) && !MayAct(x, SettleFailure) && !MayAct(x, Spawn(true));
    assert !MayAct(x, WorkerSettles) && !MayAct(x, WorkerEnds) && !MayAct(x, WorkerDetaches) && !MayAct(x, WorkerStarts);
    assert !MayAct(x, EmptySlot) && !MayAct(x, Stop) && !MayAct(x, Join) && !MayAct(x, AbortSettles) && !MayAct(x, AbortGivesUp);
  }

  /** A lease is dropped only by a worker that panics with it, or by a hard abort that gives up waiting. */
  lemma DroppedOnlyBy(states: seq<State>, steps: seq<Step>, i: nat, l: nat)
    requires IsRun(states, steps) && i < |steps| && l < |states[i].launches|
    ensures l < |states[i + 1].launches|
    ensures states[i + 1].launches[l].dropped > states[i].launches[l].dropped
        ==> steps[i] == Own(l, WorkerPanics) || steps[i] == Own(l, AbortGivesUp)
  {
    RunKeepsInv(states, steps, i);
    assert Next(states, steps, i);
    LaunchPersists(states[i], steps[i], l);
  }

  /** A hard abort empties the slot it finds: what lay there is its own to settle. */
  lemma AbortTakesLease(s: State, l: nat)
    requires Inv(s) && Enabled(s, Own(l, EmptySlot))
    ensures var before, after := s.launches[l], Do(s, Own(l, EmptySlot)).launches[l];
            !after.inSlot && (after.byAbort <==> before.inSlot)
  {
  }

  /**
   A hard abort settles only after the worker's task has ended: the task had ended when the abort joined
   it, whatever ran since, and it never runs again.
   */
  lemma HardAbortSettlesAfterEnd(states: seq<State>, steps: seq<Step>, i: nat, j: nat, l: nat)
    requires IsRun(states, steps) && i < |steps| && i <= j < |states|
    requires steps[i] == Own(l, AbortSettles)
    ensures l < |states[i].launches| && l < |states[j].launches|
    ensures states[i].launches[l].task.Ended? && states[j].launches[l].task.Ended?
  {
    RunKeepsInv(states, steps, i);
    assert Next(states, steps, i);
    assert LaunchOk(states[i].launches[l]);
    LaunchStays(states, steps, i, j, l);
  }

  /**
   A worker that was started and has ended is no longer registered, unless the runtime stopped it
   between its start signal and its completion guard: that entry stays, and no other does.
   */
  lemma EndedIsUnregistered(states: seq<State>, steps: seq<Step>, n: nat, key: Key)
    requires IsRun(states, steps) && n < |states| && key in states[n].tasks
    ensures states[n].tasks[key].launch < |states[n].launches|
    ensures var x := states[n].launches[states[n].tasks[key].launch];
            x.phase.Installed? || (x.phase.Started? && (x.task.Ended? <==> x.unguarded))
  {
    RunKeepsInv(states, steps, n);
    assert EntryOk(states[n], key);
  }

  /** Only that leaves a worker without its guard. */
  lemma UnguardedExactly(states: seq<State>, steps: seq<Step>, i: nat, l: nat)
    requires IsRun(states, steps) && i < |steps| && l < |states[i].launches| && !states[i].launches[l].unguarded
    ensures l < |states[i + 1].launches|
    ensures states[i + 1].launches[l].unguarded <==> steps[i] == Own(l, RuntimeStops) && states[i].launches[l].task.Signalled?
  {
    RunKeepsInv(states, steps, i);
    assert Next(states, steps, i);
    LaunchPersists(states[i], steps[i], l);
  }

  /** Only a failed start signal can find the slot empty. */
  lemma PanicStep(x: Launch, act: Act, tasks: Tasks)
    requires LaunchOk(x) && MayAct(x, act) && !x.phase.Panicked?
    ensures Stepped(x, act, tasks).phase.Panicked? <==> act.Send? && x.task.Ended? && !Untouched(x)
  {
  }

  /**
   A failing launch always gets its lease back, with one exception: when the start signal fails
   after a hard abort has emptied the slot, and only then, its `expect` breaks.
   */
  lemma LaunchPanicsExactlyWhen(states: seq<State>, steps: seq<Step>, i: nat, l: nat)
    requires IsRun(states, steps) && i < |steps| && l < |states[i].launches|
    requires !states[i].launches[l].phase.Panicked?
    ensures l < |states[i + 1].launches|
    ensures states[i + 1].launches[l].phase.Panicked?
       <==> && steps[i] == Own(l, Send) && states[i].launches[l].task.Ended?
            && !Untouched(states[i].launches[l])
  {
    RunKeepsInv(states, steps, i);
    assert Next(states, steps, i);
    assert LaunchOk(states[i].launches[l]);
    if steps[i].Own? && steps[i].l == l {
      PanicStep(states[i].launches[l], steps[i].act, states[i].tasks);
    }
  }

  /** A launch gets the next generation exactly if there is one and its path is free; either way it is used up. */
  lemma ReserveExactly(s: State, key: Key)
    ensures var n := Do(s, Reserve(key));
            && |n.launches| == |s.launches| + 1 && n.tasks == s.tasks
            && n.next == (if s.next < 0xFFFF_FFFF_FFFF_FFFF then s.next + 1 else s.next)
            && n.launches[|s.launches|].key == key
            && n.launches[|s.launches|].generation == (if s.next < 0xFFFF_FFFF_FFFF_FFFF && key !in s.tasks then Some(s.next) else None)
            && (n.launches[|s.launches|].phase.Failed? <==> n.launches[|s.launches|].generation.None?)
  {
  }

  // ---- The start-signal branch -----------------------------------------------------------------

  lemma Extend(states: seq<State>, steps: seq<Step>, step: Step, to: State) returns (longer: seq<State>, more: seq<Step>)
    requires IsRun(states, steps) && Enabled(Last(states), step) && Do(Last(states), step) == to
    ensures IsRun(longer, more) && |more| == |steps| + 1
    ensures Last(longer) == to && Last(more) == step && longer[|longer| - 2] == Last(states)
  {
    longer, more := states + [to], steps + [step];
    forall i | 0 <= i < |more|
      ensures Next(longer, more, i)
    {
      assert i < |steps| ==> Next(states, steps, i);
    }
  }

  function First(phase: Phase, task: Task, job: Job, stopping: bool, byLauncher: bool, inSlot: bool, byAbort: bool): Launch {
    Launch(Key(0, "/root/a"), Some(0), phase, task, job, stopping, false, byLauncher, inSlot, false, byAbort, 0, 0)
  }

  function Second(phase: Phase, task: Task, byLauncher: bool): Launch {
    Launch(Key(0, "/root/a"), Some(1), phase, task, NoJob, false, false, byLauncher, !byLauncher, false, false, 0, 0)
  }

  lemma InstalledAndSeen() returns (states: seq<State>, steps: seq<Step>)
    ensures IsRun(states, steps)
    ensures Last(states) == State(1, map[Key(0, "/root/a") := Entry(0, 0)],
                                  [First(Installed, Waiting, NoJob, false, false, true, false)], {Captured(Key(0, "/root/a"), 0)})
  {
    var k, c := Key(0, "/root/a"), Captured(Key(0, "/root/a"), 0);
    var on: Tasks := map[k := Entry(0, 0)];
    states, steps := [State(0, map[], [], {})], [];
    states, steps := Extend(states, steps, Reserve(k), State(1, map[], [First(Reserved, NotSpawned, NoJob, false, true, false, false)], {}));
    states, steps := Extend(states, steps, Own(0, FillSlot), State(1, map[], [First(Slotted, NotSpawned, NoJob, false, false, true, false)], {}));
    states, steps := Extend(states, steps, Own(0, Spawn(true)), State(1, map[], [First(Spawned, Waiting, NoJob, false, false, true, false)], {}));
    states, steps := Extend(states, steps, Own(0, Install), State(1, on, [First(Installed, Waiting, NoJob, false, false, true, false)], {}));
    states, steps := Extend(states, steps, Capture({c}), State(1, on, [First(Installed, Waiting, NoJob, false, false, true, false)], {c}));
  }

  /** A launch is installed, then captured and hard-aborted before its start signal. */
  lemma AbortedBeforeStart() returns (states: seq<State>, steps: seq<Step>)
    ensures IsRun(states, steps)
    ensures Last(states) == State(1, map[], [First(Installed, Ended, Stopping, true, false, false, true)], {Captured(Key(0, "/root/a"), 0)})
  {
    states, steps := InstalledAndSeen();
    var k, c := Key(0, "/root/a"), Captured(Key(0, "/root/a"), 0);
    var on: Tasks := map[k := Entry(0, 0)];
    assert Remaining(on, [c]) == map[];
    states, steps := Extend(states, steps, Take([c]), State(1, map[], [First(Installed, Waiting, Taken, false, false, true, false)], {c}));
    states, steps := Extend(states, steps, Own(0, EmptySlot), State(1, map[], [First(Installed, Waiting, SlotEmptied, false, false, false, true)], {c}));
    states, steps := Extend(states, steps, Own(0, Stop), State(1, map[], [First(Installed, Waiting, Stopping, true, false, false, true)], {c}));
    states, steps := Extend(states, steps, Own(0, WorkerAborted), State(1, map[], [First(Installed, Ended, Stopping, true, false, false, true)], {c}));
  }

  /**
   The failed start signal removes by path alone. If its own worker has been hard-aborted in between,
   it breaks its `expect`, and it unregisters the worker that a later launch installed on the path.
   */
  lemma StartMayUnregisterAnother() returns (states: seq<State>, steps: seq<Step>, n: nat)
    ensures IsRun(states, steps) && n + 1 < |states|
    ensures |states[n + 1].launches| == 2
    ensures steps[n] == Own(0, Send) && states[n + 1].launches[0].phase.Panicked?
    ensures states[n].tasks == map[Key(0, "/root/a") := Entry(1, 1)] && states[n + 1].tasks == map[]
  {
    states, steps := AbortedBeforeStart();
    var k, c := Key(0, "/root/a"), Captured(Key(0, "/root/a"), 0);
    var a := First(Installed, Ended, Stopping, true, false, false, true);
    var on: Tasks := map[k := Entry(1, 1)];
    states, steps := Extend(states, steps, Reserve(k), State(2, map[], [a, Second(Reserved, NotSpawned, true)], {c}));
    states, steps := Extend(states, steps, Own(1, FillSlot), State(2, map[], [a, Second(Slotted, NotSpawned, false)], {c}));
    states, steps := Extend(states, steps, Own(1, Spawn(true)), State(2, map[], [a, Second(Spawned, Waiting, false)], {c}));
    states, steps := Extend(states, steps, Own(1, Install), State(2, on, [a, Second(Installed, Waiting, false)], {c}));
    assert on - {k} == map[];
    states, steps := Extend(states, steps, Own(0, Send), State(2, map[], [First(Panicked, Ended, Stopping, true, false, false, true), Second(Installed, Waiting, false)], {c}));
    n := |steps| - 1;
  }

  ghost predicate StartFails(s: State, step: Step) {
    step.Own? && step.act.Send? && step.l < |s.launches| && s.launches[step.l].task.Ended?
  }

  /** The worker of this launch is registered. */
  ghost predicate HasEntry(s: State, l: nat) {
    l < |s.launches| && s.launches[l].key in s.tasks && s.tasks[s.launches[l].key].launch == l
  }

  predicate IsInstalled(s: State, l: nat) {
    l < |s.launches| && s.launches[l].phase.Installed?
  }

  /** A start signal fails on the path of this installed worker, its own or another launch's. */
  ghost predicate Evicts(s: State, step: Step, l: nat) {
    IsInstalled(s, l) && StartFails(s, step) && s.launches[step.l].key == s.launches[l].key
  }

  predicate BeforeInstall(phase: Phase) {
    phase.Reserved? || phase.Slotted? || phase.Spawned?
  }

  /** A launch is installed once. */
  lemma InstalledOnce(s: State, step: Step, l: nat)
    requires Inv(s) && Enabled(s, step) && IsInstalled(Do(s, step), l)
    ensures l < |s.launches|
    ensures IsInstalled(s, l) || (s.launches[l].phase.Spawned? && step == Own(l, Install))
  {
    if l < |s.launches| {
      assert LaunchOk(s.launches[l]);
    }
  }

  lemma PastInstall(x: Launch, act: Act, tasks: Tasks)
    requires MayAct(x, act) && BeforeInstall(Stepped(x, act, tasks).phase)
    ensures BeforeInstall(x.phase)
  {
    if act.Install? || act.Send? {
      assert BeforeInstall(x.phase);
    } else if act.GiveBack? || act.SettleFailure? {
      assert BeforeInstall(x.phase);
    } else if !act.FillSlot? && !act.Spawn? {
      assert Stepped(x, act, tasks).phase == x.phase;
    }
  }

  lemma WasBeforeInstall(s: State, step: Step, l: nat)
    requires Enabled(s, step) && l < |s.launches| && BeforeInstall(Do(s, step).launches[l].phase)
    ensures BeforeInstall(s.launches[l].phase)
  {
    if step.Own? && step.l == l {
      PastInstall(s.launches[l], step.act, s.tasks);
    }
  }

  lemma {:induction false} NotYetInstalled(states: seq<State>, steps: seq<Step>, n: nat, j: nat, l: nat)
    requires IsRun(states, steps) && j <= n < |states| && l < |states[n].launches| && BeforeInstall(states[n].launches[l].phase)
    ensures !IsInstalled(states[j], l)
  {
    if j < n {
      RunKeepsInv(states, steps, n - 1);
      assert Next(states, steps, n - 1);
      if l < |states[n - 1].launches| {
        WasBeforeInstall(states[n - 1], steps[n - 1], l);
        NotYetInstalled(states, steps, n - 1, j, l);
      } else {
        NotYetLaunched(states, steps, n - 1, j, l);
      }
    }
  }

  lemma {:induction false} NotYetLaunched(states: seq<State>, steps: seq<Step>, n: nat, j: nat, l: nat)
    requires IsRun(states, steps) && j <= n < |states| && l >= |states[n].launches|
    ensures l >= |states[j].launches|
  {
    if j < n {
      assert Next(states, steps, n - 1);
      NotYetLaunched(states, steps, n - 1, j, l);
    }
  }

  /** An installed worker keeps its entry exactly until a hard abort takes it or a start signal fails on its path. */
  lemma EntryStays(s: State, step: Step, l: nat)
    requires Inv(s) && Enabled(s, step) && IsInstalled(s, l) && IsInstalled(Do(s, step), l)
    ensures HasEntry(Do(s, step), l) <==> HasEntry(s, l) && Do(s, step).launches[l].job.NoJob? && !Evicts(s, step, l)
    ensures Do(s, step).launches[l].job.NoJob? ==> s.launches[l].job.NoJob?
  {
    assert LaunchOk(s.launches[l]);
    assert EntryOk(s, s.launches[l].key);
    LaunchPersists(s, step, l);
  }

  lemma {:induction false} EntryExactly(states: seq<State>, steps: seq<Step>, n: nat, l: nat)
    requires IsRun(states, steps) && n < |states| && IsInstalled(states[n], l)
    ensures HasEntry(states[n], l)
       <==> states[n].launches[l].job.NoJob? && forall j :: 0 <= j < n ==> !Evicts(states[j], steps[j], l)
  {
    if n > 0 {
      var m := n - 1;
      RunKeepsInv(states, steps, m);
      assert Next(states, steps, m);
      InstalledOnce(states[m], steps[m], l);
      if IsInstalled(states[m], l) {
        EntryExactly(states, steps, m, l);
        EntryStays(states[m], steps[m], l);
      } else {
        assert LaunchOk(states[m].launches[l]);
        forall j | 0 <= j < n
          ensures !Evicts(states[j], steps[j], l)
        {
          NotYetInstalled(states, steps, m, j, l);
        }
      }
    }
  }

  /**
   When a start signal is sent, the worker behind it is still registered, so that a failure removes
   just that worker, exactly when no hard abort took it and no start signal failed on its path since it
   was installed.
   */
  lemma StartFailureIsFencedExactlyWhen(states: seq<State>, steps: seq<Step>, i: nat, l: nat)
    requires IsRun(states, steps) && i < |steps| && steps[i] == Own(l, Send)
    ensures l < |states[i].launches|
    ensures HasEntry(states[i], l)
       <==> states[i].launches[l].job.NoJob? && forall j :: 0 <= j < i ==> !Evicts(states[j], steps[j], l)
  {
    assert Next(states, steps, i);
    EntryExactly(states, steps, i, l);
  }
}
