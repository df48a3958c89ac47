/** Waiting for an agent tree to become quiescent, against concurrent changes and notifications. */
module Quiescence {
  import opened Base

  datatype Agent = Agent(marker: bool, live: bool)

  datatype Tree = Tree(agents: seq<Agent>, cancelled: bool)

  predicate Quiescent(tree: Tree) {
    && (forall i :: 0 <= i < |tree.agents| ==> !tree.agents[i].marker)
    && (tree.cancelled || forall i :: 0 <= i < |tree.agents| ==> !tree.agents[i].live)
  }

  /** Generations are 64-bit and wrap around. */
  const WIDTH: nat := 0x1_0000_0000_0000_0000

  // `at` and `seen` are the number of notifications sent when the generation was read.
  datatype Waiter =
    | Check
    | Observe
    | Recheck(at: nat)
    | Subscribe(at: nat)
    | Blocked(at: nat, seen: nat)
    | Returned
    | Errored

  // `sent` counts notifications, so the published generation is `sent % WIDTH`; `owed` counts changes
  // whose notification has not been sent yet.
  datatype State = State(tree: Tree, sent: nat, owed: nat, waiter: Waiter)

  datatype Step = Change(tree: Tree, notifies: bool) | Notify | Wait | Fail

  function Generation(sent: nat): nat {
    sent % WIDTH
  }

  ghost predicate Enabled(s: State, step: Step) {
    match step
    case Change(tree, notifies) => !Quiescent(s.tree) && Quiescent(tree) ==> notifies
    case Notify => s.owed > 0
    case Wait =>
      (match s.waiter
       case Blocked(_, seen) => s.sent != seen
       case Returned => false
       case Errored => false
       case _ => true)
    case Fail => !s.waiter.Returned?
  }

  function NextWaiter(s: State): Waiter {
    match s.waiter
    case Check => if Quiescent(s.tree) then Returned else Observe
    case Observe => Recheck(s.sent)
    case Recheck(at) => if Quiescent(s.tree) then Returned else Subscribe(at)
    case Subscribe(at) => if Generation(s.sent) != Generation(at) then Check else Blocked(at, s.sent)
    case Blocked(_, _) => Check
    case _ => s.waiter
  }

  function Do(s: State, step: Step): State {
    match step
    case Change(tree, notifies) => s.(tree := tree, owed := if notifies then s.owed + 1 else s.owed)
    case Notify => s.(sent := s.sent + 1, owed := if s.owed > 0 then s.owed - 1 else 0)
    case Wait => s.(waiter := NextWaiter(s))
    case Fail => s.(waiter := Errored)
  }

  ghost predicate Init(s: State) {
    s.sent == 0 && s.owed == 0 && s.waiter == Check
  }

  ghost predicate IsRun(states: seq<State>, steps: seq<Step>) {
    && |states| == |steps| + 1
    && Init(states[0])
    && (forall i :: 0 <= i < |steps| ==> Enabled(states[i], steps[i]) && states[i + 1] == Do(states[i], steps[i]))
  }

  /** The generation wrapped around completely between the waiter's two reads. */
  predicate Wrapped(waiter: Waiter) {
    waiter.Blocked? && waiter.seen >= waiter.at + WIDTH && (waiter.seen - waiter.at) % WIDTH == 0
  }

  ghost predicate Inv(s: State) {
    match s.waiter
    case Recheck(at) => at <= s.sent
    case Subscribe(at) => at <= s.sent && (Quiescent(s.tree) ==> s.sent > at || s.owed > 0)
    case Blocked(at, seen) =>
      && at <= seen <= s.sent && Generation(at) == Generation(seen)
      && (Quiescent(s.tree) ==> s.sent > seen || s.owed > 0 || Wrapped(s.waiter))
    case _ => true
  }

  lemma SameGeneration(at: nat, seen: nat)
    requires at <= seen && Generation(at) == Generation(seen)
    ensures (seen - at) % WIDTH == 0
    ensures seen == at || seen >= at + WIDTH
  {
    var q := seen / WIDTH - at / WIDTH;
    assert at == WIDTH * (at / WIDTH) + at % WIDTH;
    assert seen == WIDTH * (seen / WIDTH) + seen % WIDTH;
    assert seen - at == WIDTH * q;
  }

  lemma StepKeepsInv(s: State, step: Step)
    requires Inv(s) && Enabled(s, step)
    ensures Inv(Do(s, step))
  {
    if step.Wait? && s.waiter.Subscribe? && Generation(s.sent) == Generation(s.waiter.at) {
      SameGeneration(s.waiter.at, s.sent);
    }
  }

  lemma {:induction false} RunKeepsInv(states: seq<State>, steps: seq<Step>, n: nat)
    requires IsRun(states, steps) && n < |states|
    ensures Inv(states[n])
  {
    if n > 0 {
      RunKeepsInv(states, steps, n - 1);
      StepKeepsInv(states[n - 1], steps[n - 1]);
    }
  }

  /**
   No lost wakeup. If every change that makes the tree quiescent notifies, then a waiter blocked on a
   quiescent tree has been notified or is about to be, unless exactly a multiple of 2^64
   notifications fell between its two reads of the generation.
   */
  lemma NoLostWakeup(states: seq<State>, steps: seq<Step>, n: nat)
    requires IsRun(states, steps) && n < |states|
    requires states[n].waiter.Blocked? && Quiescent(states[n].tree) && !Wrapped(states[n].waiter)
    ensures Enabled(states[n], Wait) || Enabled(states[n], Notify)
    ensures states[n].owed == 0 ==> states[n].sent > states[n].waiter.at
  {
    RunKeepsInv(states, steps, n);
  }

  /** Said agent by agent: no activity marker anywhere, and no live work unless the tree was cancelled. */
  ghost predicate NothingGoesOn(tree: Tree) {
    forall agent :: agent in tree.agents ==> !agent.marker && (tree.cancelled || !agent.live)
  }

  /**
   The wait ends without an error only on an observation of a tree without activity markers, all of
   whose agents are at rest unless it was cancelled; and such a tree ends the wait when it is looked at.
   */
  lemma ReturnsOnlyWhenQuiescent(states: seq<State>, steps: seq<Step>, n: nat)
    requires IsRun(states, steps) && n < |states| && states[n].waiter.Returned?
    ensures exists i :: 0 <= i < n && steps[i] == Wait && !states[i].waiter.Returned? && states[i + 1].waiter.Returned?
                        && NothingGoesOn(states[i].tree)
  {
    var i := n;
    while states[i].waiter.Returned?
      invariant 0 <= i <= n
      invariant i < n ==> states[i + 1].waiter.Returned?
      decreases i
    {
      i := i - 1;
    }
    assert states[i + 1] == Do(states[i], steps[i]);
  }

  lemma QuietTreeReturns(s: State)
    requires s.waiter.Check? || s.waiter.Recheck?
    requires NothingGoesOn(s.tree)
    ensures Enabled(s, Wait) && Do(s, Wait).waiter.Returned?
  {
  }

  // ---- Wrap-around really loses the wakeup -------------------------------------------------------

  function Busy(): Tree {
    Tree([Agent(true, true)], false)
  }

  function Quiet(): Tree {
    Tree([], false)
  }

  lemma {:induction false} ManyNotifications(states: seq<State>, steps: seq<Step>, n: nat)
    returns (longer: seq<State>, more: seq<Step>)
    requires IsRun(states, steps) && Last(states).tree == Busy() && Last(states).owed == 0
    ensures IsRun(longer, more)
    ensures Last(longer) == Last(states).(sent := Last(states).sent + n)
  {
    if n == 0 {
      return states, steps;
    }
    longer, more := ManyNotifications(states, steps, n - 1);
    longer, more := Extend(longer, more, Change(Busy(), true));
    longer, more := Extend(longer, more, Notify);
  }

  lemma Extend(states: seq<State>, steps: seq<Step>, step: Step) returns (longer: seq<State>, more: seq<Step>)
    requires IsRun(states, steps) && Enabled(Last(states), step)
    ensures IsRun(longer, more) && Last(longer) == Do(Last(states), step)
  {
    longer, more := states + [Do(Last(states), step)], steps + [step];
  }

  /** The waiter sleeps on a quiescent tree, and nothing will wake it. */
  ghost predicate Stuck(s: State) {
    s.waiter.Blocked? && Quiescent(s.tree) && !Enabled(s, Wait) && !Enabled(s, Notify)
  }

  /** With a multiple of 2^64 notifications between its two reads the waiter gets stuck. */
  lemma WrapLosesWakeup(between: nat) returns (states: seq<State>, steps: seq<Step>)
    requires between > 0 && between % WIDTH == 0
    ensures IsRun(states, steps) && Stuck(Last(states)) && Last(states).waiter == Blocked(0, between)
  {
    states, steps := [State(Busy(), 0, 0, Check)], [];
    assert Busy().agents[0].marker;
    states, steps := Extend(states, steps, Wait);
    states, steps := Extend(states, steps, Wait);
    states, steps := Extend(states, steps, Wait);
    states, steps := ManyNotifications(states, steps, between - 1);
    states, steps := Extend(states, steps, Change(Quiet(), true));
    states, steps := Extend(states, steps, Notify);
    states, steps := Extend(states, steps, Wait);
  }

  /** A run ends with the waiter stuck, `between` notifications having fallen between its two reads. */
  ghost predicate GetsStuck(states: seq<State>, steps: seq<Step>, between: nat) {
    IsRun(states, steps) && Stuck(Last(states)) && Last(states).waiter.seen - Last(states).waiter.at == between
  }

  /**
   A wakeup can be lost with just this many notifications between the two reads exactly if they are a
   positive multiple of 2^64.
   */
  lemma LosesWakeupExactlyWhen(between: nat)
    ensures (exists states, steps :: GetsStuck(states, steps, between)) <==> between > 0 && between % WIDTH == 0
  {
    if states, steps :| GetsStuck(states, steps, between) {
      RunKeepsInv(states, steps, |steps|);
      var w := Last(states).waiter;
      SameGeneration(w.at, w.seen);
    }
    if between > 0 && between % WIDTH == 0 {
      var states, steps := WrapLosesWakeup(between);
      assert GetsStuck(states, steps, between);
    }
  }
}
