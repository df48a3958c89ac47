/**
 The permission broker: one dispatcher, any number of synchronous and asynchronous waiters, and
 outside cancellers, all racing on cancellation cells and on the abort origin of each ticket.
 */
module Broker {
  import opened Base

  type ControlId = nat
  type TicketId = nat

  // ---- The cancellation cell -------------------------------------------------------------------

  datatype Cause = ApprovalAborted | OtherCause(code: nat)

  /** The classification of a run: the first writer wins, and a reservation only defers it. */
  datatype Class = Open | Reserved(pending: Option<Cause>) | Sealed | Cancelled(cause: Cause)

  /** `wake` is raised after the classification and is what `is_cancelled` reads. */
  datatype Control = Control(kind: Class, wake: bool)

  datatype Claim = Unclaimed | Applied | Deferred | Rejected

  function Request(kind: Class, cause: Cause): (Class, Claim) {
    match kind
    case Open => (Cancelled(cause), Applied)
    case Reserved(pending) =>
      if pending.None? then (Reserved(Some(cause)), Deferred)
      else (kind, if pending.value == cause then Deferred else Rejected)
    case Sealed => (kind, Rejected)
    case Cancelled(_) => (kind, Rejected)
  }

  // ---- Tickets, waiters, the dispatcher --------------------------------------------------------

  /** A confirmation outcome, or a failure of the surface or of the broker. */
  datatype Answer = Approved | Denied | AbortRequested | Aborted | Interrupted | Failure

  datatype Mailbox = Empty | Full(answer: Answer) | Closed

  /** Where a waiter is; states named `...Saw` and `Woken` have just read a cancelled control. */
  datatype Waiter =
    | Entering(async: bool)
    | Enqueueing(async: bool)
    | Poll
    | PollSaw
    | Try
    | Begin
    | BeginSaw
    | Arming
    | Await(armed: bool)
    | Woken
    | Received(answer: Answer)
    | Got(answer: Answer)
    | GotClosed
    | ClosedSaw
    | Done(outcome: Answer)
    | Gone

  /** `claim` and `said` record what the abort claim answered and what the surface answered. */
  datatype Ticket = Ticket(control: ControlId, origin: bool, mailbox: Mailbox, waiter: Waiter,
                           accepted: bool, claim: Claim, said: Option<Answer>)

  datatype Phase =
    | Taken
    | Prompting
    | Answered(answer: Answer)
    | Screened(answer: Answer)
    | Claiming
    | Published
    | Waking
    | Claimed(claim: Claim)
    | Sending(answer: Answer)

  datatype Dispatcher = Idle | Busy(ticket: TicketId, phase: Phase) | Dead

  const QUEUE_CAPACITY := 256

  datatype State = State(controls: map<ControlId, Control>, tickets: map<TicketId, Ticket>, queue: seq<TicketId>,
                         dispatcher: Dispatcher)

  datatype Step =
    | NewControl(c: ControlId)
    | Cancel(c: ControlId, cause: Cause)
    | Wake(c: ControlId)
    | Reserve(c: ControlId)
    | Resolve(c: ControlId, to: Class)
    | Submit(t: TicketId, c: ControlId, async: bool)
    | Enqueue(t: TicketId)
    | Wait(t: TicketId)
    | Notice(t: TicketId)
    | Drop(t: TicketId)
    | Dispatch(answer: Answer)
    | Crash

  // ---- One atomic step of each party -----------------------------------------------------------

  /** A waiter's next read of the control, the origin or the mailbox. */
  function Waited(t: Ticket, wake: bool): Waiter {
    match t.waiter
    case Entering(async) => if wake then Done(Interrupted) else Enqueueing(async)
    case Poll => if wake then PollSaw else Try
    case PollSaw => if t.origin then Try else Done(Interrupted)
    case Try =>
      (match t.mailbox
       case Empty => Poll
       case Full(answer) => Received(answer)
       case Closed => GotClosed)
    case Begin => if wake then BeginSaw else Arming
    case BeginSaw => if t.origin then Arming else Done(Interrupted)
    case Arming => Await(!t.origin)
    case Await(armed) =>
      (match t.mailbox
       case Empty => Await(armed)
       case Full(answer) => Received(answer)
       case Closed => GotClosed)
    case Woken => if t.origin then Await(false) else Done(Interrupted)
    case Received(answer) => if answer == Aborted && t.origin then Done(Aborted) else Got(answer)
    case Got(answer) => if wake then Done(Interrupted) else Done(answer)
    case GotClosed => if wake then ClosedSaw else Done(Failure)
    case ClosedSaw => if t.origin then Done(Failure) else Done(Interrupted)
    case _ => t.waiter
  }

  /** What the dispatcher does next, given what it reads and what the surface says. */
  function NextPhase(phase: Phase, wake: bool, claim: Claim, answer: Answer): Phase {
    match phase
    case Taken => if wake then Answered(Interrupted) else Prompting
    case Prompting => Answered(answer)
    case Answered(a) => if (a == Approved || a == Denied) && wake then Screened(Interrupted) else Screened(a)
    case Screened(a) => if a != AbortRequested then Sending(a) else if wake then Sending(Interrupted) else Claiming
    case Claiming => Published
    case Published => if claim == Applied then Waking else Claimed(claim)
    case Waking => Claimed(Applied)
    case Claimed(c) => Sending(if c == Rejected then Interrupted else Aborted)
    case Sending(a) => Sending(a)
  }

  /** The ticket after that. */
  function DispatchedTicket(t: Ticket, phase: Phase, claim: Claim, answer: Answer): Ticket {
    match phase
    case Prompting => t.(said := Some(answer))
    case Claiming => t.(origin := true)
    case Published => t.(claim := claim)
    case Claimed(c) => if c == Rejected then t.(origin := false) else t
    case Sending(a) => t.(mailbox := Full(a))
    case _ => t
  }

  /** The control after that. */
  function DispatchedControl(control: Control, phase: Phase): Control {
    match phase
    case Published => control.(kind := Request(control.kind, ApprovalAborted).0)
    case Waking => control.(wake := true)
    case _ => control
  }

  ghost predicate Enabled(s: State, step: Step) {
    match step
    case NewControl(c) => c !in s.controls
    case Cancel(c, _) => c in s.controls
    case Wake(c) => c in s.controls && s.controls[c].kind.Cancelled?
    case Reserve(c) => c in s.controls && s.controls[c].kind == Open
    case Resolve(c, _) => c in s.controls && s.controls[c].kind.Reserved?
    case Submit(t, c, _) => t !in s.tickets && c in s.controls
    case Enqueue(t) => t in s.tickets && s.tickets[t].waiter.Enqueueing?
    case Wait(t) => t in s.tickets && s.tickets[t].control in s.controls
    case Notice(t) => && t in s.tickets && s.tickets[t].control in s.controls
                      && s.tickets[t].waiter == Await(true) && s.controls[s.tickets[t].control].wake
    case Drop(t) => t in s.tickets && !s.tickets[t].waiter.Done?
    case Dispatch(_) => || (s.dispatcher.Idle? && s.queue != [])
                        || (s.dispatcher.Busy? && s.dispatcher.ticket in s.tickets
                            && s.tickets[s.dispatcher.ticket].control in s.controls)
    case Crash => s.dispatcher.Busy? && s.dispatcher.phase.Prompting?
  }

  function SetControl(s: State, c: ControlId, control: Control): State {
    s.(controls := s.controls[c := control])
  }

  function SetWaiter(s: State, t: TicketId, waiter: Waiter): State
    requires t in s.tickets
  {
    s.(tickets := s.tickets[t := s.tickets[t].(waiter := waiter)])
  }

  function Enqueued(s: State, t: TicketId): State
    requires t in s.tickets && s.tickets[t].waiter.Enqueueing?
  {
    if s.dispatcher.Dead? || |s.queue| >= QUEUE_CAPACITY then SetWaiter(s, t, Done(Failure))
    else s.(queue := s.queue + [t],
            tickets := s.tickets[t := s.tickets[t].(accepted := true, waiter := if s.tickets[t].waiter.async then Begin else Poll)])
  }

  function Dispatched(s: State, answer: Answer): State
    requires s.dispatcher.Busy? && s.dispatcher.ticket in s.tickets
    requires s.tickets[s.dispatcher.ticket].control in s.controls
  {
    var t, phase := s.dispatcher.ticket, s.dispatcher.phase;
    var ticket := s.tickets[t];
    var control := s.controls[ticket.control];
    var claim := Request(control.kind, ApprovalAborted).1;
    s.(controls := s.controls[ticket.control := DispatchedControl(control, phase)],
       tickets := s.tickets[t := DispatchedTicket(ticket, phase, claim, answer)],
       dispatcher := if phase.Sending? then Idle else Busy(t, NextPhase(phase, control.wake, claim, answer)))
  }

  /** The surface dies with the dispatcher: every unanswered ticket is dropped. */
  function Crashed(s: State): State
    requires s.dispatcher.Busy?
  {
    var lost := s.dispatcher.ticket;
    s.(tickets := map t | t in s.tickets :: if t == lost || t in s.queue then s.tickets[t].(mailbox := Closed) else s.tickets[t],
       queue := [], dispatcher := Dead)
  }

  function Do(s: State, step: Step): State
    requires Enabled(s, step)
  {
    match step
    case NewControl(c) => SetControl(s, c, Control(Open, false))
    case Cancel(c, cause) => SetControl(s, c, s.controls[c].(kind := Request(s.controls[c].kind, cause).0))
    case Wake(c) => SetControl(s, c, s.controls[c].(wake := true))
    case Reserve(c) => SetControl(s, c, s.controls[c].(kind := Reserved(None)))
    case Resolve(c, to) => SetControl(s, c, s.controls[c].(kind := to))
    case Submit(t, c, async) => s.(tickets := s.tickets[t := Ticket(c, false, Empty, Entering(async), false, Unclaimed, None)])
    case Enqueue(t) => Enqueued(s, t)
    case Wait(t) => SetWaiter(s, t, Waited(s.tickets[t], s.controls[s.tickets[t].control].wake))
    case Notice(t) => SetWaiter(s, t, Woken)
    case Drop(t) => SetWaiter(s, t, Gone)
    case Dispatch(answer) =>
      if s.dispatcher.Idle?
      then s.(queue := s.queue[1..], dispatcher := Busy(s.queue[0], Taken))
      else Dispatched(s, answer)
    case Crash => Crashed(s)
  }

  // ---- The invariant ---------------------------------------------------------------------------

  ghost predicate ControlOk(control: Control) {
    control.wake ==> control.kind.Cancelled?
  }

  predicate Good(claim: Claim) {
    claim == Applied || claim == Deferred
  }

  /** Where a claimed ticket may be, and when its origin is up. */
  ghost predicate ClaimOk(t: Ticket, phase: Option<Phase>) {
    match t.claim
    case Unclaimed =>
      && t.origin == (phase == Some(Published))
      && (phase.Some? ==> !phase.value.Waking? && !phase.value.Claimed?)
    case Rejected =>
      && t.origin == (phase == Some(Claimed(Rejected)))
      && (phase == Some(Claimed(Rejected)) || phase == Some(Sending(Interrupted)) || t.mailbox == Full(Interrupted))
    case Applied =>
      && t.origin
      && (phase == Some(Waking) || phase == Some(Claimed(Applied)) || phase == Some(Sending(Aborted)) || t.mailbox == Full(Aborted))
    case Deferred =>
      && t.origin
      && (phase == Some(Claimed(Deferred)) || phase == Some(Sending(Aborted)) || t.mailbox == Full(Aborted))
  }

  predicate Waits(w: Waiter) {
    w.Poll? || w.PollSaw? || w.Try? || w.Begin? || w.BeginSaw? || w.Arming? || w.Await? || w.Woken? || w.Gone?
  }

  predicate Saw(w: Waiter) {
    w.PollSaw? || w.BeginSaw? || w.Woken? || w.ClosedSaw?
  }

  /** Why an answer may be an interruption. */
  ghost predicate Interrupts(t: Ticket, wake: bool) {
    wake || t.claim == Rejected || t.said == Some(Interrupted)
  }

  /** What the dispatcher may deliver. */
  ghost predicate Deliverable(t: Ticket, wake: bool, a: Answer) {
    && a != AbortRequested
    && (a == Interrupted ==> Interrupts(t, wake))
    && (a == Interrupted || Some(a) == t.said || (a == Aborted && Good(t.claim)))
  }

  /** How far a waiter may be, given what its mailbox holds. */
  ghost predicate WaiterOk(t: Ticket, wake: bool) {
    match t.mailbox
    case Empty => Waits(t.waiter) || (t.waiter == Done(Interrupted) && wake)
    case Full(a) =>
      || Waits(t.waiter)
      || t.waiter == Received(a)
      || (t.waiter == Got(a) && !Good(t.claim))
      || (t.waiter == Done(a))
      || (t.waiter == Done(Interrupted) && !Good(t.claim) && wake)
    case Closed =>
      || Waits(t.waiter) || t.waiter.GotClosed? || t.waiter.ClosedSaw?
      || t.waiter == Done(Failure)
      || (t.waiter == Done(Interrupted) && wake)
  }

  /** A ticket that never reached the queue. */
  ghost predicate OutsideOk(t: Ticket, wake: bool, phase: Option<Phase>) {
    && t.mailbox.Empty? && phase.None? && t.claim == Unclaimed && !t.origin && t.said.None?
    && (t.waiter.Entering? || t.waiter.Enqueueing? || t.waiter.Gone? || t.waiter == Done(Failure)
        || (t.waiter == Done(Interrupted) && wake))
  }

  ghost predicate PhaseOk(t: Ticket, wake: bool, phase: Phase) {
    && t.mailbox.Empty?
    && (phase.Taken? || phase.Prompting? ==> t.said.None?)
    && (phase.Answered? || phase.Screened? ==> (phase.answer == Interrupted && wake) || Some(phase.answer) == t.said)
    && (phase.Claiming? || phase.Published? ==> t.said == Some(AbortRequested))
    && (phase.Sending? ==> Deliverable(t, wake, phase.answer))
    && (phase.Claimed? ==> t.claim == phase.claim)
  }

  ghost predicate TicketOk(t: Ticket, control: Control, phase: Option<Phase>) {
    if !t.accepted then OutsideOk(t, control.wake, phase)
    else
      && ClaimOk(t, phase)
      && WaiterOk(t, control.wake)
      && (Good(t.claim) && t.waiter.Done? ==> t.waiter.outcome == Aborted)
      && (Saw(t.waiter) ==> control.wake)
      && (Good(t.claim) && t.mailbox.Empty? ==> Waits(t.waiter))
      && (phase.Some? ==> PhaseOk(t, control.wake, phase.value))
      && (phase == Some(Waking) ==> control.kind.Cancelled?)
      && (t.mailbox.Full? ==> Deliverable(t, control.wake, t.mailbox.answer))
      && (t.mailbox.Closed? ==> t.said.None?)
      && (t.claim != Unclaimed ==> t.said == Some(AbortRequested))
      && (t.claim == Applied ==> control.kind == Cancelled(ApprovalAborted) && (control.wake || phase == Some(Waking)))
      && (t.waiter == Await(false) ==> t.origin || t.claim == Rejected)
  }

  function HeldIn(s: State, t: TicketId): Option<Phase> {
    if s.dispatcher.Busy? && s.dispatcher.ticket == t then Some(s.dispatcher.phase) else None
  }

  /** A queued ticket is untouched by the dispatcher. */
  ghost predicate QueuedOk(t: Ticket, phase: Option<Phase>) {
    t.accepted && t.mailbox.Empty? && t.claim == Unclaimed && t.said.None? && phase.None?
  }

  ghost predicate QueueOk(s: State) {
    && |s.queue| <= QUEUE_CAPACITY
    && NoDuplicates(s.queue)
    && (forall t :: t in s.queue ==> t in s.tickets && QueuedOk(s.tickets[t], HeldIn(s, t)))
  }

  ghost predicate DispatcherOk(s: State) {
    s.dispatcher.Busy? ==> s.dispatcher.ticket in s.tickets && s.tickets[s.dispatcher.ticket].accepted
  }

  ghost predicate Inv(s: State) {
    && (forall c :: c in s.controls ==> ControlOk(s.controls[c]))
    && (forall t :: t in s.tickets ==> s.tickets[t].control in s.controls)
    && (forall t :: t in s.tickets ==> TicketOk(s.tickets[t], s.controls[s.tickets[t].control], HeldIn(s, t)))
    && QueueOk(s)
    && DispatcherOk(s)
  }

  ghost predicate Init(s: State) {
    s == State(map[], map[], [], Idle)
  }

  // ---- Each step keeps it ----------------------------------------------------------------------

  /** A control never loses its wake or its terminal cause, and no ticket depends on more. */
  lemma ControlMoves(t: Ticket, before: Control, after: Control, phase: Option<Phase>)
    requires TicketOk(t, before, phase)
    requires before.wake ==> after.wake
    requires before.kind.Cancelled? ==> after.kind == before.kind
    ensures TicketOk(t, after, phase)
  {
  }

  lemma WaiterMoves(t: Ticket, control: Control, phase: Option<Phase>)
    requires TicketOk(t, control, phase) && ControlOk(control)
    ensures TicketOk(t.(waiter := Waited(t, control.wake)), control, phase)
  {
  }

  lemma DispatcherMoves(t: Ticket, control: Control, phase: Phase, answer: Answer)
    requires t.accepted && TicketOk(t, control, Some(phase)) && ControlOk(control)
    ensures var claim := Request(control.kind, ApprovalAborted).1;
            TicketOk(DispatchedTicket(t, phase, claim, answer), DispatchedControl(control, phase),
                     if phase.Sending? then None else Some(NextPhase(phase, control.wake, claim, answer)))
  {
  }

  lemma StepKeepsInv(s: State, step: Step)
    requires Inv(s) && Enabled(s, step)
    ensures Inv(Do(s, step))
  {
    match step
    case Dispatch(answer) => Dispatching(s, answer);
    case Crash => Crashing(s);
    case Enqueue(t) => Enqueuing(s, t);
    case Wait(t) => Waiting(s, t);
    case _ => Moving(s, step);
  }

  lemma Waiting(s: State, t: TicketId)
    requires Inv(s) && Enabled(s, Wait(t))
    ensures Inv(Do(s, Wait(t)))
  {
    var control := s.controls[s.tickets[t].control];
    WaiterMoves(s.tickets[t], control, HeldIn(s, t));
    var n := Do(s, Wait(t));
    assert forall u :: HeldIn(n, u) == HeldIn(s, u);
  }

  lemma Moving(s: State, step: Step)
    requires Inv(s) && Enabled(s, step)
    requires !step.Dispatch? && !step.Crash? && !step.Enqueue? && !step.Wait?
    ensures Inv(Do(s, step))
  {
    var n := Do(s, step);
    assert forall u :: HeldIn(n, u) == HeldIn(s, u);
    forall t | t in n.tickets
      ensures n.tickets[t].control in n.controls && TicketOk(n.tickets[t], n.controls[n.tickets[t].control], HeldIn(n, t))
    {
      if t in s.tickets && n.tickets[t] == s.tickets[t] {
        ControlMoves(s.tickets[t], s.controls[s.tickets[t].control], n.controls[s.tickets[t].control], HeldIn(s, t));
      }
    }
  }

  /** A refused ticket fails at once. */
  lemma Refusing(s: State, t: TicketId)
    requires Inv(s) && Enabled(s, Enqueue(t)) && (s.dispatcher.Dead? || |s.queue| >= QUEUE_CAPACITY)
    ensures Inv(Do(s, Enqueue(t)))
  {
    var n := Do(s, Enqueue(t));
    assert n == SetWaiter(s, t, Done(Failure));
    assert forall u :: HeldIn(n, u) == HeldIn(s, u);
  }

  lemma AcceptingQueue(s: State, t: TicketId)
    requires Inv(s) && Enabled(s, Enqueue(t)) && !s.dispatcher.Dead? && |s.queue| < QUEUE_CAPACITY
    ensures QueueOk(Do(s, Enqueue(t)))
  {
    var n := Do(s, Enqueue(t));
    assert t !in s.queue;
    forall u | u in n.queue ensures u in n.tickets && QueuedOk(n.tickets[u], HeldIn(n, u)) {
      assert u == t || u in s.queue;
    }
  }

  lemma Accepting(s: State, t: TicketId)
    requires Inv(s) && Enabled(s, Enqueue(t)) && !s.dispatcher.Dead? && |s.queue| < QUEUE_CAPACITY
    ensures Inv(Do(s, Enqueue(t)))
  {
    AcceptingQueue(s, t);
    var n := Do(s, Enqueue(t));
    assert forall u :: HeldIn(n, u) == HeldIn(s, u);
  }

  lemma Enqueuing(s: State, t: TicketId)
    requires Inv(s) && Enabled(s, Enqueue(t))
    ensures Inv(Do(s, Enqueue(t)))
  {
    if s.dispatcher.Dead? || |s.queue| >= QUEUE_CAPACITY {
      Refusing(s, t);
    } else {
      Accepting(s, t);
    }
  }

  lemma Taking(s: State, answer: Answer)
    requires Inv(s) && Enabled(s, Dispatch(answer)) && s.dispatcher.Idle?
    ensures Inv(Do(s, Dispatch(answer)))
  {
    var n, t := Do(s, Dispatch(answer)), s.queue[0];
    assert s.queue == [t] + n.queue;
    assert t in s.queue && t !in n.queue;
    assert forall u :: u != t ==> HeldIn(n, u) == HeldIn(s, u);
  }

  lemma Dispatching(s: State, answer: Answer)
    requires Inv(s) && Enabled(s, Dispatch(answer))
    ensures Inv(Do(s, Dispatch(answer)))
  {
    if s.dispatcher.Idle? {
      Taking(s, answer);
    } else {
      Serving(s, answer);
    }
  }

  /** The dispatcher's step leaves the other tickets as they were. */
  lemma OthersKept(s: State, answer: Answer, u: TicketId)
    requires Inv(s) && Enabled(s, Dispatch(answer)) && s.dispatcher.Busy?
    requires u in s.tickets && u != s.dispatcher.ticket
    ensures var n := Do(s, Dispatch(answer));
            && u in n.tickets && n.tickets[u] == s.tickets[u] && n.tickets[u].control in n.controls
            && HeldIn(n, u) == HeldIn(s, u)
            && TicketOk(n.tickets[u], n.controls[n.tickets[u].control], HeldIn(n, u))
  {
    var n := Do(s, Dispatch(answer));
    ControlMoves(s.tickets[u], s.controls[s.tickets[u].control], n.controls[s.tickets[u].control], HeldIn(s, u));
  }

  lemma ServedOne(s: State, answer: Answer)
    requires Inv(s) && Enabled(s, Dispatch(answer)) && s.dispatcher.Busy?
    ensures var n, t := Do(s, Dispatch(answer)), s.dispatcher.ticket;
            && t in n.tickets && n.tickets[t].control in n.controls && n.tickets[t].accepted
            && TicketOk(n.tickets[t], n.controls[n.tickets[t].control], HeldIn(n, t))
            && t !in s.queue
  {
    var t := s.dispatcher.ticket;
    DispatcherMoves(s.tickets[t], s.controls[s.tickets[t].control], s.dispatcher.phase, answer);
  }

  lemma ServedControls(s: State, answer: Answer)
    requires Inv(s) && Enabled(s, Dispatch(answer)) && s.dispatcher.Busy?
    ensures var n := Do(s, Dispatch(answer));
            && n.tickets.Keys == s.tickets.Keys && n.queue == s.queue
            && (n.dispatcher.Busy? ==> n.dispatcher.ticket == s.dispatcher.ticket)
            && forall c :: c in n.controls ==> ControlOk(n.controls[c])
  {
    assert ControlOk(s.controls[s.tickets[s.dispatcher.ticket].control]);
    assert TicketOk(s.tickets[s.dispatcher.ticket], s.controls[s.tickets[s.dispatcher.ticket].control], Some(s.dispatcher.phase));
  }

  lemma Serving(s: State, answer: Answer)
    requires Inv(s) && Enabled(s, Dispatch(answer)) && s.dispatcher.Busy?
    ensures Inv(Do(s, Dispatch(answer)))
  {
    var n, t := Do(s, Dispatch(answer)), s.dispatcher.ticket;
    ServedControls(s, answer);
    ServedOne(s, answer);
    forall u | u in s.tickets && u != t
      ensures u in n.tickets && n.tickets[u] == s.tickets[u] && n.tickets[u].control in n.controls
      ensures HeldIn(n, u) == HeldIn(s, u)
      ensures TicketOk(n.tickets[u], n.controls[n.tickets[u].control], HeldIn(n, u))
    {
      OthersKept(s, answer, u);
    }
  }

  lemma Crashing(s: State)
    requires Inv(s) && Enabled(s, Crash)
    ensures Inv(Do(s, Crash))
  {
    var n := Do(s, Crash);
  }

  // ---- Whole runs ------------------------------------------------------------------------------

  /** `states` is a run: every state follows from the one before it by one enabled step. */
  ghost predicate IsRun(states: seq<State>, steps: seq<Step>) {
    && |states| == |steps| + 1
    && Init(states[0])
    && (forall i :: 0 <= i < |steps| ==> Next(states, steps, i))
  }

  ghost predicate Next(states: seq<State>, steps: seq<Step>, i: nat)
    requires |states| == |steps| + 1 && i < |steps|
  {
    Enabled(states[i], steps[i]) && states[i + 1] == Do(states[i], steps[i])
  }

  lemma {:induction false} RunKeepsInv(states: seq<State>, steps: seq<Step>, n: nat)
    requires IsRun(states, steps) && n < |states|
    ensures Inv(states[n])
  {
    if n > 0 {
      RunKeepsInv(states, steps, n - 1);
      assert Next(states, steps, n - 1);
      StepKeepsInv(states[n - 1], steps[n - 1]);
    }
  }

  /** What is known about one step of a run. */
  lemma StepOf(states: seq<State>, steps: seq<Step>, i: nat)
    requires IsRun(states, steps) && i < |steps|
    ensures Inv(states[i]) && Enabled(states[i], steps[i]) && states[i + 1] == Do(states[i], steps[i])
  {
    RunKeepsInv(states, steps, i);
    assert Next(states, steps, i);
  }

  /**
   Abort ownership over every interleaving: the abort of a ticket whose claim was applied or deferred
   is reported as its own, a rejected claim is reported as an interruption, and no other waiter is
   told of an abort or an approval the surface did not give.
   */
  lemma AbortOwnership(states: seq<State>, steps: seq<Step>, n: nat, t: TicketId)
    requires IsRun(states, steps) && n < |states|
    requires t in states[n].tickets && states[n].tickets[t].waiter.Done?
    ensures var ticket := states[n].tickets[t];
            && (Good(ticket.claim) ==> ticket.waiter.outcome == Aborted)
            && (ticket.claim == Rejected ==> ticket.waiter.outcome == Interrupted)
            && (ticket.waiter.outcome == Aborted ==> Good(ticket.claim) || ticket.said == Some(Aborted))
            && (ticket.waiter.outcome == Approved ==> ticket.said == Some(Approved))
            && ticket.waiter.outcome != AbortRequested
  {
    RunKeepsInv(states, steps, n);
  }

  /**
   While its control is not cancelled, a waiter returns exactly what became of its ticket: the surface's
   own answer, the classification of its abort, or a failure if the surface was never heard.
   */
  lemma AnsweredExactly(states: seq<State>, steps: seq<Step>, n: nat, t: TicketId)
    requires IsRun(states, steps) && n < |states|
    requires t in states[n].tickets && states[n].tickets[t].waiter.Done?
    requires states[n].tickets[t].control in states[n].controls && !states[n].controls[states[n].tickets[t].control].wake
    ensures var ticket := states[n].tickets[t];
            ticket.waiter.outcome == (match ticket.said
                                      case None => Failure
                                      case Some(AbortRequested) => if Good(ticket.claim) then Aborted else Interrupted
                                      case Some(answer) => answer)
  {
    RunKeepsInv(states, steps, n);
  }

  // Reads a waiter still needs once its abort has been delivered.
  function WaiterRank(w: Waiter): nat {
    match w
    case Begin => 6
    case BeginSaw => 5
    case Woken => 4
    case Arming => 4
    case Poll => 4
    case PollSaw => 3
    case Try => 2
    case Await(_) => 2
    case Received(_) => 1
    case _ => 0
  }

  function PhaseRank(phase: Phase): nat {
    match phase
    case Waking => 3
    case Claimed(_) => 2
    case Sending(_) => 1
    case _ => 0
  }

  lemma WaiterComesCloser(s: State, t: TicketId)
    requires Inv(s) && t in s.tickets && Good(s.tickets[t].claim) && s.tickets[t].mailbox.Full?
    requires !s.tickets[t].waiter.Done? && !s.tickets[t].waiter.Gone?
    ensures Enabled(s, Wait(t))
    ensures WaiterRank(Do(s, Wait(t)).tickets[t].waiter) < WaiterRank(s.tickets[t].waiter)
  {
  }

  lemma DispatcherComesCloser(s: State, t: TicketId, answer: Answer)
    requires Inv(s) && t in s.tickets && Good(s.tickets[t].claim) && !s.tickets[t].mailbox.Full?
    ensures s.dispatcher.Busy? && s.dispatcher.ticket == t && Enabled(s, Dispatch(answer))
    ensures if s.dispatcher.phase.Sending? then Do(s, Dispatch(answer)).tickets[t].mailbox == Full(Aborted)
            else Do(s, Dispatch(answer)).dispatcher.Busy?
                 && PhaseRank(Do(s, Dispatch(answer)).dispatcher.phase) < PhaseRank(s.dispatcher.phase)
  {
    assert TicketOk(s.tickets[t], s.controls[s.tickets[t].control], HeldIn(s, t));
  }

  /** A claimed abort is never stuck: its waiter or the dispatcher can always take a step towards the answer. */
  lemma AbortProgresses(states: seq<State>, steps: seq<Step>, n: nat, t: TicketId, answer: Answer)
    requires IsRun(states, steps) && n < |states|
    requires t in states[n].tickets && Good(states[n].tickets[t].claim)
    requires !states[n].tickets[t].waiter.Done? && !states[n].tickets[t].waiter.Gone?
    ensures var s := states[n];
            if s.tickets[t].mailbox.Full? then
              && Enabled(s, Wait(t))
              && WaiterRank(Do(s, Wait(t)).tickets[t].waiter) < WaiterRank(s.tickets[t].waiter)
            else
              && s.dispatcher.Busy? && s.dispatcher.ticket == t && Enabled(s, Dispatch(answer))
              && (if s.dispatcher.phase.Sending? then Do(s, Dispatch(answer)).tickets[t].mailbox == Full(Aborted)
                  else Do(s, Dispatch(answer)).dispatcher.Busy?
                       && PhaseRank(Do(s, Dispatch(answer)).dispatcher.phase) < PhaseRank(s.dispatcher.phase))
  {
    RunKeepsInv(states, steps, n);
    if states[n].tickets[t].mailbox.Full? {
      WaiterComesCloser(states[n], t);
    } else {
      DispatcherComesCloser(states[n], t, answer);
    }
  }

  /** A waiter that reads a cancelled control is not approved. */
  lemma CancelledWait(t: Ticket)
    requires t.waiter != Done(Approved)
    ensures Waited(t, true) != Done(Approved)
  {
  }

  /** What a step does to one ticket of a cancelled control. */
  lemma CancelledStep(s: State, step: Step, t: TicketId)
    requires Inv(s) && Enabled(s, step)
    requires t in Do(s, step).tickets
    requires t in s.tickets ==> s.controls[s.tickets[t].control].wake && s.tickets[t].waiter != Done(Approved)
    ensures Do(s, step).tickets[t].waiter != Done(Approved)
  {
    if t in s.tickets {
      CancelledWait(s.tickets[t]);
    }
  }

  lemma WakeStays(s: State, step: Step, c: ControlId)
    requires Inv(s) && Enabled(s, step) && c in s.controls && s.controls[c].wake
    ensures c in Do(s, step).controls && Do(s, step).controls[c].wake
  {
  }

  /** Once a control is cancelled, no ticket of it that is still waiting, or comes later, is ever approved. */
  lemma {:induction false} NeverApprovedLater(states: seq<State>, steps: seq<Step>, from: nat, n: nat, c: ControlId, t: TicketId)
    requires IsRun(states, steps) && from <= n < |states|
    requires c in states[from].controls && states[from].controls[c].wake
    requires t in states[from].tickets ==> states[from].tickets[t].waiter != Done(Approved)
    ensures c in states[n].controls && states[n].controls[c].wake
    ensures t in states[n].tickets && states[n].tickets[t].control == c ==> states[n].tickets[t].waiter != Done(Approved)
  {
    if n > from {
      NeverApprovedLater(states, steps, from, n - 1, c, t);
      StepOf(states, steps, n - 1);
      var s := states[n - 1];
      WakeStays(s, steps[n - 1], c);
      if t in states[n].tickets && states[n].tickets[t].control == c {
        SameControl(s, steps[n - 1], t);
        CancelledStep(s, steps[n - 1], t);
      }
    }
  }

  // ---- No ticket is forgotten ------------------------------------------------------------------

  /** Every accepted ticket without an answer waits in the queue or is in the dispatcher's hands. */
  ghost predicate AllHeld(s: State) {
    forall t :: t in s.tickets && s.tickets[t].accepted && s.tickets[t].mailbox.Empty? ==> t in s.queue || HeldIn(s, t).Some?
  }

  lemma HeldStep(s: State, step: Step)
    requires Inv(s) && Enabled(s, step) && AllHeld(s)
    ensures AllHeld(Do(s, step))
  {
    forall t | t in Do(s, step).tickets && Do(s, step).tickets[t].accepted && Do(s, step).tickets[t].mailbox.Empty?
      ensures t in Do(s, step).queue || HeldIn(Do(s, step), t).Some?
    {
      OneHeld(s, step, t);
    }
  }

  lemma OneHeld(s: State, step: Step, t: TicketId)
    requires Inv(s) && Enabled(s, step) && AllHeld(s)
    requires t in Do(s, step).tickets && Do(s, step).tickets[t].accepted && Do(s, step).tickets[t].mailbox.Empty?
    ensures t in Do(s, step).queue || HeldIn(Do(s, step), t).Some?
  {
    assert t in s.tickets;
    if step.Dispatch? && s.dispatcher.Idle? {
      assert s.queue == [s.queue[0]] + Do(s, step).queue;
    }
  }

  lemma HeldNext(states: seq<State>, steps: seq<Step>, i: nat)
    requires IsRun(states, steps) && i < |steps| && AllHeld(states[i])
    ensures AllHeld(states[i + 1])
  {
    StepOf(states, steps, i);
    HeldStep(states[i], steps[i]);
  }

  /** An accepted ticket stays in the queue or in the dispatcher's hands until it is answered or the surface dies. */
  lemma {:induction false} NoTicketForgotten(states: seq<State>, steps: seq<Step>, n: nat)
    requires IsRun(states, steps) && n < |states|
    ensures AllHeld(states[n])
  {
    if n > 0 {
      NoTicketForgotten(states, steps, n - 1);
      HeldNext(states, steps, n - 1);
    }
  }

  // ---- What a cancellation prevents ------------------------------------------------------------

  /** The control of this ticket is cancelled, and the ticket's waiter can see it. */
  ghost predicate WokenAt(s: State, t: TicketId) {
    t in s.tickets && s.tickets[t].control in s.controls && s.controls[s.tickets[t].control].wake
  }

  lemma WokenStays(states: seq<State>, steps: seq<Step>, i: nat, t: TicketId)
    requires IsRun(states, steps) && i < |steps| && WokenAt(states[i], t)
    ensures WokenAt(states[i + 1], t)
  {
    StepOf(states, steps, i);
    WakeStays(states[i], steps[i], states[i].tickets[t].control);
    SameControl(states[i], steps[i], t);
  }

  /** The surface has not been asked about this ticket, and is not being asked. */
  ghost predicate NotAsked(s: State, t: TicketId) {
    t in s.tickets && s.tickets[t].said.None? && s.dispatcher != Busy(t, Prompting)
  }

  lemma NotAskedStep(s: State, step: Step, t: TicketId)
    requires Inv(s) && Enabled(s, step) && WokenAt(s, t) && NotAsked(s, t)
    ensures NotAsked(Do(s, step), t)
  {
  }

  lemma NotAskedNext(states: seq<State>, steps: seq<Step>, i: nat, t: TicketId)
    requires IsRun(states, steps) && i < |steps| && WokenAt(states[i], t) && NotAsked(states[i], t)
    ensures WokenAt(states[i + 1], t) && NotAsked(states[i + 1], t)
  {
    StepOf(states, steps, i);
    WokenStays(states, steps, i, t);
    NotAskedStep(states[i], steps[i], t);
  }

  /** A ticket the surface has not been asked about when its control is cancelled is never shown to the user. */
  lemma {:induction false} NeverAskedLater(states: seq<State>, steps: seq<Step>, from: nat, n: nat, t: TicketId)
    requires IsRun(states, steps) && from <= n < |states|
    requires WokenAt(states[from], t) && NotAsked(states[from], t)
    ensures WokenAt(states[n], t) && NotAsked(states[n], t)
  {
    if n > from {
      NeverAskedLater(states, steps, from, n - 1, t);
      NotAskedNext(states, steps, n - 1, t);
    }
  }

  /** The surface's decision, or its abort, is in the dispatcher's hands, or has become an interruption. */
  ghost predicate Overtaken(s: State, t: TicketId) {
    && t in s.tickets && s.tickets[t].claim == Unclaimed
    && match HeldIn(s, t)
       case Some(Answered(a)) => a == Approved || a == Denied || a == AbortRequested || a == Interrupted
       case Some(Screened(a)) => a == AbortRequested || a == Interrupted
       case Some(Sending(a)) => a == Interrupted
       case Some(_) => false
       case None => s.tickets[t].mailbox == Full(Interrupted)
  }

  lemma OvertakenStep(s: State, step: Step, t: TicketId)
    requires Inv(s) && Enabled(s, step) && WokenAt(s, t) && Overtaken(s, t)
    ensures Overtaken(Do(s, step), t)
  {
  }

  lemma OvertakenNext(states: seq<State>, steps: seq<Step>, i: nat, t: TicketId)
    requires IsRun(states, steps) && i < |steps| && WokenAt(states[i], t) && Overtaken(states[i], t)
    ensures WokenAt(states[i + 1], t) && Overtaken(states[i + 1], t)
  {
    StepOf(states, steps, i);
    WokenStays(states, steps, i, t);
    OvertakenStep(states[i], steps[i], t);
  }

  lemma {:induction false} OvertakenStays(states: seq<State>, steps: seq<Step>, from: nat, n: nat, t: TicketId)
    requires IsRun(states, steps) && from <= n < |states|
    requires WokenAt(states[from], t) && Overtaken(states[from], t)
    ensures WokenAt(states[n], t) && Overtaken(states[n], t)
  {
    if n > from {
      OvertakenStays(states, steps, from, n - 1, t);
      OvertakenNext(states, steps, n - 1, t);
    }
  }

  lemma OvertakenMailbox(s: State, t: TicketId)
    requires Inv(s) && Overtaken(s, t)
    ensures s.tickets[t].mailbox.Full? ==> s.tickets[t].mailbox.answer == Interrupted
  {
    assert TicketOk(s.tickets[t], s.controls[s.tickets[t].control], HeldIn(s, t));
  }

  /**
   A decision or an abort that comes back after its control was cancelled reaches the waiter as an
   interruption, and nothing is claimed for it.
   */
  lemma LateAnswerInterrupts(states: seq<State>, steps: seq<Step>, from: nat, n: nat, t: TicketId, answer: Answer)
    requires IsRun(states, steps) && from <= n < |states|
    requires WokenAt(states[from], t) && states[from].dispatcher == Busy(t, Answered(answer))
    requires answer == Approved || answer == Denied || answer == AbortRequested
    ensures t in states[n].tickets && states[n].tickets[t].claim == Unclaimed
    ensures states[n].tickets[t].mailbox.Full? ==> states[n].tickets[t].mailbox.answer == Interrupted
  {
    RunKeepsInv(states, steps, from);
    AnsweredIsUnclaimed(states[from], t, answer);
    OvertakenStays(states, steps, from, n, t);
    RunKeepsInv(states, steps, n);
    OvertakenMailbox(states[n], t);
  }

  lemma AnsweredIsUnclaimed(s: State, t: TicketId, answer: Answer)
    requires Inv(s) && s.dispatcher == Busy(t, Answered(answer))
    ensures t in s.tickets && s.tickets[t].claim == Unclaimed
  {
    assert TicketOk(s.tickets[t], s.controls[s.tickets[t].control], HeldIn(s, t));
  }

  /** The waiter never got as far as the queue. */
  ghost predicate TurnedAway(s: State, t: TicketId) {
    t in s.tickets && !s.tickets[t].accepted && (s.tickets[t].waiter.Entering? || s.tickets[t].waiter.Done? || s.tickets[t].waiter.Gone?)
  }

  lemma TurnedAwayNext(states: seq<State>, steps: seq<Step>, i: nat, t: TicketId)
    requires IsRun(states, steps) && i < |steps| && WokenAt(states[i], t) && TurnedAway(states[i], t)
    ensures WokenAt(states[i + 1], t) && TurnedAway(states[i + 1], t)
  {
    StepOf(states, steps, i);
    WokenStays(states, steps, i, t);
    TurnedAwayStep(states[i], steps[i], t);
  }

  /** A request that comes in on a cancelled control is never queued. */
  lemma {:induction false} NeverQueuedLater(states: seq<State>, steps: seq<Step>, from: nat, n: nat, t: TicketId)
    requires IsRun(states, steps) && from <= n < |states|
    requires WokenAt(states[from], t) && TurnedAway(states[from], t)
    ensures WokenAt(states[n], t) && TurnedAway(states[n], t)
  {
    if n > from {
      NeverQueuedLater(states, steps, from, n - 1, t);
      TurnedAwayNext(states, steps, n - 1, t);
    }
  }

  lemma TurnedAwayStep(s: State, step: Step, t: TicketId)
    requires Inv(s) && Enabled(s, step) && WokenAt(s, t) && TurnedAway(s, t)
    ensures TurnedAway(Do(s, step), t)
  {
  }

  // Reads a waiter still needs before it notices a cancellation that is not its own ticket's.
  function NoticeRank(w: Waiter): nat {
    match w
    case Begin => 6
    case Arming => 5
    case Await(_) => 4
    case Try => 3
    case Poll => 2
    case Received(_) => 2
    case GotClosed => 2
    case PollSaw => 1
    case BeginSaw => 1
    case Woken => 1
    case Got(_) => 1
    case ClosedSaw => 1
    case _ => 0
  }

  /**
   An outside cancellation is never missed: a waiting ticket whose control is cancelled, and whose
   abort is not in question, always has a step that brings its interruption closer.
   */
  lemma CancellationProgresses(states: seq<State>, steps: seq<Step>, n: nat, t: TicketId, answer: Answer)
    requires IsRun(states, steps) && n < |states|
    requires WokenAt(states[n], t) && states[n].tickets[t].accepted && !states[n].tickets[t].origin
    requires !states[n].tickets[t].waiter.Done? && !states[n].tickets[t].waiter.Gone?
    ensures var s := states[n];
            || (Enabled(s, Wait(t)) && NoticesSooner(s, Do(s, Wait(t)), t))
            || (Enabled(s, Notice(t)) && NoticesSooner(s, Do(s, Notice(t)), t))
            || (Enabled(s, Dispatch(answer)) && Do(s, Dispatch(answer)).tickets[t].mailbox == Full(Interrupted))
  {
    RunKeepsInv(states, steps, n);
    var s, ticket := states[n], states[n].tickets[t];
    assert TicketOk(ticket, s.controls[ticket.control], HeldIn(s, t));
    if ticket.waiter == Await(false) && ticket.mailbox.Empty? {
      RejectionArrives(s, t, answer);
    } else {
      NextRead(s, t);
    }
  }

  lemma NextRead(s: State, t: TicketId)
    requires WokenAt(s, t) && !s.tickets[t].origin && !s.tickets[t].waiter.Done? && !s.tickets[t].waiter.Gone?
    requires !s.tickets[t].waiter.Entering? && !s.tickets[t].waiter.Enqueueing?
    requires s.tickets[t].waiter == Await(false) ==> !s.tickets[t].mailbox.Empty?
    ensures || (Enabled(s, Wait(t)) && NoticesSooner(s, Do(s, Wait(t)), t))
            || (Enabled(s, Notice(t)) && NoticesSooner(s, Do(s, Notice(t)), t))
  {
    NoticesNext(s.tickets[t]);
    if s.tickets[t].waiter == Await(true) && s.tickets[t].mailbox.Empty? {
      assert NoticesSooner(s, Do(s, Notice(t)), t);
    } else {
      assert NoticesSooner(s, Do(s, Wait(t)), t);
    }
  }

  lemma RejectionArrives(s: State, t: TicketId, answer: Answer)
    requires Inv(s) && t in s.tickets && s.tickets[t].claim == Rejected && !s.tickets[t].origin && s.tickets[t].mailbox.Empty?
    ensures Enabled(s, Dispatch(answer)) && Do(s, Dispatch(answer)).tickets[t].mailbox == Full(Interrupted)
  {
    assert TicketOk(s.tickets[t], s.controls[s.tickets[t].control], HeldIn(s, t));
  }

  /** One read closer to the interruption, or interrupted. */
  ghost predicate NoticesSooner(s: State, n: State, t: TicketId) {
    && t in s.tickets && t in n.tickets
    && (n.tickets[t].waiter == Done(Interrupted)
        || (!n.tickets[t].waiter.Done? && NoticeRank(n.tickets[t].waiter) < NoticeRank(s.tickets[t].waiter)))
  }

  lemma NoticesNext(t: Ticket)
    requires !t.origin && !t.waiter.Done? && !t.waiter.Gone? && !t.waiter.Entering? && !t.waiter.Enqueueing?
    ensures var w := Waited(t, true);
            || w == Done(Interrupted)
            || (!w.Done? && NoticeRank(w) < NoticeRank(t.waiter))
            || (t.waiter.Await? && t.mailbox.Empty?)
  {
  }

  // ---- The cancellation cell -------------------------------------------------------------------

  lemma CauseNext(states: seq<State>, steps: seq<Step>, i: nat, c: ControlId)
    requires IsRun(states, steps) && i < |steps| && c in states[i].controls && states[i].controls[c].kind.Cancelled?
    ensures c in states[i + 1].controls && states[i + 1].controls[c].kind == states[i].controls[c].kind
  {
    StepOf(states, steps, i);
    CauseStep(states[i], steps[i], c);
  }

  /** The first writer wins: the cause of a cancelled control never changes. */
  lemma {:induction false} CauseStays(states: seq<State>, steps: seq<Step>, from: nat, n: nat, c: ControlId)
    requires IsRun(states, steps) && from <= n < |states|
    requires c in states[from].controls && states[from].controls[c].kind.Cancelled?
    ensures c in states[n].controls && states[n].controls[c].kind == states[from].controls[c].kind
  {
    if n > from {
      CauseStays(states, steps, from, n - 1, c);
      CauseNext(states, steps, n - 1, c);
    }
  }

  lemma CauseStep(s: State, step: Step, c: ControlId)
    requires Inv(s) && Enabled(s, step) && c in s.controls && s.controls[c].kind.Cancelled?
    ensures c in Do(s, step).controls && Do(s, step).controls[c].kind == s.controls[c].kind
  {
  }

  /** How an abort claim is answered, and what it does to the control it is made on. */
  lemma ClaimExactly(s: State, t: TicketId, answer: Answer)
    requires Inv(s) && s.dispatcher == Busy(t, Published)
    ensures Enabled(s, Dispatch(answer))
    ensures var n, before := Do(s, Dispatch(answer)), s.controls[s.tickets[t].control].kind;
            var after := n.controls[s.tickets[t].control].kind;
            match before
            case Open => n.tickets[t].claim == Applied && after == Cancelled(ApprovalAborted)
            case Reserved(pending) =>
              && n.tickets[t].claim == (if pending.Some? && pending.value != ApprovalAborted then Rejected else Deferred)
              && after == Reserved(if pending.Some? then pending else Some(ApprovalAborted))
            case Sealed => n.tickets[t].claim == Rejected && after == before
            case Cancelled(_) => n.tickets[t].claim == Rejected && after == before
  {
  }

  /** An applied claim has cancelled its control for good, and the wake was raised before the answer went out. */
  lemma AppliedCancels(states: seq<State>, steps: seq<Step>, n: nat, t: TicketId)
    requires IsRun(states, steps) && n < |states| && t in states[n].tickets && states[n].tickets[t].claim == Applied
    ensures states[n].tickets[t].control in states[n].controls
    ensures var control := states[n].controls[states[n].tickets[t].control];
            control.kind == Cancelled(ApprovalAborted) && (states[n].tickets[t].mailbox.Full? ==> control.wake)
  {
    RunKeepsInv(states, steps, n);
  }

  /** A request is queued exactly if the dispatcher lives and fewer than 256 wait; otherwise it fails at once. */
  lemma AcceptedExactly(s: State, t: TicketId)
    requires Inv(s) && Enabled(s, Enqueue(t))
    ensures var n := Do(s, Enqueue(t));
            if !s.dispatcher.Dead? && |s.queue| < 256
            then n.queue == s.queue + [t] && n.tickets[t].accepted && !n.tickets[t].waiter.Done?
            else n.queue == s.queue && n.tickets[t].waiter == Done(Failure)
  {
  }

  lemma SameControl(s: State, step: Step, t: TicketId)
    requires Inv(s) && Enabled(s, step) && t in Do(s, step).tickets
    ensures t in s.tickets ==> Do(s, step).tickets[t].control == s.tickets[t].control
    ensures t !in s.tickets ==> Do(s, step).tickets[t].waiter.Entering?
  {
  }

  /** Both wait, and `t` was accepted before `u`. */
  ghost predicate Ahead(s: State, t: TicketId, u: TicketId) {
    exists a, b :: 0 <= a < b < |s.queue| && s.queue[a] == t && s.queue[b] == u
  }

  /** `t` was accepted, and as long as it waits `u` waits behind it. */
  ghost predicate Leads(s: State, t: TicketId, u: TicketId) {
    t in s.tickets && s.tickets[t].accepted && (t in s.queue ==> Ahead(s, t, u))
  }

  /** Two that wait in order still do in a queue that grew at its end or lost a head before them. */
  lemma StillAhead(queue: seq<TicketId>, longer: seq<TicketId>, t: TicketId, u: TicketId, a: nat, b: nat)
    requires a < b < |queue| && queue[a] == t && queue[b] == u
    requires queue <= longer || (longer == queue[1..] && queue[0] != t)
    ensures exists x, y :: 0 <= x < y < |longer| && longer[x] == t && longer[y] == u
  {
    if queue <= longer {
      assert longer[a] == t && longer[b] == u;
    } else {
      assert longer[a - 1] == t && longer[b - 1] == u;
    }
  }

  lemma StaysAccepted(s: State, step: Step, t: TicketId)
    requires Inv(s) && Enabled(s, step) && t in s.tickets && s.tickets[t].accepted
    ensures t in Do(s, step).tickets && Do(s, step).tickets[t].accepted
  {
  }

  lemma NobodyOvertakes(s: State, step: Step, t: TicketId, u: TicketId)
    requires Inv(s) && Enabled(s, step) && Leads(s, t, u)
    ensures Leads(Do(s, step), t, u)
  {
    StaysAccepted(s, step, t);
    var queue := Do(s, step).queue;
    if t in queue && queue != s.queue {
      StillQueued(s, step, t);
      var a, b :| 0 <= a < b < |s.queue| && s.queue[a] == t && s.queue[b] == u;
      StillAhead(s.queue, queue, t, u, a, b);
    }
  }

  /** A changed queue lost its head or grew at its end; an accepted ticket never joins it again. */
  lemma StillQueued(s: State, step: Step, t: TicketId)
    requires Inv(s) && Enabled(s, step) && t in s.tickets && s.tickets[t].accepted
    requires t in Do(s, step).queue && Do(s, step).queue != s.queue
    ensures t in s.queue
    ensures if step.Enqueue? then Do(s, step).queue == s.queue + [step.t]
            else s.queue != [] && Do(s, step).queue == s.queue[1..] && s.queue[0] != t
  {
    if !step.Enqueue? {
      var c :| 0 <= c < |Do(s, step).queue| && Do(s, step).queue[c] == t;
      assert s.queue[c + 1] == t;
    }
  }

  lemma LeadsNext(states: seq<State>, steps: seq<Step>, i: nat, t: TicketId, u: TicketId)
    requires IsRun(states, steps) && i < |steps| && Leads(states[i], t, u)
    ensures Leads(states[i + 1], t, u)
  {
    StepOf(states, steps, i);
    NobodyOvertakes(states[i], steps[i], t, u);
  }

  lemma QueuedLeads(s: State, t: TicketId, u: TicketId)
    requires Inv(s) && Ahead(s, t, u)
    ensures Leads(s, t, u)
  {
    assert t in s.queue;
  }

  lemma {:induction false} LeadsOn(states: seq<State>, steps: seq<Step>, i: nat, j: nat, t: TicketId, u: TicketId)
    requires IsRun(states, steps) && i <= j < |states| && Leads(states[i], t, u)
    ensures Leads(states[j], t, u)
  {
    if i < j {
      LeadsOn(states, steps, i, j - 1, t, u);
      LeadsNext(states, steps, j - 1, t, u);
    }
  }

  /** First in, first out: while a ticket waits, so does every ticket accepted after it; at most 256 wait. */
  lemma FirstInFirstOut(states: seq<State>, steps: seq<Step>, i: nat, j: nat, t: TicketId, u: TicketId)
    requires IsRun(states, steps) && i <= j < |states| && Ahead(states[i], t, u)
    ensures Leads(states[j], t, u)
    ensures |states[j].queue| <= 256
  {
    RunKeepsInv(states, steps, i);
    QueuedLeads(states[i], t, u);
    LeadsOn(states, steps, i, j, t, u);
    RunKeepsInv(states, steps, j);
  }
}
