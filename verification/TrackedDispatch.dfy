/**
 * DispatchTracked of both game backends: a listener thread reserves the tracker, queues a closure
 * for the main thread, and races a timeout against it. Any number of dispatches, the engine's
 * events and the tracker's other clients interleave one atomic step at a time.
 */
module TrackedDispatch {
  import opened Wrappers
  import opened T = OperationTracker

  datatype Work = Pending | Running | Cancelled | Finished

  datatype Answer = Answer(accepted: bool, completed: bool, errorCode: int)

  const REFUSED_SLOT := Answer(false, false, 409)

  // Where the queued closure has got to.
  datatype Task =
    | NotQueued
    | InQueue
    | Claimed
    | Dispatching
    | InNative
    | Answered(answer: Answer)
    | LostSlot
    | Recorded(answer: Answer)
    | Stored(answer: Answer)
    | Done

  datatype Outcome =
    | NoTaskInterface
    | NotQueueable
    | CancelledBeforeStart
    | NoAcknowledgement
    | Rejected(answer: Answer)
    | Receipt(answer: Answer)

  datatype Listener = Submitting | Waiting | TimedOut | Cancelling | Ended(outcome: Outcome)

  // runs: how often the native closure has been invoked.
  datatype Dispatch = Dispatch(id: nat, work: Work, task: Task, promise: Option<Answer>, listener: Listener, runs: nat)

  // others: the operation ids held by clients that do not go through DispatchTracked.
  datatype System = System(tracker: State, dispatches: seq<Dispatch>, others: set<nat>)

  // The atomic steps of one dispatch: its listener's, then its queued closure's.
  datatype Move =
    | FindNoInterface
    | Enqueue
    | FailToEnqueue
    | WaitOut
    | TryCancel
    | Cancel
    | Collect
    | Start
    | TakeSlot
    | Invoke
    | Return(answer: Answer)
    | Record
    | RecordLoss
    | StoreFinished
    | SetValue

  datatype Action =
    | Begin(kind: Kind, name: string, cursor: nat)
    | Step(i: nat, move: Move)
    | Engine(call: Call)
    | OtherClient(call: Call)

  // Whether the dispatch is at the point where action a of it happens.
  predicate Ready(d: Dispatch, m: Move) {
    match m
    case FindNoInterface => d.listener == Submitting
    case Enqueue => d.listener == Submitting
    case FailToEnqueue => d.listener == Submitting
    case WaitOut => d.listener == Waiting && d.promise.None?
    case TryCancel => d.listener == TimedOut
    case Cancel => d.listener == Cancelling
    case Collect => d.listener == Waiting && d.promise.Some?
    case Start => d.task == InQueue
    case TakeSlot => d.task == Claimed
    case Invoke => d.task == Task.Dispatching
    case Return(_) => d.task == InNative
    case Record => d.task.Answered?
    case RecordLoss => d.task == LostSlot
    case StoreFinished => d.task.Recorded?
    case SetValue => d.task.Stored?
  }

  predicate Enabled(s: System, a: Action) {
    match a
    case Begin(_, _, _) => true
    case Engine(call) => call.ObserveStarted? || call.ObserveCompleted?
    case OtherClient(call) => call.TryBegin? || (Presented(call).Some? && Presented(call).value in s.others)
    case Step(i, move) => i < |s.dispatches| && Ready(s.dispatches[i], move)
  }

  // The tracker call an action makes, if it makes one; the texts stand for the source's messages.
  function CallOf(d: Dispatch, m: Move): Option<Call> {
    match m
    case FindNoInterface => Some(MarkDispatchFailed(d.id, "unavailable"))
    case FailToEnqueue => Some(MarkDispatchFailed(d.id, "not queued"))
    case Cancel => Some(MarkCancelled(d.id, "cancelled"))
    case TakeSlot => Some(MarkDispatching(d.id))
    case Record =>
      if !d.task.Answered? then None
      else if !d.task.answer.accepted then Some(MarkDispatchFailed(d.id, "rejected"))
      else if d.task.answer.completed then Some(MarkCompleted(d.id, true, "result", ""))
      else Some(MarkQueued(d.id))
    case RecordLoss => Some(MarkDispatchFailed(d.id, "lost"))
    case _ => None
  }

  // The dispatch after its own action; ok is what the tracker call returned.
  function Advance(d: Dispatch, m: Move, ok: bool): Dispatch {
    match m
    case FindNoInterface => d.(listener := Ended(NoTaskInterface))
    case Enqueue => d.(task := InQueue, listener := Waiting)
    case FailToEnqueue => d.(listener := Ended(NotQueueable))
    case WaitOut => d.(listener := TimedOut)
    case TryCancel =>
      if d.work == Pending then d.(work := Work.Cancelled, listener := Cancelling)
      else d.(listener := Ended(NoAcknowledgement))
    case Cancel => d.(listener := Ended(CancelledBeforeStart))
    case Collect =>
      if d.promise.None? then d
      else d.(listener := Ended(if d.promise.value.accepted then Receipt(d.promise.value)
                                else Rejected(d.promise.value)))
    case Start => if d.work == Pending then d.(work := Running, task := Claimed) else d.(task := Done)
    case TakeSlot => d.(task := if ok then Task.Dispatching else Answered(REFUSED_SLOT))
    case Invoke => d.(task := InNative, runs := d.runs + 1)
    case Return(answer) => d.(task := Answered(answer))
    case Record =>
      if !d.task.Answered? then d
      else if d.task.answer.accepted && d.task.answer.completed && !ok then d.(task := LostSlot)
      else d.(task := Recorded(d.task.answer))
    case RecordLoss => d.(task := Recorded(REFUSED_SLOT))
    case StoreFinished => if d.task.Recorded? then d.(work := Finished, task := Stored(d.task.answer)) else d
    case SetValue => if d.task.Stored? then d.(promise := Some(d.task.answer), task := Done) else d
  }

  function Next(s: System, a: Action): System
    requires Enabled(s, a)
  {
    match a
    case Begin(kind, name, cursor) =>
      var (t, ok) := Apply(s.tracker, TryBegin(kind, name, cursor));
      if !ok then s
      else s.(tracker := t, dispatches := s.dispatches + [Dispatch(t.nextId, Pending, NotQueued, None, Submitting, 0)])
    case Engine(call) => s.(tracker := Apply(s.tracker, call).0)
    case OtherClient(call) =>
      var (t, ok) := Apply(s.tracker, call);
      s.(tracker := t, others := if call.TryBegin? && ok then s.others + {t.nextId} else s.others)
    case Step(i, move) =>
      var d := s.dispatches[i];
      var call := CallOf(d, move);
      var (t, ok) := if call.Some? then Apply(s.tracker, call.value) else (s.tracker, true);
      s.(tracker := t, dispatches := s.dispatches[i := Advance(d, move, ok)])
  }

  const START := System(State(0, None), [], {})

  ghost predicate IsRun(s: System, run: seq<Action>)
    decreases |run|
  {
    run == [] || (Enabled(s, run[0]) && IsRun(Next(s, run[0]), run[1..]))
  }

  ghost function After(s: System, run: seq<Action>): System
    requires IsRun(s, run)
    decreases |run|
  {
    if run == [] then s else After(Next(s, run[0]), run[1..])
  }

  // ----- Invariant -----

  predicate HasSlot(t: State, id: nat) { Owns(t, id) }

  predicate HoldsReservation(t: State, id: nat) { Owns(t, id) && t.operation.value.phase == Reserved }

  predicate EndedCancelled(t: State, id: nat) {
    !Owns(t, id) && (t.operation.Some? && t.operation.value.id == id ==> t.operation.value.phase == Phase.Cancelled)
  }

  predicate Rejecting(a: Answer) { !a.accepted }

  predicate TaskOk(t: State, d: Dispatch) {
    match d.task
    case NotQueued => d.work == Pending && d.runs == 0 && d.promise.None? &&
      (if d.listener == Submitting then HoldsReservation(t, d.id)
       else (d.listener == Ended(NoTaskInterface) || d.listener == Ended(NotQueueable)) && !HasSlot(t, d.id))
    case InQueue => (d.work == Pending || d.work == Work.Cancelled) && d.runs == 0 && d.promise.None?
    case Claimed => d.work == Running && d.runs == 0 && d.promise.None? && HoldsReservation(t, d.id)
    case Dispatching => d.work == Running && d.runs == 0 && d.promise.None?
    case InNative => d.work == Running && d.runs == 1 && d.promise.None?
    case Answered(_) => d.work == Running && d.runs == 1 && d.promise.None?
    case LostSlot => d.work == Running && d.runs == 1 && d.promise.None?
    case Recorded(a) => d.work == Running && d.runs == 1 && d.promise.None? && (Rejecting(a) ==> !HasSlot(t, d.id))
    case Stored(a) => d.work == Finished && d.runs == 1 && d.promise.None? && (Rejecting(a) ==> !HasSlot(t, d.id))
    case Done =>
      if d.work == Work.Cancelled then d.runs == 0 && d.promise.None?
      else d.work == Finished && d.runs == 1 && d.promise.Some? && (Rejecting(d.promise.value) ==> !HasSlot(t, d.id))
  }

  predicate ListenerOk(t: State, d: Dispatch) {
    && (d.work == Pending && (d.listener == Waiting || d.listener == TimedOut) ==> HoldsReservation(t, d.id))
    && (d.work == Work.Cancelled <==> d.listener == Cancelling || d.listener == Ended(CancelledBeforeStart))
    && (d.listener == Cancelling ==> HoldsReservation(t, d.id))
    && (d.listener == Ended(CancelledBeforeStart) ==> EndedCancelled(t, d.id))
    && (d.task != NotQueued ==>
          d.listener != Submitting && d.listener != Ended(NoTaskInterface) && d.listener != Ended(NotQueueable))
    && (d.listener == Ended(NoAcknowledgement) ==> d.work == Running || d.work == Finished)
    && (d.listener.Ended? && d.listener.outcome.Rejected? ==>
          d.promise == Some(d.listener.outcome.answer) && Rejecting(d.listener.outcome.answer))
    && (d.listener.Ended? && d.listener.outcome.Receipt? ==>
          d.promise == Some(d.listener.outcome.answer) && !Rejecting(d.listener.outcome.answer))
  }

  predicate DispatchOk(t: State, d: Dispatch) {
    0 < d.id <= t.nextId && TaskOk(t, d) && ListenerOk(t, d)
  }

  ghost predicate Inv(s: System) {
    && Valid(s.tracker)
    && (forall i :: 0 <= i < |s.dispatches| ==> DispatchOk(s.tracker, s.dispatches[i]))
    && (forall i, j :: 0 <= i < j < |s.dispatches| ==> s.dispatches[i].id != s.dispatches[j].id)
    && (forall i :: 0 <= i < |s.dispatches| ==> s.dispatches[i].id !in s.others)
    && (forall id :: id in s.others ==> id <= s.tracker.nextId)
  }

  // A tracker call that does not present d's id leaves d's part of the tracker alone.
  lemma CallLeavesOthers(t: State, call: Call, d: Dispatch)
    requires Valid(t) && DispatchOk(t, d) && !call.Reset? && Presented(call) != Some(d.id)
    ensures DispatchOk(Apply(t, call).0, d)
  {
    CallKeeps(t, call);
    assert HoldsReservation(t, d.id) ==> Apply(t, call).0 == t;
    assert !HasSlot(t, d.id) ==> !HasSlot(Apply(t, call).0, d.id);
  }

  // The tracker and the dispatch after a move of the dispatch.
  function OwnNext(t: State, d: Dispatch, m: Move): (State, Dispatch) {
    var call := CallOf(d, m);
    var (t', ok) := if call.Some? then Apply(t, call.value) else (t, true);
    (t', Advance(d, m, ok))
  }

  ghost predicate OwnOk(t: State, d: Dispatch, m: Move) { DispatchOk(OwnNext(t, d, m).0, OwnNext(t, d, m).1) }

  // The moves of a dispatch whose closure is not, or not yet, in the queue.
  lemma SubmitStep(t: State, d: Dispatch, m: Move)
    requires Valid(t) && DispatchOk(t, d) && Ready(d, m) && (m.FindNoInterface? || m.Enqueue? || m.FailToEnqueue?)
    ensures OwnOk(t, d, m)
  {}

  // The listener's wait, and its race against the start of the closure.
  lemma WaitStep(t: State, d: Dispatch, m: Move)
    requires Valid(t) && DispatchOk(t, d) && Ready(d, m) && (m.WaitOut? || m.TryCancel? || m.Collect?)
    ensures OwnOk(t, d, m)
  {}

  lemma CancelStep(t: State, d: Dispatch)
    requires Valid(t) && DispatchOk(t, d) && Ready(d, Cancel)
    ensures OwnOk(t, d, Cancel)
  {}

  // The closure up to the native call.
  lemma StartStep(t: State, d: Dispatch, m: Move)
    requires Valid(t) && DispatchOk(t, d) && Ready(d, m) && (m.Start? || m.TakeSlot? || m.Invoke? || m.Return?)
    ensures OwnOk(t, d, m)
  {}

  // The closure's report to the tracker.
  lemma RecordStep(t: State, d: Dispatch, m: Move)
    requires Valid(t) && DispatchOk(t, d) && Ready(d, m) && (m.Record? || m.RecordLoss?)
    ensures OwnOk(t, d, m)
  {}

  // The closure's answer to the listener.
  lemma AnswerStep(t: State, d: Dispatch, m: Move)
    requires Valid(t) && DispatchOk(t, d) && Ready(d, m) && (m.StoreFinished? || m.SetValue?)
    ensures OwnOk(t, d, m)
  {}

  lemma OwnStep(t: State, d: Dispatch, m: Move)
    requires Valid(t) && DispatchOk(t, d) && Ready(d, m)
    ensures var call := CallOf(d, m);
      var (t', ok) := if call.Some? then Apply(t, call.value) else (t, true);
      DispatchOk(t', Advance(d, m, ok))
  {
    hide DispatchOk, Ready, CallOf, Advance;
    if m.FindNoInterface? || m.Enqueue? || m.FailToEnqueue? {
      SubmitStep(t, d, m);
    } else if m.WaitOut? || m.TryCancel? || m.Collect? {
      WaitStep(t, d, m);
    } else if m.Cancel? {
      CancelStep(t, d);
    } else if m.Start? || m.TakeSlot? || m.Invoke? || m.Return? {
      StartStep(t, d, m);
    } else if m.Record? || m.RecordLoss? {
      RecordStep(t, d, m);
    } else {
      AnswerStep(t, d, m);
    }
  }

  lemma AdvanceKeepsId(d: Dispatch, m: Move, ok: bool)
    ensures Advance(d, m, ok).id == d.id
  {}

  lemma OwnCallPresentsOwnId(d: Dispatch, m: Move)
    requires CallOf(d, m).Some?
    ensures Presented(CallOf(d, m).value) == Some(d.id) && !CallOf(d, m).value.Reset? && !CallOf(d, m).value.TryBegin?
  {}

  lemma BegunDispatchOk(t: State, kind: Kind, name: string, cursor: nat)
    requires Valid(t) && Apply(t, TryBegin(kind, name, cursor)).1
    ensures var t' := Apply(t, TryBegin(kind, name, cursor)).0;
      t'.nextId == t.nextId + 1 && DispatchOk(t', Dispatch(t'.nextId, Pending, NotQueued, None, Submitting, 0))
  {}

  lemma IssuedIdIsNew(t: State, call: Call)
    requires Valid(t) && call.TryBegin? && Apply(t, call).1
    ensures Apply(t, call).0.nextId == t.nextId + 1
  {}

  // What a call by anyone but dispatch mine (or by nobody's dispatch) means for all of them.
  lemma CallLeavesAll(s: System, call: Call, mine: int)
    requires Inv(s) && !call.Reset?
    requires forall i :: 0 <= i < |s.dispatches| && i != mine ==> Presented(call) != Some(s.dispatches[i].id)
    ensures var t' := Apply(s.tracker, call).0;
      && Valid(t') && t'.nextId >= s.tracker.nextId
      && forall i :: 0 <= i < |s.dispatches| && i != mine ==> DispatchOk(t', s.dispatches[i])
  {
    CallKeeps(s.tracker, call);
    forall i | 0 <= i < |s.dispatches| && i != mine ensures DispatchOk(Apply(s.tracker, call).0, s.dispatches[i]) {
      CallLeavesOthers(s.tracker, call, s.dispatches[i]);
    }
  }

  lemma StepKeepsInv(s: System, a: Action)
    requires Inv(s) && Enabled(s, a)
    ensures Inv(Next(s, a))
  {
    hide Apply, Advance, CallOf, TaskOk, ListenerOk, Ready, Valid;
    match a
    case Begin(kind, name, cursor) =>
      var call := TryBegin(kind, name, cursor);
      CallLeavesAll(s, call, -1);
      if Apply(s.tracker, call).1 { BegunDispatchOk(s.tracker, kind, name, cursor); }
    case Engine(call) =>
      CallLeavesAll(s, call, -1);
    case OtherClient(call) =>
      CallLeavesAll(s, call, -1);
      if call.TryBegin? && Apply(s.tracker, call).1 { IssuedIdIsNew(s.tracker, call); }
    case Step(i, move) =>
      var d := s.dispatches[i];
      var call := CallOf(d, move);
      OwnStep(s.tracker, d, move);
      var (t', ok) := if call.Some? then Apply(s.tracker, call.value) else (s.tracker, true);
      AdvanceKeepsId(d, move, ok);
      if call.Some? {
        OwnCallPresentsOwnId(d, move);
        CallLeavesAll(s, call.value, i);
      }
  }

  // ----- Every run -----

  lemma {:induction false} RunKeepsInv(s: System, run: seq<Action>)
    requires Inv(s) && IsRun(s, run)
    ensures Inv(After(s, run))
    decreases |run|
  {
    if run != [] {
      StepKeepsInv(s, run[0]);
      RunKeepsInv(Next(s, run[0]), run[1..]);
    }
  }

  /** What each way of leaving DispatchTracked tells its caller, in every run. */
  lemma OutcomesMeanWhatTheySay(run: seq<Action>, i: nat)
    requires IsRun(START, run) && i < |After(START, run).dispatches|
    ensures var s := After(START, run); var d := s.dispatches[i];
      && d.runs <= 1
      && (d.listener.Ended? ==>
        match d.listener.outcome
        case NoTaskInterface => d.runs == 0 && !HasSlot(s.tracker, d.id)
        case NotQueueable => d.runs == 0 && !HasSlot(s.tracker, d.id)
        case CancelledBeforeStart => d.runs == 0 && EndedCancelled(s.tracker, d.id)
        case NoAcknowledgement => d.work == Running || d.work == Finished
        case Rejected(a) => d.runs == 1 && !a.accepted && !HasSlot(s.tracker, d.id)
        case Receipt(a) => d.runs == 1 && a.accepted)
  {
    RunKeepsInv(START, run);
    assert DispatchOk(After(START, run).tracker, After(START, run).dispatches[i]);
  }

  /** The closure always still owns its reservation when it starts, so the answer for a lost slot
      is never given before the native call. */
  lemma StartedClosureOwnsSlot(run: seq<Action>, i: nat)
    requires IsRun(START, run) && i < |After(START, run).dispatches| && After(START, run).dispatches[i].task == Claimed
    ensures var s := After(START, run); Apply(s.tracker, MarkDispatching(s.dispatches[i].id)).1
  {
    RunKeepsInv(START, run);
    assert DispatchOk(After(START, run).tracker, After(START, run).dispatches[i]);
  }

  lemma {:induction false} EndedStaysEnded(s: System, run: seq<Action>, i: nat)
    requires IsRun(s, run) && i < |s.dispatches| && s.dispatches[i].listener.Ended?
    ensures i < |After(s, run).dispatches|
    ensures After(s, run).dispatches[i].listener == s.dispatches[i].listener
            && After(s, run).dispatches[i].id == s.dispatches[i].id
    decreases |run|
  {
    if run != [] {
      EndedStaysEnded(Next(s, run[0]), run[1..], i);
    }
  }

  /** "Cancelled before execution" is for good: however the run goes on, the closure never runs and
      the operation never becomes active. */
  lemma CancelledNeverRuns(run: seq<Action>, more: seq<Action>, i: nat)
    requires IsRun(START, run) && IsRun(After(START, run), more)
    requires i < |After(START, run).dispatches|
             && After(START, run).dispatches[i].listener == Ended(CancelledBeforeStart)
    ensures var s := After(After(START, run), more);
      i < |s.dispatches| && s.dispatches[i].runs == 0 && EndedCancelled(s.tracker, s.dispatches[i].id)
  {
    RunKeepsInv(START, run);
    RunKeepsInv(After(START, run), more);
    EndedStaysEnded(After(START, run), more, i);
    var s := After(After(START, run), more);
    assert DispatchOk(s.tracker, s.dispatches[i]);
  }
}
