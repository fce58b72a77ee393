/**
 * RunAndWait and QueuedTask: a listener thread queues a function for the main thread and waits for
 * its result, giving up at a deadline or when told to stop. Any number of calls interleave with
 * the main thread one atomic step at a time.
 */
module MainThreadTask {
  import opened Wrappers

  datatype TaskState = Queued | Running | Abandoned

  // What the submitted function did.
  datatype Outcome = Returned(json: string) | Threw(error: string)

  // state_.compare_exchange_strong in Abandon: the new state, and whether the task is abandoned.
  function AbandonState(s: TaskState): (TaskState, bool) {
    if s == Queued then (Abandoned, true) else (s, s == Abandoned)
  }

  // The same in Run.
  function ClaimState(s: TaskState): (TaskState, bool) {
    if s == Queued then (Running, true) else (s, false)
  }

  class QueuedTask {
    const deadline: int
    var state: TaskState
    var promise: Option<Outcome>
    ghost var runs: nat

    constructor (deadline: int)
      ensures this.deadline == deadline && state == Queued && promise == None && runs == 0
    {
      this.deadline := deadline;
      state := Queued;
      promise := None;
      runs := 0;
    }

    method Abandon() returns (abandoned: bool)
      modifies this`state
      ensures (state, abandoned) == AbandonState(old(state))
    {
      if state == Queued {
        state := Abandoned;
        return true;
      }
      return state == Abandoned;
    }

    // outcome: what the function will do if it is called.
    method Run(now: int, outcome: Outcome)
      modifies this
      ensures now >= deadline ==> state == AbandonState(old(state)).0
      ensures now < deadline ==> state == ClaimState(old(state)).0
      ensures runs == old(runs) + (if now < deadline && old(state) == Queued then 1 else 0)
      ensures promise == if now < deadline && old(state) == Queued then Some(outcome) else old(promise)
    {
      if now >= deadline {
        var _ := Abandon();
        return;
      }
      if state != Queued {
        return;
      }
      state := Running;
      runs := runs + 1;
      promise := Some(outcome);
    }
  }

  // ----- The interleaved calls -----

  // Where the queued lambda has got to on the main thread.
  datatype Runner = NotQueued | InQueue | Entered | Executing | Produced(outcome: Outcome) | Leaving | Drained

  datatype Answer =
    | Refused
    | Got(outcome: Outcome)
    | Stopped
    | AlreadyStarted
    | DidNotStart

  datatype Listener =
    | Enqueuing
    | Refusing
    | Waiting
    | GivingUp(stop: bool)
    | GaveUp(stop: bool, abandoned: bool)
    | Ended(answer: Answer)

  // produced: what the function did, once it has run; runs: how often it was called.
  datatype Task = Task(state: TaskState, promise: Option<Outcome>, produced: Option<Outcome>, runs: nat,
                       runner: Runner, listener: Listener)

  datatype System = System(tasks: seq<Task>, pending: int)

  datatype Move =
    | Accept
    | Refuse
    | AbandonRefused
    | Collect
    | GiveUp(stop: bool)
    | TryAbandon
    | LastLook
    | Enter
    | TryRun(late: bool)
    | Execute(outcome: Outcome)
    | SetPromise
    | Leave

  datatype Action = Submit | Step(i: nat, move: Move)

  predicate Ready(t: Task, m: Move) {
    match m
    case Accept => t.listener == Enqueuing
    case Refuse => t.listener == Enqueuing
    case AbandonRefused => t.listener == Refusing
    case Collect => t.listener == Waiting && t.promise.Some?
    case GiveUp(_) => t.listener == Waiting && t.promise.None?
    case TryAbandon => t.listener.GivingUp?
    case LastLook => t.listener.GaveUp?
    case Enter => t.runner == InQueue
    case TryRun(_) => t.runner == Entered
    case Execute(_) => t.runner == Executing
    case SetPromise => t.runner.Produced?
    case Leave => t.runner == Leaving
  }

  function Advance(t: Task, m: Move): Task
    requires Ready(t, m)
  {
    match m
    case Accept => t.(runner := InQueue, listener := Waiting)
    case Refuse => t.(listener := Refusing)
    case AbandonRefused => t.(state := AbandonState(t.state).0, listener := Ended(Refused))
    case Collect => t.(listener := Ended(Got(t.promise.value)))
    case GiveUp(stop) => t.(listener := GivingUp(stop))
    case TryAbandon =>
      var (state, abandoned) := AbandonState(t.state);
      t.(state := state, listener := GaveUp(t.listener.stop, abandoned))
    case LastLook =>
      t.(listener := Ended(
        if t.promise.Some? then Got(t.promise.value)
        else if t.listener.stop then Stopped
        else if !t.listener.abandoned then AlreadyStarted
        else DidNotStart))
    case Enter => t.(runner := Entered)
    case TryRun(late) =>
      if late then t.(state := AbandonState(t.state).0, runner := Leaving)
      else t.(state := ClaimState(t.state).0, runner := if ClaimState(t.state).1 then Executing else Leaving)
    case Execute(outcome) => t.(runs := t.runs + 1, produced := Some(outcome), runner := Produced(outcome))
    case SetPromise => t.(promise := Some(t.runner.outcome), runner := Leaving)
    case Leave => t.(runner := Drained)
  }

  predicate Enabled(s: System, a: Action) {
    a.Step? ==> a.i < |s.tasks| && Ready(s.tasks[a.i], a.move)
  }

  // g_pendingTasks is raised before the enqueue, and lowered on refusal or when the lambda leaves.
  function Next(s: System, a: Action): System
    requires Enabled(s, a)
  {
    match a
    case Submit => System(s.tasks + [Task(Queued, None, None, 0, NotQueued, Enqueuing)], s.pending + 1)
    case Step(i, move) =>
      System(s.tasks[i := Advance(s.tasks[i], move)], s.pending - if move == Refuse || move == Leave then 1 else 0)
  }

  const START := System([], 0)

  ghost predicate IsRun(s: System, run: seq<Action>)
    decreases |run|
  {
    run == [] || (Enabled(s, run[0]) && IsRun(Next(s, run[0]), run[1..]))
  }

  ghost function After(s: System, run: seq<Action>): System
    requires IsRun(s, run)
    decreases |run|
  {
    if run == [] then s else After(Next(s, run[0]), run[1..])
  }

  // ----- Invariant -----

  // Neither refused nor drained.
  predicate Outstanding(t: Task) {
    t.runner != Drained && t.listener != Refusing && t.listener != Ended(Refused)
  }

  function CountOutstanding(tasks: seq<Task>): nat {
    if tasks == [] then 0
    else CountOutstanding(tasks[..|tasks| - 1]) + if Outstanding(tasks[|tasks| - 1]) then 1 else 0
  }

  predicate RunnerOk(t: Task) {
    match t.runner
    case NotQueued =>
      t.state != Running && (t.listener == Enqueuing || t.listener == Refusing || t.listener == Ended(Refused))
    case InQueue => t.state != Running
    case Entered => t.state != Running
    case Executing => t.state == Running && t.runs == 0
    case Produced(o) => t.state == Running && t.runs == 1 && t.produced == Some(o) && t.promise.None?
    case Leaving => t.state != Queued && (t.state == Running ==> t.promise.Some?)
    case Drained => t.state != Queued && (t.state == Running ==> t.promise.Some?)
  }

  predicate TaskOk(t: Task) {
    && RunnerOk(t)
    && (t.runner != NotQueued ==> t.listener != Enqueuing && t.listener != Refusing && t.listener != Ended(Refused))
    && (t.state != Running ==> t.runs == 0)
    && t.runs <= 1 && (t.runs == 1 <==> t.produced.Some?)
    && (t.promise.Some? ==> t.promise == t.produced)
    && (t.listener.GaveUp? ==> (t.listener.abandoned <==> t.state == Abandoned) && t.state != Queued)
    && (t.listener == Ended(DidNotStart) || t.listener == Ended(Refused) ==> t.state == Abandoned)
    && (t.listener == Ended(AlreadyStarted) ==> t.state == Running)
    && (t.listener.Ended? && t.listener.answer.Got? ==> t.promise == Some(t.listener.answer.outcome))
  }

  ghost predicate Inv(s: System) {
    (forall i :: 0 <= i < |s.tasks| ==> TaskOk(s.tasks[i])) && s.pending == CountOutstanding(s.tasks)
  }

  lemma MoveKeepsTask(t: Task, m: Move)
    requires TaskOk(t) && Ready(t, m)
    ensures TaskOk(Advance(t, m))
    ensures Outstanding(t) == (Outstanding(Advance(t, m)) || m == Refuse || m == Leave)
    ensures m == Refuse || m == Leave ==> !Outstanding(Advance(t, m))
  {}

  lemma {:induction false} CountAfterUpdate(tasks: seq<Task>, i: nat, t: Task)
    requires i < |tasks|
    ensures CountOutstanding(tasks[i := t])
         == CountOutstanding(tasks) + (if Outstanding(t) then 1 else 0) - if Outstanding(tasks[i]) then 1 else 0
  {
    var n := |tasks| - 1;
    assert tasks[i := t][..n] == if i == n then tasks[..n] else tasks[..n][i := t];
    if i < n { CountAfterUpdate(tasks[..n], i, t); }
  }

  lemma StepKeepsInv(s: System, a: Action)
    requires Inv(s) && Enabled(s, a)
    ensures Inv(Next(s, a))
  {
    match a
    case Submit =>
      assert Next(s, a).tasks[..|s.tasks|] == s.tasks;
    case Step(i, move) =>
      MoveKeepsTask(s.tasks[i], move);
      CountAfterUpdate(s.tasks, i, Advance(s.tasks[i], move));
  }

  lemma {:induction false} RunKeepsInv(s: System, run: seq<Action>)
    requires Inv(s) && IsRun(s, run)
    ensures Inv(After(s, run))
    decreases |run|
  {
    if run != [] {
      StepKeepsInv(s, run[0]);
      RunKeepsInv(Next(s, run[0]), run[1..]);
    }
  }

  /** What each answer of RunAndWait tells its caller, in every interleaving: the function runs at
      most once, and a result is the function's own. */
  lemma AnswersMeanWhatTheySay(run: seq<Action>, i: nat)
    requires IsRun(START, run) && i < |After(START, run).tasks|
    ensures var t := After(START, run).tasks[i];
      && t.runs <= 1
      && (t.listener.Ended? ==>
        match t.listener.answer
        case Refused => t.runs == 0
        case Got(outcome) => t.runs == 1 && t.produced == Some(outcome)
        case Stopped => true
        case AlreadyStarted => t.state == Running
        case DidNotStart => t.runs == 0 && t.state == Abandoned)
  {
    RunKeepsInv(START, run);
    assert TaskOk(After(START, run).tasks[i]);
  }

  lemma {:induction false} GivenUpStaysGivenUp(s: System, run: seq<Action>, i: nat)
    requires IsRun(s, run) && Inv(s) && i < |s.tasks| && s.tasks[i].state == Abandoned
    ensures i < |After(s, run).tasks| && After(s, run).tasks[i].state == Abandoned
    decreases |run|
  {
    if run != [] {
      StepKeepsInv(s, run[0]);
      assert TaskOk(s.tasks[i]);
      GivenUpStaysGivenUp(Next(s, run[0]), run[1..], i);
    }
  }

  /** The "did not start" 504 and the enqueue 503 are for good: the function never runs later. */
  lemma NeverStartsLater(run: seq<Action>, more: seq<Action>, i: nat)
    requires IsRun(START, run) && IsRun(After(START, run), more) && i < |After(START, run).tasks|
    requires After(START, run).tasks[i].listener == Ended(DidNotStart)
             || After(START, run).tasks[i].listener == Ended(Refused)
    ensures var s := After(After(START, run), more); i < |s.tasks| && s.tasks[i].runs == 0
  {
    RunKeepsInv(START, run);
    assert TaskOk(After(START, run).tasks[i]);
    GivenUpStaysGivenUp(After(START, run), more, i);
    RunKeepsInv(After(START, run), more);
    assert TaskOk(After(After(START, run), more).tasks[i]);
  }

  /** g_pendingTasks counts the submissions neither refused nor drained, so it is never negative. */
  lemma PendingCountsOutstanding(run: seq<Action>)
    requires IsRun(START, run)
    ensures var s := After(START, run); s.pending == CountOutstanding(s.tasks) && s.pending >= 0
  {
    RunKeepsInv(START, run);
  }
}
