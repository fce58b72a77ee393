/**
 * The native wait/sleep backend: one operation at a time is begun and then polled on the main
 * thread, its continuation handed round between the dispatcher, the main queue, the poll request
 * and the worker thread. Every mutex section and every hand-over is one atomic step.
 */
module RestPolling {
  import opened Wrappers

  // A task of the main queue, bound to the operation it was queued for.
  datatype Job = Begin(op: nat) | Poll(op: nat)

  // What the main thread is doing; verdict: the operation's result, if the native call gave one.
  datatype Main =
    | Idle
    | Beginning(op: nat)
    | Begun(op: nat, verdict: Option<string>)
    | Polling(op: nat)
    | Polled(op: nat, verdict: Option<string>)
    | PollCleared(op: nat, verdict: Option<string>)

  datatype Worker = Watching | Picked(op: nat) | Stopped

  // The critical sections of the backend, on the fields its mutex guards.
  datatype Shared = Shared(active: Option<nat>, pollRequested: bool, pollQueued: bool, stopping: bool)

  function Reserve(s: Shared, op: nat): (Shared, bool) {
    if s.stopping || s.active.Some? then (s, false) else (s.(active := Some(op)), true)
  }

  function RequestPoll(s: Shared, op: nat): (Shared, bool) {
    if s.stopping || s.active != Some(op) then (s, false) else (s.(pollRequested := true), true)
  }

  function Complete(s: Shared, op: nat): (Shared, bool) {
    if s.active != Some(op) then (s, false)
    else (s.(active := None, pollRequested := false, pollQueued := false), true)
  }

  // The condition the worker waits for, and what it takes when that holds.
  predicate CanPick(s: Shared) {
    s.active.Some? && s.pollRequested && !s.pollQueued && !s.stopping
  }

  function Pick(s: Shared): Shared { s.(pollRequested := false, pollQueued := true) }

  class NativeBackendState {
    var active: Option<nat>
    var pollRequested: bool
    var pollQueued: bool
    var stopping: bool

    ghost function Model(): Shared
      reads this
    {
      Shared(active, pollRequested, pollQueued, stopping)
    }

    constructor ()
      ensures Model() == Shared(None, false, false, false)
    {
      active, pollRequested, pollQueued, stopping := None, false, false, false;
    }

    method ReserveSection(op: nat) returns (ok: bool)
      modifies this
      ensures (Model(), ok) == Reserve(old(Model()), op)
    {
      if stopping {
        return false;
      }
      if active.Some? {
        return false;
      }
      active := Some(op);
      return true;
    }

    method RequestPollSection(op: nat) returns (ok: bool)
      modifies this
      ensures (Model(), ok) == RequestPoll(old(Model()), op)
    {
      if stopping || active != Some(op) {
        return false;
      }
      pollRequested := true;
      return true;
    }

    method ClearQueuedSection()
      modifies this
      ensures Model() == old(Model()).(pollQueued := false)
    {
      pollQueued := false;
    }

    // fired: whether the completion callback is due.
    method CompleteSection(op: nat) returns (fired: bool)
      modifies this
      ensures (Model(), fired) == Complete(old(Model()), op)
    {
      if active != Some(op) {
        return false;
      }
      active := None;
      pollRequested := false;
      pollQueued := false;
      return true;
    }

    method PickSection() returns (op: Option<nat>)
      modifies this
      ensures CanPick(old(Model())) ==> op == old(active) && Model() == Pick(old(Model()))
      ensures !CanPick(old(Model())) ==> op.None? && Model() == old(Model())
    {
      if stopping || active.None? || !pollRequested || pollQueued {
        return None;
      }
      op := active;
      pollRequested := false;
      pollQueued := true;
    }

    method StopSection() returns (first: bool)
      modifies this
      ensures Model() == old(Model()).(stopping := true) && first == !old(stopping)
    {
      if stopping {
        return false;
      }
      stopping := true;
      return true;
    }
  }

  // ----- The interleaved threads -----

  // dispatchers: operations reserved by listener threads that have not yet queued their task.
  // completed: for each operation ever accepted, how often its completion callback has fired.
  datatype System = System(
    shared: Shared, dispatchers: multiset<nat>, queue: multiset<Job>, main: Main, worker: Worker,
    nextOp: nat, completed: map<nat, nat>)

  datatype Action =
    | Dispatch
    | QueueBegin(op: nat)
    | FailToQueueBegin(op: nat)
    | RunJob(job: Job)
    | FinishBegin(verdict: Option<string>)
    | FinishPoll(verdict: Option<string>)
    | ClearQueued
    | Settle
    | WorkerPick
    | QueuePoll
    | FailToQueuePoll
    | Shutdown
    | WorkerStop

  predicate Enabled(s: System, a: Action) {
    match a
    case Dispatch => true
    case QueueBegin(op) => op in s.dispatchers
    case FailToQueueBegin(op) => op in s.dispatchers
    case RunJob(job) => s.main == Idle && job in s.queue
    case FinishBegin(_) => s.main.Beginning?
    case FinishPoll(_) => s.main.Polling?
    case ClearQueued => s.main.Polled?
    case Settle => s.main.Begun? || s.main.PollCleared?
    case WorkerPick => s.worker == Watching && CanPick(s.shared)
    case QueuePoll => s.worker.Picked?
    case FailToQueuePoll => s.worker.Picked?
    case Shutdown => true
    case WorkerStop => s.worker == Watching && s.shared.stopping
  }

  function Fire(completed: map<nat, nat>, op: nat, fired: bool): map<nat, nat> {
    if fired then completed[op := (if op in completed then completed[op] else 0) + 1] else completed
  }

  // A holder of the continuation that has a result completes; one that has none asks for a poll.
  function SettleWith(s: System, op: nat, verdict: Option<string>): System {
    if verdict.Some? then
      var (shared, fired) := Complete(s.shared, op);
      s.(shared := shared, completed := Fire(s.completed, op, fired))
    else s.(shared := RequestPoll(s.shared, op).0)
  }

  function Next(s: System, a: Action): System
    requires Enabled(s, a)
  {
    match a
    case Dispatch =>
      var op := s.nextOp;
      var (shared, ok) := Reserve(s.shared, op);
      if !ok then s
      else s.(shared := shared, dispatchers := s.dispatchers + multiset{op}, nextOp := op + 1,
              completed := s.completed[op := 0])
    case QueueBegin(op) => s.(dispatchers := s.dispatchers - multiset{op}, queue := s.queue + multiset{Begin(op)})
    case FailToQueueBegin(op) => SettleWith(s.(dispatchers := s.dispatchers - multiset{op}), op, Some("not queued"))
    case RunJob(job) =>
      s.(queue := s.queue - multiset{job}, main := if job.Begin? then Beginning(job.op) else Polling(job.op))
    case FinishBegin(verdict) => s.(main := Begun(s.main.op, verdict))
    case FinishPoll(verdict) => s.(main := Polled(s.main.op, verdict))
    case ClearQueued => s.(shared := s.shared.(pollQueued := false), main := PollCleared(s.main.op, s.main.verdict))
    case Settle => SettleWith(s.(main := Idle), s.main.op, s.main.verdict)
    case WorkerPick => s.(shared := Pick(s.shared), worker := Picked(s.shared.active.value))
    case QueuePoll => s.(queue := s.queue + multiset{Poll(s.worker.op)}, worker := Watching)
    case FailToQueuePoll => SettleWith(s.(worker := Watching), s.worker.op, Some("not queued"))
    case Shutdown => s.(shared := s.shared.(stopping := true))
    case WorkerStop => s.(worker := Stopped)
  }

  const START := System(Shared(None, false, false, false), multiset{}, multiset{}, Idle, Watching, 0, map[])

  ghost predicate IsRun(s: System, run: seq<Action>)
    decreases |run|
  {
    run == [] || (Enabled(s, run[0]) && IsRun(Next(s, run[0]), run[1..]))
  }

  ghost function After(s: System, run: seq<Action>): System
    requires IsRun(s, run)
    decreases |run|
  {
    if run == [] then s else After(Next(s, run[0]), run[1..])
  }

  // ----- The continuation -----

  function MainTokens(m: Main): nat { if m == Idle then 0 else 1 }

  function WorkerTokens(w: Worker): nat { if w.Picked? then 1 else 0 }

  // How many places hold a continuation.
  function Tokens(s: System): nat {
    |s.dispatchers| + |s.queue| + MainTokens(s.main) + WorkerTokens(s.worker) + if s.shared.pollRequested then 1 else 0
  }

  // Every continuation there is belongs to op.
  ghost predicate AllFor(s: System, op: nat) {
    && (forall d :: d in s.dispatchers ==> d == op)
    && (forall j :: j in s.queue ==> j.op == op)
    && (s.main != Idle ==> s.main.op == op)
    && (s.worker.Picked? ==> s.worker.op == op)
  }

  // A poll is marked as queued exactly while its task is on its way, in the queue or running.
  predicate PollUnderway(s: System) {
    s.worker.Picked? || s.main.Polling? || s.main.Polled? || (exists j :: j in s.queue && j.Poll?)
  }

  ghost predicate Inv(s: System) {
    && (s.shared.active.None? ==> Tokens(s) == 0 && !s.shared.pollQueued)
    && (s.shared.active.Some? ==>
          && Tokens(s) <= 1 && AllFor(s, s.shared.active.value)
          && (!s.shared.stopping ==> Tokens(s) == 1))
    && (s.shared.pollQueued <==> PollUnderway(s))
    && (s.worker == Stopped ==> s.shared.stopping)
    && (forall op: nat :: op in s.completed <==> op < s.nextOp)
    && (forall op: nat :: op in s.completed ==> s.completed[op] == if s.shared.active == Some(op) then 0 else 1)
    && (s.shared.active.Some? ==> s.shared.active.value < s.nextOp)
  }

  lemma SoleMember<T>(m: multiset<T>, x: T)
    requires x in m && |m| <= 1
    ensures m == multiset{x} && m - multiset{x} == multiset{}
  {
    assert m == multiset{x} + (m - multiset{x});
  }

  // The continuation is nowhere but, at most, in the main or worker thread.
  predicate NothingQueued(s: System) {
    s.dispatchers == multiset{} && s.queue == multiset{} && !s.shared.pollRequested
  }

  predicate ThreadsFree(s: System) { s.main == Idle && !s.worker.Picked? }

  lemma DispatcherHolds(s: System, op: nat)
    requires Inv(s) && op in s.dispatchers
    ensures s.dispatchers == multiset{op} && s.dispatchers - multiset{op} == multiset{} && s.queue == multiset{}
    ensures ThreadsFree(s) && !s.shared.pollRequested && s.shared.active == Some(op)
  {
    SoleMember(s.dispatchers, op);
  }

  lemma QueueHolds(s: System, job: Job)
    requires Inv(s) && job in s.queue
    ensures s.queue == multiset{job} && s.queue - multiset{job} == multiset{} && s.dispatchers == multiset{}
    ensures ThreadsFree(s) && !s.shared.pollRequested && s.shared.active == Some(job.op)
  {
    SoleMember(s.queue, job);
  }

  lemma MainHolds(s: System)
    requires Inv(s) && s.main != Idle
    ensures NothingQueued(s) && !s.worker.Picked? && s.shared.active == Some(s.main.op)
  {}

  lemma WorkerHolds(s: System)
    requires Inv(s) && s.worker.Picked?
    ensures NothingQueued(s) && s.main == Idle && s.shared.active == Some(s.worker.op)
  {}

  lemma RequestHolds(s: System)
    requires Inv(s) && s.shared.pollRequested
    ensures s.dispatchers == multiset{} && s.queue == multiset{} && ThreadsFree(s) && s.shared.active.Some?
  {}

  lemma NobodyHolds(s: System)
    requires Inv(s) && s.shared.active.None?
    ensures NothingQueued(s) && ThreadsFree(s)
  {}

  // The one place that holds the continuation gives it up: it completes, or asks for a poll.
  lemma SettleKeepsInv(s: System, op: nat, verdict: Option<string>)
    requires NothingQueued(s) && ThreadsFree(s) && s.shared.active == Some(op) && op < s.nextOp
    requires verdict.None? ==> !s.shared.pollQueued
    requires s.worker == Stopped ==> s.shared.stopping
    requires forall o: nat :: o in s.completed <==> o < s.nextOp
    requires forall o: nat :: o in s.completed ==> s.completed[o] == if o == op then 0 else 1
    ensures Inv(SettleWith(s, op, verdict))
  {}

  lemma DispatchKeepsInv(s: System)
    requires Inv(s)
    ensures Inv(Next(s, Dispatch))
  {
    if s.shared.active.None? { NobodyHolds(s); }
  }

  lemma QueueBeginKeepsInv(s: System, op: nat)
    requires Inv(s) && op in s.dispatchers
    ensures Inv(Next(s, QueueBegin(op)))
  {
    DispatcherHolds(s, op);
    assert Next(s, QueueBegin(op)).queue == multiset{Begin(op)};
  }

  lemma RunJobKeepsInv(s: System, job: Job)
    requires Inv(s) && job in s.queue && s.main == Idle
    ensures Inv(Next(s, RunJob(job)))
  {
    QueueHolds(s, job);
  }

  lemma MainStepKeepsInv(s: System, a: Action)
    requires Inv(s) && Enabled(s, a) && (a.FinishBegin? || a.FinishPoll? || a.ClearQueued?)
    ensures Inv(Next(s, a))
  {
    MainHolds(s);
  }

  lemma WorkerPickKeepsInv(s: System)
    requires Inv(s) && Enabled(s, WorkerPick)
    ensures Inv(Next(s, WorkerPick))
  {
    RequestHolds(s);
  }

  lemma QueuePollKeepsInv(s: System)
    requires Inv(s) && s.worker.Picked?
    ensures Inv(Next(s, QueuePoll))
  {
    WorkerHolds(s);
    assert Next(s, QueuePoll).queue == multiset{Poll(s.worker.op)};
  }

  lemma StepKeepsInv(s: System, a: Action)
    requires Inv(s) && Enabled(s, a)
    ensures Inv(Next(s, a))
  {
    hide Inv, SettleWith;
    match a
    case Dispatch => DispatchKeepsInv(s);
    case QueueBegin(op) => QueueBeginKeepsInv(s, op);
    case FailToQueueBegin(op) => GiveUpKeepsInv(s, a);
    case RunJob(job) => RunJobKeepsInv(s, job);
    case FinishBegin(_) => MainStepKeepsInv(s, a);
    case FinishPoll(_) => MainStepKeepsInv(s, a);
    case ClearQueued => MainStepKeepsInv(s, a);
    case Settle => GiveUpKeepsInv(s, a);
    case WorkerPick => WorkerPickKeepsInv(s);
    case QueuePoll => QueuePollKeepsInv(s);
    case FailToQueuePoll => GiveUpKeepsInv(s, a);
    case Shutdown => StopKeepsInv(s, a);
    case WorkerStop => StopKeepsInv(s, a);
  }

  lemma StopKeepsInv(s: System, a: Action)
    requires Inv(s) && Enabled(s, a) && (a.Shutdown? || a.WorkerStop?)
    ensures Inv(Next(s, a))
  {}

  // The steps at which the holder gives the continuation up.
  lemma GiveUpKeepsInv(s: System, a: Action)
    requires Inv(s) && Enabled(s, a) && (a.FailToQueueBegin? || a.FailToQueuePoll? || a.Settle?)
    ensures Inv(Next(s, a))
  {
    match a
    case FailToQueueBegin(op) =>
      DispatcherHolds(s, op);
      SettleKeepsInv(s.(dispatchers := s.dispatchers - multiset{op}), op, Some("not queued"));
    case FailToQueuePoll =>
      WorkerHolds(s);
      SettleKeepsInv(s.(worker := Watching), s.worker.op, Some("not queued"));
    case Settle =>
      MainHolds(s);
      SettleKeepsInv(s.(main := Idle), s.main.op, s.main.verdict);
  }

  // ----- Every run -----

  lemma {:induction false} RunKeepsInv(s: System, run: seq<Action>)
    requires Inv(s) && IsRun(s, run)
    ensures Inv(After(s, run))
    decreases |run|
  {
    if run != [] {
      StepKeepsInv(s, run[0]);
      RunKeepsInv(Next(s, run[0]), run[1..]);
    }
  }

  lemma StartOk()
    ensures Inv(START)
  {}

  // The steps that carry the continuation on.
  predicate CarriesOn(a: Action) { !a.Dispatch? && !a.Shutdown? && !a.WorkerStop? }

  lemma NoMembers<T>(m: multiset<T>)
    requires forall x :: x !in m
    ensures |m| == 0
  {
    assert m == multiset{};
  }

  lemma SomeMember<T>(m: multiset<T>) returns (x: T)
    requires |m| > 0
    ensures x in m
  {
    if forall y :: y !in m { NoMembers(m); }
    x :| x in m;
  }

  // The main thread, the worker or the poll request holds the continuation, and can go on.
  lemma ThreadCarriesOn(s: System)
    requires Inv(s) && !s.shared.stopping && (s.main != Idle || s.worker.Picked? || s.shared.pollRequested)
    ensures exists a :: CarriesOn(a) && Enabled(s, a)
  {
    if s.main != Idle {
      var a := match s.main
        case Beginning(_) => FinishBegin(None)
        case Polling(_) => FinishPoll(None)
        case Polled(_, _) => ClearQueued
        case _ => Settle;
      assert CarriesOn(a) && Enabled(s, a);
    } else if s.worker.Picked? {
      assert Enabled(s, QueuePoll);
    } else {
      RequestHolds(s);
      assert Enabled(s, WorkerPick);
    }
  }

  // A task of the main queue or a dispatcher holds it, and can go on.
  lemma QueueCarriesOn(s: System)
    requires s.main == Idle && |s.dispatchers| + |s.queue| > 0
    ensures exists a :: CarriesOn(a) && Enabled(s, a)
  {
    if |s.queue| > 0 {
      var job := SomeMember(s.queue);
      assert Enabled(s, RunJob(job));
    } else {
      var op := SomeMember(s.dispatchers);
      assert Enabled(s, QueueBegin(op));
    }
  }

  /** While an operation is active and the backend is not stopping, exactly one continuation exists,
      it is this operation's, and a step that carries it on is possible: no poll is lost or doubled. */
  lemma OneContinuation(run: seq<Action>)
    requires IsRun(START, run)
    requires After(START, run).shared.active.Some? && !After(START, run).shared.stopping
    ensures var s := After(START, run);
      && Tokens(s) == 1 && AllFor(s, s.shared.active.value)
      && exists a :: CarriesOn(a) && Enabled(s, a)
  {
    StartOk();
    RunKeepsInv(START, run);
    var s := After(START, run);
    hide Enabled, CarriesOn, AllFor, PollUnderway, IsRun, After;
    if s.main != Idle || s.worker.Picked? || s.shared.pollRequested {
      ThreadCarriesOn(s);
    } else {
      QueueCarriesOn(s);
    }
  }

  /** An operation's completion callback fires at most once, exactly when it stops being the active
      one; and no continuation of any other operation exists, so none can complete or re-arm it,
      whether or not the backend is stopping. */
  lemma CallbackFiresOnce(run: seq<Action>)
    requires IsRun(START, run)
    ensures var s := After(START, run);
      && (forall op: nat :: op in s.completed <==> op < s.nextOp)
      && (forall op: nat :: op in s.completed ==> s.completed[op] == if s.shared.active == Some(op) then 0 else 1)
      && Tokens(s) <= 1 && (if s.shared.active.Some? then AllFor(s, s.shared.active.value) else Tokens(s) == 0)
  {
    StartOk();
    RunKeepsInv(START, run);
  }

  // ----- What one poll decides -----

  // A value of the menu's script; a number that is not finite counts as no number.
  datatype ScriptValue = NotANumber | Number(value: real)

  const MIN_INT32 := -0x8000_0000
  const MAX_INT32 := 0x7FFF_FFFF

  function IntegerValue(v: ScriptValue): Option<int> {
    if v.NotANumber? || v.value.Floor as real != v.value || v.value.Floor < MIN_INT32
      || v.value.Floor > MAX_INT32 then None
    else Some(v.value.Floor)
  }

  // How the open menu answers when the hours are set on it: what it exposes, whether it takes the
  // update, the value its slider then has, and whether it takes the press of OK.
  datatype Menu = Menu(root: bool, slider: bool, takesUpdate: bool, sliderValue: Option<ScriptValue>, takesOk: bool)

  // What a poll sees of the game.
  datatype View = View(
    player: bool, menuOnStack: bool, menuActive: bool, sleeping: bool, now: int, gameHours: Option<real>, menu: Menu)

  datatype Verdict = Completed(interrupted: bool) | Refused | Failed

  // hours: those the command asks for.
  datatype Operation = Operation(
    hours: int, menuAccepted: bool, nativeStarted: bool, menuDeadline: int, nativeStartDeadline: int,
    startGameHours: Option<real>)

  const NATIVE_START_TIMEOUT_MS := 30000

  predicate TimePasses(v: View) { v.sleeping || (v.menuOnStack && v.menuActive) }

  function Elapsed(o: Operation, v: View): Option<real> {
    if o.startGameHours.None? || v.gameHours.None? then None
    else if v.gameHours.value < o.startGameHours.value then Some(0.0)
    else Some(v.gameHours.value - o.startGameHours.value)
  }

  function CompletedResult(o: Operation, v: View): Verdict {
    Completed(Elapsed(o, v).Some? && Elapsed(o, v).value + 0.01 < o.hours as real)
  }

  function Accept(o: Operation, v: View): (Operation, Option<Verdict>) {
    if !v.menu.root || !v.menu.slider || !v.menu.takesUpdate || v.menu.sliderValue.None? then (o, Some(Failed))
    else if IntegerValue(v.menu.sliderValue.value) != Some(o.hours) then (o, Some(Refused))
    else
      var started := o.(startGameHours := v.gameHours);
      if !v.menu.takesOk then (started, Some(Failed))
      else
        (started.(menuAccepted := true, nativeStarted := v.menuActive || v.sleeping,
                  nativeStartDeadline := v.now + NATIVE_START_TIMEOUT_MS), None)
  }

  function PollNative(o: Operation, v: View): (Operation, Option<Verdict>) {
    if !v.player then (o, Some(Failed))
    else if !o.menuAccepted then
      if !v.menuOnStack then (o, if v.now >= o.menuDeadline then Some(Refused) else None)
      else Accept(o, v)
    else
      var o' := o.(nativeStarted := o.nativeStarted || TimePasses(v));
      if !o'.nativeStarted then
        if !v.menuOnStack then (o', Some(CompletedResult(o', v)))
        else if v.now >= o.nativeStartDeadline then (o', Some(Failed))
        else (o', None)
      else if TimePasses(v) || v.menuOnStack then (o', None)
      else (o', Some(CompletedResult(o', v)))
  }

  class NativeOperation {
    const hours: int
    var menuAccepted: bool
    var nativeStarted: bool
    var menuDeadline: int
    var nativeStartDeadline: int
    var startGameHours: Option<real>

    ghost function Model(): Operation
      reads this
    {
      Operation(hours, menuAccepted, nativeStarted, menuDeadline, nativeStartDeadline, startGameHours)
    }

    constructor (hours: int, menuDeadline: int)
      ensures Model() == Operation(hours, false, false, menuDeadline, 0, None)
    {
      this.hours, this.menuDeadline := hours, menuDeadline;
      menuAccepted, nativeStarted, nativeStartDeadline, startGameHours := false, false, 0, None;
    }

    method ConfigureAndAccept(v: View) returns (verdict: Option<Verdict>)
      modifies this
      ensures (Model(), verdict) == Accept(old(Model()), v)
    {
      if !v.menu.root || !v.menu.slider || !v.menu.takesUpdate || v.menu.sliderValue.None? {
        return Some(Failed);
      }
      var clamped := IntegerValue(v.menu.sliderValue.value);
      if clamped.None? || clamped.value != hours {
        return Some(Refused);
      }
      startGameHours := v.gameHours;
      if !v.menu.takesOk {
        return Some(Failed);
      }
      menuAccepted := true;
      nativeStartDeadline := v.now + NATIVE_START_TIMEOUT_MS;
      nativeStarted := v.menuActive || v.sleeping;
      return None;
    }

    method Poll(v: View) returns (verdict: Option<Verdict>)
      modifies this
      ensures (Model(), verdict) == PollNative(old(Model()), v)
    {
      if !v.player {
        return Some(Failed);
      }
      if !menuAccepted {
        if !v.menuOnStack {
          return if v.now >= menuDeadline then Some(Refused) else None;
        }
        verdict := ConfigureAndAccept(v);
        return;
      }
      var timePassage := v.sleeping || (v.menuOnStack && v.menuActive);
      nativeStarted := nativeStarted || timePassage;
      var elapsed := None;
      if startGameHours.Some? && v.gameHours.Some? {
        var hoursSince := v.gameHours.value - startGameHours.value;
        elapsed := Some(if hoursSince < 0.0 then 0.0 else hoursSince);
      }
      var interrupted := elapsed.Some? && elapsed.value + 0.01 < hours as real;
      if !nativeStarted {
        if !v.menuOnStack {
          return Some(Completed(interrupted));
        }
        return if v.now >= nativeStartDeadline then Some(Failed) else None;
      }
      return if timePassage || v.menuOnStack then None else Some(Completed(interrupted));
    }
  }

  // The operation before the last of some polls that all asked for another one.
  function Polls(o: Operation, views: seq<View>): Operation
    decreases |views|
  {
    if views == [] then o else Polls(PollNative(o, views[0]).0, views[1..])
  }

  ghost predicate AllPending(o: Operation, views: seq<View>)
    decreases |views|
  {
    views == [] || (PollNative(o, views[0]).1.None? && AllPending(PollNative(o, views[0]).0, views[1..]))
  }

  // A poll in which the open menu took the requested hours: its slider had exactly that value after the
  // update, and it took the press of OK.
  predicate TakesHours(v: View, hours: int) {
    && v.player && v.menuOnStack && v.menu.sliderValue.Some? && v.menu.takesOk
    && v.menu.sliderValue.value == Number(hours as real) && MIN_INT32 <= hours <= MAX_INT32
  }

  lemma AcceptingTakesHours(o: Operation, v: View)
    requires !o.menuAccepted && PollNative(o, v).0.menuAccepted
    ensures TakesHours(v, o.hours) && PollNative(o, v).0.startGameHours == v.gameHours
  {}

  /** A wait or sleep is reported as completed only by a poll that sees the menu closed and no time
      passing, after an earlier poll in which the slider of the open menu stood at exactly the requested
      hours. If the game's clock was read at both, the completion counts as uninterrupted exactly when it
      had advanced by those hours, to within 0.01. */
  lemma {:induction false} CompletionIsSeen(o: Operation, views: seq<View>, last: View)
    requires AllPending(o, views) && !o.menuAccepted
    ensures var verdict := PollNative(Polls(o, views), last).1;
      verdict.Some? && verdict.value.Completed? ==>
        && last.player && !last.menuOnStack && !last.sleeping
        && exists i :: 0 <= i < |views| && TakesHours(views[i], o.hours)
             && (views[i].gameHours.Some? && last.gameHours.Some? && o.hours > 0 ==>
                   (verdict.value.interrupted <==>
                    last.gameHours.value - views[i].gameHours.value < o.hours as real - 0.01))
    decreases |views|
  {
    if views != [] {
      var o1 := PollNative(o, views[0]).0;
      if o1.menuAccepted {
        AcceptingTakesHours(o, views[0]);
        PollsKeepStart(o1, views[1..]);
        assert TakesHours(views[0], o.hours);
      } else {
        CompletionIsSeen(o1, views[1..], last);
        var rest := views[1..];
        var verdict := PollNative(Polls(o, views), last).1;
        if verdict.Some? && verdict.value.Completed? {
          var i :| 0 <= i < |rest| && TakesHours(rest[i], o.hours)
                   && (rest[i].gameHours.Some? && last.gameHours.Some? && o.hours > 0 ==>
                         (verdict.value.interrupted <==>
                          last.gameHours.value - rest[i].gameHours.value < o.hours as real - 0.01));
          assert views[i + 1] == rest[i];
        }
      }
    }
  }

  lemma {:induction false} PollsKeepStart(o: Operation, views: seq<View>)
    requires o.menuAccepted
    ensures var t := Polls(o, views); t.menuAccepted && t.hours == o.hours && t.startGameHours == o.startGameHours
    decreases |views|
  {
    if views != [] { PollsKeepStart(PollNative(o, views[0]).0, views[1..]); }
  }

  /** Once time has been seen to pass after the menu accepted, no later poll reports that it did not
      start, and the operation fails only if the player disappears. */
  lemma {:induction false} PassedTimeIsNotForgotten(o: Operation, views: seq<View>, last: View)
    requires o.menuAccepted && (o.nativeStarted || (views != [] && TimePasses(views[0])))
    requires AllPending(o, views)
    ensures PollNative(Polls(o, views), last).1 == Some(Failed) ==> !last.player
    decreases |views|
  {
    if views != [] {
      PassedTimeIsNotForgotten(PollNative(o, views[0]).0, views[1..], last);
    }
  }
}
