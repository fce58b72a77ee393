/**
 * The launch handshake between the broker and the native shim: two processes that exchange fields
 * over a pipe, either of which may fail at any step, in a world where processes start and exit and
 * process ids are reused. The fields themselves travel as LaunchWire says: whole, unchanged, in order.
 */
module LaunchHandshake {
  import opened Wrappers

  // ----- Processes -----

  // parent: the process object that started this one; parentPid: its id as the system reports it.
  datatype Process = Process(pid: nat, parent: nat, parentPid: nat, creation: nat, isGame: bool)

  // Process objects by identity; an object that has exited never runs again.
  datatype World = World(procs: map<nat, Process>, running: set<nat>, now: nat)

  datatype Field =
    | Protocol
    | Nonce(n: nat)
    | BrokerPid(brokerPid: nat)
    | BrokerCreation(brokerCreation: nat)
    | GamePath(gamePath: string)
    | LoaderPath(loaderPath: string)
    | Deadline(deadline: nat)
    | Launch
    | Owned
    | Refused
    | Reason
    | GamePid(pid: nat)
    | GameCreation(creation: nat)
    | GameHandle(handle: nat)
    | Retained

  // One direction of the pipe: the fields written to it, and how many of them were read.
  datatype Channel = Channel(sent: seq<Field>, read: nat)
  {
    predicate Ready() { read < |sent| }

    function Head(): Field
      requires Ready()
    {
      sent[read]
    }

    function Take(): Channel { Channel(sent, read + 1) }

    function Put(f: Field): Channel { Channel(sent + [f], read) }
  }

  // What each side starts out with.
  datatype Setup = Setup(
    nonce: nat, brokerPid: nat, brokerCreation: nat,
    brokerGame: string, shimGame: string, loader: string, deadline: nat)

  function OfferOf(setup: Setup): seq<Field> {
    [Protocol, Nonce(setup.nonce), BrokerPid(setup.brokerPid), BrokerCreation(setup.brokerCreation),
     GamePath(setup.brokerGame), LoaderPath(setup.loader), Deadline(setup.deadline)]
  }

  const OFFER_FIELDS := 7

  // ----- The two programs -----

  datatype Broker =
    | Offering(written: nat)
    | AwaitingEcho
    | Authorizing
    | AwaitingOutcome
    | AwaitingReason
    | AwaitingNonce
    | AwaitingPid
    | AwaitingCreation(pid: nat)
    | AwaitingHandle(pid: nat, creation: nat)
    | Duplicating(pid: nat, creation: nat, source: nat)
    | Verifying(pid: nat, creation: nat, process: nat)
    | Confirming(process: nat)
    | Confirmed(process: nat)
    | SessionOpen(process: nat)
    | BrokerFailed(refused: bool)

  datatype Stage =
    | Reading
    | Echoing
    | AwaitingLaunch
    | Authorized
    | Cleared
    | Acquiring
    | Found(candidate: nat)
    | Reporting(written: nat)
    | AwaitingRetained
    | Complaining(written: nat)
    | WaitingForGame(handedOver: bool)
    | WaitingForLoader
    | CleaningUp
    | WaitingForCleanup
    | Finished(ok: bool)

  // got: the offer fields read; game: the process retained, and its handle's value; handles: the
  // shim's handle table, which lives as long as the shim; waitFailed: whether a wait of its has failed.
  datatype Shim = Shim(
    stage: Stage, got: seq<Field>, loader: Option<nat>, game: Option<nat>, gameHandle: nat, cleanup: Option<nat>,
    handles: map<nat, nat>, waitFailed: bool)

  datatype System = System(setup: Setup, world: World, broker: Broker, shim: Shim, toShim: Channel, toBroker: Channel)

  // The five fields that report the retained game.
  function Report(w: World, shim: Shim): seq<Field>
    requires shim.game.Some? && shim.game.value in w.procs && |shim.got| == OFFER_FIELDS
  {
    var g := w.procs[shim.game.value];
    [Owned, shim.got[1], GamePid(g.pid), GameCreation(g.creation), GameHandle(shim.gameHandle)]
  }

  predicate AcceptsOffer(setup: Setup, got: seq<Field>) {
    && |got| == OFFER_FIELDS && got[0] == Protocol && got[1].Nonce?
    && got[2] == BrokerPid(setup.brokerPid) && got[3] == BrokerCreation(setup.brokerCreation)
    && got[4] == GamePath(setup.shimGame) && got[5].LoaderPath? && got[6].Deadline?
  }

  datatype BrokerMove = BWrite | BRead | BDuplicate | BVerify | BOpen | BFail

  datatype ShimMove =
    | SRead
    | SAccept
    | SWrite
    | SClear
    | SStartLoader(id: nat, pid: nat, handle: nat)
    | SFind(candidate: nat)
    | SRetain(handle: nat)
    | SFail
    | SWaitEnds
    | SWaitFails
    | SCleanUp(found: Option<nat>)

  datatype WorldMove = Spawn(id: nat, parent: nat, pid: nat, isGame: bool) | Exit(id: nat) | Tick

  datatype Action = BrokerStep(b: BrokerMove) | ShimStep(m: ShimMove) | WorldStep(w: WorldMove)

  // ----- What the system guarantees of processes -----

  // Which process objects somebody holds a handle to.
  predicate Held(s: System, id: nat) {
    || (!s.shim.stage.Finished? && id in s.shim.handles.Values)
    || ((s.broker.Verifying? || s.broker.Confirming? || s.broker.Confirmed? || s.broker.SessionOpen?)
        && s.broker.process == id)
  }

  // A process id is free when no running process and no process with an open handle has it; and an id
  // is never given out twice at the same time of creation.
  predicate FreePid(s: System, pid: nat) {
    forall id <- s.world.procs.Keys :: s.world.procs[id].pid == pid ==>
        id !in s.world.running && !Held(s, id) && s.world.procs[id].creation != s.world.now
  }

  predicate IsGame(w: World, id: nat) { id in w.running && id in w.procs && w.procs[id].isGame }

  // What the shim requires of a game: started by the loader's process id, not before the loader.
  predicate Direct(w: World, loader: nat, id: nat) {
    && loader in w.procs && id in w.procs
    && w.procs[id].parentPid == w.procs[loader].pid && w.procs[id].creation >= w.procs[loader].creation
  }

  predicate WorldEnabled(s: System, m: WorldMove) {
    match m
    case Spawn(id, parent, pid, _) =>
      id !in s.world.procs && parent in s.world.running && parent in s.world.procs && FreePid(s, pid)
    case Exit(id) => id in s.world.running
    case Tick => true
  }

  function WorldNext(s: System, m: WorldMove): World
    requires WorldEnabled(s, m)
  {
    match m
    case Spawn(id, parent, pid, isGame) =>
      World(s.world.procs[id := Process(pid, parent, s.world.procs[parent].pid, s.world.now, isGame)],
            s.world.running + {id}, s.world.now)
    case Exit(id) => s.world.(running := s.world.running - {id})
    case Tick => s.world.(now := s.world.now + 1)
  }

  // ----- The broker -----

  predicate BrokerEnabled(s: System, m: BrokerMove) {
    match m
    case BWrite =>
      (s.broker.Offering? && s.broker.written < OFFER_FIELDS) || s.broker.Authorizing? || s.broker.Confirming?
    case BRead =>
      && (s.broker.AwaitingEcho? || s.broker.AwaitingOutcome? || s.broker.AwaitingReason? || s.broker.AwaitingNonce? ||
          s.broker.AwaitingPid? || s.broker.AwaitingCreation? || s.broker.AwaitingHandle?)
      && s.toBroker.Ready()
    case BDuplicate => s.broker.Duplicating? && !s.shim.stage.Finished? && s.broker.source in s.shim.handles
    case BVerify => s.broker.Verifying? && s.broker.process in s.world.procs
    case BOpen => s.broker.Confirmed?
    case BFail => !s.broker.SessionOpen? && !s.broker.BrokerFailed?
  }

  // What the broker makes of the field it reads.
  function BrokerReads(s: System, f: Field): Broker {
    match s.broker
    case AwaitingEcho => if f == Nonce(s.setup.nonce) then Authorizing else BrokerFailed(false)
    case AwaitingOutcome => if f == Owned then AwaitingNonce else AwaitingReason
    case AwaitingReason => BrokerFailed(true)
    case AwaitingNonce => if f == Nonce(s.setup.nonce) then AwaitingPid else BrokerFailed(false)
    case AwaitingPid => if f.GamePid? then AwaitingCreation(f.pid) else BrokerFailed(false)
    case AwaitingCreation(pid) => if f.GameCreation? then AwaitingHandle(pid, f.creation) else BrokerFailed(false)
    case AwaitingHandle(pid, creation) =>
      if f.GameHandle? then Duplicating(pid, creation, f.handle) else BrokerFailed(false)
    case _ => BrokerFailed(false)
  }

  function BrokerNext(s: System, m: BrokerMove): System
    requires BrokerEnabled(s, m)
  {
    match m
    case BWrite =>
      if s.broker.Offering? then
        s.(toShim := s.toShim.Put(OfferOf(s.setup)[s.broker.written]),
           broker := if s.broker.written + 1 == OFFER_FIELDS then AwaitingEcho else Offering(s.broker.written + 1))
      else if s.broker.Authorizing? then s.(toShim := s.toShim.Put(Launch), broker := AwaitingOutcome)
      else s.(toShim := s.toShim.Put(Retained), broker := Confirmed(s.broker.process))
    case BRead => s.(toBroker := s.toBroker.Take(), broker := BrokerReads(s, s.toBroker.Head()))
    case BDuplicate => s.(broker := Verifying(s.broker.pid, s.broker.creation, s.shim.handles[s.broker.source]))
    case BVerify =>
      var p := s.world.procs[s.broker.process];
      s.(broker :=
           if p.pid != s.broker.pid || p.creation != s.broker.creation || !p.isGame
             || s.broker.process !in s.world.running
           then BrokerFailed(false) else Confirming(s.broker.process))
    case BOpen => s.(broker := SessionOpen(s.broker.process))
    case BFail => s.(broker := BrokerFailed(false))
  }

  // ----- The shim -----

  predicate Trying(stage: Stage) {
    stage.Reading? || stage.Echoing? || stage.AwaitingLaunch? || stage.Authorized? || stage.Cleared? ||
    stage.Acquiring? || stage.Found? || stage.Reporting? || stage.AwaitingRetained?
  }

  predicate Waiting(stage: Stage) { stage.WaitingForGame? || stage.WaitingForLoader? || stage.WaitingForCleanup? }

  // The process a waiting shim waits for.
  function Awaited(shim: Shim): Option<nat> {
    if shim.stage.WaitingForGame? then shim.game
    else if shim.stage.WaitingForLoader? then shim.loader
    else if shim.stage.WaitingForCleanup? then shim.cleanup
    else None
  }

  // Where an error leads: a game that was retained is waited for; without one the broker is told, if
  // it had authorized the launch, and a loader that was started is waited for.
  function AfterError(stage: Stage, shim: Shim): Stage {
    if shim.game.Some? then WaitingForGame(false)
    else if stage.Authorized? || stage.Cleared? || stage.Acquiring? || stage.Found? then Complaining(0)
    else AfterComplaint(shim)
  }

  function AfterComplaint(shim: Shim): Stage { if shim.loader.Some? then WaitingForLoader else Finished(false) }

  predicate ShimEnabled(s: System, m: ShimMove) {
    var shim := s.shim;
    match m
    case SRead =>
      && ((shim.stage.Reading? && |shim.got| < OFFER_FIELDS) || shim.stage.AwaitingLaunch?
          || shim.stage.AwaitingRetained?)
      && s.toShim.Ready()
    case SAccept => shim.stage.Reading? && AcceptsOffer(s.setup, shim.got)
    case SWrite =>
      || (shim.stage.Echoing? && AcceptsOffer(s.setup, shim.got))
      || (shim.stage.Reporting? && shim.stage.written < 5 && shim.game.Some? && shim.game.value in s.world.procs
          && AcceptsOffer(s.setup, shim.got))
      || (shim.stage.Complaining? && shim.stage.written < 2)
    case SClear => shim.stage.Authorized? && forall id <- s.world.running :: !IsGame(s.world, id)
    case SStartLoader(id, pid, handle) =>
      shim.stage.Cleared? && id !in s.world.procs && FreePid(s, pid) && handle !in shim.handles
    case SFind(c) =>
      && shim.stage.Acquiring? && shim.loader.Some?
      && IsGame(s.world, c) && (forall id <- s.world.running :: IsGame(s.world, id) ==> id == c)
      && Direct(s.world, shim.loader.value, c)
    case SRetain(handle) =>
      && shim.stage.Found? && IsGame(s.world, shim.stage.candidate) && handle !in shim.handles
    case SFail => Trying(shim.stage) || shim.stage.Complaining?
    case SWaitEnds => Waiting(shim.stage) && Awaited(shim).Some? && Awaited(shim).value !in s.world.running
    case SWaitFails => Waiting(shim.stage)
    case SCleanUp(found) =>
      && shim.stage.CleaningUp? && shim.loader.Some?
      && (found.Some? ==>
            && IsGame(s.world, found.value) && shim.loader.value in s.world.procs
            && s.world.procs[found.value].parentPid == s.world.procs[shim.loader.value].pid)
  }

  function Staged(s: System, stage: Stage): System { s.(shim := s.shim.(stage := stage)) }

  function ShimReads(s: System): System
    requires ShimEnabled(s, SRead)
  {
    var f := s.toShim.Head();
    var s' := s.(toShim := s.toShim.Take());
    if s.shim.stage.Reading? then s'.(shim := s.shim.(got := s.shim.got + [f]))
    else if s.shim.stage.AwaitingLaunch? then
      Staged(s', if f == Launch then Authorized else AfterError(s.shim.stage, s.shim))
    else Staged(s', if f == Retained then WaitingForGame(true) else AfterError(s.shim.stage, s.shim))
  }

  function ShimWrites(s: System): System
    requires ShimEnabled(s, SWrite)
  {
    if s.shim.stage.Echoing? then Staged(s, AwaitingLaunch).(toBroker := s.toBroker.Put(s.shim.got[1]))
    else if s.shim.stage.Reporting? then
      var k := s.shim.stage.written;
      var s' := Staged(s, if k + 1 == 5 then AwaitingRetained else Reporting(k + 1));
      s'.(toBroker := s.toBroker.Put(Report(s.world, s.shim)[k]))
    else if s.shim.stage.written == 0 then Staged(s, Complaining(1)).(toBroker := s.toBroker.Put(Refused))
    else Staged(s, AfterComplaint(s.shim)).(toBroker := s.toBroker.Put(Reason))
  }

  function ShimNext(s: System, m: ShimMove): System
    requires ShimEnabled(s, m)
  {
    var shim := s.shim;
    match m
    case SRead => ShimReads(s)
    case SAccept => Staged(s, Echoing)
    case SWrite => ShimWrites(s)
    case SClear => Staged(s, Cleared)
    // The shim's own process is not part of the world, so the loader stands in as its own parent.
    case SStartLoader(id, pid, handle) =>
      s.(world := World(s.world.procs[id := Process(pid, id, 0, s.world.now, false)],
                        s.world.running + {id}, s.world.now),
         shim := shim.(stage := Acquiring, loader := Some(id), handles := shim.handles[handle := id]))
    case SFind(c) => Staged(s, Found(c))
    case SRetain(handle) =>
      s.(shim := shim.(stage := Reporting(0), game := Some(shim.stage.candidate), gameHandle := handle,
                       handles := shim.handles[handle := shim.stage.candidate]))
    case SFail => Staged(s, if shim.stage.Complaining? then AfterComplaint(shim) else AfterError(shim.stage, shim))
    case SWaitEnds => Staged(s, if shim.stage.WaitingForGame? then Finished(shim.stage.handedOver)
                                else if shim.stage.WaitingForLoader? then CleaningUp else Finished(false))
    case SWaitFails => s.(shim := shim.(stage := Finished(false), waitFailed := true))
    case SCleanUp(found) =>
      s.(shim := shim.(stage := if found.Some? then WaitingForCleanup else Finished(false), cleanup := found))
  }

  // ----- Runs -----

  predicate Enabled(s: System, a: Action) {
    match a
    case BrokerStep(m) => BrokerEnabled(s, m)
    case ShimStep(m) => ShimEnabled(s, m)
    case WorldStep(m) => WorldEnabled(s, m)
  }

  function Next(s: System, a: Action): System
    requires Enabled(s, a)
  {
    match a
    case BrokerStep(m) => BrokerNext(s, m)
    case ShimStep(m) => ShimNext(s, m)
    case WorldStep(m) => s.(world := WorldNext(s, m))
  }

  ghost predicate IsRun(s: System, run: seq<Action>)
    decreases |run|
  {
    run == [] || (Enabled(s, run[0]) && IsRun(Next(s, run[0]), run[1..]))
  }

  ghost function After(s: System, run: seq<Action>): System
    requires IsRun(s, run)
    decreases |run|
  {
    if run == [] then s else After(Next(s, run[0]), run[1..])
  }

  ghost predicate SoundWorld(w: World) {
    && (forall id <- w.running :: id in w.procs)
    && (forall id <- w.procs.Keys :: w.procs[id].creation <= w.now)
    && (forall a, b ::
          (a in w.procs && b in w.procs && w.procs[a].pid == w.procs[b].pid
           && w.procs[a].creation == w.procs[b].creation) ==> a == b)
  }

  ghost predicate Start(s: System) {
    && SoundWorld(s.world)
    && s.broker == Offering(0) && s.shim == Shim(Reading, [], None, None, 0, None, map[], false)
    && s.toShim == Channel([], 0) && s.toBroker == Channel([], 0)
  }

  // ----- What every run keeps -----

  // Everything the broker may write, in order.
  function BrokerScript(setup: Setup): seq<Field> { OfferOf(setup) + [Launch, Retained] }

  // How far into its script a broker that has not failed is.
  function BrokerWritten(b: Broker): nat {
    match b
    case Offering(k) => k
    case AwaitingEcho => 7
    case Authorizing => 7
    case Confirmed(_) => 9
    case SessionOpen(_) => 9
    case _ => 8
  }

  // How many fields it has read.
  function BrokerRead(b: Broker): nat {
    match b
    case Offering(_) => 0
    case AwaitingEcho => 0
    case Authorizing => 1
    case AwaitingOutcome => 1
    case AwaitingReason => 2
    case AwaitingNonce => 2
    case AwaitingPid => 3
    case AwaitingCreation(_) => 4
    case AwaitingHandle(_, _) => 5
    case _ => 6
  }

  // What the broker has learned is what the shim wrote.
  ghost predicate BrokerKnows(s: System) {
    var b, sent := s.broker, s.toBroker.sent;
    && (b.AwaitingCreation? ==> |sent| > 3 && sent[3] == GamePid(b.pid))
    && (b.AwaitingNonce? || b.AwaitingPid? || b.AwaitingCreation? || b.AwaitingHandle? || b.Duplicating? ==>
          |sent| > 1 && sent[1] == Owned)
    && (b.Duplicating? ==> |sent| > 5 && sent[5] == GameHandle(b.source))
    && (b.AwaitingReason? ==> |sent| > 1 && sent[1] != Owned)
    && (b == BrokerFailed(true) ==> |sent| > 1 && sent[1] != Owned)
    && (b.Verifying? || b.Confirming? || b.Confirmed? || b.SessionOpen? ==> s.shim.game == Some(b.process))
  }

  ghost predicate BrokerInv(s: System) {
    && s.toShim.sent <= BrokerScript(s.setup)
    && (!s.broker.BrokerFailed? ==>
          |s.toShim.sent| == BrokerWritten(s.broker) && s.toBroker.read == BrokerRead(s.broker))
    && s.toBroker.read <= |s.toBroker.sent|
    && (s.broker.Offering? ==> s.broker.written < OFFER_FIELDS)
    && (|s.toShim.sent| > 7 || s.broker.Authorizing? ==>
            s.toBroker.read >= 1 && s.toBroker.sent[0] == Nonce(s.setup.nonce))
    && BrokerKnows(s)
  }

  // How many fields the shim has read, and whether the launch was authorized.
  ghost predicate ShimReadInv(s: System) {
    var shim, toShim := s.shim, s.toShim;
    && toShim.read <= |toShim.sent| && |shim.got| <= OFFER_FIELDS
    && |shim.got| <= |toShim.sent| && shim.got == toShim.sent[..|shim.got|]
    && (shim.stage.Reading? ==> toShim.read == |shim.got|)
    && (shim.stage.Echoing? || shim.stage.AwaitingLaunch? ==> toShim.read == OFFER_FIELDS)
    && (!shim.stage.Reading? && !shim.stage.Finished? ==> AcceptsOffer(s.setup, shim.got))
    && (shim.loader.Some? || LaunchSeen(shim.stage) ==> |toShim.sent| > OFFER_FIELDS && AcceptsOffer(s.setup, shim.got))
    && (shim.stage == WaitingForGame(true) || shim.stage == Finished(true) ==> |toShim.sent| == |BrokerScript(s.setup)|)
  }

  predicate LaunchSeen(stage: Stage) {
    !stage.Reading? && !stage.Echoing? && !stage.AwaitingLaunch? && !stage.Finished?
  }

  // What the shim has written.
  ghost predicate ShimWriteInv(s: System) {
    var shim, sent := s.shim, s.toBroker.sent;
    && (shim.stage.Reading? || shim.stage.Echoing? ==> sent == [])
    && (shim.stage.AwaitingLaunch? || shim.stage.Authorized? || shim.stage.Cleared? || shim.stage.Acquiring?
        || shim.stage.Found? ==>
          |sent| == 1)
    && (shim.game.None? ==> |sent| <= 3 && (|sent| > 1 ==> sent[1] == Refused))
    && (shim.game.Some? ==>
          && shim.game.value in s.world.procs && AcceptsOffer(s.setup, shim.got)
          && 1 <= |sent| <= 6 && sent[1..] <= Report(s.world, shim)
          && (shim.stage.Reporting? ==> |sent| == 1 + shim.stage.written && shim.stage.written < 5))
    && (shim.stage.Complaining? ==> |sent| == 1 + shim.stage.written && shim.stage.written < 2)
  }

  // The stages at which a loader or a game is known.
  ghost predicate ShimStageInv(s: System) {
    var shim := s.shim;
    && (shim.game.Some? ==> shim.loader.Some?)
    && (shim.stage.Acquiring? || shim.stage.Found? || shim.stage.WaitingForLoader? || shim.stage.CleaningUp?
        || shim.stage.WaitingForCleanup? ==>
          shim.loader.Some? && shim.game.None?)
    && (shim.stage.Reading? || shim.stage.Echoing? || shim.stage.AwaitingLaunch? || shim.stage.Authorized?
        || shim.stage.Cleared? ==>
          shim.loader.None? && shim.game.None?)
    && (shim.stage.Complaining? ==> shim.game.None?)
    && (shim.stage.Reporting? || shim.stage.AwaitingRetained? || shim.stage.WaitingForGame? ==> shim.game.Some?)
    && (shim.stage.WaitingForCleanup? ==> shim.cleanup.Some?)
    && (shim.cleanup.Some? ==> shim.stage.WaitingForCleanup? || shim.stage.Finished?)
  }

  // A shim that has finished has waited.
  ghost predicate FinishInv(s: System) {
    var shim, running := s.shim, s.world.running;
    && (shim.stage.Finished? && !shim.waitFailed ==>
          && (shim.game.Some? ==> shim.game.value !in running)
          && (shim.loader.Some? && shim.game.None? ==> shim.loader.value !in running)
          && (shim.cleanup.Some? ==> shim.cleanup.value !in running))
    && (shim.stage.CleaningUp? || shim.stage.WaitingForCleanup? ==> shim.loader.Some? && shim.loader.value !in running)
    && (shim.waitFailed ==> shim.stage.Finished?)
    && (shim.stage == Finished(true) ==> shim.game.Some? && !shim.waitFailed)
  }

  // The loader's process, its children, and the game.
  ghost predicate ProcessInv(s: System) {
    var shim, w := s.shim, s.world;
    && SoundWorld(w)
    && (shim.loader.Some? ==> shim.loader.value in w.procs)
    && (shim.game.Some? ==> shim.loader.Some? && IsOwned(w, shim.loader.value, shim.game.value))
    && (shim.cleanup.Some? ==> shim.cleanup.value in w.procs)
    && (shim.loader.Some? && !shim.stage.Finished? ==>
            ChildrenOfLoader(w, shim.loader.value) && shim.loader.value in shim.handles.Values)
    && (shim.stage.Found? && shim.loader.Some? ==> Direct(w, shim.loader.value, shim.stage.candidate))
    && (shim.game.Some? ==> shim.gameHandle in shim.handles && shim.handles[shim.gameHandle] == shim.game.value)
  }

  // No running process but the loader has its id, and whatever has it as its parent's id and is
  // younger than the loader is its child.
  ghost predicate ChildrenOfLoader(w: World, loader: nat) {
    && loader in w.procs
    && (forall id :: id in w.running && id in w.procs && w.procs[id].pid == w.procs[loader].pid ==> id == loader)
    && (forall id :: id in w.procs && w.procs[id].parentPid == w.procs[loader].pid ==>
          w.procs[id].parent == loader || w.procs[id].creation <= w.procs[loader].creation)
  }

  // A game started by the loader's process id no earlier than the loader; one that is younger than
  // the loader is its direct child.
  ghost predicate IsOwned(w: World, loader: nat, id: nat) {
    && Direct(w, loader, id) && w.procs[id].isGame
    && (w.procs[id].creation > w.procs[loader].creation ==> w.procs[id].parent == loader)
  }

  ghost predicate Inv(s: System) {
    BrokerInv(s) && ShimReadInv(s) && ShimWriteInv(s) && ShimStageInv(s) && FinishInv(s) && ProcessInv(s)
  }

  // ----- Each step keeps it -----

  // A step that leaves the shim alone, and at most writes to it or reads from it.
  ghost predicate OnlyBroker(s: System, t: System) {
    && t.setup == s.setup && t.world == s.world && t.shim == s.shim
    && t.toShim.read == s.toShim.read && s.toShim.sent <= t.toShim.sent && t.toBroker.sent == s.toBroker.sent
  }

  lemma BrokerKeepsShim(s: System, t: System)
    requires Inv(s) && OnlyBroker(s, t) && |t.toShim.sent| <= |BrokerScript(s.setup)|
    ensures ShimReadInv(t) && ShimWriteInv(t) && ShimStageInv(t) && FinishInv(t) && ProcessInv(t)
  {
    hide AcceptsOffer, SoundWorld, ChildrenOfLoader;
    assert t.toShim.sent[..|s.shim.got|] == s.toShim.sent[..|s.shim.got|];
  }

  lemma BrokerWriteInv(s: System)
    requires BrokerInv(s) && BrokerEnabled(s, BWrite)
    ensures BrokerInv(BrokerNext(s, BWrite))
  {}

  lemma BrokerReadInv(s: System)
    requires BrokerInv(s) && BrokerEnabled(s, BRead)
    ensures BrokerInv(BrokerNext(s, BRead))
  {
    hide BrokerScript;
  }

  // The handle the broker was told of is the retained game's.
  lemma DuplicatesTheGame(s: System)
    requires BrokerInv(s) && ShimWriteInv(s) && ProcessInv(s) && BrokerEnabled(s, BDuplicate)
    ensures s.shim.game == Some(s.shim.handles[s.broker.source])
  {
    hide SoundWorld, ChildrenOfLoader, IsOwned, AcceptsOffer, BrokerScript;
    var sent := s.toBroker.sent;
    assert sent[5] == sent[1..][4];
  }

  lemma BrokerOtherInv(s: System, m: BrokerMove)
    requires BrokerInv(s) && BrokerEnabled(s, m) && !m.BWrite? && !m.BRead?
    requires m.BDuplicate? ==> s.shim.game == Some(s.shim.handles[s.broker.source])
    ensures BrokerInv(BrokerNext(s, m))
  {
    hide BrokerScript;
  }

  lemma BrokerStepKeepsInv(s: System, m: BrokerMove)
    requires Inv(s) && BrokerEnabled(s, m)
    ensures Inv(BrokerNext(s, m))
  {
    hide ShimReadInv, ShimWriteInv, ShimStageInv, FinishInv, ProcessInv, BrokerKnows;
    match m {
      case BWrite => BrokerWriteInv(s);
      case BRead => BrokerReadInv(s);
      case BDuplicate =>
        DuplicatesTheGame(s);
        BrokerOtherInv(s, m);
      case _ => BrokerOtherInv(s, m);
    }
    BrokerKeepsShim(s, BrokerNext(s, m));
  }

  // A step that leaves the broker alone.
  ghost predicate OnlyShim(s: System, t: System) {
    && t.setup == s.setup && t.broker == s.broker
    && t.toShim.sent == s.toShim.sent && t.toBroker.read == s.toBroker.read && s.toBroker.sent <= t.toBroker.sent
    && (s.shim.game.Some? ==> t.shim.game == s.shim.game)
  }

  lemma ShimKeepsBroker(s: System, t: System)
    requires BrokerInv(s) && OnlyShim(s, t)
    ensures BrokerInv(t)
  {}

  // The stages reached by reading, writing, failing and waiting differ only in the shim's own fields.
  lemma ShimReadsKnown(s: System)
    requires ShimReadInv(s) && ShimStageInv(s) && BrokerInv(s) && ShimEnabled(s, SRead)
    ensures ShimReadInv(ShimNext(s, SRead))
  {
    hide AcceptsOffer, BrokerKnows;
    assert s.toShim.sent[..s.toShim.read + 1] == s.toShim.sent[..s.toShim.read] + [s.toShim.Head()];
  }

  lemma ShimReadsRest(s: System)
    requires ShimWriteInv(s) && ShimStageInv(s) && FinishInv(s) && ShimEnabled(s, SRead)
    requires s.shim.stage.Reading? ==> s.shim.game.None?
    ensures var t := ShimNext(s, SRead); ShimWriteInv(t) && ShimStageInv(t) && FinishInv(t)
  {}

  lemma ShimReadsInv(s: System)
    requires Inv(s) && ShimEnabled(s, SRead)
    ensures Inv(ShimNext(s, SRead))
  {
    var t := ShimNext(s, SRead);
    ShimReadsKnown(s);
    ShimReadsRest(s);
    hide BrokerInv, ProcessInv, ShimReadInv, ShimWriteInv, ShimStageInv, FinishInv;
    ShimKeepsBroker(s, t);
    SameProcesses(s, t);
  }

  // A step that starts no process and retains none keeps what is known of them.
  lemma SameProcesses(s: System, t: System)
    requires ProcessInv(s) && t.world == s.world && !t.shim.stage.Found?
    requires t.shim.loader == s.shim.loader && t.shim.game == s.shim.game && t.shim.cleanup == s.shim.cleanup
    requires t.shim.handles == s.shim.handles && t.shim.gameHandle == s.shim.gameHandle
    requires s.shim.stage.Finished? ==> t.shim.stage.Finished?
    ensures ProcessInv(t)
  {}

  lemma ShimWritesKnown(s: System)
    requires Inv(s) && ShimEnabled(s, SWrite)
    ensures var t := ShimNext(s, SWrite); ShimReadInv(t) && ShimStageInv(t) && FinishInv(t)
  {
    hide BrokerInv, ProcessInv, ShimWriteInv, AcceptsOffer, Report;
  }

  lemma ShimWritesNext(s: System)
    requires ShimWriteInv(s) && ShimStageInv(s) && ShimEnabled(s, SWrite)
    ensures ShimWriteInv(ShimNext(s, SWrite))
  {}

  lemma ShimWritesInv(s: System)
    requires Inv(s) && ShimEnabled(s, SWrite)
    ensures Inv(ShimNext(s, SWrite))
  {
    ShimWritesKnown(s);
    ShimWritesNext(s);
    hide BrokerInv, ProcessInv, ShimReadInv, ShimWriteInv, ShimStageInv, FinishInv, AcceptsOffer, Report;
    var t := ShimNext(s, SWrite);
    ShimKeepsBroker(s, t);
    SameProcesses(s, t);
  }

  lemma ShimAcceptsInv(s: System)
    requires Inv(s) && ShimEnabled(s, SAccept)
    ensures Inv(ShimNext(s, SAccept))
  {
    hide BrokerInv, ProcessInv;
    var t := ShimNext(s, SAccept);
    ShimKeepsBroker(s, t);
    SameProcesses(s, t);
  }

  // The moves that only lead to another stage.
  predicate MovesOn(m: ShimMove) { m.SClear? || m.SFail? || m.SWaitEnds? || m.SWaitFails? }

  lemma ShimMovesOnKnown(s: System, m: ShimMove)
    requires ShimReadInv(s) && ShimStageInv(s) && ShimEnabled(s, m) && MovesOn(m)
    ensures ShimReadInv(ShimNext(s, m))
  {
    hide AcceptsOffer;
  }

  lemma ShimMovesOnWritten(s: System, m: ShimMove)
    requires ShimWriteInv(s) && ShimStageInv(s) && ShimEnabled(s, m) && MovesOn(m)
    ensures ShimWriteInv(ShimNext(s, m)) && ShimStageInv(ShimNext(s, m))
  {}

  lemma ShimMovesOnFinish(s: System, m: ShimMove)
    requires FinishInv(s) && ShimStageInv(s) && ShimEnabled(s, m) && MovesOn(m)
    requires s.shim.loader.None? && s.shim.game.None? ==> s.shim.cleanup.None?
    ensures FinishInv(ShimNext(s, m))
  {
    hide AcceptsOffer, Direct, IsGame, FreePid;
  }

  lemma ShimMovesOnOnly(s: System, m: ShimMove)
    requires ShimEnabled(s, m) && MovesOn(m)
    ensures var t := ShimNext(s, m);
      && t == s.(shim := s.shim.(stage := t.shim.stage, waitFailed := t.shim.waitFailed))
      && !t.shim.stage.Found? && !s.shim.stage.Finished?
  {
    hide AcceptsOffer, Direct, IsGame, FreePid;
  }

  lemma ShimMovesOnInv(s: System, m: ShimMove)
    requires Inv(s) && ShimEnabled(s, m) && MovesOn(m)
    ensures Inv(ShimNext(s, m))
  {
    ShimMovesOnOnly(s, m);
    ShimMovesOnKnown(s, m);
    ShimMovesOnWritten(s, m);
    ShimMovesOnFinish(s, m);
    hide BrokerInv, ProcessInv, ShimReadInv, ShimWriteInv, ShimStageInv, FinishInv, ShimNext, ShimEnabled;
    var t := ShimNext(s, m);
    ShimKeepsBroker(s, t);
    SameProcesses(s, t);
  }

  // Starting the loader, finding and retaining its game, and cleaning up.
  lemma ShimStartsLoaderInv(s: System, id: nat, pid: nat, handle: nat)
    requires Inv(s) && ShimEnabled(s, SStartLoader(id, pid, handle))
    ensures Inv(ShimNext(s, SStartLoader(id, pid, handle)))
  {
    hide BrokerInv, SoundWorld, AcceptsOffer;
    var t := ShimNext(s, SStartLoader(id, pid, handle));
    ShimKeepsBroker(s, t);
    assert handle in t.shim.handles && t.shim.handles[handle] == id;
    NewProcessIsSound(s, Process(pid, id, 0, s.world.now, false), id);
    LoaderStartsAlone(s, id, pid);
  }

  function Started(w: World, id: nat, p: Process): World { World(w.procs[id := p], w.running + {id}, w.now) }

  lemma NewProcessIsSound(s: System, p: Process, id: nat)
    requires SoundWorld(s.world) && id !in s.world.procs && FreePid(s, p.pid) && p.creation == s.world.now
    ensures SoundWorld(Started(s.world, id, p))
  {}

  lemma LoaderStartsAlone(s: System, id: nat, pid: nat)
    requires SoundWorld(s.world) && id !in s.world.procs && FreePid(s, pid)
    ensures ChildrenOfLoader(Started(s.world, id, Process(pid, id, 0, s.world.now, false)), id)
  {}

  lemma ShimFindsInv(s: System, m: ShimMove)
    requires Inv(s) && ShimEnabled(s, m) && (m.SFind? || m.SRetain? || m.SCleanUp?)
    ensures Inv(ShimNext(s, m))
  {
    hide BrokerInv, SoundWorld, AcceptsOffer;
    var t := ShimNext(s, m);
    ShimKeepsBroker(s, t);
    if m.SRetain? {
      assert t.shim.handles.Values >= s.shim.handles.Values by {
        forall v | v in s.shim.handles.Values
          ensures v in t.shim.handles.Values
        {
          StillHeld(s.shim.handles, m.handle, s.shim.stage.candidate, v);
        }
      }
    }
  }

  lemma StillHeld(handles: map<nat, nat>, h: nat, p: nat, v: nat)
    requires v in handles.Values && h !in handles
    ensures v in handles[h := p].Values
  {
    var k :| k in handles && handles[k] == v;
    assert handles[h := p][k] == v;
  }

  lemma ShimStepKeepsInv(s: System, m: ShimMove)
    requires Inv(s) && ShimEnabled(s, m)
    ensures Inv(ShimNext(s, m))
  {
    hide Inv;
    match m
    case SRead => ShimReadsInv(s);
    case SWrite => ShimWritesInv(s);
    case SAccept => ShimAcceptsInv(s);
    case SStartLoader(id, pid, handle) => ShimStartsLoaderInv(s, id, pid, handle);
    case SFind(_) => ShimFindsInv(s, m);
    case SRetain(_) => ShimFindsInv(s, m);
    case SCleanUp(_) => ShimFindsInv(s, m);
    case _ => ShimMovesOnInv(s, m);
  }

  // ----- Processes come and go -----

  lemma SpawnKeepsProcesses(s: System, id: nat, parent: nat, pid: nat, isGame: bool)
    requires ProcessInv(s) && WorldEnabled(s, Spawn(id, parent, pid, isGame))
    ensures ProcessInv(s.(world := WorldNext(s, Spawn(id, parent, pid, isGame))))
  {
    var p := Process(pid, parent, s.world.procs[parent].pid, s.world.now, isGame);
    NewProcessIsSound(s, p, id);
    if s.shim.loader.Some? && !s.shim.stage.Finished? {
      assert Held(s, s.shim.loader.value);
    }
  }

  // What is known of the two programs depends on the game's own process alone.
  lemma WorldKeepsPrograms(s: System, w: World)
    requires Inv(s) && s.world.procs.Keys <= w.procs.Keys
    requires forall id <- s.world.procs.Keys :: w.procs[id] == s.world.procs[id]
    ensures var t := s.(world := w); BrokerInv(t) && ShimReadInv(t) && ShimWriteInv(t) && ShimStageInv(t)
  {
    hide BrokerInv, AcceptsOffer, ProcessInv, FinishInv;
    ShimKeepsBroker(s, s.(world := w));
  }

  // What has exited, and is known, has exited for good.
  lemma WorldKeepsFinish(s: System, w: World)
    requires FinishInv(s) && ProcessInv(s)
    requires forall id <- s.world.procs.Keys :: id in w.running ==> id in s.world.running
    ensures FinishInv(s.(world := w))
  {
    hide SoundWorld, ChildrenOfLoader;
  }

  lemma ExitKeepsProcesses(s: System, id: nat)
    requires ProcessInv(s)
    ensures ProcessInv(s.(world := s.world.(running := s.world.running - {id})))
  {}

  lemma TickKeepsProcesses(s: System)
    requires ProcessInv(s)
    ensures ProcessInv(s.(world := s.world.(now := s.world.now + 1)))
  {}

  lemma WorldStepKeepsInv(s: System, m: WorldMove)
    requires Inv(s) && WorldEnabled(s, m)
    ensures Inv(s.(world := WorldNext(s, m)))
  {
    hide BrokerInv, ShimReadInv, ShimWriteInv, ShimStageInv, FinishInv, ProcessInv;
    WorldKeepsPrograms(s, WorldNext(s, m));
    WorldKeepsFinish(s, WorldNext(s, m));
    match m
    case Spawn(id, parent, pid, isGame) => SpawnKeepsProcesses(s, id, parent, pid, isGame);
    case Exit(id) => ExitKeepsProcesses(s, id);
    case Tick => TickKeepsProcesses(s);
  }

  // ----- What holds of every run -----

  lemma StepKeepsInv(s: System, a: Action)
    requires Inv(s) && Enabled(s, a)
    ensures Inv(Next(s, a))
  {
    hide Inv;
    match a
    case BrokerStep(m) => BrokerStepKeepsInv(s, m);
    case ShimStep(m) => ShimStepKeepsInv(s, m);
    case WorldStep(m) => WorldStepKeepsInv(s, m);
  }

  lemma {:induction false} RunKeepsInv(s: System, run: seq<Action>)
    requires Inv(s) && IsRun(s, run)
    ensures Inv(After(s, run))
    decreases |run|
  {
    hide Inv;
    if run != [] {
      StepKeepsInv(s, run[0]);
      RunKeepsInv(Next(s, run[0]), run[1..]);
    }
  }

  lemma RunIsSound(s: System, run: seq<Action>)
    requires Start(s) && IsRun(s, run)
    ensures Inv(After(s, run))
  {
    assert Inv(s);
    RunKeepsInv(s, run);
  }

  /** The loader is started only after the shim accepted the broker's own offer, and the broker read
      its nonce back and then wrote the word that authorizes the launch. */
  lemma LoaderNeedsAuthorization(s: System, run: seq<Action>)
    requires Start(s) && IsRun(s, run) && After(s, run).shim.loader.Some?
    ensures var t := After(s, run);
      && t.shim.got == OfferOf(t.setup) && AcceptsOffer(t.setup, t.shim.got)
      && t.toBroker.read >= 1 && |t.toBroker.sent| >= 1 && t.toBroker.sent[0] == Nonce(t.setup.nonce)
      && |t.toShim.sent| > OFFER_FIELDS && t.toShim.sent[OFFER_FIELDS] == Launch
  {
    RunIsSound(s, run);
    var t := After(s, run);
    assert t.toShim.sent[..OFFER_FIELDS] == BrokerScript(t.setup)[..OFFER_FIELDS] == OfferOf(t.setup);
  }

  /** The broker opens a session only for the process the shim has retained: a game whose parent id is
      the loader's, created no earlier than the loader, and a child of that very loader whenever it was
      created later, however process ids are reused. */
  lemma SessionIsTheOwnedGame(s: System, run: seq<Action>)
    requires Start(s) && IsRun(s, run) && After(s, run).broker.SessionOpen?
    ensures var t := After(s, run);
      && t.shim.game == Some(t.broker.process)
      && t.shim.loader.Some? && IsOwned(t.world, t.shim.loader.value, t.broker.process)
  {
    RunIsSound(s, run);
  }

  /** A shim that has finished has seen the end of the game it retained, or, retaining none, of the
      loader it started and of a game it found afterwards; unless waiting itself failed. */
  lemma ShimOutlivesWhatItStarted(s: System, run: seq<Action>)
    requires Start(s) && IsRun(s, run)
    ensures var t := After(s, run);
      t.shim.stage.Finished? && !t.shim.waitFailed ==>
        && (t.shim.game.Some? ==> t.shim.game.value !in t.world.running)
        && (t.shim.loader.Some? && t.shim.game.None? ==> t.shim.loader.value !in t.world.running)
        && (t.shim.cleanup.Some? ==> t.shim.cleanup.value !in t.world.running)
  {
    RunIsSound(s, run);
  }

  /** When the broker reports the shim's refusal, the shim has retained no game; and when the shim
      exits successfully, the broker had confirmed the game and the game has exited. */
  lemma OutcomesAgree(s: System, run: seq<Action>)
    requires Start(s) && IsRun(s, run)
    ensures var t := After(s, run);
      && (t.broker == BrokerFailed(true) ==> t.shim.game.None?)
      && (t.shim.stage == Finished(true) ==>
            && t.toShim.sent == BrokerScript(t.setup)
            && t.shim.game.Some? && t.shim.game.value !in t.world.running)
  {
    RunIsSound(s, run);
    var t := After(s, run);
    if t.shim.game.Some? && |t.toBroker.sent| > 1 {
      assert t.toBroker.sent[1] == t.toBroker.sent[1..][0] == Owned;
    }
  }

  // ----- An undisturbed handshake succeeds -----

  // Some run leads from s to t.
  ghost predicate Leads(s: System, t: System) { exists run :: IsRun(s, run) && After(s, run) == t }

  lemma {:induction false} RunsJoin(s: System, one: seq<Action>, two: seq<Action>)
    requires IsRun(s, one) && IsRun(After(s, one), two)
    ensures IsRun(s, one + two) && After(s, one + two) == After(After(s, one), two)
    decreases |one|
  {
    hide Next, Enabled;
    if one == [] {
      assert one + two == two;
    } else {
      RunsJoin(Next(s, one[0]), one[1..], two);
      assert (one + two)[1..] == one[1..] + two;
    }
  }

  lemma LeadsOn(s: System, t: System, a: Action)
    requires Leads(s, t) && Enabled(t, a)
    ensures Leads(s, Next(t, a))
  {
    hide Next, Enabled;
    var run :| IsRun(s, run) && After(s, run) == t;
    assert [a][1..] == [];
    assert IsRun(t, [a]) && After(t, [a]) == Next(t, a);
    RunsJoin(s, run, [a]);
    assert IsRun(s, run + [a]);
  }

  lemma LeadsNowhere(s: System)
    ensures Leads(s, s)
  {
    assert IsRun(s, []) && After(s, []) == s;
  }

  // The state after k fields of the offer have been written and read.
  function Offered(s: System, k: nat): System
    requires k <= OFFER_FIELDS
  {
    var sent := OfferOf(s.setup)[..k];
    s.(broker := if k == OFFER_FIELDS then AwaitingEcho else Offering(k),
       toShim := Channel(sent, k), shim := s.shim.(got := sent))
  }

  lemma {:induction false} OfferArrives(s: System, k: nat)
    requires Start(s) && k <= OFFER_FIELDS
    ensures Leads(s, Offered(s, k))
    decreases k
  {
    if k == 0 {
      LeadsNowhere(s);
      assert Offered(s, 0) == s;
    } else {
      OfferArrives(s, k - 1);
      var t := Offered(s, k - 1);
      LeadsOn(s, t, BrokerStep(BWrite));
      var u := Next(t, BrokerStep(BWrite));
      LeadsOn(s, u, ShimStep(SRead));
      assert OfferOf(s.setup)[..k] == OfferOf(s.setup)[..k - 1] + [OfferOf(s.setup)[k - 1]];
      assert Next(u, ShimStep(SRead)) == Offered(s, k);
    }
  }

  // The launch is authorized.
  function AuthorizedAt(s: System): System {
    var offer := OfferOf(s.setup);
    s.(broker := AwaitingOutcome, toShim := Channel(offer + [Launch], 8),
       toBroker := Channel([Nonce(s.setup.nonce)], 1),
       shim := s.shim.(got := offer, stage := Authorized))
  }

  // The shim has sent the nonce back and the broker has read it.
  function EchoedAt(s: System): System {
    var offer := OfferOf(s.setup);
    s.(broker := Authorizing, toShim := Channel(offer, 7), toBroker := Channel([Nonce(s.setup.nonce)], 1),
       shim := s.shim.(got := offer, stage := AwaitingLaunch))
  }

  lemma OfferIsEchoed(s: System)
    requires Start(s) && s.setup.brokerGame == s.setup.shimGame
    ensures Leads(s, EchoedAt(s))
  {
    hide Leads, Start;
    OfferArrives(s, OFFER_FIELDS);
    StartsEmpty(s);
    var offer := OfferOf(s.setup);
    assert offer[..OFFER_FIELDS] == offer;
    var t0 := Offered(s, OFFER_FIELDS);
    var t1 := t0.(shim := t0.shim.(stage := Echoing));
    var t2 := t1.(shim := t1.shim.(stage := AwaitingLaunch), toBroker := Channel([Nonce(s.setup.nonce)], 0));
    assert [] + [Nonce(s.setup.nonce)] == [Nonce(s.setup.nonce)];
    LeadsOn(s, t0, ShimStep(SAccept));
    assert Next(t0, ShimStep(SAccept)) == t1;
    LeadsOn(s, t1, ShimStep(SWrite));
    assert Next(t1, ShimStep(SWrite)) == t2;
    LeadsOn(s, t2, BrokerStep(BRead));
  }

  lemma LaunchIsAuthorized(s: System)
    requires Start(s) && s.setup.brokerGame == s.setup.shimGame
    ensures Leads(s, AuthorizedAt(s))
  {
    OfferIsEchoed(s);
    hide Leads, Start, AcceptsOffer;
    var t0 := EchoedAt(s);
    var t1 := t0.(broker := AwaitingOutcome, toShim := Channel(OfferOf(s.setup) + [Launch], 7));
    LeadsOn(s, t0, BrokerStep(BWrite));
    assert Next(t0, BrokerStep(BWrite)) == t1;
    LeadsOn(s, t1, ShimStep(SRead));
  }

  lemma StartsEmpty(s: System)
    requires Start(s)
    ensures s.shim == Shim(Reading, [], None, None, 0, None, map[], false) && s.toBroker == Channel([], 0)
  {}

  // The loader and its game have been started and the game has been retained; the ids are new.
  function RetainedAt(s: System, l: Process, loader: nat, g: Process, game: nat): System {
    s.(world := World(s.world.procs[loader := l][game := g], s.world.running + {loader} + {game}, s.world.now),
       shim := s.shim.(stage := Reporting(0), loader := Some(loader), game := Some(game), gameHandle := 1,
                       handles := map[0 := loader, 1 := game]))
  }

  ghost predicate NoGameRuns(w: World) { forall id <- w.running :: !IsGame(w, id) }

  lemma GameIsRetained(s: System, loader: nat, pid: nat, game: nat, gamePid: nat)
    requires s.shim.stage == Authorized && s.shim.loader.None? && s.shim.handles == map[] && s.broker == AwaitingOutcome
    requires SoundWorld(s.world) && NoGameRuns(s.world)
    requires loader !in s.world.procs && game !in s.world.procs && loader != game
    requires FreePid(s, pid) && FreePid(s, gamePid) && pid != gamePid
    ensures Leads(s, RetainedAt(s, Process(pid, loader, 0, s.world.now, false), loader,
                                Process(gamePid, loader, pid, s.world.now, true), game))
  {
    LeadsNowhere(s);
    var l, g := Process(pid, loader, 0, s.world.now, false), Process(gamePid, loader, pid, s.world.now, true);
    var t1 := Staged(s, Cleared);
    LeadsOn(s, s, ShimStep(SClear));
    assert FreePid(t1, pid);
    var t2 := LoaderStarted(t1, loader, pid);
    StillFree(s, t2, pid, gamePid, loader);
    hide Leads, FreePid, SoundWorld;
    LoaderIsStarted(s, t1, loader, pid);
    var t3 := t2.(world := Started(t2.world, game, g));
    ChildIsStarted(s, t2, loader, game, gamePid, true);
    GameIsFound(s, t3, loader, game);
  }

  function LoaderStarted(s: System, loader: nat, pid: nat): System {
    s.(world := Started(s.world, loader, Process(pid, loader, 0, s.world.now, false)),
       shim := s.shim.(stage := Acquiring, loader := Some(loader), handles := map[0 := loader]))
  }

  lemma LoaderIsStarted(s: System, t: System, loader: nat, pid: nat)
    requires Leads(s, t) && t.shim.stage == Cleared && t.shim.handles == map[]
    requires loader !in t.world.procs && FreePid(t, pid)
    ensures Leads(s, LoaderStarted(t, loader, pid))
  {
    hide Leads, FreePid;
    LeadsOn(s, t, ShimStep(SStartLoader(loader, pid, 0)));
    assert map[][0 := loader] == map[0 := loader];
  }

  lemma ChildIsStarted(s: System, t: System, parent: nat, id: nat, pid: nat, isGame: bool)
    requires Leads(s, t) && parent in t.world.running && parent in t.world.procs && id !in t.world.procs
             && FreePid(t, pid)
    ensures var p := Process(pid, parent, t.world.procs[parent].pid, t.world.now, isGame);
      Leads(s, t.(world := Started(t.world, id, p)))
  {
    hide Leads, FreePid;
    LeadsOn(s, t, WorldStep(Spawn(id, parent, pid, isGame)));
  }

  // The only running game, of the loader's process id, is found and retained.
  lemma GameIsFound(s: System, t: System, loader: nat, game: nat)
    requires Leads(s, t) && t.shim.stage == Acquiring && t.shim.loader == Some(loader)
             && t.shim.handles == map[0 := loader]
    requires IsGame(t.world, game) && (forall id <- t.world.running :: IsGame(t.world, id) ==> id == game)
    requires Direct(t.world, loader, game)
    ensures Leads(s, t.(shim := t.shim.(stage := Reporting(0), game := Some(game), gameHandle := 1,
                                        handles := map[0 := loader, 1 := game])))
  {
    hide Leads, Direct;
    LeadsOn(s, t, ShimStep(SFind(game)));
    var found := Staged(t, Found(game));
    assert Next(t, ShimStep(SFind(game))) == found;
    LeadsOn(s, found, ShimStep(SRetain(1)));
    assert map[0 := loader][1 := game] == map[0 := loader, 1 := game];
  }

  lemma StillFree(s: System, t: System, pid: nat, gamePid: nat, loader: nat)
    requires FreePid(s, gamePid) && gamePid != pid && s.broker == t.broker == AwaitingOutcome
    requires t.world.procs == s.world.procs[loader := Process(pid, loader, 0, s.world.now, false)]
             && t.world.now == s.world.now
    requires t.world.running == s.world.running + {loader} && loader !in s.world.procs
    requires s.shim.handles == map[] && t.shim.handles == map[0 := loader]
    ensures FreePid(t, gamePid)
  {}

  // The report has arrived and the broker has opened its session.
  function HandedOver(s: System, sent: seq<Field>, game: nat): System {
    s.(broker := SessionOpen(game), toBroker := Channel(sent, 6), toShim := Channel(s.toShim.sent + [Retained], 9),
       shim := s.shim.(stage := WaitingForGame(true)))
  }

  lemma ReportIsAccepted(s: System)
    requires s.shim.stage == Reporting(0) && s.broker == AwaitingOutcome && AcceptsOffer(s.setup, s.shim.got)
    requires s.shim.got[1] == Nonce(s.setup.nonce) && s.toBroker == Channel([Nonce(s.setup.nonce)], 1)
    requires |s.toShim.sent| == 8 == s.toShim.read
    requires s.shim.game.Some? && IsGame(s.world, s.shim.game.value)
    requires s.shim.gameHandle in s.shim.handles && s.shim.handles[s.shim.gameHandle] == s.shim.game.value
    ensures Leads(s, HandedOver(s, [Nonce(s.setup.nonce)] + Report(s.world, s.shim), s.shim.game.value))
  {
    var game := s.shim.game.value;
    var g, h := s.world.procs[game], s.shim.gameHandle;
    var all := [Nonce(s.setup.nonce)] + Report(s.world, s.shim);
    ReportedUpTo(s, all, g, h, 6);
    hide Report, Leads, AcceptsOffer;
    GameIsHandedOver(s, all, g, h, game);
  }

  // Where the broker is after n fields of the shim's, if all are as they should be.
  function BrokerAt(g: Process, h: nat, n: nat): Broker {
    match n
    case 1 => AwaitingOutcome
    case 2 => AwaitingNonce
    case 3 => AwaitingPid
    case 4 => AwaitingCreation(g.pid)
    case 5 => AwaitingHandle(g.pid, g.creation)
    case _ => Duplicating(g.pid, g.creation, h)
  }

  lemma {:induction false} ReportedUpTo(s: System, all: seq<Field>, g: Process, h: nat, n: nat)
    requires s.shim.stage == Reporting(0) && s.broker == AwaitingOutcome && AcceptsOffer(s.setup, s.shim.got)
    requires s.shim.got[1] == Nonce(s.setup.nonce) && s.toBroker == Channel([Nonce(s.setup.nonce)], 1)
    requires s.shim.game.Some? && s.shim.game.value in s.world.procs
    requires g == s.world.procs[s.shim.game.value] && h == s.shim.gameHandle
    requires all == [Nonce(s.setup.nonce)] + Report(s.world, s.shim) && 1 <= n <= 6
    ensures Leads(s, AtReport(s, all, n, BrokerAt(g, h, n)))
    decreases n
  {
    if n == 1 {
      LeadsNowhere(s);
      assert all[..1] == [Nonce(s.setup.nonce)];
    } else {
      ReportedUpTo(s, all, g, h, n - 1);
      BrokerUnderstands(s, all, g, h, n - 1);
      assert all[1..] == Report(s.world, s.shim);
      var before, after := BrokerAt(g, h, n - 1), BrokerAt(g, h, n);
      hide Report, Leads, AcceptsOffer, BrokerReads;
      OneReported(s, AtReport(s, all, n - 1, before), all, n - 1, before, after);
    }
  }

  lemma BrokerUnderstands(s: System, all: seq<Field>, g: Process, h: nat, n: nat)
    requires AcceptsOffer(s.setup, s.shim.got) && s.shim.got[1] == Nonce(s.setup.nonce)
    requires s.shim.game.Some? && s.shim.game.value in s.world.procs
    requires g == s.world.procs[s.shim.game.value] && h == s.shim.gameHandle
    requires all == [Nonce(s.setup.nonce)] + Report(s.world, s.shim) && 1 <= n < 6
    ensures BrokerReads(s.(broker := BrokerAt(g, h, n)), all[n]) == BrokerAt(g, h, n + 1)
  {}

  // From the report's arrival on: the broker takes the game over, and the shim reads so.
  lemma GameIsHandedOver(s: System, all: seq<Field>, g: Process, h: nat, game: nat)
    requires |all| == 6 && Leads(s, AtReport(s, all, 6, Duplicating(g.pid, g.creation, h)))
    requires |s.toShim.sent| == 8 == s.toShim.read
    requires IsGame(s.world, game) && s.world.procs[game] == g && h in s.shim.handles && s.shim.handles[h] == game
    ensures Leads(s, HandedOver(s, all, game))
  {
    hide Leads;
    var t0 := AtReport(s, all, 6, Duplicating(g.pid, g.creation, h));
    var t1 := t0.(broker := Verifying(g.pid, g.creation, game));
    var t2 := t0.(broker := Confirming(game));
    var t3 := t0.(broker := Confirmed(game), toShim := Channel(s.toShim.sent + [Retained], 8));
    var t4 := t3.(broker := SessionOpen(game));
    LeadsOn(s, t0, BrokerStep(BDuplicate));
    assert Next(t0, BrokerStep(BDuplicate)) == t1;
    LeadsOn(s, t1, BrokerStep(BVerify));
    assert Next(t1, BrokerStep(BVerify)) == t2;
    LeadsOn(s, t2, BrokerStep(BWrite));
    assert Next(t2, BrokerStep(BWrite)) == t3;
    LeadsOn(s, t3, BrokerStep(BOpen));
    LeadsOn(s, t4, ShimStep(SRead));
    assert all[..6] == all;
    assert Next(t4, ShimStep(SRead)) == HandedOver(s, all, game);
  }

  // The state after the broker has read the first n fields of the shim's.
  function AtReport(s: System, all: seq<Field>, n: nat, broker: Broker): System
    requires 1 <= n <= |all| == 6
  {
    s.(broker := broker, toBroker := Channel(all[..n], n),
       shim := s.shim.(stage := if n == 6 then AwaitingRetained else Reporting(n - 1)))
  }

  lemma OneReported(s: System, t: System, all: seq<Field>, n: nat, before: Broker, after: Broker)
    requires |all| == 6 && 1 <= n < 6 && t == AtReport(s, all, n, before) && Leads(s, t)
    requires AcceptsOffer(s.setup, s.shim.got) && s.shim.game.Some? && s.shim.game.value in s.world.procs
    requires all[1..] == Report(s.world, s.shim)
    requires before.AwaitingOutcome? || before.AwaitingNonce? || before.AwaitingPid? || before.AwaitingCreation?
             || before.AwaitingHandle?
    requires BrokerReads(s.(broker := before), all[n]) == after
    ensures Leads(s, AtReport(s, all, n + 1, after))
  {
    hide Leads, AcceptsOffer;
    assert all[n] == all[1..][n - 1];
    assert all[..n + 1] == all[..n] + [all[n]];
    LeadsOn(s, t, ShimStep(SWrite));
    var u := AtReport(s, all, n + 1, before).(toBroker := Channel(all[..n + 1], n));
    assert Next(t, ShimStep(SWrite)) == u;
    LeadsOn(s, u, BrokerStep(BRead));
  }

  lemma LeadsFurther(s: System, t: System, u: System)
    requires Leads(s, t) && Leads(t, u)
    ensures Leads(s, u)
  {
    hide Next, Enabled;
    var one :| IsRun(s, one) && After(s, one) == t;
    var two :| IsRun(t, two) && After(t, two) == u;
    RunsJoin(s, one, two);
    assert IsRun(s, one + two);
  }

  // An authorized shim whose checks a game of another parent passes.
  function OrphanAt(s: System, former: nat, l: Process, loader: nat, g: Process, game: nat): System {
    s.(world := World(s.world.procs[game := g][loader := l],
                      s.world.running + {game} - {former} + {loader}, s.world.now),
       shim := s.shim.(stage := Reporting(0), loader := Some(loader), game := Some(game), gameHandle := 1,
                       handles := map[0 := loader, 1 := game]))
  }

  // The only process that has ever had its id, and not created at this very tick.
  ghost predicate AloneWithItsPid(w: World, id: nat) {
    && id in w.running && id in w.procs && w.procs[id].creation < w.now
    && forall x <- w.procs.Keys :: w.procs[x].pid == w.procs[id].pid ==> x == id
  }

  lemma OrphanIsRetained(s: System, former: nat, loader: nat, game: nat, gamePid: nat)
    requires s.shim.stage == Authorized && s.shim.loader.None? && s.shim.handles == map[] && s.broker == AwaitingOutcome
    requires SoundWorld(s.world) && NoGameRuns(s.world) && AloneWithItsPid(s.world, former)
    requires loader !in s.world.procs && game !in s.world.procs && loader != game
    requires FreePid(s, gamePid) && gamePid != s.world.procs[former].pid
    ensures var pid := s.world.procs[former].pid;
      Leads(s, OrphanAt(s, former, Process(pid, loader, 0, s.world.now, false), loader,
                        Process(gamePid, former, pid, s.world.now, true), game))
  {
    LeadsNowhere(s);
    var pid := s.world.procs[former].pid;
    var l, g := Process(pid, loader, 0, s.world.now, false), Process(gamePid, former, pid, s.world.now, true);
    var t1 := Staged(s, Cleared);
    LeadsOn(s, s, ShimStep(SClear));
    var t2 := t1.(world := Started(t1.world, game, g));
    var t3 := t2.(world := t2.world.(running := t2.world.running - {former}));
    var t4 := LoaderStarted(t3, loader, pid);
    assert FreePid(t1, gamePid) && FreePid(t3, pid);
    assert IsGame(t4.world, game) && forall id <- t4.world.running :: IsGame(t4.world, id) ==> id == game;
    hide Leads, FreePid, SoundWorld, AloneWithItsPid;
    ChildIsStarted(s, t1, former, game, gamePid, true);
    LeadsOn(s, t2, WorldStep(Exit(former)));
    assert Next(t2, WorldStep(Exit(former))) == t3;
    LoaderIsStarted(s, t3, loader, pid);
    GameIsFound(s, t4, loader, game);
  }

  // From an authorized launch and a retained game on, the session can be opened.
  lemma SessionFollows(s: System, t: System, u: System)
    requires Start(s) && s.setup.brokerGame == s.setup.shimGame && t == AuthorizedAt(s) && Leads(t, u)
    requires u == t.(world := u.world,
                     shim := t.shim.(stage := Reporting(0), loader := u.shim.loader, game := u.shim.game,
                                     gameHandle := u.shim.gameHandle, handles := u.shim.handles))
    requires u.shim.game.Some? && IsGame(u.world, u.shim.game.value)
    requires u.shim.gameHandle in u.shim.handles && u.shim.handles[u.shim.gameHandle] == u.shim.game.value
    ensures exists run :: IsRun(s, run) && var v := After(s, run);
      && v.world == u.world && v.broker == SessionOpen(u.shim.game.value)
      && v.shim == u.shim.(stage := WaitingForGame(true))
  {
    LaunchIsAuthorized(s);
    AuthorizedSoFar(s);
    hide Leads, IsGame, AcceptsOffer, Start, AuthorizedAt, Report, IsRun, After;
    ReportIsAccepted(u);
    var v := HandedOver(u, [Nonce(s.setup.nonce)] + Report(u.world, u.shim), u.shim.game.value);
    LeadsFurther(s, t, u);
    LeadsFurther(s, u, v);
    RunOf(s, v);
  }

  lemma AuthorizedSoFar(s: System)
    requires s.setup.brokerGame == s.setup.shimGame
    ensures var t := AuthorizedAt(s);
      && t.setup == s.setup && t.broker == AwaitingOutcome && t.shim.stage == Authorized
      && t.toBroker == Channel([Nonce(s.setup.nonce)], 1) && |t.toShim.sent| == 8 == t.toShim.read
      && AcceptsOffer(s.setup, t.shim.got) && t.shim.got[1] == Nonce(s.setup.nonce)
  {}

  lemma RunOf(s: System, t: System)
    requires Leads(s, t)
    ensures exists run :: IsRun(s, run) && After(s, run) == t
  {}

  /** Creation at the loader's own clock tick proves nothing: a process that had the loader's id before,
      started a game, and exited all within that tick makes the broker own a game that is not the
      loader's child. */
  lemma EqualTimesProveNothing(s: System, former: nat, loader: nat, game: nat, gamePid: nat)
    requires Start(s) && s.setup.brokerGame == s.setup.shimGame && NoGameRuns(s.world)
             && AloneWithItsPid(s.world, former)
    requires loader !in s.world.procs && game !in s.world.procs && loader != game
    requires FreePid(s, gamePid) && gamePid != s.world.procs[former].pid
    ensures exists run :: IsRun(s, run) && var t := After(s, run);
      && t.broker == SessionOpen(game) && t.shim.loader == Some(loader) && loader in t.world.procs
      && game in t.world.procs
      && t.world.procs[game].parent == former != loader
      && t.world.procs[game].creation == t.world.procs[loader].creation
  {
    var t := AuthorizedAt(s);
    assert FreePid(t, gamePid);
    OrphanIsRetained(t, former, loader, game, gamePid);
    var pid := s.world.procs[former].pid;
    var u := OrphanAt(t, former, Process(pid, loader, 0, s.world.now, false), loader,
                      Process(gamePid, former, pid, s.world.now, true), game);
    hide IsRun, After, Leads, FreePid, Start;
    SessionFollows(s, t, u);
  }

  /** From every start in which both sides mean the same game and none is running, an undisturbed
      handshake is possible that ends with the broker's session open for the game the loader started,
      and with the shim waiting for that game. */
  lemma HandshakeCanSucceed(s: System, loader: nat, pid: nat, game: nat, gamePid: nat)
    requires Start(s) && s.setup.brokerGame == s.setup.shimGame && NoGameRuns(s.world)
    requires loader !in s.world.procs && game !in s.world.procs && loader != game
    requires FreePid(s, pid) && FreePid(s, gamePid) && pid != gamePid
    ensures exists run :: IsRun(s, run) && var t := After(s, run);
      && t.broker == SessionOpen(game) && t.shim.game == Some(game) && t.shim.stage == WaitingForGame(true)
      && IsGame(t.world, game) && t.world.procs[game].parent == loader
  {
    var t := AuthorizedAt(s);
    assert FreePid(t, pid) && FreePid(t, gamePid);
    GameIsRetained(t, loader, pid, game, gamePid);
    var u := RetainedAt(t, Process(pid, loader, 0, s.world.now, false), loader,
                        Process(gamePid, loader, pid, s.world.now, true), game);
    assert IsGame(u.world, game) && u.world.procs[game].parent == loader;
    hide IsRun, After, Leads, FreePid, Start;
    SessionFollows(s, t, u);
  }
}
