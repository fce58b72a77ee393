/**
 * The VR planner: tracked head and hand samples plus the recorded controller events become one
 * atomic frame sequence. Every event gets a frame of its own, moved forward as little as the
 * strictly increasing frame clock requires, that holds the last sampled pose.
 */
module ControllerReplay {
  import opened Wrappers
  import opened Activity

  const MAX_FRAMES := 60000
  const MAX_DURATION_MS := 1800000
  const TAIL_MS := 50

  // pressed and touched: the numbers of the bits set in the two 64-bit masks.
  datatype Controller = Controller(packetNumber: nat, pressed: set<int>, touched: set<int>, axes: seq<(real, real)>)

  datatype Device = Device(index: int, controller: Option<Controller>)

  // A sample's content; its time is its key in the timeline.
  datatype Tracked = Tracked(hmd: Option<string>, left: Option<Device>, right: Option<Device>)

  datatype Sample = Sample(tMs: Option<int>, tracked: Tracked)

  datatype Frame = Frame(tMs: int, seqNo: nat, hmd: string, left: Device, right: Device)

  // Why a capture cannot be replayed.
  datatype Problem =
    | MissingTime
    | TimeOutOfRange
    | DuplicateTime
    | NoFrameForTimeZero
    | BadEventTime
    | TooManyFrames
    | TooLate
    | IncompleteSample

  type Timeline = map<int, Tracked>

  ghost predicate InRange(timeline: Timeline) {
    forall t :: t in timeline ==> 0 <= t <= MAX_DURATION_MS
  }

  // ----- Samples -----

  ghost predicate SamplesAccepted(samples: seq<Sample>, n: nat)
    requires n <= |samples|
  {
    && (forall i :: 0 <= i < n ==> samples[i].tMs.Some? && 0 <= samples[i].tMs.value <= MAX_DURATION_MS)
    && (forall i, j :: 0 <= i < j < n ==> samples[i].tMs != samples[j].tMs)
  }

  // The timeline holds exactly the first n samples.
  ghost predicate Holds(timeline: Timeline, samples: seq<Sample>, n: nat)
    requires n <= |samples| && SamplesAccepted(samples, n)
  {
    && |timeline| == n
    && (forall i :: 0 <= i < n ==>
          samples[i].tMs.value in timeline && timeline[samples[i].tMs.value] == samples[i].tracked)
    && (forall t :: t in timeline ==> exists i :: 0 <= i < n && samples[i].tMs == Some(t))
  }

  predicate TimeInRange(s: Sample) { s.tMs.Some? && 0 <= s.tMs.value <= MAX_DURATION_MS }

  // One more sample is accepted exactly if its time is in range and new, and is then held as well.
  lemma OneMoreSample(timeline: Timeline, samples: seq<Sample>, n: nat)
    requires n < |samples| && SamplesAccepted(samples, n) && Holds(timeline, samples, n)
    ensures var s := samples[n];
      if TimeInRange(s) && s.tMs.value !in timeline then
        SamplesAccepted(samples, n + 1) && Holds(timeline[s.tMs.value := s.tracked], samples, n + 1)
      else !SamplesAccepted(samples, |samples|)
  {
    if samples[n].tMs.Some? && samples[n].tMs.value in timeline {
      var i :| 0 <= i < n && samples[i].tMs == samples[n].tMs;
    }
  }

  method LoadSamples(samples: seq<Sample>) returns (r: Result<Timeline, Problem>)
    ensures r.Success? <==> SamplesAccepted(samples, |samples|)
    ensures r.Success? ==> Holds(r.value, samples, |samples|)
  {
    var timeline: Timeline := map[];
    for n := 0 to |samples|
      invariant SamplesAccepted(samples, n) && Holds(timeline, samples, n)
    {
      OneMoreSample(timeline, samples, n);
      hide SamplesAccepted, Holds;
      if samples[n].tMs.None? {
        return Failure(MissingTime);
      }
      var t := samples[n].tMs.value;
      if t < 0 || t > MAX_DURATION_MS {
        return Failure(TimeOutOfRange);
      }
      if t in timeline {
        return Failure(DuplicateTime);
      }
      timeline := timeline[t := samples[n].tracked];
    }
    r := Success(timeline);
  }

  // The least key of a timeline, where the std::map begins.
  ghost predicate IsFirst(timeline: Timeline, t: int) {
    t in timeline && forall k :: k in timeline ==> t <= k
  }

  // The first complete set is defined at time zero.
  ghost predicate Anchored(base: Timeline, timeline: Timeline) {
    if 0 in timeline then base == timeline
    else exists t :: IsFirst(timeline, t) && base == timeline[0 := timeline[t]]
  }

  method AddTimeZero(timeline: Timeline, ghost some: int) returns (r: Result<Timeline, Problem>)
    requires some in timeline && InRange(timeline)
    ensures r.Failure? <==> 0 !in timeline && |timeline| >= MAX_FRAMES
    ensures r.Success? ==> InRange(r.value) && 0 in r.value && Anchored(r.value, timeline)
  {
    if 0 in timeline {
      return Success(timeline);
    }
    if |timeline| >= MAX_FRAMES {
      return Failure(NoFrameForTimeZero);
    }
    var t := 0;
    while t !in timeline
      invariant 0 <= t <= some
      invariant forall k :: k in timeline ==> t <= k
      decreases some - t
    {
      t := t + 1;
    }
    r := Success(timeline[0 := timeline[t]]);
  }

  // ----- Replay times -----

  // The first time from t on that no sample occupies.
  function FirstFree(taken: set<int>, t: int): (free: int)
    ensures t <= free && free !in taken
    ensures forall k :: t <= k < free ==> k in taken
    decreases |set x | x in taken && x >= t|
  {
    if t !in taken then t
    else
      assert (set x | x in taken && x >= t + 1) == (set x | x in taken && x >= t) - {t};
      FirstFree(taken, t + 1)
  }

  function SourceMs(e: Event): int { Max(0, Time(e)) }

  function ReplayTimes(taken: set<int>, events: seq<Event>, last: int): seq<int> {
    if events == [] then []
    else
      var t := FirstFree(taken, Max(SourceMs(events[0]), last + 1));
      [t] + ReplayTimes(taken, events[1..], t)
  }

  // Replay times that keep the events in order, never early, and clear of every sample.
  ghost predicate Admissible(taken: set<int>, events: seq<Event>, last: int, times: seq<int>) {
    && |times| == |events|
    && (forall i :: 0 <= i < |times| ==> times[i] > last && times[i] >= SourceMs(events[i]) && times[i] !in taken)
    && (forall i, j :: 0 <= i < j < |times| ==> times[i] < times[j])
  }

  lemma {:induction false} ReplayTimesAdmissible(taken: set<int>, events: seq<Event>, last: int)
    ensures Admissible(taken, events, last, ReplayTimes(taken, events, last))
  {
    if events != [] {
      var t := FirstFree(taken, Max(SourceMs(events[0]), last + 1));
      ReplayTimesAdmissible(taken, events[1..], t);
    }
  }

  /** The greedy times are pointwise the earliest of all admissible ones. */
  lemma {:induction false} ReplayTimesLeast(taken: set<int>, events: seq<Event>, last: int, others: seq<int>)
    requires Admissible(taken, events, last, others)
    ensures var times := ReplayTimes(taken, events, last);
      |times| == |others| && forall i :: 0 <= i < |times| ==> times[i] <= others[i]
  {
    if events != [] {
      var t := FirstFree(taken, Max(SourceMs(events[0]), last + 1));
      assert t <= others[0];
      assert Admissible(taken, events[1..], t, others[1..]) by {
        forall i | 0 <= i < |others| - 1 ensures others[1..][i] > t { assert others[i + 1] > others[0]; }
      }
      ReplayTimesLeast(taken, events[1..], t, others[1..]);
    }
  }

  ghost predicate Fits(times: seq<int>) {
    forall i :: 0 <= i < |times| ==> times[i] <= MAX_DURATION_MS
  }

  /** Refusing for lack of time is exact: then no admissible assignment fits the duration limit. */
  lemma TimesFitExactlyWhenPossible(taken: set<int>, events: seq<Event>)
    ensures Fits(ReplayTimes(taken, events, -1)) <==>
      exists times :: Admissible(taken, events, -1, times) && Fits(times)
  {
    ReplayTimesAdmissible(taken, events, -1);
    if times :| Admissible(taken, events, -1, times) && Fits(times) {
      ReplayTimesLeast(taken, events, -1, times);
    }
  }

  // ----- Inserted frames -----

  function LatestKey(timeline: Timeline, t: int): (k: int)
    requires 0 in timeline && t >= 0
    ensures 0 <= k <= t && k in timeline
    ensures forall j :: k < j <= t ==> j !in timeline
    decreases t
  {
    if t in timeline then t else LatestKey(timeline, t - 1)
  }

  // Every frame of a timeline grown from base holds the latest sample of base at or before it.
  ghost predicate HoldsPoses(timeline: Timeline, base: Timeline)
    requires 0 in base
  {
    && base.Keys <= timeline.Keys && InRange(timeline)
    && forall t :: t in timeline ==> timeline[t] == base[LatestKey(base, t)]
  }

  method InsertHeldFrame(timeline: Timeline, t: int, ghost base: Timeline) returns (r: Timeline)
    requires 0 in base && HoldsPoses(timeline, base)
    requires 0 <= t <= MAX_DURATION_MS && t !in timeline
    ensures r.Keys == timeline.Keys + {t} && HoldsPoses(r, base)
  {
    var after := t;
    while after !in timeline
      invariant 0 <= after <= t
      invariant forall j :: after < j <= t ==> j !in timeline
      decreases after
    {
      after := after - 1;
    }
    r := timeline[t := timeline[after]];
    assert LatestKey(base, t) == LatestKey(base, after);
  }

  // What the loop over the controller events leaves behind.
  datatype Placement = Placement(times: seq<int>, timeline: Timeline, adjusted: nat)

  function CountMoved(times: seq<int>, events: seq<Event>): nat
    requires |times| <= |events|
  {
    if times == [] then 0
    else
      var n := |times| - 1;
      CountMoved(times[..n], events) + if times[n] != SourceMs(events[n]) then 1 else 0
  }

  ghost predicate Placed(p: Placement, base: Timeline, events: seq<Event>)
    requires 0 in base
  {
    && p.times == ReplayTimes(base.Keys, events, -1)
    && (forall t :: t in p.timeline <==> t in base || t in p.times)
    && |p.timeline| == |base| + |events|
    && HoldsPoses(p.timeline, base)
    && |p.times| == |events| && p.adjusted == CountMoved(p.times, events)
  }

  // The first n events, placed at the first n of all; last is the latest of those times.
  ghost predicate PlacedSoFar(p: Placement, base: Timeline, events: seq<Event>, all: seq<int>, n: nat, last: int)
    requires 0 in base && n <= |events| == |all|
  {
    && p.times == all[..n] && last == (if n == 0 then -1 else all[n - 1])
    && (forall t :: t in p.timeline <==> t in base || t in p.times)
    && |p.timeline| == |base| + n
    && HoldsPoses(p.timeline, base) && InRange(p.timeline)
    && p.adjusted == CountMoved(p.times, events)
  }

  lemma FreeInEither(base: set<int>, grown: set<int>, start: int)
    requires base <= grown && forall t :: t in grown && t !in base ==> t < start
    ensures FirstFree(grown, start) == FirstFree(base, start)
  {
    var a, b := FirstFree(grown, start), FirstFree(base, start);
    assert a < b ==> a in base;
    assert b < a ==> b in grown;
  }

  lemma {:induction false} ReplayTimesSuffix(taken: set<int>, events: seq<Event>, last: int, n: nat)
    requires n < |events|
    ensures var all := ReplayTimes(taken, events, last);
      && |all| == |events|
      && all[n] == FirstFree(taken, Max(SourceMs(events[n]), (if n == 0 then last else all[n - 1]) + 1))
  {
    ReplayTimesAdmissible(taken, events, last);
    if n > 0 {
      var t := FirstFree(taken, Max(SourceMs(events[0]), last + 1));
      ReplayTimesSuffix(taken, events[1..], t, n - 1);
    }
  }

  lemma PlacedEarlier(p: Placement, base: Timeline, events: seq<Event>, all: seq<int>, n: nat, last: int)
    requires 0 in base && n <= |events| == |all| && PlacedSoFar(p, base, events, all, n, last)
    requires Admissible(base.Keys, events, -1, all)
    ensures forall t :: t in p.timeline && t !in base ==> t <= last
    ensures base.Keys <= p.timeline.Keys
  {
    forall t | t in p.timeline && t !in base ensures t <= last {
      var i :| 0 <= i < |p.times| && p.times[i] == t;
      assert i < n - 1 ==> all[i] < all[n - 1];
    }
  }

  lemma CountOneMore(times: seq<int>, t: int, events: seq<Event>)
    requires |times| < |events|
    ensures CountMoved(times + [t], events)
            == CountMoved(times, events) + if t != SourceMs(events[|times|]) then 1 else 0
  {
    assert (times + [t])[..|times|] == times;
  }

  lemma PlaceStep(p: Placement, grown: Timeline, base: Timeline, events: seq<Event>, all: seq<int>, n: nat, last: int)
    requires 0 in base && n < |events| == |all| && PlacedSoFar(p, base, events, all, n, last)
    requires all[n] !in p.timeline && grown.Keys == p.timeline.Keys + {all[n]} && HoldsPoses(grown, base)
    ensures PlacedSoFar(
      Placement(p.times + [all[n]], grown, p.adjusted + if all[n] != SourceMs(events[n]) then 1 else 0),
      base, events, all, n + 1, all[n])
  {
    assert InRange(grown);
    CountOneMore(p.times, all[n], events);
    hide HoldsPoses, SourceMs, CountMoved, InRange;
    var times := p.times + [all[n]];
    assert times == all[..n + 1];
    assert |grown.Keys| == |p.timeline.Keys| + 1;
    forall t
      ensures t in grown <==> t in base || t in times
    {
      assert t in grown <==> t in grown.Keys;
    }
  }

  lemma PlacedMeans(p: Placement, base: Timeline, events: seq<Event>, all: seq<int>, n: nat, last: int)
    requires 0 in base && n <= |events| == |all| && PlacedSoFar(p, base, events, all, n, last)
    ensures last == (if n == 0 then -1 else all[n - 1]) && |p.timeline| == |base| + n
    ensures HoldsPoses(p.timeline, base) && InRange(p.timeline)
  {}

  // The first free time of the grown timeline is the one the greedy assignment has here.
  lemma NextIsNth(p: Placement, base: Timeline, events: seq<Event>, all: seq<int>, n: nat, last: int)
    requires 0 in base && n < |events| == |all| && PlacedSoFar(p, base, events, all, n, last)
    requires all == ReplayTimes(base.Keys, events, -1) && Admissible(base.Keys, events, -1, all)
    ensures all[n] == FirstFree(p.timeline.Keys, Max(SourceMs(events[n]), last + 1))
    ensures 0 <= all[n] && all[n] !in p.timeline
  {
    PlacedMeans(p, base, events, all, n, last);
    hide FirstFree, ReplayTimes, HoldsPoses, PlacedSoFar, Admissible, InRange;
    PlacedEarlier(p, base, events, all, n, last);
    ReplayTimesSuffix(base.Keys, events, -1, n);
    FreeInEither(base.Keys, p.timeline.Keys, Max(SourceMs(events[n]), last + 1));
  }

  // The inner loop: the first free time, unless it lies past the duration limit.
  method NextFree(timeline: Timeline, start: int) returns (r: Option<int>)
    requires InRange(timeline)
    ensures r == if FirstFree(timeline.Keys, start) <= MAX_DURATION_MS
                 then Some(FirstFree(timeline.Keys, start)) else None
  {
    var replayMs := start;
    while replayMs in timeline
      invariant start <= replayMs
      invariant forall k :: start <= k < replayMs ==> k in timeline
      decreases MAX_DURATION_MS - replayMs
    {
      if replayMs >= MAX_DURATION_MS {
        return None;
      }
      replayMs := replayMs + 1;
    }
    if replayMs > MAX_DURATION_MS {
      return None;
    }
    r := Some(replayMs);
  }

  method PlaceEvent(p: Placement, event: Event, last: int,
                    ghost base: Timeline, ghost events: seq<Event>, ghost all: seq<int>, ghost n: nat)
    returns (r: Result<Placement, Problem>)
    requires 0 in base && n < |events| && event == events[n]
    requires all == ReplayTimes(base.Keys, events, -1) && Admissible(base.Keys, events, -1, all)
    requires PlacedSoFar(p, base, events, all, n, last)
    ensures r.Success? <==> |base| + n < MAX_FRAMES && all[n] <= MAX_DURATION_MS
    ensures r.Success? ==> PlacedSoFar(r.value, base, events, all, n + 1, all[n]) && r.value.times == p.times + [all[n]]
  {
    PlacedMeans(p, base, events, all, n, last);
    NextIsNth(p, base, events, all, n, last);
    hide *;
    if |p.timeline| >= MAX_FRAMES {
      return Failure(TooManyFrames);
    }
    var sourceMs := SourceMs(event);
    var next := NextFree(p.timeline, Max(sourceMs, last + 1));
    if next.None? {
      return Failure(TooLate);
    }
    var grown := InsertHeldFrame(p.timeline, next.value, base);
    PlaceStep(p, grown, base, events, all, n, last);
    r := Success(Placement(p.times + [next.value], grown, p.adjusted + if next.value != sourceMs then 1 else 0));
  }

  lemma NothingPlaced(base: Timeline, events: seq<Event>, all: seq<int>)
    requires 0 in base && InRange(base) && |all| == |events|
    ensures PlacedSoFar(Placement([], base, 0), base, events, all, 0, -1)
  {}

  lemma AllPlaced(p: Placement, base: Timeline, events: seq<Event>, all: seq<int>, last: int)
    requires 0 in base && |all| == |events| && all == ReplayTimes(base.Keys, events, -1)
    requires PlacedSoFar(p, base, events, all, |events|, last)
    ensures Placed(p, base, events)
  {
    hide HoldsPoses, CountMoved, ReplayTimes, InRange;
    assert all[..|events|] == all;
  }

  method PlaceEvents(base: Timeline, events: seq<Event>) returns (r: Result<Placement, Problem>)
    requires 0 in base && InRange(base)
    ensures r.Success? <==>
              (events == [] || |base| + |events| <= MAX_FRAMES) && Fits(ReplayTimes(base.Keys, events, -1))
    ensures r.Success? ==> Placed(r.value, base, events)
  {
    ghost var all := ReplayTimes(base.Keys, events, -1);
    ReplayTimesAdmissible(base.Keys, events, -1);
    assert |all| == |events|;
    var p := Placement([], base, 0);
    var last := -1;
    NothingPlaced(base, events, all);
    hide PlacedSoFar, Placed, Admissible, ReplayTimes, InRange;
    for n := 0 to |events|
      invariant PlacedSoFar(p, base, events, all, n, last) && |p.times| == n
      invariant n > 0 ==> |base| + n <= MAX_FRAMES
      invariant forall i :: 0 <= i < n ==> all[i] <= MAX_DURATION_MS
    {
      r := PlaceEvent(p, events[n], last, base, events, all, n);
      if r.Failure? {
        return;
      }
      last := r.value.times[n];
      p := r.value;
    }
    AllPlaced(p, base, events, all, last);
    r := Success(p);
  }

  // ----- Controller state -----

  datatype Role = Left | Right | Unknown

  const NEUTRAL := Controller(0, {}, {}, CENTRED)
  const CENTRED: seq<(real, real)> := [(0.0, 0.0), (0.0, 0.0), (0.0, 0.0), (0.0, 0.0), (0.0, 0.0)]

  predicate Complete(f: Tracked) { f.hmd.Some? && f.left.Some? && f.right.Some? }

  // The hand an event acts on, and whether only the old device label told.
  function ControllerRole(e: Event, f: Tracked): (Role, bool)
    requires Complete(f)
  {
    if e.wandIndex.Some? && f.left.value.index == e.wandIndex.value then (Left, false)
    else if e.wandIndex.Some? && f.right.value.index == e.wandIndex.value then (Right, false)
    else if EndsWith(e.device, "Primary") then (Right, true)
    else if EndsWith(e.device, "Secondary") then (Left, true)
    else (Unknown, false)
  }

  function NextPacket(n: nat): nat { (n + 1) % 0x1_0000_0000 }

  // None: the event is unsupported and changes nothing.
  function ApplyControllerEvent(c: Controller, e: Event): Option<Controller> {
    if e.eventType == "button" then
      var id := e.idCode.GetOr(-1);
      if id < 0 || id >= 64 then None
      else if e.state == "down" || e.state == "held" || (e.state == "changed" && e.value.GetOr(0.0) > 0.0) then
        Some(c.(pressed := c.pressed + {id}, touched := c.touched + {id}, packetNumber := NextPacket(c.packetNumber)))
      else if e.state == "up" || e.value.GetOr(1.0) <= 0.0 then
        Some(c.(pressed := c.pressed - {id}, touched := c.touched - {id}, packetNumber := NextPacket(c.packetNumber)))
      else None
    else if e.eventType == "thumbstick" && e.x.Some? && e.y.Some? then
      var axes := if |c.axes| == 5 then c.axes else CENTRED;
      Some(c.(axes := axes[0 := (e.x.value, e.y.value)], packetNumber := NextPacket(c.packetNumber)))
    else None
  }

  // Both hands, and how the events so far fared.
  datatype Hands = Hands(left: Controller, right: Controller, converted: nat, unsupported: nat, fallback: nat)

  const AT_REST := Hands(NEUTRAL, NEUTRAL, 0, 0, 0)

  function ApplyEvent(h: Hands, e: Event, f: Tracked): Hands
    requires Complete(f)
  {
    var (role, guessed) := ControllerRole(e, f);
    var h' := if guessed then h.(fallback := h.fallback + 1) else h;
    var before := if role == Left then h.left else h.right;
    var after := if role == Unknown then None else ApplyControllerEvent(before, e);
    if after.None? then h'.(unsupported := h'.unsupported + 1)
    else if role == Left then h'.(left := after.value, converted := h'.converted + 1)
    else h'.(right := after.value, converted := h'.converted + 1)
  }

  // A frame that was sampled with controller state sets it exactly.
  function Sampled(h: Hands, f: Tracked): Hands
    requires Complete(f)
  {
    h.(left := f.left.value.controller.GetOr(h.left), right := f.right.value.controller.GetOr(h.right))
  }

  // How many replay times have come at time t.
  function Due(times: seq<int>, t: int): (n: nat)
    ensures n <= |times|
  {
    if times == [] || times[0] > t then 0 else 1 + Due(times[1..], t)
  }

  ghost predicate AllComplete(timeline: Timeline) {
    forall t :: t in timeline ==> Complete(timeline[t])
  }

  function ApplyDue(h: Hands, events: seq<Event>, from: nat, end: nat, f: Tracked): Hands
    requires from <= end <= |events| && Complete(f)
    decreases end
  {
    if from == end then h else ApplyEvent(ApplyDue(h, events, from, end - 1, f), events[end - 1], f)
  }

  // Both hands once the frame at t, or the latest before it, has been emitted.
  ghost function HandsAt(timeline: Timeline, events: seq<Event>, times: seq<int>, t: int): Hands
    requires |times| == |events|
    decreases Max(0, t + 1)
  {
    if t < 0 then AT_REST
    else
      var h := HandsAt(timeline, events, times, t - 1);
      if t !in timeline || !Complete(timeline[t]) || Due(times, t - 1) > Due(times, t) then h
      else ApplyDue(Sampled(h, timeline[t]), events, Due(times, t - 1), Due(times, t), timeline[t])
  }

  lemma {:induction false} DueIsCount(times: seq<int>, t: int)
    requires forall i, j :: 0 <= i < j < |times| ==> times[i] < times[j]
    ensures forall i :: 0 <= i < |times| ==> (times[i] <= t <==> i < Due(times, t))
  {
    if times != [] && times[0] <= t {
      DueIsCount(times[1..], t);
      forall i | 0 <= i < |times| ensures times[i] <= t <==> i < Due(times, t) {
        assert i > 0 ==> times[i] == times[1..][i - 1];
      }
    } else if times != [] {
      assert forall i :: 0 < i < |times| ==> times[0] < times[i];
    }
  }

  // The distinct, increasing times at which the events have frames.
  ghost predicate Scheduled(timeline: Timeline, events: seq<Event>, times: seq<int>) {
    && |times| == |events|
    && (forall i, j :: 0 <= i < j < |times| ==> times[i] < times[j])
    && (forall i :: 0 <= i < |times| ==> 0 <= times[i] <= MAX_DURATION_MS && times[i] in timeline)
  }

  ghost function FrameAt(timeline: Timeline, events: seq<Event>, times: seq<int>, t: int, seqNo: nat): Frame
    requires |times| == |events| && t in timeline && Complete(timeline[t])
  {
    var f, h := timeline[t], HandsAt(timeline, events, times, t);
    Frame(t, seqNo, f.hmd.value, Device(f.left.value.index, Some(h.left)), Device(f.right.value.index, Some(h.right)))
  }

  // The frames are those of the timeline before end, all complete, in time order, numbered from 1.
  ghost predicate Emitted(frames: seq<Frame>, timeline: Timeline, events: seq<Event>, times: seq<int>, end: int)
    requires |times| == |events|
  {
    && (forall i :: 0 <= i < |frames| ==> frames[i].tMs in timeline && Complete(timeline[frames[i].tMs]))
    && (forall i :: 0 <= i < |frames| ==> frames[i] == FrameAt(timeline, events, times, frames[i].tMs, i + 1))
    && (forall i :: 0 <= i < |frames| ==> frames[i].tMs < end)
    && (forall i, j :: 0 <= i < j < |frames| ==> frames[i].tMs < frames[j].tMs)
    && (forall t :: t in timeline && t < end ==> exists i :: 0 <= i < |frames| && frames[i].tMs == t)
  }

  lemma DueStep(timeline: Timeline, events: seq<Event>, times: seq<int>, t: int)
    requires Scheduled(timeline, events, times)
    ensures Due(times, t - 1) <= Due(times, t) <= Due(times, t - 1) + 1
    ensures forall i :: Due(times, t - 1) <= i < Due(times, t) ==> times[i] == t
    ensures t !in timeline ==> Due(times, t) == Due(times, t - 1)
  {
    DueIsCount(times, t - 1);
    DueIsCount(times, t);
    var from, end := Due(times, t - 1), Due(times, t);
    var atEnd := if end < |times| then times[end] else 0;
    var first := if from < |times| then times[from] else 0;
    var second := if from + 1 < |times| then times[from + 1] else 0;
    if from < |times| && first == t { assert t in timeline; }
  }

  lemma DueAtStart(times: seq<int>)
    requires forall i :: 0 <= i < |times| ==> times[i] >= 0
    ensures Due(times, -1) == 0
  {}

  // At most one event is due at a time, and its frame is the one at that time.
  lemma HandsStep(timeline: Timeline, events: seq<Event>, times: seq<int>, t: int)
    requires Scheduled(timeline, events, times) && AllComplete(timeline) && t >= 0
    ensures var before, n := HandsAt(timeline, events, times, t - 1), Due(times, t);
      var h := if t in timeline then Sampled(before, timeline[t]) else before;
      if n == Due(times, t - 1) then HandsAt(timeline, events, times, t) == h
      else
        && n == Due(times, t - 1) + 1 && times[n - 1] == t && t in timeline
        && HandsAt(timeline, events, times, t) == ApplyEvent(h, events[n - 1], timeline[t])
  {
    DueStep(timeline, events, times, t);
    var from := Due(times, t - 1);
    if t in timeline {
      assert ApplyDue(Sampled(HandsAt(timeline, events, times, t - 1), timeline[t]), events, from, from, timeline[t])
          == Sampled(HandsAt(timeline, events, times, t - 1), timeline[t]);
    }
  }

  // One frame of the emission loop: its sampled state, then the events that are due by now.
  method EmitFrame(f: Tracked, t: int, events: seq<Event>, times: seq<int>, hands: Hands, index: nat, seqNo: nat,
                   ghost timeline: Timeline)
    returns (frame: Frame, hands': Hands, index': nat)
    requires Scheduled(timeline, events, times) && t >= 0 && t in timeline && timeline[t] == f && Complete(f)
    requires index == Due(times, t - 1) && hands == HandsAt(timeline, events, times, t - 1)
    ensures index' == Due(times, t) && hands' == HandsAt(timeline, events, times, t)
    ensures frame == FrameAt(timeline, events, times, t, seqNo)
  {
    DueStep(timeline, events, times, t);
    DueIsCount(times, t);
    hands' := Sampled(hands, f);
    index' := index;
    while index' < |events| && times[index'] <= t
      invariant index <= index' <= Due(times, t)
      invariant hands' == ApplyDue(Sampled(hands, f), events, index, index', f)
    {
      hands' := ApplyEvent(hands', events[index'], f);
      index' := index' + 1;
    }
    frame := Frame(t, seqNo, f.hmd.value,
      Device(f.left.value.index, Some(hands'.left)), Device(f.right.value.index, Some(hands'.right)));
  }

  lemma EmittedNone(timeline: Timeline, events: seq<Event>, times: seq<int>)
    requires |times| == |events| && InRange(timeline)
    ensures Emitted([], timeline, events, times, 0)
  {}

  // The frames so far, and one more at the next time, still cover every time exactly once.
  lemma OneMoreTime(frames: seq<Frame>, frame: Frame, timeline: Timeline, t: int)
    requires forall k :: k in timeline && k < t ==> exists i :: 0 <= i < |frames| && frames[i].tMs == k
    requires frame.tMs == t
    ensures var all := frames + [frame];
      forall k :: k in timeline && k < t + 1 ==> exists i :: 0 <= i < |all| && all[i].tMs == k
  {
    var all := frames + [frame];
    assert all[|frames|] == frame;
    forall k | k in timeline && k < t + 1
      ensures exists i :: 0 <= i < |all| && all[i].tMs == k
    {
      if k < t {
        var i :| 0 <= i < |frames| && frames[i].tMs == k;
        assert all[i].tMs == k;
      }
    }
  }

  lemma EmittedOne(frames: seq<Frame>, frame: Frame, timeline: Timeline, events: seq<Event>, times: seq<int>, t: int)
    requires |times| == |events| && Emitted(frames, timeline, events, times, t)
    requires t in timeline && Complete(timeline[t]) && frame == FrameAt(timeline, events, times, t, |frames| + 1)
    ensures Emitted(frames + [frame], timeline, events, times, t + 1)
  {
    assert frame.tMs == t;
    hide FrameAt, HandsAt, Complete;
    OneMoreTime(frames, frame, timeline, t);
  }

  lemma EmittedSkip(frames: seq<Frame>, timeline: Timeline, events: seq<Event>, times: seq<int>, t: int)
    requires Scheduled(timeline, events, times) && t !in timeline && t >= 0
    requires Emitted(frames, timeline, events, times, t)
    ensures Emitted(frames, timeline, events, times, t + 1)
    ensures Due(times, t) == Due(times, t - 1)
    ensures HandsAt(timeline, events, times, t) == HandsAt(timeline, events, times, t - 1)
  {
    DueStep(timeline, events, times, t);
  }

  // The frames of the times before t have been emitted, and the state they leave.
  ghost predicate EmittedUpTo(timeline: Timeline, events: seq<Event>, times: seq<int>, t: int, frames: seq<Frame>,
                              hands: Hands, index: nat, done: set<int>)
    requires |times| == |events|
  {
    && Emitted(frames, timeline, events, times, t)
    && index == Due(times, t - 1) && hands == HandsAt(timeline, events, times, t - 1)
    && (forall k :: k in done <==> k in timeline && k < t)
    && |frames| == |done|
  }

  lemma NothingEmitted(timeline: Timeline, events: seq<Event>, times: seq<int>)
    requires Scheduled(timeline, events, times) && InRange(timeline)
    ensures EmittedUpTo(timeline, events, times, 0, [], AT_REST, 0, {})
  {
    DueAtStart(times);
    EmittedNone(timeline, events, times);
  }

  lemma FrameEmitted(timeline: Timeline, events: seq<Event>, times: seq<int>, t: int, frames: seq<Frame>,
                     hands: Hands, index: nat, done: set<int>,
                     frame: Frame, hands': Hands, index': nat)
    requires |times| == |events| && EmittedUpTo(timeline, events, times, t, frames, hands, index, done)
    requires t in timeline && Complete(timeline[t]) && frame == FrameAt(timeline, events, times, t, |frames| + 1)
    requires index' == Due(times, t) && hands' == HandsAt(timeline, events, times, t)
    ensures EmittedUpTo(timeline, events, times, t + 1, frames + [frame], hands', index', done + {t})
  {
    hide FrameAt, HandsAt, Complete, Emitted, Due;
    EmittedOne(frames, frame, timeline, events, times, t);
  }

  lemma FrameSkipped(timeline: Timeline, events: seq<Event>, times: seq<int>, t: int, frames: seq<Frame>,
                     hands: Hands, index: nat, done: set<int>)
    requires Scheduled(timeline, events, times) && t >= 0 && t !in timeline
    requires EmittedUpTo(timeline, events, times, t, frames, hands, index, done)
    ensures EmittedUpTo(timeline, events, times, t + 1, frames, hands, index, done)
  {
    hide HandsAt, Emitted, Due, Scheduled;
    EmittedSkip(frames, timeline, events, times, t);
  }

  lemma AllEmitted(timeline: Timeline, events: seq<Event>, times: seq<int>, frames: seq<Frame>, hands: Hands,
                   index: nat, done: set<int>)
    requires |times| == |events| && InRange(timeline)
    requires EmittedUpTo(timeline, events, times, MAX_DURATION_MS + 1, frames, hands, index, done)
    ensures Emitted(frames, timeline, events, times, MAX_DURATION_MS + 1) && |frames| == |timeline|
    ensures hands == HandsAt(timeline, events, times, MAX_DURATION_MS) && AllComplete(timeline)
  {
    assert forall k :: k in done <==> k in timeline.Keys;
    assert done == timeline.Keys;
    EmittedComplete(frames, timeline, events, times);
  }

  lemma EmittedComplete(frames: seq<Frame>, timeline: Timeline, events: seq<Event>, times: seq<int>)
    requires |times| == |events| && InRange(timeline) && Emitted(frames, timeline, events, times, MAX_DURATION_MS + 1)
    ensures AllComplete(timeline)
  {
    hide FrameAt, HandsAt, Complete;
    forall k | k in timeline
      ensures Complete(timeline[k])
    {
      assert k < MAX_DURATION_MS + 1;
      var i :| 0 <= i < |frames| && frames[i].tMs == k;
    }
  }

  method EmitFrames(timeline: Timeline, events: seq<Event>, times: seq<int>)
    returns (r: Result<(seq<Frame>, Hands), Problem>)
    requires Scheduled(timeline, events, times) && InRange(timeline)
    ensures r.Success? <==> AllComplete(timeline)
    ensures r.Success? ==>
      && Emitted(r.value.0, timeline, events, times, MAX_DURATION_MS + 1)
      && |r.value.0| == |timeline|
      && r.value.1 == HandsAt(timeline, events, times, MAX_DURATION_MS)
  {
    var frames: seq<Frame> := [];
    var hands, index: nat := AT_REST, 0;
    ghost var done: set<int> := {};
    NothingEmitted(timeline, events, times);
    for t := 0 to MAX_DURATION_MS + 1
      invariant EmittedUpTo(timeline, events, times, t, frames, hands, index, done)
    {
      hide EmittedUpTo, Emitted, Scheduled, HandsAt, Due, FrameAt, Complete, InRange;
      if t in timeline {
        if !Complete(timeline[t]) {
          return Failure(IncompleteSample);
        }
        ghost var hands0, index0 := hands, index;
        StateBefore(timeline, events, times, t, frames, hands, index, done);
        var frame;
        frame, hands, index := EmitFrame(timeline[t], t, events, times, hands, index, |frames| + 1, timeline);
        FrameEmitted(timeline, events, times, t, frames, hands0, index0, done, frame, hands, index);
        frames := frames + [frame];
        done := done + {t};
      } else {
        FrameSkipped(timeline, events, times, t, frames, hands, index, done);
      }
    }
    AllEmitted(timeline, events, times, frames, hands, index, done);
    r := Success((frames, hands));
  }

  lemma StateBefore(timeline: Timeline, events: seq<Event>, times: seq<int>, t: int, frames: seq<Frame>,
                    hands: Hands, index: nat, done: set<int>)
    requires |times| == |events| && EmittedUpTo(timeline, events, times, t, frames, hands, index, done)
    ensures index == Due(times, t - 1) && hands == HandsAt(timeline, events, times, t - 1)
  {}

  // ----- What the controller states are -----

  // The events one after another, each on the hand that its own frame names.
  ghost function Played(timeline: Timeline, events: seq<Event>, times: seq<int>, n: nat): Hands
    requires Scheduled(timeline, events, times) && AllComplete(timeline) && n <= |events|
  {
    if n == 0 then AT_REST
    else ApplyEvent(Played(timeline, events, times, n - 1), events[n - 1], timeline[times[n - 1]])
  }

  /** In a capture without sampled controller state every frame carries exactly the effect of the
      events replayed at or before it. */
  lemma {:induction false} StatesArePlayedEvents(timeline: Timeline, events: seq<Event>, times: seq<int>, t: int)
    requires Scheduled(timeline, events, times) && AllComplete(timeline) && t >= -1
    requires forall k :: k in timeline ==>
               timeline[k].left.value.controller.None? && timeline[k].right.value.controller.None?
    ensures HandsAt(timeline, events, times, t) == Played(timeline, events, times, Due(times, t))
    decreases t + 1
  {
    DueAtStart(times);
    if t >= 0 {
      StatesArePlayedEvents(timeline, events, times, t - 1);
      HandsStep(timeline, events, times, t);
    }
  }

  /** Every event is either converted or reported as unsupported. */
  lemma {:induction false} EveryEventIsAccounted(timeline: Timeline, events: seq<Event>, times: seq<int>, t: int)
    requires Scheduled(timeline, events, times) && AllComplete(timeline) && t >= -1
    ensures var h := HandsAt(timeline, events, times, t); h.converted + h.unsupported == Due(times, t)
    decreases t + 1
  {
    DueAtStart(times);
    if t >= 0 {
      EveryEventIsAccounted(timeline, events, times, t - 1);
      HandsStep(timeline, events, times, t);
    }
  }

  /** Once a controller holds only sane masks, no event presses a button it does not also touch. */
  lemma PressedStaysTouched(c: Controller, e: Event)
    requires c.pressed <= c.touched && ApplyControllerEvent(c, e).Some?
    ensures var c' := ApplyControllerEvent(c, e).value;
      c'.pressed <= c'.touched && (e.eventType == "button" ==> c'.axes == c.axes)
      && (e.eventType != "button" ==> c'.pressed == c.pressed && c'.touched == c.touched && |c'.axes| == 5)
  {}

  // ----- The planner -----

  datatype Plan = NoStep | Sequence(owner: string, frames: seq<Frame>, durationMs: int, adjusted: nat, hands: Hands)

  ghost predicate TimeAccepted(e: Event) { e.tMs.Some? && 0 <= e.tMs.value <= MAX_DURATION_MS }

  function ControllerEvents(activity: seq<Event>): seq<Event> {
    StableSort(Select(activity, IsVRControllerEvent))
  }

  method CheckEventTimes(events: seq<Event>) returns (ok: bool)
    ensures ok <==> forall e :: e in events ==> TimeAccepted(e)
  {
    for n := 0 to |events|
      invariant forall i :: 0 <= i < n ==> TimeAccepted(events[i])
    {
      if events[n].tMs.None? || events[n].tMs.value < 0 || events[n].tMs.value > MAX_DURATION_MS {
        assert events[n] in events;
        return false;
      }
    }
    return true;
  }

  ghost function SampleTimes(samples: seq<Sample>): set<int>
    requires SamplesAccepted(samples, |samples|)
  {
    set i | 0 <= i < |samples| :: samples[i].tMs.value
  }

  ghost function Occupied(samples: seq<Sample>): set<int>
    requires SamplesAccepted(samples, |samples|)
  {
    {0} + SampleTimes(samples)
  }

  // The captures that can be replayed.
  ghost predicate Replayable(samples: seq<Sample>, activity: seq<Event>) {
    && SamplesAccepted(samples, |samples|)
    && (forall e :: e in activity && IsVRControllerEvent(e) ==> TimeAccepted(e))
    && |Occupied(samples)| + |ControllerEvents(activity)| <= MAX_FRAMES
    && Fits(ReplayTimes(Occupied(samples), ControllerEvents(activity), -1))
    && (forall i :: 0 <= i < |samples| ==> Complete(samples[i].tracked))
  }

  // The plan shows base and the events on it, placed by p.
  ghost predicate Renders(plan: Plan, owner: string, base: Timeline, events: seq<Event>, p: Placement) {
    && 0 in base && Placed(p, base, events)
    && plan.Sequence? && plan.owner == owner && plan.adjusted == p.adjusted
    && Emitted(plan.frames, p.timeline, events, p.times, MAX_DURATION_MS + 1)
    && |plan.frames| == |base| + |events|
    && plan.durationMs == plan.frames[|plan.frames| - 1].tMs + TAIL_MS
    && plan.hands == HandsAt(p.timeline, events, p.times, MAX_DURATION_MS)
  }

  ghost predicate Replays(plan: Plan, samples: seq<Sample>, activity: seq<Event>, owner: string, base: Timeline,
                          loaded: Timeline, p: Placement) {
    && SamplesAccepted(samples, |samples|) && Holds(loaded, samples, |samples|)
    && Anchored(base, loaded) && base.Keys == Occupied(samples)
    && Renders(plan, owner, base, ControllerEvents(activity), p)
  }

  lemma LoadedTimes(loaded: Timeline, samples: seq<Sample>)
    requires SamplesAccepted(samples, |samples|) && Holds(loaded, samples, |samples|)
    ensures loaded.Keys == SampleTimes(samples) && InRange(loaded)
    ensures forall i :: 0 <= i < |samples| ==> samples[i].tMs.Some? && samples[i].tMs.value in loaded
    ensures AllComplete(loaded) <==> forall i :: 0 <= i < |samples| ==> Complete(samples[i].tracked)
  {
    forall t ensures t in loaded <==> t in SampleTimes(samples) {
      if t in loaded {
        var i :| 0 <= i < |samples| && samples[i].tMs == Some(t);
        assert samples[i].tMs.value in SampleTimes(samples);
      }
    }
    if AllComplete(loaded) {
      forall i | 0 <= i < |samples| ensures Complete(samples[i].tracked) {
        assert samples[i].tMs.value in loaded;
      }
    }
  }

  lemma BaseIsOccupied(base: Timeline, loaded: Timeline, samples: seq<Sample>)
    requires SamplesAccepted(samples, |samples|) && Holds(loaded, samples, |samples|) && Anchored(base, loaded)
    ensures base.Keys == Occupied(samples) && |base| == |Occupied(samples)|
    ensures AllComplete(base) <==> forall i :: 0 <= i < |samples| ==> Complete(samples[i].tracked)
  {
    hide SamplesAccepted, Holds;
    LoadedTimes(loaded, samples);
    assert base.Keys == {0} + loaded.Keys;
    assert |base| == |base.Keys|;
    if AllComplete(base) {
      forall t | t in loaded ensures Complete(loaded[t]) {
        assert base[t] == loaded[t];
      }
    }
  }

  lemma HeldComplete(timeline: Timeline, base: Timeline)
    requires 0 in base && HoldsPoses(timeline, base)
    ensures AllComplete(timeline) <==> AllComplete(base)
  {
    forall t | t in base ensures timeline[t] == base[t] {
      assert t in base.Keys;
      assert t in timeline && t >= 0;
      assert LatestKey(base, t) == t;
    }
  }

  lemma PlacedIsScheduled(p: Placement, base: Timeline, events: seq<Event>)
    requires 0 in base && Placed(p, base, events) && Fits(ReplayTimes(base.Keys, events, -1))
    ensures Scheduled(p.timeline, events, p.times) && HoldsPoses(p.timeline, base) && InRange(p.timeline)
    ensures |p.timeline| == |base| + |events|
  {
    ReplayTimesAdmissible(base.Keys, events, -1);
    forall i | 0 <= i < |p.times| ensures p.times[i] in p.timeline {
      assert p.times[i] in p.times;
    }
  }

  lemma SelectedTimes(activity: seq<Event>)
    ensures var events := ControllerEvents(activity);
      (forall e :: e in events ==> TimeAccepted(e)) <==>
      (forall e :: e in activity && IsVRControllerEvent(e) ==> TimeAccepted(e))
  {
    var chosen := Select(activity, IsVRControllerEvent);
    var events := StableSort(chosen);
    StableSortIsStable(chosen);
    assert forall e :: e in events <==> e in multiset(events);
    assert forall e :: e in chosen <==> e in multiset(chosen);
  }

  method PlanFrom(base: Timeline, events: seq<Event>, owner: string)
    returns (r: Result<Plan, Problem>, ghost p: Placement)
    requires 0 in base && InRange(base)
    ensures r.Success? <==>
              |base| + |events| <= MAX_FRAMES && Fits(ReplayTimes(base.Keys, events, -1)) && AllComplete(base)
    ensures r.Success? ==> Renders(r.value, owner, base, events, p)
  {
    hide Emitted, Fits, Scheduled, HandsAt, ReplayTimes, AllComplete, HoldsPoses, CountMoved;
    p := Placement([], base, 0);
    var place := PlaceEvents(base, events);
    if place.Failure? {
      return Failure(place.error), p;
    }
    p := place.value;
    PlacedIsScheduled(place.value, base, events);
    HeldComplete(place.value.timeline, base);
    var emit := EmitFrames(place.value.timeline, events, place.value.times);
    if emit.Failure? {
      return Failure(emit.error), p;
    }
    var (frames, hands) := emit.value;
    if |frames| > MAX_FRAMES {
      return Failure(TooManyFrames), p;
    }
    assert |base.Keys| > 0;
    r := Success(Sequence(owner, frames, frames[|frames| - 1].tMs + TAIL_MS, place.value.adjusted, hands));
  }

  method BuildReplay(samples: seq<Sample>, activity: seq<Event>, inputOwner: string, replayInputs: bool)
    returns (r: Result<Plan, Problem>)
    ensures !replayInputs || samples == [] ==> r == Success(NoStep)
    ensures replayInputs && samples != [] ==>
      && (r.Success? <==> Replayable(samples, activity))
      && (r.Success? ==> exists base, loaded, p :: Replays(r.value, samples, activity, inputOwner, base, loaded, p))
  {
    hide SamplesAccepted, Holds, Anchored, Renders, Fits, ReplayTimes, ControllerEvents, Occupied, AllComplete;
    if !replayInputs || samples == [] {
      return Success(NoStep);
    }
    var load := LoadSamples(samples);
    if load.Failure? {
      return Failure(load.error);
    }
    LoadedTimes(load.value, samples);
    var anchor := AddTimeZero(load.value, samples[0].tMs.value);
    if anchor.Failure? {
      TooManySamples(load.value, samples);
      return Failure(anchor.error);
    }
    var base := anchor.value;
    BaseIsOccupied(base, load.value, samples);
    var events := ControllerEvents(activity);
    SelectedTimes(activity);
    var timed := CheckEventTimes(events);
    if !timed {
      return Failure(BadEventTime);
    }
    ghost var p;
    r, p := PlanFrom(base, events, inputOwner);
    assert r.Success? ==> Replays(r.value, samples, activity, inputOwner, base, load.value, p);
  }

  lemma TooManySamples(loaded: Timeline, samples: seq<Sample>)
    requires SamplesAccepted(samples, |samples|) && Holds(loaded, samples, |samples|)
    requires 0 !in loaded && |loaded| >= MAX_FRAMES
    ensures |Occupied(samples)| > MAX_FRAMES
  {
    LoadedTimes(loaded, samples);
    assert |loaded.Keys| == |loaded|;
  }

  /** What the emitted sequence promises the frame player: it starts at zero, strictly increases,
      is numbered consecutively, stays in range, and each frame shows the latest sampled pose. */
  lemma SequenceIsPlayable(plan: Plan, samples: seq<Sample>, activity: seq<Event>, owner: string, base: Timeline,
                           loaded: Timeline, p: Placement)
    requires Replays(plan, samples, activity, owner, base, loaded, p) && |p.times| == |ControllerEvents(activity)|
    ensures plan.frames != [] && plan.frames[0].tMs == 0
    ensures forall i :: 0 <= i < |plan.frames| ==>
      && plan.frames[i].seqNo == i + 1 && 0 <= plan.frames[i].tMs <= MAX_DURATION_MS
      && var held := base[LatestKey(base, plan.frames[i].tMs)];
         Complete(held) && plan.frames[i].hmd == held.hmd.value
         && plan.frames[i].left.index == held.left.value.index && plan.frames[i].right.index == held.right.value.index
    ensures forall i, j :: 0 <= i < j < |plan.frames| ==> plan.frames[i].tMs < plan.frames[j].tMs
  {
    assert 0 in p.timeline;
    var k :| 0 <= k < |plan.frames| && plan.frames[k].tMs == 0;
    assert plan.frames[0].tMs in p.timeline;
    forall i | 0 <= i < |plan.frames| ensures plan.frames[i].seqNo == i + 1 {
      assert plan.frames[i] == FrameAt(p.timeline, ControllerEvents(activity), p.times, plan.frames[i].tMs, i + 1);
    }
  }
}
