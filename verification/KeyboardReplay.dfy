/**
 * The keyboard planner: a recorded trajectory, timed by `atMs` marks and `wait` delays, is
 * interleaved with the recorded key transitions into a script timed by waits alone, and every
 * key-down receives a lease that bounds how long the key may stay held.
 */
module KeyboardReplay {
  import opened Wrappers
  import opened Activity

  const HOLD_CAP_MS := 60000
  const SAFETY_MARGIN_MS := 2000
  const MINIMUM_LEASE_MS := 100

  // payload: what is left of a trajectory step without its two timing fields, if anything.
  datatype Step = Step(atMs: Option<int>, wait: int, payload: Option<string>)

  datatype Emitted =
    | Wait(ms: int)
    | Original(payload: string)
    | Input(event: Event, maxHoldMs: Option<int>)

  type Script = seq<Emitted>

  // Why a recording cannot be replayed.
  datatype Problem = HoldTooLong | UnreleasedHoldTooLong

  datatype Plan = Unchanged(steps: seq<Step>) | Replay(script: Script, inputOwner: string)

  // ----- What a script means: its actions, each at the sum of the waits before it -----

  datatype Item = Item(at: int, act: Emitted)

  function Total(s: Script): int {
    if s == [] then 0
    else Total(s[..|s| - 1]) + if s[|s| - 1].Wait? then s[|s| - 1].ms else 0
  }

  function Timeline(s: Script): seq<Item> {
    if s == [] then []
    else
      var init := s[..|s| - 1];
      if s[|s| - 1].Wait? then Timeline(init) else Timeline(init) + [Item(Total(init), s[|s| - 1])]
  }

  ghost predicate Canonical(s: Script) {
    && (forall i :: 0 <= i < |s| && s[i].Wait? ==> s[i].ms > 0)
    && (forall i, j :: 0 <= i < j < |s| && j == i + 1 && s[i].Wait? ==> !s[j].Wait?)
  }

  // ----- What the two recordings ask for -----

  // The trajectory's actions at s = max(atMs, previous s + previous wait).
  function Originals(steps: seq<Step>, clock: int): seq<Item> {
    if steps == [] then []
    else
      var at := Max(clock, steps[0].atMs.GetOr(clock));
      var rest := Originals(steps[1..], at + Max(0, steps[0].wait));
      if steps[0].payload.Some? then [Item(at, Original(steps[0].payload.value))] + rest else rest
  }

  function EndClock(steps: seq<Step>, clock: int): int {
    if steps == [] then clock
    else EndClock(steps[1..], Max(clock, steps[0].atMs.GetOr(clock)) + Max(0, steps[0].wait))
  }

  function Latest(keys: seq<Event>, floor: int): int {
    if keys == [] then floor else Latest(keys[1..], Max(floor, Time(keys[0])))
  }

  function TraceEnd(steps: seq<Step>, keys: seq<Event>): int {
    Latest(keys, EndClock(steps, 0))
  }

  function InputStep(e: Event, lease: Option<int>): Emitted {
    Input(e, if e.state == "down" then Some(lease.GetOr(HOLD_CAP_MS)) else None)
  }

  function Inputs(keys: seq<Event>, leases: seq<Option<int>>): seq<Item>
    requires |keys| == |leases|
  {
    if keys == [] then []
    else [Item(Max(0, Time(keys[0])), InputStep(keys[0], leases[0]))] + Inputs(keys[1..], leases[1..])
  }

  // Chronological merge; a key transition goes before a trajectory action of the same time.
  function Merge(originals: seq<Item>, inputs: seq<Item>): seq<Item> {
    if originals == [] then inputs
    else if inputs == [] then originals
    else if inputs[0].at <= originals[0].at then [inputs[0]] + Merge(originals, inputs[1..])
    else [originals[0]] + Merge(originals[1..], inputs)
  }

  // ----- Leases -----

  function Key(e: Event): int { e.idCode.GetOr(0) }

  ghost predicate Untouched(keys: seq<Event>, key: int, from: int, to: int)
    requires 0 <= from && to <= |keys|
  {
    forall k :: from <= k < to ==> Key(keys[k]) != key
  }

  // keys[j] is the key-up that ends the hold begun by keys[i].
  ghost predicate Releases(keys: seq<Event>, i: int, j: int) {
    && 0 <= i < j < |keys| && keys[i].state == "down" && keys[j].state == "up"
    && Key(keys[i]) == Key(keys[j]) && Untouched(keys, Key(keys[i]), i + 1, j)
  }

  ghost predicate HeldAtEnd(keys: seq<Event>, i: int, n: int)
    requires n <= |keys|
  {
    0 <= i < n && keys[i].state == "down" && Untouched(keys, Key(keys[i]), i + 1, n)
  }

  function HoldMs(from: int, to: int): int { Max(0, to - from) }

  predicate TooLong(holdMs: int) { holdMs + SAFETY_MARGIN_MS > HOLD_CAP_MS }

  function LeaseFor(holdMs: int): int { Max(MINIMUM_LEASE_MS, holdMs + SAFETY_MARGIN_MS) }

  ghost predicate PairTooLong(keys: seq<Event>, i: int, j: int) {
    Releases(keys, i, j) && TooLong(HoldMs(Time(keys[i]), Time(keys[j])))
  }

  ghost predicate EndTooLong(keys: seq<Event>, i: int, endMs: int) {
    HeldAtEnd(keys, i, |keys|) && TooLong(HoldMs(Time(keys[i]), endMs))
  }

  ghost predicate Refused(keys: seq<Event>, endMs: int) {
    (exists i, j :: PairTooLong(keys, i, j)) || (exists i :: EndTooLong(keys, i, endMs))
  }

  // How keys[i] ends is known: it is released, or held to the end.
  ghost predicate Ends(keys: seq<Event>, i: int) {
    (exists j :: Releases(keys, i, j)) || HeldAtEnd(keys, i, |keys|)
  }

  ghost predicate LeasesInRange(leases: seq<Option<int>>) {
    forall i :: 0 <= i < |leases| && leases[i].Some? ==> MINIMUM_LEASE_MS <= leases[i].value <= HOLD_CAP_MS
  }

  // A lease for every key-down whose end is known, and for no other transition: those keep the
  // default cap.
  ghost predicate Leased(keys: seq<Event>, leases: seq<Option<int>>, endMs: int) {
    && |leases| == |keys|
    && (forall i, j :: Releases(keys, i, j) ==> leases[i] == Some(LeaseFor(HoldMs(Time(keys[i]), Time(keys[j])))))
    && (forall i :: HeldAtEnd(keys, i, |keys|) ==> leases[i] == Some(LeaseFor(HoldMs(Time(keys[i]), endMs))))
    && (forall i :: 0 <= i < |keys| && leases[i].Some? ==> Ends(keys, i))
    && LeasesInRange(leases)
  }

  method TraceEndMs(steps: seq<Step>, keys: seq<Event>) returns (traceEnd: int)
    ensures traceEnd == TraceEnd(steps, keys)
  {
    traceEnd := 0;
    for k := 0 to |steps|
      invariant EndClock(steps[k..], traceEnd) == EndClock(steps, 0)
    {
      assert steps[k..][1..] == steps[k + 1..];
      traceEnd := Max(traceEnd, steps[k].atMs.GetOr(traceEnd));
      traceEnd := traceEnd + Max(0, steps[k].wait);
    }
    for i := 0 to |keys|
      invariant Latest(keys[i..], traceEnd) == TraceEnd(steps, keys)
    {
      assert keys[i..][1..] == keys[i + 1..];
      traceEnd := Max(traceEnd, Time(keys[i]));
    }
  }

  // After the first n transitions: open maps each key still down to the key-down that holds it.
  ghost predicate OpenAfter(keys: seq<Event>, open: map<int, nat>, n: nat)
    requires n <= |keys|
  {
    && (forall k :: k in open ==> HeldAtEnd(keys, open[k], n) && Key(keys[open[k]]) == k)
    && (forall i :: HeldAtEnd(keys, i, n) ==> Key(keys[i]) in open && open[Key(keys[i])] == i)
  }

  // The leases are those of the key-downs released by one of the first n transitions.
  ghost predicate PairsAfter(keys: seq<Event>, leases: seq<Option<int>>, n: nat)
    requires n <= |keys|
  {
    && |leases| == |keys| && LeasesInRange(leases)
    && (forall i, j :: Releases(keys, i, j) && j < n ==>
          !PairTooLong(keys, i, j) && leases[i] == Some(LeaseFor(HoldMs(Time(keys[i]), Time(keys[j])))))
    && (forall i :: 0 <= i < |keys| && leases[i].Some? ==> exists j :: Releases(keys, i, j))
  }

  lemma OpenStep(keys: seq<Event>, open: map<int, nat>, n: nat)
    requires n < |keys| && OpenAfter(keys, open, n)
    requires keys[n].state == "down" || keys[n].state == "up"
    ensures OpenAfter(keys, if keys[n].state == "down" then open[Key(keys[n]) := n] else open - {Key(keys[n])}, n + 1)
  {
    forall i | 0 <= i < n ensures HeldAtEnd(keys, i, n + 1) <==> HeldAtEnd(keys, i, n) && Key(keys[i]) != Key(keys[n]) {
      if HeldAtEnd(keys, i, n + 1) { assert Key(keys[n]) != Key(keys[i]); }
    }
    assert Untouched(keys, Key(keys[n]), n + 1, n + 1);
  }

  // A transition ends at most one hold: the open one of its key, and only if it is a key-up.
  lemma ReleasedBy(keys: seq<Event>, open: map<int, nat>, i: int, n: nat)
    requires n < |keys| && OpenAfter(keys, open, n)
    ensures Releases(keys, i, n) <==> keys[n].state == "up" && Key(keys[n]) in open && open[Key(keys[n])] == i
  {
    assert Releases(keys, i, n) ==> HeldAtEnd(keys, i, n);
  }

  // A key-up of an open key ends that hold and no other, and no earlier transition has ended it.
  lemma ReleaseIsNew(keys: seq<Event>, open: map<int, nat>, n: nat)
    requires n < |keys| && OpenAfter(keys, open, n) && keys[n].state == "up" && Key(keys[n]) in open
    ensures var i := open[Key(keys[n])];
      && Releases(keys, i, n) && (forall j :: Releases(keys, i, j) ==> j >= n)
      && (forall k :: Releases(keys, k, n) ==> k == i)
  {
    var i := open[Key(keys[n])];
    ReleasedBy(keys, open, i, n);
    forall j | Releases(keys, i, j)
      ensures j >= n
    {
      assert HeldAtEnd(keys, i, n) && Key(keys[j]) == Key(keys[i]);
    }
    forall k | Releases(keys, k, n)
      ensures k == i
    {
      ReleasedBy(keys, open, k, n);
    }
  }

  lemma LeasePair(keys: seq<Event>, open: map<int, nat>, leases: seq<Option<int>>, n: nat)
    requires n < |keys| && OpenAfter(keys, open, n) && PairsAfter(keys, leases, n)
    requires keys[n].state == "up" && Key(keys[n]) in open
    ensures var i := open[Key(keys[n])];
      var holdMs := HoldMs(Time(keys[i]), Time(keys[n]));
      if TooLong(holdMs) then PairTooLong(keys, i, n)
      else PairsAfter(keys, leases[i := Some(LeaseFor(holdMs))], n + 1)
  {
    ReleaseIsNew(keys, open, n);
    hide Releases, OpenAfter;
  }

  lemma NoPair(keys: seq<Event>, open: map<int, nat>, leases: seq<Option<int>>, n: nat)
    requires n < |keys| && OpenAfter(keys, open, n) && PairsAfter(keys, leases, n)
    requires !(keys[n].state == "up" && Key(keys[n]) in open)
    ensures PairsAfter(keys, leases, n + 1)
  {
    forall i
      ensures !Releases(keys, i, n)
    {
      ReleasedBy(keys, open, i, n);
    }
    hide Releases, OpenAfter;
  }

  lemma NothingYet(keys: seq<Event>, leases: seq<Option<int>>)
    requires |leases| == |keys| && forall i :: 0 <= i < |leases| ==> leases[i].None?
    ensures OpenAfter(keys, map[], 0) && PairsAfter(keys, leases, 0)
  {}

  lemma NeverTooLong(keys: seq<Event>, leases: seq<Option<int>>, endMs: int)
    requires PairsAfter(keys, leases, |keys|)
    requires forall i :: HeldAtEnd(keys, i, |keys|) ==> !EndTooLong(keys, i, endMs)
    ensures !Refused(keys, endMs)
  {}

  method AssignLeases(keys: seq<Event>, endMs: int) returns (r: Result<seq<Option<int>>, Problem>)
    requires forall e :: e in keys ==> IsKeyboardTransition(e)
    ensures r.Failure? <==> Refused(keys, endMs)
    ensures r.Success? ==> Leased(keys, r.value, endMs)
  {
    var leases: seq<Option<int>> := seq(|keys|, _ => None);
    var open: map<int, nat> := map[];
    NothingYet(keys, leases);
    for n := 0 to |keys|
      invariant OpenAfter(keys, open, n)
      invariant PairsAfter(keys, leases, n)
    {
      hide Refused, Releases, HeldAtEnd, Untouched, LeasesInRange, LeaseFor;
      assert keys[n] in keys;
      var key := Key(keys[n]);
      OpenStep(keys, open, n);
      if keys[n].state == "up" && key in open {
        LeasePair(keys, open, leases, n);
      } else {
        NoPair(keys, open, leases, n);
      }
      if keys[n].state == "down" {
        open := open[key := n];
      } else if key in open {
        var holdMs := HoldMs(Time(keys[open[key]]), Time(keys[n]));
        if TooLong(holdMs) {
          return Failure(HoldTooLong);
        }
        leases := leases[open[key] := Some(LeaseFor(holdMs))];
        open := open - {key};
      } else {
        assert open - {key} == open;
      }
    }
    r := LeaseOpenKeys(keys, leases, open, endMs);
  }

  // The second loop, over the open keys in ascending order: one never released is held to the end.
  method LeaseOpenKeys(keys: seq<Event>, paired: seq<Option<int>>, open: map<int, nat>, endMs: int)
    returns (r: Result<seq<Option<int>>, Problem>)
    requires forall e :: e in keys ==> IsKeyboardTransition(e)
    requires OpenAfter(keys, open, |keys|) && PairsAfter(keys, paired, |keys|)
    ensures r.Failure? <==> Refused(keys, endMs)
    ensures r.Success? ==> Leased(keys, r.value, endMs)
  {
    var leases := paired;
    for key := 1 to 256
      invariant |leases| == |keys| && LeasesInRange(leases)
      invariant forall i :: 0 <= i < |keys| && leases[i].Some? ==> Ends(keys, i)
      invariant forall k :: k in open && 1 <= k < key ==> !EndTooLong(keys, open[k], endMs)
      invariant forall k :: k in open && 1 <= k < key ==>
                  leases[open[k]] == Some(LeaseFor(HoldMs(Time(keys[open[k]]), endMs)))
      invariant forall i :: 0 <= i < |keys| && !HeldAtEnd(keys, i, |keys|) ==> leases[i] == paired[i]
    {
      if key in open {
        var i := open[key];
        var holdMs := HoldMs(Time(keys[i]), endMs);
        if TooLong(holdMs) {
          assert EndTooLong(keys, i, endMs);
          return Failure(UnreleasedHoldTooLong);
        }
        leases := leases[i := Some(LeaseFor(holdMs))];
      }
    }
    forall k | k in open ensures 1 <= k < 256 {
      assert keys[open[k]] in keys;
    }
    NeverTooLong(keys, paired, endMs);
    forall i, j | Releases(keys, i, j) ensures leases[i] == Some(LeaseFor(HoldMs(Time(keys[i]), Time(keys[j])))) {
      assert Key(keys[j]) == Key(keys[i]);
      assert !HeldAtEnd(keys, i, |keys|);
    }
    r := Success(leases);
  }

  // ----- Emission -----

  method AppendWait(s: Script, ms: int) returns (r: Script)
    ensures Total(r) == Total(s) + Max(0, ms)
    ensures Timeline(r) == Timeline(s)
    ensures Canonical(s) ==> Canonical(r)
  {
    if ms <= 0 {
      return s;
    }
    if s != [] && s[|s| - 1].Wait? {
      r := s[..|s| - 1] + [Wait(s[|s| - 1].ms + ms)];
      assert r[..|r| - 1] == s[..|s| - 1];
    } else {
      r := s + [Wait(ms)];
      assert r[..|r| - 1] == s;
    }
  }

  lemma AppendAction(s: Script, act: Emitted)
    requires !act.Wait?
    ensures Total(s + [act]) == Total(s)
    ensures Timeline(s + [act]) == Timeline(s) + [Item(Total(s), act)]
    ensures Canonical(s) ==> Canonical(s + [act])
  {
    assert (s + [act])[..|s|] == s;
  }

  lemma {:induction false} OriginalsFrom(steps: seq<Step>, clock: int)
    ensures forall o :: o in Originals(steps, clock) ==> o.at >= clock
  {
    if steps != [] {
      var at := Max(clock, steps[0].atMs.GetOr(clock));
      OriginalsFrom(steps[1..], at + Max(0, steps[0].wait));
    }
  }

  lemma MergeInput(originals: seq<Item>, inputs: seq<Item>)
    requires inputs != [] && forall o :: o in originals ==> o.at >= inputs[0].at
    ensures Merge(originals, inputs) == [inputs[0]] + Merge(originals, inputs[1..])
  {
    if originals == [] {
      assert inputs == [inputs[0]] + inputs[1..];
    } else {
      assert originals[0] in originals;
    }
  }

  lemma MergeOriginal(o: Item, originals: seq<Item>, inputs: seq<Item>)
    requires inputs != [] ==> inputs[0].at > o.at
    ensures Merge([o] + originals, inputs) == [o] + Merge(originals, inputs)
  {
    assert ([o] + originals)[1..] == originals;
    if inputs == [] && originals != [] { assert Merge(originals, inputs) == originals; }
  }

  // At this clock the transitions before index are due and those from index on are not overdue.
  predicate Pending(keys: seq<Event>, index: nat, clock: int)
    requires index <= |keys|
  {
    && (0 < index ==> Time(keys[index - 1]) <= clock)
    && (index < |keys| ==> Max(0, Time(keys[index])) >= clock)
  }

  // Everything a partial script and the pending recordings still add up to.
  ghost function Outlook(out: Script, originals: seq<Item>, keys: seq<Event>, leases: seq<Option<int>>,
                         index: nat): seq<Item>
    requires |leases| == |keys| && index <= |keys|
  {
    Timeline(out) + Merge(originals, Inputs(keys[index..], leases[index..]))
  }

  // waited: the script out, delayed until transition index is due.
  lemma EmittedKey(out: Script, waited: Script, originals: seq<Item>, keys: seq<Event>, leases: seq<Option<int>>,
                   index: nat)
    requires |leases| == |keys| && index < |keys| && Chronological(keys)
    requires Timeline(waited) == Timeline(out) && Canonical(waited) && Total(waited) == Max(0, Time(keys[index]))
    requires forall o :: o in originals ==> o.at >= Total(waited)
    ensures var next := waited + [InputStep(keys[index], leases[index])];
      && Total(next) == Total(waited) && Canonical(next) && Pending(keys, index + 1, Total(waited))
      && Outlook(next, originals, keys, leases, index + 1) == Outlook(out, originals, keys, leases, index)
  {
    var act := InputStep(keys[index], leases[index]);
    AppendAction(waited, act);
    var inputs := Inputs(keys[index..], leases[index..]);
    var later := Inputs(keys[index + 1..], leases[index + 1..]);
    assert keys[index..][1..] == keys[index + 1..] && leases[index..][1..] == leases[index + 1..];
    assert inputs == [Item(Total(waited), act)] + later;
    MergeInput(originals, inputs);
    assert inputs[1..] == later;
    assert index + 1 < |keys| ==> !Before(keys[index + 1], keys[index]);
    AppendAssoc(Timeline(out), Item(Total(waited), act), Merge(originals, later));
  }

  lemma AppendAssoc(a: seq<Item>, x: Item, b: seq<Item>)
    ensures (a + [x]) + b == a + ([x] + b)
  {}

  lemma EmittedOriginal(out: Script, payload: string, originals: seq<Item>, keys: seq<Event>,
                        leases: seq<Option<int>>, index: nat)
    requires |leases| == |keys| && index <= |keys|
    requires Canonical(out) && (index < |keys| ==> Time(keys[index]) > Total(out))
    ensures var next := out + [Original(payload)];
      && Total(next) == Total(out) && Canonical(next)
      && Outlook(next, originals, keys, leases, index)
      == Outlook(out, [Item(Total(out), Original(payload))] + originals, keys, leases, index)
  {
    var item := Item(Total(out), Original(payload));
    AppendAction(out, Original(payload));
    MergeOriginal(item, originals, Inputs(keys[index..], leases[index..]));
    var later := Merge(originals, Inputs(keys[index..], leases[index..]));
    AppendAssoc(Timeline(out), item, later);
  }

  lemma NothingPending(out: Script, keys: seq<Event>, leases: seq<Option<int>>)
    requires |leases| == |keys|
    ensures Outlook(out, [], keys, leases, |keys|) == Timeline(out)
  {}

  method EmitThrough(keys: seq<Event>, leases: seq<Option<int>>, endMs: int,
                     out: Script, clock: int, index: nat, ghost originals: seq<Item>)
    returns (out': Script, clock': int, index': nat)
    requires |leases| == |keys| && index <= |keys| && Chronological(keys)
    requires 0 <= clock <= endMs && Pending(keys, index, clock)
    requires Total(out) == clock && Canonical(out)
    requires forall o :: o in originals ==> o.at >= endMs
    ensures index <= index' <= |keys| && clock <= clock' <= endMs
    ensures Total(out') == clock' && Canonical(out') && Pending(keys, index', clock')
    ensures index' < |keys| ==> Time(keys[index']) > endMs
    ensures Outlook(out', originals, keys, leases, index') == Outlook(out, originals, keys, leases, index)
  {
    hide Merge, Timeline, Inputs, Total, Canonical, Chronological, Outlook, InputStep;
    out', clock', index' := out, clock, index;
    while index' < |keys| && Time(keys[index']) <= endMs
      invariant index <= index' <= |keys| && clock <= clock' <= endMs
      invariant Total(out') == clock' && Canonical(out') && Pending(keys, index', clock')
      invariant Outlook(out', originals, keys, leases, index') == Outlook(out, originals, keys, leases, index)
    {
      var eventMs := Max(clock', Time(keys[index']));
      var waited := AppendWait(out', eventMs - clock');
      EmittedKey(out', waited, originals, keys, leases, index');
      out' := waited + [InputStep(keys[index'], leases[index'])];
      clock' := eventMs;
      index' := index' + 1;
    }
  }

  // The script does exactly what both recordings ask for, when they ask for it.
  ghost predicate Faithful(script: Script, steps: seq<Step>, keys: seq<Event>, leases: seq<Option<int>>)
    requires |leases| == |keys|
  {
    && Timeline(script) == Merge(Originals(steps, 0), Inputs(keys, leases))
    && Total(script) == TraceEnd(steps, keys)
    && Canonical(script)
  }

  lemma {:induction false} LatestIsLast(keys: seq<Event>, floor: int)
    requires Chronological(keys)
    ensures Latest(keys, floor) == if keys == [] then floor else Max(floor, Time(keys[|keys| - 1]))
  {
    if keys != [] {
      LatestIsLast(keys[1..], Max(floor, Time(keys[0])));
      assert |keys| > 1 ==> !Before(keys[|keys| - 1], keys[0]);
    }
  }

  method EmitStep(step: Step, keys: seq<Event>, leases: seq<Option<int>>,
                  out: Script, clock: int, index: nat, ghost rest: seq<Step>)
    returns (out': Script, clock': int, index': nat)
    requires |leases| == |keys| && index <= |keys| && Chronological(keys)
    requires 0 <= clock == Total(out) && Pending(keys, index, clock) && Canonical(out)
    ensures index' <= |keys| && clock' == Total(out') && Pending(keys, index', clock') && Canonical(out')
    ensures clock' == Max(clock, step.atMs.GetOr(clock)) + Max(0, step.wait)
    ensures Outlook(out', Originals(rest, clock'), keys, leases, index')
         == Outlook(out, Originals([step] + rest, clock), keys, leases, index)
  {
    var atMs := step.atMs.GetOr(clock);
    ghost var at := Max(clock, atMs);
    ghost var end := at + Max(0, step.wait);
    ghost var later := Originals(rest, end);
    ghost var originals := Originals([step] + rest, at);
    StepOriginals(step, rest, clock);
    OriginalsFrom([step] + rest, at);
    OriginalsFrom(rest, end);
    hide Merge, Timeline, Inputs, Total, Canonical, Chronological, Originals, Outlook;
    out', clock', index' := out, clock, index;
    if atMs > clock {
      out', clock', index' := EmitThrough(keys, leases, atMs, out, clock, index, originals);
      var waited := AppendWait(out', atMs - clock');
      SameOutlook(out', waited, originals, keys, leases, index');
      out' := waited;
      clock' := atMs;
    }
    out', clock', index' := EmitThrough(keys, leases, clock', out', clock', index', originals);
    var endMs := clock' + Max(0, step.wait);
    if step.payload.Some? {
      EmittedOriginal(out', step.payload.value, later, keys, leases, index');
      out' := out' + [Original(step.payload.value)];
    }
    out', clock', index' := EmitThrough(keys, leases, endMs, out', clock', index', later);
    var waited := AppendWait(out', endMs - clock');
    SameOutlook(out', waited, later, keys, leases, index');
    out' := waited;
    clock' := endMs;
  }

  // A step's own action, if any, comes first of what it and the later steps ask for.
  lemma StepOriginals(step: Step, rest: seq<Step>, clock: int)
    ensures var at := Max(clock, step.atMs.GetOr(clock)); var later := Originals(rest, at + Max(0, step.wait));
      && Originals([step] + rest, clock) == Originals([step] + rest, at)
      && Originals([step] + rest, at)
         == if step.payload.Some? then [Item(at, Original(step.payload.value))] + later else later
  {
    assert ([step] + rest)[1..] == rest;
  }

  // Waiting changes nothing that is to be done.
  lemma SameOutlook(out: Script, waited: Script, originals: seq<Item>, keys: seq<Event>, leases: seq<Option<int>>,
                    index: nat)
    requires |leases| == |keys| && index <= |keys| && Timeline(waited) == Timeline(out)
    ensures Outlook(waited, originals, keys, leases, index) == Outlook(out, originals, keys, leases, index)
  {}

  // The transitions after the last step.
  method EmitTail(keys: seq<Event>, leases: seq<Option<int>>, start: Script, startMs: int, first: nat)
    returns (out: Script)
    requires |leases| == |keys| && first <= |keys| && Chronological(keys)
    requires 0 <= startMs == Total(start) && Canonical(start) && Pending(keys, first, startMs)
    ensures Canonical(out) && Timeline(out) == Outlook(start, [], keys, leases, first)
    ensures Total(out) == if first < |keys| then Max(0, Time(keys[|keys| - 1])) else startMs
    ensures Total(out) >= startMs
  {
    hide Merge, Inputs, Total, Timeline, Canonical, Chronological;
    out := start;
    var clock, index := startMs, first;
    while index < |keys|
      invariant first <= index <= |keys| && startMs <= clock == Total(out) && Canonical(out)
                && Pending(keys, index, clock)
      invariant Outlook(out, [], keys, leases, index) == Outlook(start, [], keys, leases, first)
      invariant clock == if first < index then Max(0, Time(keys[index - 1])) else startMs
    {
      var eventMs := Max(clock, Time(keys[index]));
      var waited := AppendWait(out, eventMs - clock);
      EmittedKey(out, waited, [], keys, leases, index);
      out := waited + [InputStep(keys[index], leases[index])];
      clock := eventMs;
      index := index + 1;
    }
    NothingPending(out, keys, leases);
  }

  method EmitScript(steps: seq<Step>, keys: seq<Event>, leases: seq<Option<int>>) returns (out: Script)
    requires |leases| == |keys| && Chronological(keys)
    ensures Faithful(out, steps, keys, leases)
  {
    StartsWhole(steps, keys, leases);
    hide Merge, Inputs, Total, Timeline, Canonical, Chronological, Originals, Outlook;
    out := [];
    var clock, index: nat := 0, 0;
    ghost var whole := Outlook([], Originals(steps, 0), keys, leases, 0);
    for k := 0 to |steps|
      invariant index <= |keys| && 0 <= clock == Total(out) && Canonical(out) && Pending(keys, index, clock)
      invariant Outlook(out, Originals(steps[k..], clock), keys, leases, index) == whole
      invariant EndClock(steps[k..], clock) == EndClock(steps, 0)
    {
      assert steps[k..] == [steps[k]] + steps[k + 1..] && steps[k..][1..] == steps[k + 1..];
      out, clock, index := EmitStep(steps[k], keys, leases, out, clock, index, steps[k + 1..]);
    }
    assert steps[|steps|..] == [];
    NoOriginals(clock);
    LatestIsLast(keys, clock);
    out := EmitTail(keys, leases, out, clock, index);
  }

  lemma StartsWhole(steps: seq<Step>, keys: seq<Event>, leases: seq<Option<int>>)
    requires |leases| == |keys|
    ensures Outlook([], Originals(steps, 0), keys, leases, 0) == Merge(Originals(steps, 0), Inputs(keys, leases))
    ensures Total([]) == 0 && Canonical([]) && Pending(keys, 0, 0) && steps[0..] == steps
  {
    assert keys[0..] == keys && leases[0..] == leases;
  }

  lemma NoOriginals(clock: int)
    ensures Originals([], clock) == [] && EndClock([], clock) == clock
  {}

  // ----- The planner, and what its script guarantees -----

  function Transitions(activity: seq<Event>): seq<Event> {
    StableSort(Select(activity, IsKeyboardTransition))
  }

  /** The transitions to replay are exactly those recorded, each as often as it was recorded, in
      chronological order. */
  lemma EachTransitionIsReplayed(activity: seq<Event>)
    ensures var keys := Transitions(activity);
      && Chronological(keys)
      && (forall e :: multiset(keys)[e] == if IsKeyboardTransition(e) then multiset(activity)[e] else 0)
  {
    StableSortIsStable(Select(activity, IsKeyboardTransition));
  }

  ghost predicate Planned(script: Script, steps: seq<Step>, keys: seq<Event>) {
    exists leases :: Leased(keys, leases, TraceEnd(steps, keys)) && Faithful(script, steps, keys, leases)
  }

  method Interleave(steps: seq<Step>, activity: seq<Event>, inputOwner: string, replayInputs: bool)
    returns (plan: Result<Plan, Problem>)
    ensures !replayInputs ==> plan == Success(Unchanged(steps))
    ensures replayInputs ==>
      var keys := Transitions(activity);
      && (plan.Failure? <==> Refused(keys, TraceEnd(steps, keys)))
      && (plan.Success? ==>
            && plan.value.Replay? && Planned(plan.value.script, steps, keys)
            && plan.value.inputOwner == if keys == [] then "" else inputOwner)
  {
    if !replayInputs {
      return Success(Unchanged(steps));
    }
    var keys := Transitions(activity);
    StableSortIsStable(Select(activity, IsKeyboardTransition));
    forall e | e in keys ensures IsKeyboardTransition(e) {
      assert e in multiset(keys);
      assert e in multiset(Select(activity, IsKeyboardTransition));
    }
    var traceEnd := TraceEndMs(steps, keys);
    var leases := AssignLeases(keys, traceEnd);
    match leases
    case Failure(why) =>
      plan := Failure(why);
    case Success(values) =>
      var script := EmitScript(steps, keys, values);
      plan := Success(Replay(script, if keys == [] then "" else inputOwner));
  }

  // The items of one of the two recordings.
  function Only(items: seq<Item>, inputs: bool): seq<Item> {
    if items == [] then []
    else (if items[0].act.Input? == inputs then [items[0]] else []) + Only(items[1..], inputs)
  }

  predicate MayPrecede(x: Item, y: Item) {
    x.at <= y.at && (y.act.Input? && !x.act.Input? ==> x.at < y.at)
  }

  ghost predicate Ordered(items: seq<Item>) {
    forall i, j :: 0 <= i < j < |items| ==> MayPrecede(items[i], items[j])
  }

  ghost predicate FromTwo(originals: seq<Item>, inputs: seq<Item>) {
    && Ordered(originals) && Ordered(inputs)
    && (forall o :: o in originals ==> !o.act.Input?)
    && (forall i :: i in inputs ==> i.act.Input?)
  }

  lemma FromTwoRest(originals: seq<Item>, inputs: seq<Item>)
    requires FromTwo(originals, inputs)
    ensures originals != [] ==> !originals[0].act.Input? && FromTwo(originals[1..], inputs)
    ensures inputs != [] ==> inputs[0].act.Input? && FromTwo(originals, inputs[1..])
  {
    hide MayPrecede;
    if originals != [] { assert originals[0] in originals; }
    if inputs != [] { assert inputs[0] in inputs; }
  }

  lemma OnlyCons(x: Item, rest: seq<Item>, inputs: bool)
    ensures Only([x] + rest, inputs) == if x.act.Input? == inputs then [x] + Only(rest, inputs) else Only(rest, inputs)
  {
    assert ([x] + rest)[1..] == rest;
  }

  lemma MergeStep(originals: seq<Item>, inputs: seq<Item>)
    requires originals != [] && inputs != []
    ensures Merge(originals, inputs) ==
            if inputs[0].at <= originals[0].at then [inputs[0]] + Merge(originals, inputs[1..])
            else [originals[0]] + Merge(originals[1..], inputs)
    ensures originals == [originals[0]] + originals[1..] && inputs == [inputs[0]] + inputs[1..]
  {}

  lemma MergeNothing(originals: seq<Item>, inputs: seq<Item>)
    requires originals == [] || inputs == []
    ensures Merge(originals, inputs) == originals + inputs
    ensures originals == [] ==> originals + inputs == inputs
    ensures inputs == [] ==> originals + inputs == originals
  {}

  lemma {:induction false} MergeSplits(originals: seq<Item>, inputs: seq<Item>)
    requires FromTwo(originals, inputs)
    ensures Only(Merge(originals, inputs), false) == originals
    ensures Only(Merge(originals, inputs), true) == inputs
    decreases |originals| + |inputs|
  {
    hide Merge, Only;
    if originals == [] || inputs == [] {
      MergeNothing(originals, inputs);
      if originals == [] { OnlyAll(inputs, true); } else { OnlyAll(originals, false); }
    } else {
      FromTwoRest(originals, inputs);
      hide FromTwo;
      MergeStep(originals, inputs);
      if inputs[0].at <= originals[0].at {
        MergeSplits(originals, inputs[1..]);
        OnlyCons(inputs[0], Merge(originals, inputs[1..]), false);
        OnlyCons(inputs[0], Merge(originals, inputs[1..]), true);
      } else {
        MergeSplits(originals[1..], inputs);
        OnlyCons(originals[0], Merge(originals[1..], inputs), false);
        OnlyCons(originals[0], Merge(originals[1..], inputs), true);
      }
    }
  }

  lemma {:induction false} MergeMembers(originals: seq<Item>, inputs: seq<Item>)
    ensures forall x :: x in Merge(originals, inputs) ==> x in originals || x in inputs
  {
    if originals == [] || inputs == [] {
    } else if inputs[0].at <= originals[0].at {
      MergeMembers(originals, inputs[1..]);
    } else {
      MergeMembers(originals[1..], inputs);
    }
  }

  lemma MayPrecedeAll(items: seq<Item>)
    requires Ordered(items) && items != []
    ensures forall x :: x in items[1..] ==> MayPrecede(items[0], x)
  {}

  lemma OrderedCons(x: Item, rest: seq<Item>)
    requires Ordered(rest) && forall y :: y in rest ==> MayPrecede(x, y)
    ensures Ordered([x] + rest)
  {}

  lemma {:induction false} MergeOrdered(originals: seq<Item>, inputs: seq<Item>)
    requires FromTwo(originals, inputs)
    ensures Ordered(Merge(originals, inputs))
  {
    if originals == [] || inputs == [] {
    } else {
      MayPrecedeAll(originals);
      MayPrecedeAll(inputs);
      assert originals[0] in originals && inputs[0] in inputs;
      assert originals == [originals[0]] + originals[1..] && inputs == [inputs[0]] + inputs[1..];
      if inputs[0].at <= originals[0].at {
        MergeOrdered(originals, inputs[1..]);
        MergeMembers(originals, inputs[1..]);
        OrderedCons(inputs[0], Merge(originals, inputs[1..]));
      } else {
        MergeOrdered(originals[1..], inputs);
        MergeMembers(originals[1..], inputs);
        OrderedCons(originals[0], Merge(originals[1..], inputs));
      }
    }
  }

  lemma {:induction false} OnlyAll(items: seq<Item>, inputs: bool)
    requires forall i :: i in items ==> i.act.Input? == inputs
    ensures Only(items, inputs) == items && Only(items, !inputs) == []
  {
    if items != [] {
      assert items[0] in items;
      OnlyAll(items[1..], inputs);
    }
  }

  lemma {:induction false} OriginalsOrdered(steps: seq<Step>, clock: int)
    ensures Ordered(Originals(steps, clock))
    ensures forall o :: o in Originals(steps, clock) ==> o.act.Original?
  {
    if steps != [] {
      var end := Max(clock, steps[0].atMs.GetOr(clock)) + Max(0, steps[0].wait);
      OriginalsOrdered(steps[1..], end);
      OriginalsFrom(steps[1..], end);
    }
  }

  lemma {:induction false} InputsAt(keys: seq<Event>, leases: seq<Option<int>>)
    requires |leases| == |keys|
    ensures |Inputs(keys, leases)| == |keys|
    ensures forall i :: 0 <= i < |keys| ==>
      Inputs(keys, leases)[i] == Item(Max(0, Time(keys[i])), InputStep(keys[i], leases[i]))
  {
    if keys != [] { InputsAt(keys[1..], leases[1..]); }
  }

  lemma InputsOrdered(keys: seq<Event>, leases: seq<Option<int>>)
    requires |leases| == |keys| && Chronological(keys)
    ensures Ordered(Inputs(keys, leases))
    ensures forall i :: i in Inputs(keys, leases) ==> i.act.Input?
  {
    InputsAt(keys, leases);
    forall i, j | 0 <= i < j < |keys| ensures Time(keys[i]) <= Time(keys[j]) {
      assert !Before(keys[j], keys[i]);
    }
  }

  /** Taking the key transitions out of a script leaves the trajectory on its recorded clock, and
      taking the trajectory out leaves every transition once, in order, at its recorded time. */
  lemma ScriptKeepsBothRecordings(script: Script, steps: seq<Step>, keys: seq<Event>, leases: seq<Option<int>>)
    requires |leases| == |keys| && Chronological(keys) && Faithful(script, steps, keys, leases)
    ensures Only(Timeline(script), false) == Originals(steps, 0)
    ensures Only(Timeline(script), true) == Inputs(keys, leases)
    ensures Ordered(Timeline(script))
  {
    OriginalsOrdered(steps, 0);
    InputsOrdered(keys, leases);
    MergeSplits(Originals(steps, 0), Inputs(keys, leases));
    MergeOrdered(Originals(steps, 0), Inputs(keys, leases));
  }

  lemma {:induction false} LatestBounds(keys: seq<Event>, floor: int)
    ensures Latest(keys, floor) >= floor
    ensures forall i :: 0 <= i < |keys| ==> Latest(keys, floor) >= Time(keys[i])
  {
    if keys != [] {
      LatestBounds(keys[1..], Max(floor, Time(keys[0])));
      forall i | 0 <= i < |keys| ensures Latest(keys, floor) >= Time(keys[i]) {
        assert i > 0 ==> keys[i] == keys[1..][i - 1];
      }
    }
  }

  lemma {:induction false} EndClockFrom(steps: seq<Step>, clock: int)
    ensures EndClock(steps, clock) >= clock
  {
    if steps != [] {
      EndClockFrom(steps[1..], Max(clock, steps[0].atMs.GetOr(clock)) + Max(0, steps[0].wait));
    }
  }

  /** Every lease fits the 60 s cap and outlives, by the safety margin, the hold the script plays; a
      key-down whose end is not known, since the key goes down again first, is given exactly the cap. */
  lemma LeasesOutliveHolds(steps: seq<Step>, keys: seq<Event>, leases: seq<Option<int>>)
    requires Chronological(keys) && Leased(keys, leases, TraceEnd(steps, keys))
    ensures var inputs := Inputs(keys, leases);
      && |inputs| == |keys|
      && (forall i :: 0 <= i < |keys| ==>
            inputs[i].act.Input? && (keys[i].state == "down" <==> inputs[i].act.maxHoldMs.Some?))
      && (forall i :: 0 <= i < |keys| && keys[i].state == "down" ==>
            MINIMUM_LEASE_MS <= inputs[i].act.maxHoldMs.value <= HOLD_CAP_MS)
      && (forall i, j :: Releases(keys, i, j) ==>
            inputs[i].act.maxHoldMs.value >= inputs[j].at - inputs[i].at + SAFETY_MARGIN_MS)
      && (forall i :: HeldAtEnd(keys, i, |keys|) ==>
            inputs[i].act.maxHoldMs.value >= TraceEnd(steps, keys) - inputs[i].at + SAFETY_MARGIN_MS)
      && (forall i :: 0 <= i < |keys| && keys[i].state == "down" && !Ends(keys, i) ==>
            inputs[i].act.maxHoldMs == Some(HOLD_CAP_MS))
  {
    InputsAt(keys, leases);
    EndClockFrom(steps, 0);
    LatestBounds(keys, EndClock(steps, 0));
    forall i, j | Releases(keys, i, j) ensures Time(keys[i]) <= Time(keys[j]) {
      assert !Before(keys[j], keys[i]);
    }
  }

  lemma LastItem(s: Script)
    requires s != [] && !s[|s| - 1].Wait?
    ensures Timeline(s) != [] && Timeline(s)[|Timeline(s)| - 1] == Item(Total(s), s[|s| - 1])
  {}

  /** A canonical script is the only one with its timeline and length: meaning fixes every byte. */
  // Everything of a script but its last entry.
  function Front(s: Script): Script
    requires s != []
  {
    s[..|s| - 1]
  }

  lemma FrontOf(s: Script)
    requires s != []
    ensures s == Front(s) + [s[|s| - 1]] && (Canonical(s) ==> Canonical(Front(s)))
  {}

  lemma FrontTimes(s: Script)
    requires s != []
    ensures Timeline(s)
            == Timeline(Front(s)) + if s[|s| - 1].Wait? then [] else [Item(Total(Front(s)), s[|s| - 1])]
    ensures Total(s) == Total(Front(s)) + if s[|s| - 1].Wait? then s[|s| - 1].ms else 0
  {}

  lemma SameLast(x: seq<Item>, i: Item, y: seq<Item>, j: Item)
    requires x + [i] == y + [j]
    ensures x == y && i == j
  {
    assert x == (x + [i])[..|x + [i]| - 1] && y == (y + [j])[..|y + [j]| - 1];
    assert i == (x + [i])[|x + [i]| - 1];
  }

  /** A canonical script is the only one with its timeline and length: meaning fixes every byte. */
  lemma {:induction false} CanonicalScriptsAgree(a: Script, b: Script)
    requires Canonical(a) && Canonical(b)
    requires Timeline(a) == Timeline(b) && Total(a) == Total(b)
    ensures a == b
  {
    if a == [] || b == [] {
      if a != [] { OnlyWait(a); }
      if b != [] { OnlyWait(b); }
    } else {
      FrontOf(a);
      FrontOf(b);
      FrontTimes(a);
      FrontTimes(b);
      hide Timeline, Total, Canonical;
      var x, y := a[|a| - 1], b[|b| - 1];
      if x.Wait? && y.Wait? {
        WaitLast(a);
        WaitLast(b);
        CanonicalScriptsAgree(Front(a), Front(b));
      } else if x.Wait? {
        WaitIsLate(a, b);
      } else if y.Wait? {
        WaitIsLate(b, a);
      } else {
        SameLast(Timeline(Front(a)), Item(Total(Front(a)), x), Timeline(Front(b)), Item(Total(Front(b)), y));
        CanonicalScriptsAgree(Front(a), Front(b));
      }
    }
  }

  // Before a final wait a canonical script ends with an action, or is empty.
  lemma WaitLast(s: Script)
    requires Canonical(s) && s != [] && s[|s| - 1].Wait?
    ensures var init := s[..|s| - 1];
      if init == [] then Timeline(init) == [] && Total(init) == 0
      else Timeline(init) != [] && Total(init) == Timeline(init)[|Timeline(init)| - 1].at
  {
    if |s| > 1 {
      assert !s[|s| - 2].Wait?;
      LastItem(s[..|s| - 1]);
    }
  }

  // A canonical script without actions is empty or one wait.
  lemma OnlyWait(s: Script)
    requires Canonical(s) && Timeline(s) == []
    ensures s == [] || (|s| == 1 && s[0].Wait? && Total(s) > 0)
  {
    if |s| > 1 {
      var init := s[..|s| - 1];
      if s[|s| - 1].Wait? { LastItem(init); } else { LastItem(s); }
    } else if |s| == 1 && !s[0].Wait? {
      LastItem(s);
    }
  }

  lemma WaitIsLate(waits: Script, acts: Script)
    requires waits != [] && acts != [] && waits[|waits| - 1].Wait? && !acts[|acts| - 1].Wait?
    requires Canonical(waits) && Total(waits) == Total(acts)
    ensures Timeline(waits) != Timeline(acts)
  {
    LastItem(acts);
    var init := waits[..|waits| - 1];
    if init != [] { LastItem(init); }
  }
}
