/**
 * The event bus: a bounded ring of recent events, a delivery queue that a worker drains in batches,
 * and subscribers that come and go. Each mutex section and each callback is one atomic step.
 */
module EventBus {
  import opened Wrappers

  const MAX_RECENT := 256

  // seqNo: events are numbered from 1 in the order of publication.
  datatype Event = Event(seqNo: nat, topic: string, frame: int, payload: string)

  // batch, batchSubs: what the worker took last; event, reader: the next callback it makes of those;
  // delivering: whether it holds the delivery mutex, on which Unsubscribe waits before it returns.
  datatype Bus = Bus(
    seqNo: nat, nextSub: nat, recent: seq<Event>, subs: seq<nat>, queue: seq<Event>,
    batch: seq<Event>, batchSubs: seq<nat>, event: nat, reader: nat, delivering: bool)

  // The bus beside its unbounded history: for each subscriber, the events its callback has had, and
  // the part of the history it is owed.
  datatype System = System(
    bus: Bus, history: seq<Event>, received: map<nat, seq<Event>>, from: map<nat, nat>, until: map<nat, nat>)

  datatype Action =
    | Publish(topic: string, frame: int, payload: string)
    | Subscribe
    | Unsubscribe(id: nat)
    | TakeBatch
    | BeginDelivery
    | Notify

  function Last<T>(s: seq<T>, n: nat): seq<T> { if |s| > n then s[|s| - n..] else s }

  function Without(subs: seq<nat>, id: nat): seq<nat> {
    if subs == [] then []
    else if subs[0] == id then Without(subs[1..], id) else [subs[0]] + Without(subs[1..], id)
  }

  predicate Enabled(s: System, a: Action) {
    match a
    case TakeBatch => s.bus.queue != [] && s.bus.event >= |s.bus.batch|
    case BeginDelivery => s.bus.event < |s.bus.batch| && !s.bus.delivering
    case Notify =>
      && s.bus.delivering && s.bus.event < |s.bus.batch| && s.bus.reader < |s.bus.batchSubs|
      && s.bus.batchSubs[s.bus.reader] in s.received
    case _ => true
  }

  function Taken(s: System): int { |s.history| - |s.bus.queue| }

  function BusNext(b: Bus, a: Action): Bus
    requires a.Notify? ==> b.event < |b.batch| && b.reader < |b.batchSubs|
  {
    match a
    case Publish(topic, frame, payload) =>
      var e := Event(b.seqNo + 1, topic, frame, payload);
      b.(seqNo := b.seqNo + 1, recent := Last(b.recent + [e], MAX_RECENT), queue := b.queue + [e])
    case Subscribe => b.(nextSub := b.nextSub + 1, subs := b.subs + [b.nextSub + 1])
    case Unsubscribe(id) => b.(subs := Without(b.subs, id))
    case TakeBatch =>
      b.(queue := [], batch := b.queue, batchSubs := b.subs,
         event := if b.subs == [] then |b.queue| else 0, reader := 0)
    case BeginDelivery => b.(delivering := true)
    case Notify =>
      if b.reader + 1 < |b.batchSubs| then b.(reader := b.reader + 1)
      else b.(event := b.event + 1, reader := 0, delivering := b.event + 1 < |b.batch|)
  }

  function Next(s: System, a: Action): System
    requires Enabled(s, a)
  {
    var t := s.(bus := BusNext(s.bus, a));
    match a
    case Publish(topic, frame, payload) => t.(history := s.history + [Event(s.bus.seqNo + 1, topic, frame, payload)])
    case Subscribe =>
      var id := s.bus.nextSub + 1;
      t.(received := s.received[id := []], from := s.from[id := Max(0, Taken(s))])
    case Unsubscribe(id) => if id in s.bus.subs then t.(until := s.until[id := Max(0, Taken(s))]) else t
    case TakeBatch => t
    case BeginDelivery => t
    case Notify =>
      var id := s.bus.batchSubs[s.bus.reader];
      t.(received := s.received[id := s.received[id] + [s.bus.batch[s.bus.event]]])
  }

  const EMPTY := System(Bus(0, 0, [], [], [], [], [], 0, 0, false), [], map[], map[], map[])

  // ----- What every step keeps -----

  ghost predicate Distinct(ids: seq<nat>) { forall i, j :: 0 <= i < j < |ids| ==> ids[i] != ids[j] }

  ghost predicate RingInv(s: System) {
    && s.bus.seqNo == |s.history|
    && (forall i :: 0 <= i < |s.history| ==> s.history[i].seqNo == i + 1)
    && s.bus.recent == Last(s.history, MAX_RECENT)
    && |s.bus.queue| <= |s.history| && s.bus.queue == s.history[|s.history| - |s.bus.queue|..]
  }

  ghost predicate SubscriberInv(s: System) {
    && Distinct(s.bus.subs) && Distinct(s.bus.batchSubs)
    && (forall id <- s.bus.subs :: id in s.received && id !in s.until)
    && (forall id <- s.bus.batchSubs :: id in s.received)
    && (forall id <- s.received.Keys :: 1 <= id <= s.bus.nextSub && id in s.from && (id in s.bus.subs || id in s.until))
    && (forall id <- s.until.Keys :: id in s.received)
    && s.bus.event <= |s.bus.batch|
    && (s.bus.event < |s.bus.batch| ==> s.bus.reader < |s.bus.batchSubs|)
    && (s.bus.delivering ==> s.bus.event < |s.bus.batch|)
    && (!s.bus.delivering && s.bus.event < |s.bus.batch| ==> s.bus.event == 0 && s.bus.reader == 0)
  }

  // The callbacks of the present batch that a subscriber still gets.
  function Remaining(b: Bus, id: nat): seq<Event> {
    if b.event < |b.batch| && b.reader < |b.batchSubs| && id in b.batchSubs then
      if id in b.batchSubs[..b.reader] then b.batch[b.event + 1..] else b.batch[b.event..]
    else []
  }

  function Upto(s: System, id: nat): int { if id in s.until then s.until[id] else Taken(s) }

  // What a subscriber has had and will have of the batch is one unbroken part of the history.
  ghost predicate Owed(s: System, id: nat)
    requires id in s.received && id in s.from
  {
    && s.from[id] <= Upto(s, id) <= Taken(s) <= |s.history|
    && s.received[id] + Remaining(s.bus, id) == s.history[s.from[id]..Upto(s, id)]
  }

  ghost predicate Inv(s: System) {
    && RingInv(s) && SubscriberInv(s)
    && forall id <- s.received.Keys :: Owed(s, id)
  }

  lemma {:induction false} WithoutKeepsOthers(subs: seq<nat>, id: nat)
    requires Distinct(subs)
    ensures Distinct(Without(subs, id))
    ensures forall x :: x in Without(subs, id) <==> x in subs && x != id
  {
    if subs != [] {
      assert subs == [subs[0]] + subs[1..];
      assert Distinct(subs[1..]) && subs[0] !in subs[1..];
      WithoutKeepsOthers(subs[1..], id);
      var rest := Without(subs[1..], id);
      assert subs[0] !in rest;
    }
  }

  lemma LastOfMore<T>(s: seq<T>, x: T, n: nat)
    requires n > 0
    ensures Last(Last(s, n) + [x], n) == Last(s + [x], n)
  {}

  // A step that leaves a subscriber's callbacks alone owes it what it did before.
  lemma StaysOwed(s: System, t: System, id: nat)
    requires RingInv(s) && RingInv(t) && s.history <= t.history && Taken(s) <= Taken(t)
    requires id in s.received && id in s.from && Owed(s, id)
    requires id in t.received && id in t.from && t.received[id] == s.received[id] && t.from[id] == s.from[id]
    requires Remaining(t.bus, id) == Remaining(s.bus, id) && Upto(t, id) == Upto(s, id)
    ensures Owed(t, id)
  {
    assert t.history[..|s.history|] == s.history;
  }

  lemma PublishKeepsInv(s: System, a: Action)
    requires Inv(s) && a.Publish?
    ensures Inv(Next(s, a))
  {
    PublishKeepsRing(s, a);
    hide RingInv, Owed;
    var t := Next(s, a);
    forall id | id in s.received
      ensures Owed(t, id)
    {
      PublishOwes(s, a, id);
    }
  }

  lemma PublishKeepsRing(s: System, a: Action)
    requires RingInv(s) && a.Publish?
    ensures RingInv(Next(s, a))
  {
    var t := Next(s, a);
    LastOfMore(s.history, t.history[|s.history|], MAX_RECENT);
    hide Last;
  }

  lemma PublishOwes(s: System, a: Action, id: nat)
    requires RingInv(s) && a.Publish? && id in s.received && id in s.from && Owed(s, id)
    ensures var t := Next(s, a); id in t.received && id in t.from && Owed(t, id)
  {
    PublishKeepsRing(s, a);
    hide RingInv, Last, Owed;
    StaysOwed(s, Next(s, a), id);
  }

  lemma SubscribeKeepsInv(s: System)
    requires Inv(s)
    ensures Inv(Next(s, Subscribe))
  {
    SubscribersGrow(s);
    SameRing(s, Next(s, Subscribe));
    hide RingInv, Owed, SubscriberInv;
    forall id | id in Next(s, Subscribe).received
      ensures id in Next(s, Subscribe).from && Owed(Next(s, Subscribe), id)
    {
      if id == s.bus.nextSub + 1 { NewIsOwed(s); } else { OldIsOwed(s, id); }
    }
  }

  lemma OldIsOwed(s: System, id: nat)
    requires RingInv(s) && SubscriberInv(s) && id in s.received && id in s.from && Owed(s, id)
    ensures var t := Next(s, Subscribe); id in t.received && id in t.from && Owed(t, id)
  {
    var t := Next(s, Subscribe);
    SameRing(s, t);
    NewIsUnknown(s);
    hide RingInv, Owed, SubscriberInv, Remaining;
    StaysOwed(s, t, id);
  }

  lemma NewIsOwed(s: System)
    requires RingInv(s) && SubscriberInv(s)
    ensures var t, id := Next(s, Subscribe), s.bus.nextSub + 1; id in t.received && id in t.from && Owed(t, id)
  {
    var t := Next(s, Subscribe);
    SameRing(s, t);
    NewIsUnknown(s);
    hide RingInv, Owed, SubscriberInv;
    NewSubscriber(t, s.bus.nextSub + 1);
  }

  lemma SameRing(s: System, t: System)
    requires RingInv(s) && s.history == t.history
    requires s.bus.seqNo == t.bus.seqNo && s.bus.recent == t.bus.recent && s.bus.queue == t.bus.queue
    ensures RingInv(t) && |s.bus.queue| <= |s.history|
  {
    hide Last;
  }

  lemma NewIsUnknown(s: System)
    requires SubscriberInv(s)
    ensures var id := s.bus.nextSub + 1; id !in s.received && id !in s.until && id !in s.bus.batchSubs
  {}

  lemma SubscribersGrow(s: System)
    requires SubscriberInv(s)
    ensures SubscriberInv(Next(s, Subscribe))
  {
    var t := Next(s, Subscribe);
    var id := t.bus.nextSub;
    assert t.bus.subs[|s.bus.subs|] == id;
    forall i | 0 <= i < |s.bus.subs|
      ensures s.bus.subs[i] < id && t.bus.subs[i] == s.bus.subs[i]
    {
      assert s.bus.subs[i] in s.received;
    }
  }

  lemma NewSubscriber(t: System, id: nat)
    requires RingInv(t) && id in t.received && id in t.from && id !in t.until && id !in t.bus.batchSubs
    requires t.received[id] == [] && t.from[id] == Taken(t)
    ensures Owed(t, id)
  {
    assert Remaining(t.bus, id) == [] && Upto(t, id) == t.from[id];
    var n := Taken(t);
    assert 0 <= n <= |t.history|;
    assert t.history[n..n] == [] == t.received[id] + Remaining(t.bus, id);
    assert t.history[t.from[id]..Upto(t, id)] == t.history[n..n];
  }

  lemma SubscribersShrink(s: System, id: nat)
    requires SubscriberInv(s)
    ensures SubscriberInv(Next(s, Unsubscribe(id)))
  {
    WithoutKeepsOthers(s.bus.subs, id);
  }

  lemma UnsubscribeKeepsInv(s: System, id: nat)
    requires Inv(s)
    ensures Inv(Next(s, Unsubscribe(id)))
  {
    SubscribersShrink(s, id);
    hide Owed, Without, SubscriberInv;
    var t := Next(s, Unsubscribe(id));
    forall x | x in t.received
      ensures x in t.from && Owed(t, x)
    {
      UnsubscribeOwes(s, id, x);
    }
  }

  lemma UnsubscribeOwes(s: System, id: nat, x: nat)
    requires RingInv(s) && SubscriberInv(s) && x in s.received && Owed(s, x)
    ensures x in s.from && Owed(Next(s, Unsubscribe(id)), x)
  {
    RingStays(s, id);
    hide Without, RingInv, Owed;
    var t := Next(s, Unsubscribe(id));
    assert Remaining(t.bus, x) == Remaining(s.bus, x);
    hide Remaining;
    StaysOwed(s, t, x);
  }

  lemma RingStays(s: System, id: nat)
    requires RingInv(s)
    ensures RingInv(Next(s, Unsubscribe(id))) && |s.bus.queue| <= |s.history|
  {
    hide Without;
  }

  lemma TakeBatchKeepsInv(s: System)
    requires Inv(s) && Enabled(s, TakeBatch)
    ensures Inv(Next(s, TakeBatch))
  {
    hide Owed;
    var t := Next(s, TakeBatch);
    forall id | id in t.received
      ensures Owed(t, id)
    {
      TakeBatchOwes(s, id);
    }
  }

  lemma TakeBatchOwes(s: System, id: nat)
    requires RingInv(s) && SubscriberInv(s) && Enabled(s, TakeBatch) && id in s.received && Owed(s, id)
    ensures Owed(Next(s, TakeBatch), id)
  {
    hide Last, Distinct;
    var t := Next(s, TakeBatch);
    var queue := s.bus.queue;
    if id in s.bus.subs {
      RemainingOfNew(s.bus, id);
      assert s.history[s.from[id]..|s.history|] == s.history[s.from[id]..Taken(s)] + queue;
    } else {
      assert Upto(t, id) == Upto(s, id);
    }
  }

  lemma RemainingOfNew(b: Bus, id: nat)
    requires b.queue != [] && b.event >= |b.batch| && id in b.subs
    ensures Remaining(BusNext(b, TakeBatch), id) == b.queue && Remaining(b, id) == []
  {}

  // One callback moves one event from what a subscriber still gets to what it has had.
  lemma NotifyMovesOne(b: Bus, id: nat)
    requires b.event < |b.batch| && b.reader < |b.batchSubs| && Distinct(b.batchSubs)
    ensures var rest := Remaining(BusNext(b, Notify), id);
      Remaining(b, id) == if id == b.batchSubs[b.reader] then [b.batch[b.event]] + rest else rest
  {
    var now := b.batchSubs[b.reader];
    UpTo(b.batchSubs, b.reader, id);
    if id == now {
      assert id !in b.batchSubs[..b.reader];
      assert b.batch[b.event..] == [b.batch[b.event]] + b.batch[b.event + 1..];
    }
    if b.reader + 1 == |b.batchSubs| {
      assert b.batchSubs[..b.reader + 1] == b.batchSubs;
    }
  }

  lemma UpTo(ids: seq<nat>, i: nat, id: nat)
    requires i < |ids|
    ensures id in ids[..i + 1] <==> id in ids[..i] || id == ids[i]
    ensures id in ids[..i] ==> id in ids
  {
    assert ids[..i + 1] == ids[..i] + [ids[i]];
  }

  lemma NotifyOwes(s: System, id: nat)
    requires RingInv(s) && SubscriberInv(s) && Enabled(s, Notify) && id in s.received && Owed(s, id)
    ensures Owed(Next(s, Notify), id)
  {
    NotifyMovesOne(s.bus, id);
    hide RingInv, Remaining, Distinct, SubscriberInv;
    var t := Next(s, Notify);
    assert Taken(t) == Taken(s) && Upto(t, id) == Upto(s, id);
    var rest := Remaining(t.bus, id);
    if id == s.bus.batchSubs[s.bus.reader] {
      assert t.received[id] == s.received[id] + [s.bus.batch[s.bus.event]];
      assert t.received[id] + rest == s.received[id] + Remaining(s.bus, id);
    }
  }

  lemma NotifyKeepsInv(s: System)
    requires Inv(s) && Enabled(s, Notify)
    ensures Inv(Next(s, Notify))
  {
    hide Owed;
    var t := Next(s, Notify);
    forall id | id in t.received
      ensures Owed(t, id)
    {
      NotifyOwes(s, id);
    }
  }

  lemma BeginDeliveryKeepsInv(s: System)
    requires Inv(s) && Enabled(s, BeginDelivery)
    ensures Inv(Next(s, BeginDelivery))
  {
    var t := Next(s, BeginDelivery);
    forall id | id in t.received
      ensures Owed(t, id)
    {
      StaysOwed(s, t, id);
    }
  }

  lemma StepKeepsInv(s: System, a: Action)
    requires Inv(s) && Enabled(s, a)
    ensures Inv(Next(s, a))
  {
    hide Inv;
    match a
    case Publish(_, _, _) => PublishKeepsInv(s, a);
    case Subscribe => SubscribeKeepsInv(s);
    case Unsubscribe(id) => UnsubscribeKeepsInv(s, id);
    case TakeBatch => TakeBatchKeepsInv(s);
    case BeginDelivery => BeginDeliveryKeepsInv(s);
    case Notify => NotifyKeepsInv(s);
  }

  lemma StartIsSound()
    ensures Inv(EMPTY)
  {}

  ghost predicate IsRun(s: System, run: seq<Action>)
    decreases |run|
  {
    run == [] || (Enabled(s, run[0]) && IsRun(Next(s, run[0]), run[1..]))
  }

  ghost function After(s: System, run: seq<Action>): System
    requires IsRun(s, run)
    decreases |run|
  {
    if run == [] then s else After(Next(s, run[0]), run[1..])
  }

  // A step adds to the history and the subscribers, and keeps what each of them is owed.
  lemma StepKeepsEntries(s: System, a: Action)
    requires SubscriberInv(s) && Enabled(s, a)
    ensures var t := Next(s, a);
      && s.history <= t.history && s.bus.nextSub <= t.bus.nextSub
      && (forall id <- s.from.Keys :: id <= s.bus.nextSub ==> id in t.from && t.from[id] == s.from[id])
      && (forall id <- s.until.Keys :: id !in s.bus.subs ==>
              id in t.received && id !in t.bus.subs && id in t.until && t.until[id] == s.until[id])
  {
    if a.Unsubscribe? { WithoutKeepsOthers(s.bus.subs, a.id); }
    hide Without;
  }

  // From any sound state the history only grows, and a subscriber keeps what it is owed.
  lemma {:induction false} RunKeepsInv(s: System, run: seq<Action>)
    requires Inv(s) && IsRun(s, run)
    ensures Inv(After(s, run)) && s.history <= After(s, run).history
    ensures forall id <- s.from.Keys :: id <= s.bus.nextSub ==>
              id in After(s, run).from && After(s, run).from[id] == s.from[id]
    ensures forall id <- s.until.Keys :: id in s.received && id !in s.bus.subs ==>
              id in After(s, run).until && After(s, run).until[id] == s.until[id]
    decreases |run|
  {
    if run != [] {
      StepKeepsEntries(s, run[0]);
      StepKeepsInv(s, run[0]);
      hide Inv, Next;
      RunKeepsInv(Next(s, run[0]), run[1..]);
    }
  }

  // ----- The ring -----

  /** What a poller with cursor n gets: exactly the events after n among the last 256; and that is
      everything after n, exactly when no more than 256 events came after n. */
  lemma PollerSeesTheRing(s: System, n: nat)
    requires Inv(s)
    ensures var oldest := if |s.history| > MAX_RECENT then |s.history| - MAX_RECENT else 0;
      Newer(s.bus.recent, n) == s.history[Max(oldest, Min(n, |s.history|))..]
    ensures Newer(s.bus.recent, n) == s.history[Min(n, |s.history|)..] <==> |s.history| - n <= MAX_RECENT
  {
    SelectedSuffix(s.bus.recent, |s.history| - |s.bus.recent|, n);
  }

  // The events of a ring with numbers above n.
  function Newer(recent: seq<Event>, n: nat): seq<Event> {
    if recent == [] then [] else (if recent[0].seqNo > n then [recent[0]] else []) + Newer(recent[1..], n)
  }

  lemma {:induction false} SelectedSuffix(events: seq<Event>, first: nat, n: nat)
    requires forall i :: 0 <= i < |events| ==> events[i].seqNo == first + i + 1
    ensures Newer(events, n) == events[Max(0, Min(n - first, |events|))..]
    decreases |events|
  {
    if events != [] {
      var rest := events[1..];
      SelectedSuffix(rest, first + 1, n);
      assert Newer(events, n) == (if events[0].seqNo > n then [events[0]] else []) + Newer(rest, n);
      hide Newer;
      DropFirst(events, if n <= first then 0 else Min(n - first, |events|));
    }
  }

  lemma DropFirst<T>(s: seq<T>, k: nat)
    requires s != [] && k <= |s|
    ensures s[k..] == if k == 0 then [s[0]] + s[1..] else s[1..][k - 1..]
    ensures s[1..][0..] == s[1..]
  {}

  // What a poller receives that polls when the history has these lengths, each time from the last
  // number it received.
  ghost function Polled(history: seq<Event>, lengths: seq<nat>, cursor: nat): seq<Event>
    requires forall i :: 0 <= i < |lengths| ==> lengths[i] <= |history|
    decreases |lengths|
  {
    if lengths == [] then []
    else
      var got := Newer(Last(history[..lengths[0]], MAX_RECENT), cursor);
      got + Polled(history, lengths[1..], if got == [] then cursor else got[|got| - 1].seqNo)
  }

  predicate Ascending(lengths: seq<nat>, cursor: nat)
    decreases |lengths|
  {
    lengths == [] || (cursor <= lengths[0] && Ascending(lengths[1..], lengths[0]))
  }

  // No more than 256 events pass between polls.
  predicate PollsOften(lengths: seq<nat>, cursor: nat)
    decreases |lengths|
  {
    lengths == [] || (lengths[0] <= cursor + MAX_RECENT && PollsOften(lengths[1..], lengths[0]))
  }

  function LastLength(lengths: seq<nat>, cursor: nat): nat { if lengths == [] then cursor else lengths[|lengths| - 1] }

  // One poll: what it gets, and where it leaves the cursor.
  lemma OnePoll(history: seq<Event>, n: nat, cursor: nat)
    requires forall i :: 0 <= i < |history| ==> history[i].seqNo == i + 1
    requires cursor <= n <= |history|
    ensures var got := Newer(Last(history[..n], MAX_RECENT), cursor);
      && got == history[if n > cursor + MAX_RECENT then n - MAX_RECENT else cursor..n]
      && (if got == [] then cursor else got[|got| - 1].seqNo) == n
  {
    var oldest := Max(0, n - MAX_RECENT);
    var ring := Last(history[..n], MAX_RECENT);
    assert ring == history[oldest..n];
    SelectedSuffix(ring, oldest, cursor);
    hide Newer;
    var from := Max(0, Min(cursor - oldest, |ring|));
    assert ring[from..] == history[oldest + from..n];
  }

  // A poll leaves the rest to the later ones.
  lemma PollsLater(history: seq<Event>, lengths: seq<nat>, cursor: nat)
    requires forall i :: 0 <= i < |history| ==> history[i].seqNo == i + 1
    requires forall i :: 0 <= i < |lengths| ==> lengths[i] <= |history|
    requires lengths != [] && cursor <= lengths[0]
    ensures var n := lengths[0];
      Polled(history, lengths, cursor) ==
      history[if n > cursor + MAX_RECENT then n - MAX_RECENT else cursor..n] + Polled(history, lengths[1..], n)
  {
    hide Newer, Last;
    var got := Newer(Last(history[..lengths[0]], MAX_RECENT), cursor);
    var next := if got == [] then cursor else got[|got| - 1].seqNo;
    assert Polled(history, lengths, cursor) == got + Polled(history, lengths[1..], next);
    hide Polled;
    OnePoll(history, lengths[0], cursor);
    assert next == lengths[0];
  }

  /** A poller that goes on from the last number it received gets every event once, in order, exactly
      when it never lets more than 256 events pass between polls. */
  lemma {:induction false} PollerMissesNothing(history: seq<Event>, lengths: seq<nat>, cursor: nat)
    requires forall i :: 0 <= i < |history| ==> history[i].seqNo == i + 1
    requires forall i :: 0 <= i < |lengths| ==> lengths[i] <= |history|
    requires Ascending(lengths, cursor) && cursor <= |history|
    ensures cursor <= LastLength(lengths, cursor) <= |history|
    ensures |Polled(history, lengths, cursor)| <= LastLength(lengths, cursor) - cursor
    ensures Polled(history, lengths, cursor) == history[cursor..LastLength(lengths, cursor)]
            <==> PollsOften(lengths, cursor)
    ensures |Polled(history, lengths, cursor)| == LastLength(lengths, cursor) - cursor <==> PollsOften(lengths, cursor)
    decreases |lengths|
  {
    if lengths != [] {
      var n, rest := lengths[0], lengths[1..];
      PollsLater(history, lengths, cursor);
      PollerMissesNothing(history, rest, n);
      hide Polled;
      var end := LastLength(rest, n);
      assert end == LastLength(lengths, cursor);
      assert history[cursor..n] + history[n..end] == history[cursor..end];
    }
  }

  // ----- Delivery -----

  /** An event published while a subscriber stays registered reaches it exactly once, in order: what
      it has had, what the batch in hand still brings it and what is queued is the whole history from
      the first event queued when it subscribed. */
  lemma EachEventOnce(s: System, run: seq<Action>)
    requires Inv(s) && IsRun(Next(s, Subscribe), run)
    ensures var id := s.bus.nextSub + 1; var t := After(Next(s, Subscribe), run);
      && id in t.received && s.history <= t.history
      && (id in t.bus.subs ==>
            t.received[id] + Remaining(t.bus, id) + t.bus.queue == t.history[|s.history| - |s.bus.queue|..])
  {
    hide RingInv, SubscriberInv, Owed;
    SubscribeKeepsInv(s);
    var first := Next(s, Subscribe);
    RunKeepsInv(first, run);
    var t, id := After(first, run), s.bus.nextSub + 1;
    ReceivedStays(first, run, id);
    QueueIsSuffix(s);
    OwedNow(t, id);
  }

  lemma QueueIsSuffix(s: System)
    requires RingInv(s)
    ensures |s.bus.queue| <= |s.history|
  {}

  // What a registered subscriber has had, still gets and has queued runs to the end of the history.
  lemma OwedNow(t: System, id: nat)
    requires Inv(t) && id in t.received
    ensures id in t.from && t.from[id] <= |t.history|
    ensures id in t.bus.subs ==> t.received[id] + Remaining(t.bus, id) + t.bus.queue == t.history[t.from[id]..]
  {
    assert Owed(t, id);
    if id in t.bus.subs {
      assert t.history[t.from[id]..] == t.history[t.from[id]..Taken(t)] + t.bus.queue;
    }
  }

  lemma {:induction false} ReceivedStays(s: System, run: seq<Action>, id: nat)
    requires IsRun(s, run) && id in s.received && id <= s.bus.nextSub
    ensures id in After(s, run).received && s.received[id] <= After(s, run).received[id]
    decreases |run|
  {
    if run != [] { ReceivedStays(Next(s, run[0]), run[1..], id); }
  }

  /** After a subscriber has been removed, it gets no event that was published later, nor any that was
      still queued. */
  lemma NothingAfterRemoval(s: System, id: nat, run: seq<Action>)
    requires Inv(s) && id in s.bus.subs && IsRun(Next(s, Unsubscribe(id)), run)
    ensures var t := After(Next(s, Unsubscribe(id)), run);
      && id in t.received
      && t.received[id] <= s.history[s.from[id]..|s.history| - |s.bus.queue|]
      && t.received[id] + Remaining(t.bus, id) == s.received[id] + Remaining(s.bus, id)
  {
    hide RingInv, SubscriberInv, Owed;
    UnsubscribeKeepsInv(s, id);
    var first := Next(s, Unsubscribe(id));
    Removed(s, id);
    RunKeepsInv(first, run);
    RemovedGetsTheBatch(first, id, run);
    var t := After(first, run);
    OwedAfterRemoval(s, id);
    OwedAfterRemoval(t, id);
    var owed := t.received[id] + Remaining(t.bus, id);
    assert owed == t.history[s.from[id]..Taken(s)] == s.history[s.from[id]..Taken(s)];
    assert t.received[id] == owed[..|t.received[id]|];
  }

  lemma Removed(s: System, id: nat)
    requires Inv(s) && id in s.bus.subs
    ensures id in s.received && id in s.from && id <= s.bus.nextSub && Upto(s, id) == Taken(s)
    ensures var first := Next(s, Unsubscribe(id));
      id !in first.bus.subs && id in first.until && first.until[id] == Taken(s)
  {
    WithoutKeepsOthers(s.bus.subs, id);
  }

  lemma OwedAfterRemoval(t: System, id: nat)
    requires Inv(t) && id in t.received
    ensures id in t.from && t.from[id] <= Upto(t, id) <= Taken(t) <= |t.history|
    ensures t.received[id] + Remaining(t.bus, id) == t.history[t.from[id]..Upto(t, id)]
  {
    assert Owed(t, id);
  }

  // ----- Every run from the empty bus -----

  lemma EveryRunIsSound(run: seq<Action>)
    requires IsRun(EMPTY, run)
    ensures Inv(After(EMPTY, run))
  {
    StartIsSound();
    hide Inv, Next;
    RunKeepsInv(EMPTY, run);
  }

  ghost predicate Leads(s: System, run: seq<Action>, t: System) { IsRun(s, run) && After(s, run) == t }

  // What a run publishes, numbered from the number given.
  function Published(run: seq<Action>, next: nat): seq<Event>
    decreases |run|
  {
    if run == [] then []
    else if run[0].Publish? then
      [Event(next, run[0].topic, run[0].frame, run[0].payload)] + Published(run[1..], next + 1)
    else Published(run[1..], next)
  }

  // The history is what has been published.
  lemma {:induction false} HistoryIsPublished(s: System, run: seq<Action>)
    requires IsRun(s, run) && s.bus.seqNo == |s.history|
    ensures After(s, run).history == s.history + Published(run, |s.history| + 1)
    decreases |run|
  {
    if run != [] {
      var t := Next(s, run[0]);
      OneMorePublished(s, run[0]);
      hide Next, Enabled;
      assert After(s, run) == After(t, run[1..]);
      HistoryIsPublished(t, run[1..]);
    }
  }

  lemma OneMorePublished(s: System, a: Action)
    requires Enabled(s, a) && s.bus.seqNo == |s.history|
    ensures var t := Next(s, a);
      && t.bus.seqNo == |t.history|
      && t.history == s.history + if a.Publish? then [Event(|s.history| + 1, a.topic, a.frame, a.payload)] else []
  {
    hide Last, Without;
  }

  /** A whole subscription, in every run from the empty bus. While it stands, what its callback has had,
      what the batch in hand still brings it and what is queued make up exactly what was queued when it
      began and all that has been published since, each event once and in order. Once it has been
      removed, what it has had and the batch in hand make up the same but for what was queued at its
      removal, whatever is published later. And a poller of that moment gets the last 256 events
      published. */
  lemma WholeSubscription(before: seq<Action>, s: System, during: seq<Action>, u: System, after: seq<Action>, t: System)
    requires Leads(EMPTY, before, s) && Leads(Next(s, Subscribe), during, u)
    requires s.bus.nextSub + 1 in u.bus.subs && Leads(Next(u, Unsubscribe(s.bus.nextSub + 1)), after, t)
    ensures var id, due := s.bus.nextSub + 1, s.bus.queue + Published(during, |s.history| + 1);
      && id in u.received && u.received[id] + Remaining(u.bus, id) + u.bus.queue == due
      && id in t.received && t.received[id] + Remaining(t.bus, id) + u.bus.queue == due
    ensures u.bus.recent == Last(Published(before, 1) + Published(during, |s.history| + 1), MAX_RECENT)
  {
    StartsSubscription(before, s);
    WhileSubscribed(s, during, u);
    RecentlyPublished(s, before, during, u);
    hide Leads, Next, Remaining, Inv, Published, Last;
    AfterRemoval(u, s.bus.nextSub + 1, after, t);
  }

  lemma StartsSubscription(before: seq<Action>, s: System)
    requires Leads(EMPTY, before, s)
    ensures Inv(s) && s.history == Published(before, 1)
  {
    hide IsRun, After, Inv, Published;
    EveryRunIsSound(before);
    HistoryIsPublished(EMPTY, before);
  }

  lemma WhileSubscribed(s: System, during: seq<Action>, u: System)
    requires Inv(s) && Leads(Next(s, Subscribe), during, u)
    ensures Inv(u) && u.history == s.history + Published(during, |s.history| + 1)
    ensures var id := s.bus.nextSub + 1;
      && id in u.received
      && (id in u.bus.subs ==>
            u.received[id] + Remaining(u.bus, id) + u.bus.queue == s.bus.queue + Published(during, |s.history| + 1))
  {
    HistoryWhileSubscribed(s, during, u);
    Sound(s);
    var published := Published(during, |s.history| + 1);
    QueueAndMore(s.history, |s.bus.queue|, published);
    hide IsRun, After, Next, Inv, Published, Remaining, Last;
    EachEventOnce(s, during);
  }

  lemma HistoryWhileSubscribed(s: System, during: seq<Action>, u: System)
    requires Inv(s) && Leads(Next(s, Subscribe), during, u)
    ensures Inv(u) && u.history == s.history + Published(during, |s.history| + 1)
  {
    var first := Next(s, Subscribe);
    SubscribeKeepsInv(s);
    Sound(s);
    OneMorePublished(s, Subscribe);
    hide IsRun, After, Next, Inv, Published;
    RunKeepsInv(first, during);
    HistoryIsPublished(first, during);
  }

  lemma QueueAndMore(history: seq<Event>, n: nat, more: seq<Event>)
    requires n <= |history|
    ensures (history + more)[|history| - n..] == history[|history| - n..] + more
  {}

  lemma RecentlyPublished(s: System, before: seq<Action>, during: seq<Action>, u: System)
    requires Inv(u) && s.history == Published(before, 1) && u.history == s.history + Published(during, |s.history| + 1)
    ensures u.bus.recent == Last(Published(before, 1) + Published(during, |s.history| + 1), MAX_RECENT)
  {
    Sound(u);
  }

  lemma AfterRemoval(u: System, id: nat, after: seq<Action>, t: System)
    requires Inv(u) && id in u.bus.subs && id in u.received && Leads(Next(u, Unsubscribe(id)), after, t)
    ensures id in t.received && t.received[id] + Remaining(t.bus, id) == u.received[id] + Remaining(u.bus, id)
  {
    hide IsRun, After, Inv, Remaining, Next;
    NothingAfterRemoval(u, id, after);
  }

  lemma Sound(s: System)
    requires Inv(s)
    ensures s.bus.seqNo == |s.history| && s.bus.recent == Last(s.history, MAX_RECENT)
    ensures |s.bus.queue| <= |s.history| && s.bus.queue == s.history[|s.history| - |s.bus.queue|..]
  {}

  // ----- What Unsubscribe promises when it returns -----

  // The worker has taken a batch for this subscriber and not yet begun to deliver it.
  predicate Undelivered(b: Bus, id: nat) { b.event < |b.batch| && id in b.batchSubs }

  // A delivery under way reaches every subscriber of its batch.
  lemma {:induction false} DeliveryReaches(s: System, id: nat) returns (run: seq<Action>)
    requires Inv(s) && s.bus.delivering && id in s.bus.batchSubs && id !in s.bus.batchSubs[..s.bus.reader]
    ensures IsRun(s, run) && id in After(s, run).received && |After(s, run).received[id]| > |s.received[id]|
    decreases |s.bus.batchSubs| - s.bus.reader
  {
    hide RingInv, Owed;
    var t := Next(s, Notify);
    NotifyKeepsInv(s);
    if s.bus.batchSubs[s.bus.reader] == id {
      run := [Notify];
      assert IsRun(t, run[1..]) && After(t, run[1..]) == t;
    } else {
      var k :| 0 <= k < |s.bus.batchSubs| && s.bus.batchSubs[k] == id;
      assert k > s.bus.reader;
      assert t.bus.batchSubs[..s.bus.reader + 1] == s.bus.batchSubs[..s.bus.reader] + [s.bus.batchSubs[s.bus.reader]];
      var rest := DeliveryReaches(t, id);
      run := [Notify] + rest;
      assert run[1..] == rest;
    }
  }

  /** Unsubscribe returns once the delivery mutex is free. The promise of its documentation, that the
      callback never runs again from then on, holds exactly when the worker has no batch in hand that
      it took for this subscriber before the removal. */
  lemma UnsubscribeIsFinal(s: System, id: nat)
    requires Inv(s) && id in s.received && id !in s.bus.subs && !s.bus.delivering
    ensures (forall run :: IsRun(s, run) ==>
               id in After(s, run).received && After(s, run).received[id] == s.received[id])
            <==> !Undelivered(s.bus, id)
  {
    hide Inv, IsRun, After;
    if Undelivered(s.bus, id) {
      var run := StillDelivered(s, id);
      assert After(s, run).received[id] != s.received[id];
    } else {
      forall run | IsRun(s, run)
        ensures id in After(s, run).received && After(s, run).received[id] == s.received[id]
      {
        RemovedGetsTheBatch(s, id, run);
        assert Remaining(s.bus, id) == [];
      }
    }
  }

  lemma StillDelivered(s: System, id: nat) returns (run: seq<Action>)
    requires Inv(s) && id in s.received && !s.bus.delivering && Undelivered(s.bus, id)
    ensures IsRun(s, run) && id in After(s, run).received && |After(s, run).received[id]| > |s.received[id]|
  {
    hide RingInv, Owed;
    BeginDeliveryKeepsInv(s);
    var rest := DeliveryReaches(Next(s, BeginDelivery), id);
    run := [BeginDelivery] + rest;
    assert run[1..] == rest;
  }

  // A subscriber that has been removed gets what is left of the batch in hand, and no more.
  lemma RemovedGetsTheBatch(s: System, id: nat, run: seq<Action>)
    requires Inv(s) && id in s.received && id !in s.bus.subs && IsRun(s, run)
    ensures var t := After(s, run);
      && id in t.received && s.received[id] <= t.received[id]
      && t.received[id] + Remaining(t.bus, id) == s.received[id] + Remaining(s.bus, id)
  {
    RemovedIsKnown(s, id);
    hide RingInv, SubscriberInv, Owed, Remaining;
    RunKeepsInv(s, run);
    ReceivedStays(s, run, id);
    var t := After(s, run);
    hide Inv, IsRun, After;
    OwedAfterRemoval(s, id);
    OwedAfterRemoval(t, id);
    SamePart(s.history, t.history, s.from[id], s.until[id]);
  }

  lemma SamePart(short: seq<Event>, long: seq<Event>, from: nat, end: nat)
    requires short <= long && from <= end <= |short|
    ensures long[from..end] == short[from..end]
  {}

  lemma RemovedIsKnown(s: System, id: nat)
    requires Inv(s) && id in s.received && id !in s.bus.subs
    ensures id in s.until && id in s.from && id <= s.bus.nextSub
  {}

  /** It does fail: subscribe, publish, let the worker take the batch, remove the subscriber and return
      because the mutex is still free; then the worker delivers, and the callback runs. */
  lemma CallbackAfterReturn(topic: string, payload: string)
    ensures var before := [Subscribe, Publish(topic, 0, payload), TakeBatch, Unsubscribe(1)];
      var late := [BeginDelivery, Notify];
      && IsRun(EMPTY, before) && IsRun(After(EMPTY, before), late)
      && var s, t := After(EMPTY, before), After(After(EMPTY, before), late);
         && 1 !in s.bus.subs && !s.bus.delivering && 1 in s.received && s.received[1] == []
         && 1 in t.received && t.received[1] == [Event(1, topic, 0, payload)]
  {
    var s1 := Next(EMPTY, Subscribe);
    var s2 := Next(s1, Publish(topic, 0, payload));
    var s3 := Next(s2, TakeBatch);
    var s4 := Next(s3, Unsubscribe(1));
    assert s2.bus.subs == [1] && |s2.bus.queue| == 1 && s3.bus.batchSubs == [1];
    assert Without([1], 1) == [];
    var s5 := Next(s4, BeginDelivery);
    var s6 := Next(s5, Notify);
    assert s6.received[1] == [Event(1, topic, 0, payload)];
    RunOfFour(EMPTY, Subscribe, Publish(topic, 0, payload), TakeBatch, Unsubscribe(1));
    RunOfTwo(s4, BeginDelivery, Notify);
  }

  lemma RunOfTwo(s: System, a: Action, b: Action)
    requires Enabled(s, a) && Enabled(Next(s, a), b)
    ensures IsRun(s, [a, b]) && After(s, [a, b]) == Next(Next(s, a), b)
  {
    hide Next, Enabled;
    assert [a, b][1..] == [b] && [b][1..] == [];
    var t := Next(s, a);
    assert IsRun(t, [b]) && After(t, [b]) == Next(t, b);
  }

  lemma RunOfFour(s: System, a: Action, b: Action, c: Action, d: Action)
    requires Enabled(s, a) && Enabled(Next(s, a), b)
    requires var t := Next(Next(s, a), b); Enabled(t, c) && Enabled(Next(t, c), d)
    ensures IsRun(s, [a, b, c, d]) && After(s, [a, b, c, d]) == Next(Next(Next(Next(s, a), b), c), d)
  {
    hide Next, Enabled;
    var s1 := Next(s, a);
    RunOfTwo(Next(s1, b), c, d);
    assert [a, b, c, d][1..] == [b, c, d] && [b, c, d][1..] == [c, d];
    assert IsRun(s1, [b, c, d]) && After(s1, [b, c, d]) == After(Next(s1, b), [c, d]);
  }

  // ----- The class -----

  class EventBus {
    var seqNo: nat
    var nextSub: nat
    var recent: seq<Event>
    var subs: seq<nat>
    var deliverQueue: seq<Event>
    // The worker's own: the batch in hand and its place in it.
    var batch: seq<Event>
    var batchSubs: seq<nat>
    var event: nat
    var reader: nat
    // Whether the worker holds the delivery mutex.
    var delivering: bool

    ghost function Model(): Bus
      reads this
    {
      Bus(seqNo, nextSub, recent, subs, deliverQueue, batch, batchSubs, event, reader, delivering)
    }

    constructor ()
      ensures Model() == EMPTY.bus
    {
      seqNo, nextSub, recent, subs, deliverQueue := 0, 0, [], [], [];
      batch, batchSubs, event, reader, delivering := [], [], 0, 0, false;
    }

    method Publish(topic: string, frame: int, payload: string)
      requires |recent| <= MAX_RECENT
      modifies this
      ensures Model() == BusNext(old(Model()), Action.Publish(topic, frame, payload))
    {
      seqNo := seqNo + 1;
      var e := Event(seqNo, topic, frame, payload);
      recent := recent + [e];
      ghost var was := recent;
      while |recent| > MAX_RECENT
        invariant recent == was || recent == was[1..]
        invariant |was| > MAX_RECENT ==> |recent| >= MAX_RECENT
        invariant |was| <= MAX_RECENT ==> recent == was
        invariant seqNo == old(seqNo) + 1 && nextSub == old(nextSub) && subs == old(subs)
                  && deliverQueue == old(deliverQueue)
        invariant batch == old(batch) && batchSubs == old(batchSubs) && event == old(event) && reader == old(reader)
        invariant delivering == old(delivering)
        decreases |recent|
      {
        recent := recent[1..];
      }
      deliverQueue := deliverQueue + [e];
    }

    method Subscribe() returns (id: nat)
      modifies this
      ensures id == old(nextSub) + 1 && Model() == BusNext(old(Model()), Action.Subscribe)
    {
      nextSub := nextSub + 1;
      id := nextSub;
      subs := subs + [id];
    }

    // The removal; the call returns as soon as the delivery mutex is free after it.
    method Unsubscribe(id: nat)
      modifies this
      ensures Model() == BusNext(old(Model()), Action.Unsubscribe(id))
    {
      var kept, i := [], 0;
      while i < |subs|
        invariant 0 <= i <= |subs| && kept + Without(subs[i..], id) == Without(subs, id)
      {
        if subs[i] != id {
          kept := kept + [subs[i]];
        }
        i := i + 1;
      }
      subs := kept;
    }

    method Since(since: nat) returns (out: seq<Event>)
      ensures out == Newer(recent, since)
    {
      out := [];
      var i := 0;
      while i < |recent|
        invariant 0 <= i <= |recent| && out + Newer(recent[i..], since) == Newer(recent, since)
      {
        if recent[i].seqNo > since {
          out := out + [recent[i]];
        }
        i := i + 1;
      }
    }

    method TakeBatch()
      requires deliverQueue != [] && event >= |batch|
      modifies this
      ensures Model() == BusNext(old(Model()), Action.TakeBatch)
    {
      batch, deliverQueue, batchSubs := deliverQueue, [], subs;
      event, reader := if subs == [] then |batch| else 0, 0;
    }

    method BeginDelivery()
      requires event < |batch| && !delivering
      modifies this
      ensures Model() == BusNext(old(Model()), Action.BeginDelivery)
    {
      delivering := true;
    }

    // The next callback of the loops over events and subscribers.
    method NotifyNext() returns (id: nat, e: Event)
      requires event < |batch| && reader < |batchSubs|
      modifies this
      ensures id == old(batchSubs[reader]) && e == old(batch[event])
      ensures Model() == BusNext(old(Model()), Notify)
    {
      id, e := batchSubs[reader], batch[event];
      reader := reader + 1;
      if reader == |batchSubs| {
        event, reader := event + 1, 0;
        delivering := event < |batch|;
      }
    }
  }
}
