/**
 * The table of console captures that can still be read: an unordered map and the order in which its
 * keys were added, kept together and bounded.
 */
module CaptureTable {
  import opened Wrappers
  import ConsoleCapture

  const MAX_CAPTURES := 64
  const MAX_UINT64 := 0xFFFF_FFFF_FFFF_FFFF

  // ----- Identifiers -----

  const HEX_DIGITS := "0123456789ABCDEF"

  function Power16(width: nat): (p: nat)
    ensures p > 0
  {
    if width == 0 then 1 else 16 * Power16(width - 1)
  }

  // The last hexadecimal digits of a number; sixteen of them are a whole 64-bit number.
  function Hex(n: nat, width: nat): (s: string)
    ensures |s| == width && forall c <- s :: c in HEX_DIGITS
    decreases width
  {
    if width == 0 then "" else Hex(n / 16, width - 1) + [HEX_DIGITS[n % 16]]
  }

  lemma {:induction false} HexIsInjective(m: nat, n: nat, width: nat)
    requires m < Power16(width) && n < Power16(width) && Hex(m, width) == Hex(n, width)
    ensures m == n
    decreases width
  {
    if width > 0 {
      var front, last := width - 1, width;
      assert Hex(m, width)[..front] == Hex(m / 16, front) && Hex(n, width)[..front] == Hex(n / 16, front);
      assert Hex(m, width)[front] == HEX_DIGITS[m % 16] && Hex(n, width)[front] == HEX_DIGITS[n % 16];
      HexIsInjective(m / 16, n / 16, front);
      DigitsDiffer(m % 16, n % 16);
    }
  }

  lemma DigitsDiffer(i: nat, j: nat)
    requires i < 16 && j < 16 && HEX_DIGITS[i] == HEX_DIGITS[j]
    ensures i == j
  {}

  lemma Range64()
    ensures Power16(16) == MAX_UINT64 + 1
  {
    assert Power16(4) == 0x1_0000;
    assert Power16(8) == 0x1_0000_0000;
    assert Power16(12) == 0x1_0000_0000_0000;
  }

  datatype Capture = Capture(id: string, beginMarker: string, endMarker: string)

  function Id(seed: nat, sequence: nat): string { "cap-" + Hex(seed, 16) + "-" + Hex(sequence, 16) }

  function Marker(prefix: string, seed: nat, sequence: nat): string {
    prefix + Hex(seed, 16) + "x" + Hex(sequence, 16)
  }

  function CaptureOf(seed: nat, sequence: nat): (c: Capture)
    ensures c.id == Id(seed, sequence)
  {
    Capture(Id(seed, sequence),
            Marker("DVBCAPBEGINx", seed, sequence),
            Marker("DVBCAPENDx", seed, sequence))
  }

  lemma LastSixteen(prefix: string, n: nat)
    ensures (prefix + Hex(n, 16))[|prefix|..] == Hex(n, 16)
  {}

  /** Captures of different sequence numbers have different ids and different markers. */
  lemma CapturesAreDistinct(seed: nat, m: nat, n: nat)
    requires m <= MAX_UINT64 && n <= MAX_UINT64
    ensures m != n ==>
              && CaptureOf(seed, m).id != CaptureOf(seed, n).id
              && CaptureOf(seed, m).beginMarker != CaptureOf(seed, n).beginMarker
              && CaptureOf(seed, m).endMarker != CaptureOf(seed, n).endMarker
  {
    hide Hex;
    Range64();
    var id := "cap-" + Hex(seed, 16) + "-";
    var begin, end := "DVBCAPBEGINx" + Hex(seed, 16) + "x", "DVBCAPENDx" + Hex(seed, 16) + "x";
    forall prefix <- [id, begin, end]
      ensures m != n ==> prefix + Hex(m, 16) != prefix + Hex(n, 16)
    {
      LastSixteen(prefix, m);
      LastSixteen(prefix, n);
      if Hex(m, 16) == Hex(n, 16) { HexIsInjective(m, n, 16); }
    }
    assert id in [id, begin, end] && begin in [id, begin, end] && end in [id, begin, end];
  }

  // Both markers are pieces of one line, and the begin marker is the longer one.
  lemma MarkersArePieces(seed: nat, n: nat)
    ensures var c := CaptureOf(seed, n);
      ConsoleCapture.Piece(c.beginMarker) && ConsoleCapture.Piece(c.endMarker) && |c.beginMarker| > |c.endMarker|
  {
    PieceOf("DVBCAPBEGINx", seed, n);
    PieceOf("DVBCAPENDx", seed, n);
    hide Marker, Hex, Id, ConsoleCapture.Piece;
  }

  lemma PieceOf(prefix: string, seed: nat, n: nat)
    requires ConsoleCapture.Piece(prefix)
    ensures ConsoleCapture.Piece(Marker(prefix, seed, n)) && |Marker(prefix, seed, n)| == |prefix| + 33
  {
    NoLineEnd(seed);
    NoLineEnd(n);
    hide Hex;
  }

  lemma NoLineEnd(n: nat)
    ensures '\n' !in Hex(n, 16) && '\r' !in Hex(n, 16)
  {
    assert '\n' !in HEX_DIGITS && '\r' !in HEX_DIGITS;
  }

  // ----- The table -----

  datatype Table = Table(next: nat, captures: map<string, Capture>, order: seq<string>)

  datatype Action = Add | Remove(id: string)

  function Evict(captures: map<string, Capture>, order: seq<string>): (map<string, Capture>, seq<string>)
    decreases |order|
  {
    if |order| > MAX_CAPTURES then Evict(captures - {order[0]}, order[1..]) else (captures, order)
  }

  function Without(order: seq<string>, id: string): seq<string> {
    if order == [] then []
    else if order[0] == id then Without(order[1..], id) else [order[0]] + Without(order[1..], id)
  }

  function AddTo(t: Table, c: Capture): Table {
    var (captures, order) := Evict(t.captures[c.id := c], t.order + [c.id]);
    Table(t.next + 1, captures, order)
  }

  function Next(seed: nat, t: Table, a: Action): Table {
    match a
    case Add => AddTo(t, CaptureOf(seed, t.next + 1))
    case Remove(id) => Table(t.next, t.captures - {id}, Without(t.order, id))
  }

  ghost predicate Distinct(order: seq<string>) { forall i, j :: 0 <= i < j < |order| ==> order[i] != order[j] }

  // The map's keys are the entries of the list, each once, and each capture is the one of its id.
  ghost predicate Valid(seed: nat, t: Table) {
    && |t.order| <= MAX_CAPTURES && Distinct(t.order)
    && (forall id :: id in t.captures <==> id in t.order)
    && (forall id <- t.captures.Keys ::
          exists n :: 1 <= n <= t.next && t.captures[id] == CaptureOf(seed, n) && id == Id(seed, n))
  }

  class CaptureState {
    const seed: nat
    var nextCapture: nat
    var captures: map<string, Capture>
    var captureOrder: seq<string>

    ghost function Model(): Table
      reads this
    {
      Table(nextCapture, captures, captureOrder)
    }

    constructor (seed: nat)
      ensures this.seed == seed && Model() == Table(0, map[], [])
    {
      this.seed := seed;
      nextCapture, captures, captureOrder := 0, map[], [];
    }

    method AddCapture() returns (capture: Capture)
      modifies this
      ensures capture == CaptureOf(seed, old(nextCapture) + 1)
      ensures Model() == Next(seed, old(Model()), Add)
    {
      hide CaptureOf, Id;
      nextCapture := nextCapture + 1;
      capture := CaptureOf(seed, nextCapture);
      captureOrder := captureOrder + [capture.id];
      captures := captures[capture.id := capture];
      ghost var full := Evict(captures, captureOrder);
      while |captureOrder| > MAX_CAPTURES
        invariant nextCapture == old(nextCapture) + 1 && Evict(captures, captureOrder) == full
        decreases |captureOrder|
      {
        captures := captures - {captureOrder[0]};
        captureOrder := captureOrder[1..];
      }
    }

    method RemoveCapture(id: string)
      modifies this
      ensures Model() == Next(seed, old(Model()), Remove(id))
    {
      captures := captures - {id};
      var kept, i := [], 0;
      while i < |captureOrder|
        invariant 0 <= i <= |captureOrder| && kept + Without(captureOrder[i..], id) == Without(captureOrder, id)
      {
        if captureOrder[i] != id {
          kept := kept + [captureOrder[i]];
        }
        i := i + 1;
      }
      captureOrder := kept;
    }
  }

  // ----- What every call keeps -----

  lemma {:induction false} WithoutKeepsOthers(order: seq<string>, id: string)
    requires Distinct(order)
    ensures Distinct(Without(order, id)) && |Without(order, id)| <= |order|
    ensures forall x :: x in Without(order, id) <==> x in order && x != id
  {
    if order != [] {
      assert order == [order[0]] + order[1..];
      assert Distinct(order[1..]) && order[0] !in order[1..];
      WithoutKeepsOthers(order[1..], id);
      var rest := Without(order[1..], id);
      assert order[0] !in rest;
    }
  }

  // A new id is not among the old ones.
  lemma NewIdIsNew(seed: nat, t: Table)
    requires Valid(seed, t) && t.next < MAX_UINT64
    ensures Id(seed, t.next + 1) !in t.order
  {
    hide CaptureOf, Id;
    var id := Id(seed, t.next + 1);
    if id in t.captures {
      var n :| 1 <= n <= t.next && t.captures[id] == CaptureOf(seed, n) && id == Id(seed, n);
      CapturesAreDistinct(seed, n, t.next + 1);
    }
  }

  // Adding to a full table drops its oldest entry, and nothing else.
  lemma AddIs(t: Table, c: Capture)
    requires |t.order| <= MAX_CAPTURES
    ensures var all := t.order + [c.id];
      AddTo(t, c) ==
      if |t.order| < MAX_CAPTURES then Table(t.next + 1, t.captures[c.id := c], all)
      else Table(t.next + 1, t.captures[c.id := c] - {all[0]}, all[1..])
  {
    var all, captures := t.order + [c.id], t.captures[c.id := c];
    if |all| > MAX_CAPTURES {
      assert Evict(captures, all) == Evict(captures - {all[0]}, all[1..]);
    }
  }

  lemma AddKeepsTable(t: Table, c: Capture)
    requires |t.order| <= MAX_CAPTURES && Distinct(t.order) && c.id !in t.order
    requires forall id :: id in t.captures <==> id in t.order
    ensures var u := AddTo(t, c);
      && |u.order| <= MAX_CAPTURES && Distinct(u.order)
      && (forall id :: id in u.captures <==> id in u.order)
      && (forall id <- u.captures.Keys ::
            u.captures[id] == if id == c.id then c else if id in t.captures then t.captures[id] else c)
      && (forall id <- u.captures.Keys :: id == c.id || id in t.captures)
  {
    AddIs(t, c);
    OldestAndOthers(t.order, c.id);
    hide AddTo, Distinct;
    var all := t.order + [c.id];
    assert forall id :: id in all <==> id in t.order || id == c.id;
  }

  lemma OldestAndOthers(order: seq<string>, id: string)
    requires Distinct(order) && id !in order
    ensures var all := order + [id];
      Distinct(all) && Distinct(all[1..]) && forall x :: x in all[1..] <==> x in all && x != all[0]
  {
    var all := order + [id];
    assert Distinct(all) && all == [all[0]] + all[1..] && all[0] !in all[1..];
  }

  lemma AddKeepsValid(seed: nat, t: Table)
    requires Valid(seed, t) && t.next < MAX_UINT64
    ensures Valid(seed, Next(seed, t, Add))
  {
    hide CaptureOf, Id, Distinct, AddTo;
    NewIdIsNew(seed, t);
    var c := CaptureOf(seed, t.next + 1);
    AddKeepsTable(t, c);
    NextIs(seed, t);
    var u := Next(seed, t, Add);
    forall id | id in u.captures
      ensures exists n :: 1 <= n <= u.next && u.captures[id] == CaptureOf(seed, n) && id == Id(seed, n)
    {
      if id == c.id {
        assert u.captures[id] == CaptureOf(seed, u.next);
      } else {
        var n :| 1 <= n <= t.next && t.captures[id] == CaptureOf(seed, n) && id == Id(seed, n);
        assert u.captures[id] == CaptureOf(seed, n);
      }
    }
  }

  lemma NextIs(seed: nat, t: Table)
    ensures Next(seed, t, Add) == AddTo(t, CaptureOf(seed, t.next + 1)) && Next(seed, t, Add).next == t.next + 1
  {
    hide CaptureOf, Id, Evict;
  }

  lemma RemoveKeepsValid(seed: nat, t: Table, id: string)
    requires Valid(seed, t)
    ensures Valid(seed, Next(seed, t, Remove(id)))
  {
    hide CaptureOf, Id;
    WithoutKeepsOthers(t.order, id);
  }

  // ----- Every run -----

  function After(seed: nat, t: Table, run: seq<Action>): Table
    decreases |run|
  {
    if run == [] then t else After(seed, Next(seed, t, run[0]), run[1..])
  }

  function Adds(run: seq<Action>): nat
    decreases |run|
  {
    if run == [] then 0 else (if run[0].Add? then 1 else 0) + Adds(run[1..])
  }

  /** Over every run of adding and removing, the map's keys are exactly the entries of the bounded,
      duplicate-free list; the 64-bit sequence number is never reused. */
  lemma {:induction false} RunKeepsValid(seed: nat, t: Table, run: seq<Action>)
    requires Valid(seed, t) && t.next + Adds(run) <= MAX_UINT64
    ensures Valid(seed, After(seed, t, run)) && After(seed, t, run).next == t.next + Adds(run)
    decreases |run|
  {
    hide Valid;
    if run != [] {
      match run[0] {
        case Add => AddKeepsValid(seed, t);
        case Remove(id) => RemoveKeepsValid(seed, t, id);
      }
      RunKeepsValid(seed, Next(seed, t, run[0]), run[1..]);
    }
  }

  // The entries added after an id.
  function Later(order: seq<string>, id: string): seq<string> {
    if order == [] then [] else if order[0] == id then order[1..] else Later(order[1..], id)
  }

  lemma {:induction false} LaterOfMore(order: seq<string>, id: string, x: string)
    requires id in order
    ensures Later(order + [x], id) == Later(order, id) + [x]
    decreases |order|
  {
    if order[0] != id {
      assert (order + [x])[1..] == order[1..] + [x];
      LaterOfMore(order[1..], id, x);
    } else {
      assert (order + [x])[1..] == order[1..] + [x];
    }
  }

  // A capture just added has nothing after it.
  lemma JustAdded(seed: nat, t: Table)
    requires Valid(seed, t) && t.next < MAX_UINT64
    ensures var u := Next(seed, t, Add); var c := CaptureOf(seed, t.next + 1);
      c.id in u.captures && u.captures[c.id] == c && Later(u.order, c.id) == []
  {
    hide CaptureOf, Id;
    NewIdIsNew(seed, t);
    var c := CaptureOf(seed, t.next + 1);
    AddIs(t, c);
    assert c.id !in t.order;
    LaterOfNew(t.order, c.id);
    if |t.order| > 0 {
      assert (t.order + [c.id])[1..] == t.order[1..] + [c.id];
      LaterOfNew(t.order[1..], c.id);
    }
  }

  lemma {:induction false} LaterOfNew(order: seq<string>, id: string)
    requires id !in order
    ensures Later(order + [id], id) == []
    decreases |order|
  {
    if order != [] {
      assert (order + [id])[1..] == order[1..] + [id];
      LaterOfNew(order[1..], id);
    }
  }

  // ----- Exactly how long a capture can be read -----

  // Whether a capture outlives a run, seen from the entries made after it alone: no step removes it,
  // and none is added while 63 of those are there.
  predicate Survives(seed: nat, next: nat, later: seq<string>, id: string, run: seq<Action>)
    decreases |run|
  {
    run == []
    || match run[0]
       case Add =>
         |later| + 1 < MAX_CAPTURES && Survives(seed, next + 1, later + [Id(seed, next + 1)], id, run[1..])
       case Remove(x) => x != id && Survives(seed, next, Without(later, x), id, run[1..])
  }

  lemma {:induction false} WithoutAbsent(order: seq<string>, id: string)
    requires id !in order
    ensures Without(order, id) == order
  {
    if order != [] { WithoutAbsent(order[1..], id); }
  }

  lemma {:induction false} LaterOfRemoval(order: seq<string>, id: string, x: string)
    requires id in order && id != x && Distinct(order)
    ensures Later(Without(order, x), id) == Without(Later(order, id), x)
    decreases |order|
  {
    if order[0] != id {
      assert id in order[1..];
      LaterOfRemoval(order[1..], id, x);
      if order[0] == x { WithoutAbsent(order[1..], x); }
    }
  }

  lemma {:induction false} LaterIsShorter(order: seq<string>, id: string)
    requires id in order
    ensures |Later(order, id)| < |order|
    ensures |Later(order, id)| == |order| - 1 ==> order[0] == id
    decreases |order|
  {
    if order[0] != id { LaterIsShorter(order[1..], id); }
  }

  // One addition: a capture is evicted exactly when 63 entries stand after it.
  lemma AddEvicts(t: Table, c: Capture, id: string)
    requires |t.order| <= MAX_CAPTURES && Distinct(t.order) && id in t.order && id in t.captures
    requires c.id !in t.order
    ensures var u := AddTo(t, c);
      && (id in u.captures <==> |Later(t.order, id)| + 1 < MAX_CAPTURES)
      && (id in u.captures ==> u.captures[id] == t.captures[id] && Later(u.order, id) == Later(t.order, id) + [c.id])
  {
    AddIs(t, c);
    LaterIsShorter(t.order, id);
    LaterOfMore(t.order, id, c.id);
    hide AddTo, Distinct;
    assert (t.order + [c.id])[0] == t.order[0];
    if |t.order| == MAX_CAPTURES && t.order[0] != id {
      NotTheOldest(t.order, id);
    }
  }

  lemma NotTheOldest(order: seq<string>, id: string)
    requires id in order && order[0] != id
    ensures id in order[1..] && |Later(order, id)| == |Later(order[1..], id)| < |order| - 1
  {
    LaterIsShorter(order[1..], id);
  }

  // An id that is not in the table and has been given out does not come back.
  lemma {:induction false} GoneForGood(seed: nat, t: Table, n: nat, run: seq<Action>)
    requires Valid(seed, t) && Id(seed, n) !in t.captures && n <= t.next && t.next + Adds(run) <= MAX_UINT64
    ensures Id(seed, n) !in After(seed, t, run).captures
    decreases |run|
  {
    hide CaptureOf, Id, Distinct, AddTo;
    if run != [] {
      var u := Next(seed, t, run[0]);
      match run[0] {
        case Add =>
          AddKeepsValid(seed, t);
          NewIdIsNew(seed, t);
          NextIs(seed, t);
          AddKeepsTable(t, CaptureOf(seed, t.next + 1));
          CapturesAreDistinct(seed, n, t.next + 1);
        case Remove(x) =>
          RemoveKeepsValid(seed, t, x);
      }
      hide Valid, Next;
      GoneForGood(seed, u, n, run[1..]);
    }
  }

  // One step: what becomes of a capture, and of the entries after it.
  lemma StepReads(seed: nat, t: Table, id: string, a: Action)
    requires Valid(seed, t) && id in t.captures && (a.Add? ==> t.next < MAX_UINT64)
    ensures var u := Next(seed, t, a);
      && Valid(seed, u)
      && (id in u.captures <==> if a.Add? then |Later(t.order, id)| + 1 < MAX_CAPTURES else a.id != id)
      && (id in u.captures ==>
            && u.captures[id] == t.captures[id]
            && Later(u.order, id) ==
               if a.Add? then Later(t.order, id) + [Id(seed, t.next + 1)] else Without(Later(t.order, id), a.id))
  {
    hide Id, AddTo, Distinct, Later;
    match a {
      case Add =>
        AddKeepsValid(seed, t);
        NewIdIsNew(seed, t);
        NextIs(seed, t);
        AddEvicts(t, CaptureOf(seed, t.next + 1), id);
      case Remove(x) =>
        RemoveKeepsValid(seed, t, x);
        if x != id { LaterOfRemoval(t.order, id, x); }
    }
  }

  /** After every run, a capture can be read, and then as it was made, exactly when it survives the run
      beside the entries made after it. */
  lemma {:induction false} ReadableExactly(seed: nat, t: Table, id: string, run: seq<Action>)
    requires Valid(seed, t) && id in t.captures && t.next + Adds(run) <= MAX_UINT64
    ensures var u := After(seed, t, run);
      && (id in u.captures <==> Survives(seed, t.next, Later(t.order, id), id, run))
      && (id in u.captures ==> u.captures[id] == t.captures[id])
    decreases |run|
  {
    hide Valid, Next, Id, Later, Without;
    if run != [] {
      var u := Next(seed, t, run[0]);
      StepReads(seed, t, id, run[0]);
      NextNumber(seed, t, run[0]);
      if id in u.captures {
        ReadableExactly(seed, u, id, run[1..]);
      } else {
        var n := NumberOf(seed, t, id);
        GoneForGood(seed, u, n, run[1..]);
      }
    }
  }

  lemma NextNumber(seed: nat, t: Table, a: Action)
    ensures Next(seed, t, a).next == t.next + if a.Add? then 1 else 0
  {
    hide CaptureOf, Evict, Without;
  }

  lemma NumberOf(seed: nat, t: Table, id: string) returns (n: nat)
    requires Valid(seed, t) && id in t.captures
    ensures n <= t.next && id == Id(seed, n)
  {
    hide Id, CaptureOf;
    n :| 1 <= n <= t.next && t.captures[id] == CaptureOf(seed, n) && id == Id(seed, n);
  }

  function Removals(run: seq<Action>): nat
    decreases |run|
  {
    if run == [] then 0 else (if run[0].Remove? then 1 else 0) + Removals(run[1..])
  }

  lemma {:induction false} FewAdditionsSurvive(seed: nat, next: nat, later: seq<string>, id: string, run: seq<Action>)
    requires |later| + Adds(run) < MAX_CAPTURES && Remove(id) !in run
    ensures Survives(seed, next, later, id, run)
    decreases |run|
  {
    hide Id;
    if run != [] {
      match run[0] {
        case Add =>
          FewAdditionsSurvive(seed, next + 1, later + [Id(seed, next + 1)], id, run[1..]);
        case Remove(x) =>
          assert run[0] in run;
          WithoutIsShorter(later, x);
          FewAdditionsSurvive(seed, next, Without(later, x), id, run[1..]);
      }
    }
  }

  lemma {:induction false} WithoutIsShorter(order: seq<string>, id: string)
    ensures |Without(order, id)| <= |order|
    ensures Distinct(order) ==> |Without(order, id)| >= |order| - 1
  {
    if order != [] {
      WithoutIsShorter(order[1..], id);
      if Distinct(order) && order[0] == id {
        assert id !in order[1..];
        WithoutAbsent(order[1..], id);
      }
    }
  }

  lemma {:induction false} LaterIsDistinct(order: seq<string>, id: string)
    requires Distinct(order)
    ensures Distinct(Later(order, id))
    decreases |order|
  {
    if order != [] && order[0] != id { LaterIsDistinct(order[1..], id); }
  }

  // What stands after a capture that can still be read grows by the additions at least, less the
  // removals.
  lemma {:induction false} LaterGrows(seed: nat, t: Table, id: string, run: seq<Action>)
    requires Valid(seed, t) && id in t.captures && t.next + Adds(run) <= MAX_UINT64
    requires id in After(seed, t, run).captures
    ensures |Later(t.order, id)| + Adds(run) - Removals(run) < MAX_CAPTURES
    decreases |run|
  {
    hide CaptureOf, Next, Id, Later, Without;
    if run == [] {
      LaterIsShorter(t.order, id);
    } else {
      var u := Next(seed, t, run[0]);
      StepReads(seed, t, id, run[0]);
      NextNumber(seed, t, run[0]);
      LaterIsDistinct(t.order, id);
      if run[0].Remove? { WithoutIsShorter(Later(t.order, id), run[0].id); }
      var n := NumberOf(seed, t, id);
      hide Valid, Distinct;
      if id !in u.captures { GoneForGood(seed, u, n, run[1..]); }
      LaterGrows(seed, u, id, run[1..]);
    }
  }

  /** From the moment it is made, a capture stays readable, as it was made, until it is removed or 64
      further captures have been added; and once the additions outnumber the removals by 64, it cannot
      be read any more. */
  lemma StaysReadable(seed: nat, t: Table, run: seq<Action>)
    requires Valid(seed, t) && t.next + 1 + Adds(run) <= MAX_UINT64
    ensures var c, u := CaptureOf(seed, t.next + 1), After(seed, Next(seed, t, Add), run);
      && (Adds(run) < MAX_CAPTURES && Remove(c.id) !in run ==> c.id in u.captures && u.captures[c.id] == c)
      && (Adds(run) - Removals(run) >= MAX_CAPTURES || Remove(c.id) in run ==> c.id !in u.captures)
  {
    hide Valid, Next, Later, Without, CaptureOf;
    var c, first := CaptureOf(seed, t.next + 1), Next(seed, t, Add);
    AddKeepsValid(seed, t);
    NextNumber(seed, t, Add);
    JustAdded(seed, t);
    ReadableExactly(seed, first, c.id, run);
    if Adds(run) < MAX_CAPTURES && Remove(c.id) !in run {
      FewAdditionsSurvive(seed, first.next, [], c.id, run);
    }
    if Remove(c.id) in run {
      RemovedDoesNotSurvive(seed, first.next, [], c.id, run);
    }
    if c.id in After(seed, first, run).captures {
      LaterGrows(seed, first, c.id, run);
    }
  }

  lemma {:induction false} RemovedDoesNotSurvive(seed: nat, next: nat, later: seq<string>, id: string, run: seq<Action>)
    requires Remove(id) in run
    ensures !Survives(seed, next, later, id, run)
    decreases |run|
  {
    hide Id, Without;
    if run[0] != Remove(id) {
      assert Remove(id) in run[1..];
      if run[0].Add? {
        RemovedDoesNotSurvive(seed, next + 1, later + [Id(seed, next + 1)], id, run[1..]);
      } else {
        RemovedDoesNotSurvive(seed, next, Without(later, run[0].id), id, run[1..]);
      }
    }
  }

  // ----- A capture from its making to its reading -----

  lemma ShorterDoesNotHold(text: string, marker: string)
    requires |text| < |marker|
    ensures !ConsoleCapture.Holds(text, marker)
  {}

  /** The console prints the two markers on lines of their own around what the command printed. As long
      as fewer than 64 captures have been added since and this one has not been removed, reading it
      gives exactly the lines printed, or the last 200 of them: if none of those lines holds one of
      the two markers, and the scrollback that follows does not hold the begin marker again. */
  lemma CaptureReadsBack(seed: nat, t: Table, run: seq<Action>, before: string, lines: seq<string>, crlf: bool,
                         after: string)
    requires Valid(seed, t) && t.next + 1 + Adds(run) <= MAX_UINT64
    requires Adds(run) < MAX_CAPTURES && Remove(Id(seed, t.next + 1)) !in run
    requires forall line <- lines :: ConsoleCapture.Printable(line, crlf)
    requires var c := CaptureOf(seed, t.next + 1);
      && (forall line <- lines ::
            !ConsoleCapture.Holds(line, c.beginMarker) && !ConsoleCapture.Holds(line, c.endMarker))
      && !ConsoleCapture.Holds(after, c.beginMarker)
    ensures var u, id, eol := After(seed, Next(seed, t, Add), run), Id(seed, t.next + 1), if crlf then "\r\n" else "\n";
      && id in u.captures
      && var c := u.captures[id];
         ConsoleCapture.Extracted(
           before + c.beginMarker + eol + ConsoleCapture.Printed(lines, crlf) + c.endMarker + eol + after,
           c.beginMarker, c.endMarker, ConsoleCapture.MAX_CAPTURE_LINES)
         == ConsoleCapture.Extract(true, true, |lines| > 200, ConsoleCapture.LastLines(lines, 200))
  {
    var c, n := CaptureOf(seed, t.next + 1), t.next + 1;
    StaysReadable(seed, t, run);
    assert c.id == Id(seed, n);
    MarkersArePieces(seed, n);
    hide CaptureOf, Id, After, Next, Valid;
    FenceReadsBack(before, c.beginMarker, lines, crlf, c.endMarker, after, ConsoleCapture.MAX_CAPTURE_LINES);
  }

  // Markers on lines of their own: the longer begin marker is found nowhere in the end marker's line.
  lemma FenceReadsBack(before: string, begin: string, lines: seq<string>, crlf: bool, end: string, after: string,
                       n: nat)
    requires ConsoleCapture.Piece(begin) && ConsoleCapture.Piece(end) && |begin| > |end|
    requires forall line <- lines :: ConsoleCapture.Printable(line, crlf)
    requires forall line <- lines :: !ConsoleCapture.Holds(line, begin) && !ConsoleCapture.Holds(line, end)
    requires !ConsoleCapture.Holds(after, begin)
    ensures var eol := if crlf then "\r\n" else "\n";
      ConsoleCapture.Extracted(
        before + begin + eol + ConsoleCapture.Printed(lines, crlf) + end + eol + after, begin, end, n)
      == ConsoleCapture.Extract(true, true, |lines| > n, ConsoleCapture.LastLines(lines, n))
  {
    hide ConsoleCapture.Extracted, ConsoleCapture.Printed, ConsoleCapture.LastLines, ConsoleCapture.Printable;
    var eol := if crlf then "\r\n" else "\n";
    var echo := if crlf then "\r" else "";
    var block := ConsoleCapture.Printed(lines, crlf);
    assert before + begin + eol + block + end + eol + after
           == ConsoleCapture.Fenced(before, begin, echo, block, end, eol + after);
    OneCharacterHoldsNothing(echo, end);
    NothingBehind(begin, echo);
    NothingInTheNextLine(end, crlf, after, begin);
    ConsoleCapture.ExtractUndoesPrint(before, begin, echo, lines, crlf, end, eol + after, n);
  }

  lemma OneCharacterHoldsNothing(echo: string, marker: string)
    requires ConsoleCapture.Piece(marker) && (echo == "" || echo == "\r")
    ensures !ConsoleCapture.Holds(echo, marker) && ConsoleCapture.NoBreak(echo)
  {
    if i: nat :| ConsoleCapture.At(echo, marker, i) {
      ConsoleCapture.Covers(echo, marker, i, i);
    }
  }

  lemma NothingBehind(marker: string, echo: string)
    requires ConsoleCapture.Piece(marker) && (echo == "" || echo == "\r")
    ensures !ConsoleCapture.Holds((marker + echo)[1..], marker)
  {
    var text := (marker + echo)[1..];
    if i: nat :| ConsoleCapture.At(text, marker, i) {
      ConsoleCapture.Covers(text, marker, i, |text| - 1);
    }
  }

  lemma NothingInTheNextLine(end: string, crlf: bool, after: string, begin: string)
    requires ConsoleCapture.Piece(begin) && |begin| > |end| && !ConsoleCapture.Holds(after, begin)
    ensures !ConsoleCapture.Holds(end + ((if crlf then "\r\n" else "\n") + after), begin)
  {
    ShorterDoesNotHold(end, begin);
    hide ConsoleCapture.At;
    var text := end + ((if crlf then "\r\n" else "\n") + after);
    assert text == end + (if crlf then "\r\n" else "\n") + after;
    if i: nat :| ConsoleCapture.At(text, begin, i) {
      ConsoleCapture.AfterLine(text, end, crlf, after, begin, i);
      assert false;
    }
  }
}
