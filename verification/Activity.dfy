/**
 * The recorded activity stream (game/skyrimse/recording/RecordingActivity.cpp): which events
 * each planner replays, and the stable chronological order both of them use. A field a JSON
 * event may lack is an Option.
 */
module Activity {
  import opened Wrappers

  datatype Event = Event(
    kind: string, eventType: string, device: string, state: string,
    idCode: Option<int>, tMs: Option<int>, seqNo: nat,
    wandIndex: Option<int>, value: Option<real>, x: Option<real>, y: Option<real>)

  predicate StartsWith(s: string, prefix: string) { prefix <= s }

  predicate EndsWith(s: string, suffix: string) {
    |suffix| <= |s| && s[|s| - |suffix|..] == suffix
  }

  predicate IsKeyboardTransition(e: Event) {
    && e.kind == "input" && e.eventType == "button" && e.device == "keyboard"
    && (e.state == "down" || e.state == "up")
    && 0 < e.idCode.GetOr(0) <= 255
  }

  predicate IsVRControllerEvent(e: Event) {
    && e.kind == "input"
    && (StartsWith(e.device, "vive") || StartsWith(e.device, "oculus") ||
        StartsWith(e.device, "wmr") || e.wandIndex.Some?)
  }

  function Time(e: Event): int { e.tMs.GetOr(0) }

  // The comparator of both std::stable_sort calls.
  predicate Before(a: Event, b: Event) {
    if Time(a) != Time(b) then Time(a) < Time(b) else a.seqNo < b.seqNo
  }

  ghost predicate Chronological(s: seq<Event>) {
    forall i, j :: 0 <= i < j < |s| ==> !Before(s[j], s[i])
  }

  // The events of s that carry one (tMs, seq) pair, in their order in s.
  function Coincident(s: seq<Event>, t: int, seqNo: nat): seq<Event> {
    if s == [] then []
    else (if Time(s[0]) == t && s[0].seqNo == seqNo then [s[0]] else []) + Coincident(s[1..], t, seqNo)
  }

  function Insert(e: Event, s: seq<Event>): seq<Event> {
    if s == [] || !Before(s[0], e) then [e] + s else [s[0]] + Insert(e, s[1..])
  }

  function StableSort(s: seq<Event>): seq<Event> {
    if s == [] then [] else Insert(s[0], StableSort(s[1..]))
  }

  lemma {:induction false} InsertKeepsAll(e: Event, s: seq<Event>)
    ensures multiset(Insert(e, s)) == multiset{e} + multiset(s)
    ensures forall x :: x in Insert(e, s) <==> x == e || x in s
  {
    if s == [] || !Before(s[0], e) {
    } else {
      InsertKeepsAll(e, s[1..]);
      assert s == [s[0]] + s[1..];
    }
  }

  lemma {:induction false} InsertKeepsOrder(e: Event, s: seq<Event>)
    requires Chronological(s)
    ensures Chronological(Insert(e, s))
  {
    if s == [] {
    } else if !Before(s[0], e) {
      forall j | 0 <= j < |s| ensures !Before(s[j], e) {
        assert j > 0 ==> !Before(s[j], s[0]);
      }
    } else {
      InsertKeepsOrder(e, s[1..]);
      InsertKeepsAll(e, s[1..]);
      var r := Insert(e, s[1..]);
      forall j | 0 <= j < |r| ensures !Before(r[j], s[0]) {
        assert r[j] in r;
        if r[j] in s[1..] {
          var k :| 0 <= k < |s| - 1 && s[1..][k] == r[j];
          assert s[k + 1] == r[j];
        }
      }
    }
  }

  lemma {:induction false} InsertKeepsCoincident(e: Event, s: seq<Event>, t: int, seqNo: nat)
    requires Chronological(s)
    ensures Coincident(Insert(e, s), t, seqNo) == Coincident([e], t, seqNo) + Coincident(s, t, seqNo)
  {
    if s == [] || !Before(s[0], e) {
      assert ([e] + s)[1..] == s;
    } else {
      InsertKeepsCoincident(e, s[1..], t, seqNo);
      assert ([s[0]] + Insert(e, s[1..]))[1..] == Insert(e, s[1..]);
    }
  }

  /** The order both planners replay in: chronological, complete, and stable. */
  lemma {:induction false} StableSortIsStable(s: seq<Event>)
    ensures Chronological(StableSort(s))
    ensures multiset(StableSort(s)) == multiset(s)
    ensures forall t, q :: Coincident(StableSort(s), t, q) == Coincident(s, t, q)
  {
    if s != [] {
      StableSortIsStable(s[1..]);
      InsertKeepsOrder(s[0], StableSort(s[1..]));
      InsertKeepsAll(s[0], StableSort(s[1..]));
      assert s == [s[0]] + s[1..];
      forall t, q: nat ensures Coincident(StableSort(s), t, q) == Coincident(s, t, q) {
        InsertKeepsCoincident(s[0], StableSort(s[1..]), t, q);
        assert Coincident([s[0]], t, q) == (if Time(s[0]) == t && s[0].seqNo == q then [s[0]] else []);
      }
    }
  }

  // The events of s that are to be kept, as often as they occur and in their order.
  function Select(s: seq<Event>, keep: Event -> bool): (r: seq<Event>)
    ensures forall e :: e in r <==> e in s && keep(e)
    ensures forall e :: multiset(r)[e] == if keep(e) then multiset(s)[e] else 0
  {
    assert s != [] ==> s == [s[0]] + s[1..];
    if s == [] then []
    else (if keep(s[0]) then [s[0]] else []) + Select(s[1..], keep)
  }

  /** Selecting commutes with joining, and selects a kept event where it stands: the order is kept. */
  lemma {:induction false} SelectJoined(s: seq<Event>, t: seq<Event>, keep: Event -> bool)
    ensures Select(s + t, keep) == Select(s, keep) + Select(t, keep)
    decreases |s|
  {
    if s == [] {
      assert s + t == t;
    } else {
      assert (s + t)[1..] == s[1..] + t;
      SelectJoined(s[1..], t, keep);
    }
  }
}
