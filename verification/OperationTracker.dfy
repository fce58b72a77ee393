/**
 * The tracker of the one game mutation in flight (src/tools/GameTool.cpp). Each method runs under
 * one mutex, so a run of the program is a sequence of calls; the class is proved against Apply,
 * and the guarantees are proved for every sequence of calls.
 */
module OperationTracker {
  import opened Wrappers
  import opened Activity

  datatype Kind = Save | Load | AdvanceTime | Wait | Sleep

  datatype Phase = Reserved | Dispatching | Queued | Started | Completed | Succeeded | Failed | Cancelled

  datatype Operation = Operation(
    id: nat, kind: Kind, name: string, phase: Phase, actionCursor: nat,
    startedCursor: Option<nat>, completedCursor: Option<nat>, success: Option<bool>,
    observedName: Option<string>, result: Option<string>, error: string, active: bool)

  datatype State = State(nextId: nat, operation: Option<Operation>)

  datatype Call =
    | TryBegin(kind: Kind, name: string, actionCursor: nat)
    | MarkDispatching(id: nat)
    | MarkQueued(id: nat)
    | MarkDispatchFailed(id: nat, error: string)
    | MarkCancelled(id: nat, error: string)
    | MarkCompleted(id: nat, success: bool, result: string, error: string)
    | ObserveStarted(kind: Kind, eventName: Option<string>, cursor: nat)
    | ObserveCompleted(kind: Kind, eventName: Option<string>, outcome: Option<bool>, cursor: nat)
    | Reset

  // ----- Save names -----

  function LowerChar(c: char): char { if 'A' <= c <= 'Z' then c - 'A' + 'a' else c }

  function Lower(s: string): (r: string)
    ensures |r| == |s|
  {
    if s == [] then [] else [LowerChar(s[0])] + Lower(s[1..])
  }

  predicate IsSeparator(c: char) { c == '/' || c == '\\' }

  function BaseName(s: string): string {
    if s == [] || IsSeparator(s[|s| - 1]) then []
    else BaseName(s[..|s| - 1]) + [s[|s| - 1]]
  }

  function DropExtension(s: string): string {
    if EndsWith(s, ".fos") then s[..|s| - 4]
    else if EndsWith(s, ".f4se") then s[..|s| - 5]
    else if EndsWith(s, ".ess") then s[..|s| - 4]
    else if EndsWith(s, ".skse") then s[..|s| - 5]
    else s
  }

  function Canonical(name: string): string { DropExtension(Lower(BaseName(name))) }

  predicate SameOperationSaveName(a: string, b: string) { Canonical(a) == Canonical(b) }

  // ----- One call -----

  predicate Owns(s: State, id: nat) {
    s.operation.Some? && s.operation.value.active && s.operation.value.id == id
  }

  // The operation an engine event of this kind, name and cursor can be about.
  predicate Concerns(s: State, kind: Kind, eventName: Option<string>, cursor: nat) {
    s.operation.Some? &&
    var o := s.operation.value;
    && o.active && o.kind == kind && cursor > o.actionCursor && o.phase != Reserved
    && (eventName.Some? ==> SameOperationSaveName(o.name, eventName.value))
  }

  function Apply(s: State, c: Call): (State, bool) {
    match c
    case TryBegin(kind, name, cursor) =>
      if s.operation.Some? && s.operation.value.active then (s, false)
      else
        var begun := Operation(s.nextId + 1, kind, name, Reserved, cursor, None, None, None, None, None, "", true);
        (State(s.nextId + 1, Some(begun)), true)
    case MarkDispatching(id) =>
      if !Owns(s, id) || s.operation.value.phase != Reserved then (s, false)
      else (s.(operation := Some(s.operation.value.(phase := Dispatching))), true)
    case MarkQueued(id) =>
      if !Owns(s, id) then (s, false)
      else (s.(operation := Some(s.operation.value.(phase :=
                  if s.operation.value.phase == Dispatching then Queued else s.operation.value.phase))), true)
    case MarkDispatchFailed(id, error) =>
      if !Owns(s, id) then (s, false)
      else
        var failed := s.operation.value.(phase := Failed, success := Some(false), error := error, active := false);
        (s.(operation := Some(failed)), true)
    case MarkCancelled(id, error) =>
      if !Owns(s, id) || s.operation.value.phase != Reserved then (s, false)
      else
        var ended := s.operation.value.(phase := Cancelled, success := Some(false), error := error, active := false);
        (s.(operation := Some(ended)), true)
    case MarkCompleted(id, success, result, error) =>
      if !Owns(s, id) || s.operation.value.phase !in {Dispatching, Queued, Started} then (s, false)
      else (s.(operation := Some(s.operation.value.(phase := if success then Succeeded else Failed,
                  success := Some(success), result := Some(result), error := error, active := false))), true)
    case ObserveStarted(kind, eventName, cursor) =>
      if !Concerns(s, kind, eventName, cursor) then (s, false)
      else (s.(operation := Some(s.operation.value.(phase := Started, startedCursor := Some(cursor),
                  observedName := if eventName.Some? then eventName else s.operation.value.observedName))), true)
    case ObserveCompleted(kind, eventName, outcome, cursor) =>
      if !Concerns(s, kind, eventName, cursor) || (eventName.None? && s.operation.value.phase != Started)
      then (s, false)
      else (s.(operation := Some(s.operation.value.(
                  phase := if outcome.None? then Completed else if outcome.value then Succeeded else Failed,
                  completedCursor := Some(cursor), success := outcome,
                  observedName := if eventName.Some? then eventName else s.operation.value.observedName,
                  error :=
                    if outcome == Some(false) then "native lifecycle reported failure" else s.operation.value.error,
                  active := false))), true)
    case Reset => (s.(operation := None), true)
  }

  class GameOperationTracker {
    var nextOperationId: nat
    var operation: Option<Operation>

    ghost function Model(): State
      reads this
    {
      State(nextOperationId, operation)
    }

    constructor ()
      ensures Model() == State(0, None)
    {
      nextOperationId := 0;
      operation := None;
    }

    method TryBegin(kind: Kind, name: string, actionCursor: nat) returns (begun: Option<Operation>)
      modifies this
      ensures (Model(), begun.Some?) == Apply(old(Model()), Call.TryBegin(kind, name, actionCursor))
      ensures begun.Some? ==> begun == operation
    {
      if operation.Some? && operation.value.active {
        return None;
      }
      nextOperationId := nextOperationId + 1;
      operation := Some(Operation(nextOperationId, kind, name, Reserved, actionCursor, None, None, None, None, None,
                                  "", true));
      return operation;
    }

    method MarkDispatching(id: nat) returns (ok: bool)
      modifies this`operation
      ensures (Model(), ok) == Apply(old(Model()), Call.MarkDispatching(id))
    {
      if operation.None? || !operation.value.active || operation.value.id != id || operation.value.phase != Reserved {
        return false;
      }
      operation := Some(operation.value.(phase := Dispatching));
      return true;
    }

    method MarkQueued(id: nat) returns (ok: bool)
      modifies this`operation
      ensures (Model(), ok) == Apply(old(Model()), Call.MarkQueued(id))
    {
      if operation.None? || !operation.value.active || operation.value.id != id {
        return false;
      }
      if operation.value.phase == Dispatching {
        operation := Some(operation.value.(phase := Queued));
      }
      return true;
    }

    method MarkDispatchFailed(id: nat, error: string) returns (ok: bool)
      modifies this`operation
      ensures (Model(), ok) == Apply(old(Model()), Call.MarkDispatchFailed(id, error))
    {
      if operation.None? || !operation.value.active || operation.value.id != id {
        return false;
      }
      operation := Some(operation.value.(phase := Failed, success := Some(false), error := error, active := false));
      return true;
    }

    method MarkCancelled(id: nat, error: string) returns (ok: bool)
      modifies this`operation
      ensures (Model(), ok) == Apply(old(Model()), Call.MarkCancelled(id, error))
    {
      if operation.None? || !operation.value.active || operation.value.id != id || operation.value.phase != Reserved {
        return false;
      }
      operation := Some(operation.value.(phase := Cancelled, success := Some(false), error := error, active := false));
      return true;
    }

    method MarkCompleted(id: nat, success: bool, result: string, error: string) returns (ok: bool)
      modifies this`operation
      ensures (Model(), ok) == Apply(old(Model()), Call.MarkCompleted(id, success, result, error))
    {
      if operation.None? || !operation.value.active || operation.value.id != id
        || (operation.value.phase != Dispatching && operation.value.phase != Queued
            && operation.value.phase != Started) {
        return false;
      }
      operation := Some(operation.value.(phase := if success then Succeeded else Failed,
        success := Some(success), result := Some(result), error := error, active := false));
      return true;
    }

    method ObserveStarted(kind: Kind, eventName: Option<string>, cursor: nat) returns (ok: bool)
      modifies this`operation
      ensures (Model(), ok) == Apply(old(Model()), Call.ObserveStarted(kind, eventName, cursor))
    {
      if operation.None? || !operation.value.active || operation.value.kind != kind
        || cursor <= operation.value.actionCursor {
        return false;
      }
      if operation.value.phase == Reserved {
        return false;
      }
      if eventName.Some? && !SameOperationSaveName(operation.value.name, eventName.value) {
        return false;
      }
      operation := Some(operation.value.(phase := Started, startedCursor := Some(cursor)));
      if eventName.Some? {
        operation := Some(operation.value.(observedName := eventName));
      }
      return true;
    }

    method ObserveCompleted(kind: Kind, eventName: Option<string>, outcome: Option<bool>, cursor: nat)
      returns (ok: bool)
      modifies this`operation
      ensures (Model(), ok) == Apply(old(Model()), Call.ObserveCompleted(kind, eventName, outcome, cursor))
    {
      if operation.None? || !operation.value.active || operation.value.kind != kind
        || cursor <= operation.value.actionCursor {
        return false;
      }
      if operation.value.phase == Reserved {
        return false;
      }
      if eventName.Some? && !SameOperationSaveName(operation.value.name, eventName.value) {
        return false;
      }
      if eventName.None? && operation.value.phase != Started {
        return false;
      }
      var o := operation.value;
      if outcome.None? {
        o := o.(phase := Completed);
      } else {
        o := o.(phase := if outcome.value then Succeeded else Failed);
      }
      o := o.(completedCursor := Some(cursor), success := outcome);
      if eventName.Some? {
        o := o.(observedName := eventName);
      }
      if outcome == Some(false) {
        o := o.(error := "native lifecycle reported failure");
      }
      operation := Some(o.(active := false));
      return true;
    }

    method Reset()
      modifies this`operation
      ensures Model() == Apply(old(Model()), Call.Reset).0
    {
      operation := None;
    }
  }

  // ----- Every sequence of calls -----

  function Run(s: State, calls: seq<Call>): State
    decreases |calls|
  {
    if calls == [] then s else Run(Apply(s, calls[0]).0, calls[1..])
  }

  function Rank(p: Phase): nat {
    match p
    case Reserved => 0
    case Dispatching => 1
    case Queued => 2
    case Started => 3
    case _ => 4
  }

  predicate Consistent(o: Operation) {
    && (o.active <==> Rank(o.phase) < 4)
    && (o.active ==> o.success.None? && o.completedCursor.None?)
    && (o.phase == Succeeded ==> o.success == Some(true))
    && (o.phase == Failed || o.phase == Cancelled ==> o.success == Some(false))
    && (o.phase == Completed ==> o.success == None && o.completedCursor.Some?)
    && (o.phase == Started ==> o.startedCursor.Some?)
    && (o.phase == Reserved || o.phase == Cancelled ==>
            o.startedCursor.None? && o.completedCursor.None? && o.observedName.None?)
    && (o.startedCursor.Some? ==> o.startedCursor.value > o.actionCursor)
    && (o.completedCursor.Some? ==> o.completedCursor.value > o.actionCursor)
  }

  predicate Valid(s: State) {
    s.operation.Some? ==> 0 < s.operation.value.id <= s.nextId && Consistent(s.operation.value)
  }

  predicate Replaces(s: State, c: Call) { c.Reset? || (c.TryBegin? && Apply(s, c).1) }

  // What one call keeps: the operation's identity, and the order of its phases.
  lemma CallKeeps(s: State, c: Call)
    requires Valid(s)
    ensures var s' := Apply(s, c).0;
      && Valid(s') && s'.nextId >= s.nextId
      && (!Apply(s, c).1 ==> s' == s)
      && (s.operation.Some? && !Replaces(s, c) ==>
            && s'.operation.Some? && s'.nextId == s.nextId
            && var o, o' := s.operation.value, s'.operation.value;
               && o'.id == o.id && o'.kind == o.kind && o'.name == o.name && o'.actionCursor == o.actionCursor
               && Rank(o'.phase) >= Rank(o.phase) && (!o.active ==> o' == o))
  {}

  /** In every run the snapshot stays consistent: success agrees with the phase, and start and
      completion are recorded after the action. */
  lemma {:induction false} RunKeepsValid(s: State, calls: seq<Call>)
    requires Valid(s)
    ensures Valid(Run(s, calls)) && Run(s, calls).nextId >= s.nextId
    decreases |calls|
  {
    if calls != [] {
      CallKeeps(s, calls[0]);
      RunKeepsValid(Apply(s, calls[0]).0, calls[1..]);
    }
  }

  /** An operation is never seen to go back: whenever the same id is current before and after a run,
      its rank has not decreased, and once terminal its whole snapshot is unchanged. */
  lemma {:induction false} PhaseNeverGoesBack(s: State, calls: seq<Call>)
    requires Valid(s) && s.operation.Some?
    requires Run(s, calls).operation.Some? && Run(s, calls).operation.value.id == s.operation.value.id
    ensures var o, o' := s.operation.value, Run(s, calls).operation.value;
      Rank(o'.phase) >= Rank(o.phase) && (!o.active ==> o' == o)
    decreases |calls|
  {
    if calls != [] {
      var s1 := Apply(s, calls[0]).0;
      CallKeeps(s, calls[0]);
      if s1.operation.Some? && s1.operation.value.id == s.operation.value.id {
        PhaseNeverGoesBack(s1, calls[1..]);
      } else {
        GoneForGood(s1, calls[1..], s.operation.value.id);
      }
    }
  }

  // An id that is not current any more never becomes current again.
  lemma {:induction false} GoneForGood(s: State, calls: seq<Call>, id: nat)
    requires Valid(s) && 0 < id <= s.nextId && (s.operation.Some? ==> s.operation.value.id != id)
    ensures Run(s, calls).operation.Some? ==> Run(s, calls).operation.value.id != id
    decreases |calls|
  {
    if calls != [] {
      CallKeeps(s, calls[0]);
      GoneForGood(Apply(s, calls[0]).0, calls[1..], id);
    }
  }

  // The ids a run hands out, in order.
  function Issued(s: State, calls: seq<Call>): seq<nat>
    decreases |calls|
  {
    if calls == [] then []
    else
      var (s', ok) := Apply(s, calls[0]);
      (if calls[0].TryBegin? && ok then [s'.operation.value.id] else []) + Issued(s', calls[1..])
  }

  ghost predicate Increasing(ids: seq<nat>, floor: nat) {
    (forall i :: 0 <= i < |ids| ==> ids[i] > floor) && (forall i, j :: 0 <= i < j < |ids| ==> ids[i] < ids[j])
  }

  /** No id is handed out twice, across resets as well. */
  lemma {:induction false} IdsNeverReused(s: State, calls: seq<Call>)
    requires Valid(s)
    ensures Increasing(Issued(s, calls), s.nextId)
    decreases |calls|
  {
    if calls != [] {
      CallKeeps(s, calls[0]);
      var s' := Apply(s, calls[0]).0;
      IdsNeverReused(s', calls[1..]);
      var ids, rest := Issued(s, calls), Issued(s', calls[1..]);
      if calls[0].TryBegin? && Apply(s, calls[0]).1 {
        assert ids == [s.nextId + 1] + rest;
      } else {
        assert ids == rest;
      }
    }
  }

  // The operation id a call presents, if it presents one.
  function Presented(c: Call): Option<nat> {
    match c
    case MarkDispatching(i) => Some(i)
    case MarkQueued(i) => Some(i)
    case MarkDispatchFailed(i, _) => Some(i)
    case MarkCancelled(i, _) => Some(i)
    case MarkCompleted(i, _, _, _) => Some(i)
    case _ => None
  }

  /** Calls holding any id but the current one change nothing, in any number and order. */
  lemma {:induction false} StaleCallsChangeNothing(s: State, calls: seq<Call>)
    requires forall c :: c in calls ==>
               Presented(c).Some? && !(s.operation.Some? && s.operation.value.id == Presented(c).value)
    ensures Run(s, calls) == s
  {
    if calls != [] {
      assert calls[0] in calls;
      StaleCallsChangeNothing(s, calls[1..]);
    }
  }

  /** Until it is marked dispatching, no engine event touches a reserved operation, and no call but
      its own ends the reservation. */
  lemma {:induction false} ReservationIsUndisturbed(s: State, calls: seq<Call>)
    requires s.operation.Some? && s.operation.value.active && s.operation.value.phase == Reserved
    requires forall c :: c in calls ==> !c.Reset? && Presented(c) != Some(s.operation.value.id)
    ensures Run(s, calls) == s
  {
    if calls != [] {
      assert calls[0] in calls;
      ReservationIsUndisturbed(s, calls[1..]);
    }
  }

  /** The ordinary life of an operation: reserved, dispatched, queued, started and completed, it ends
      inactive, with what was reported and when. */
  lemma OrdinaryLife(s: State, kind: Kind, name: string, cursor: nat, start: nat, end: nat, reported: string,
                     outcome: bool)
    requires !(s.operation.Some? && s.operation.value.active)
    requires start > cursor && end > cursor && SameOperationSaveName(name, reported)
    ensures var id := s.nextId + 1;
      var calls := [TryBegin(kind, name, cursor), MarkDispatching(id), MarkQueued(id),
                    ObserveStarted(kind, None, start), ObserveCompleted(kind, Some(reported), Some(outcome), end)];
      Run(s, calls) == State(id, Some(Operation(
        id, kind, name, if outcome then Succeeded else Failed, cursor,
        Some(start), Some(end), Some(outcome), Some(reported), None,
        if outcome then "" else "native lifecycle reported failure", false)))
  {
    var id := s.nextId + 1;
    var begun := Operation(id, kind, name, Reserved, cursor, None, None, None, None, None, "", true);
    var queued := begun.(phase := Queued);
    var begin, complete := TryBegin(kind, name, cursor), ObserveCompleted(kind, Some(reported), Some(outcome), end);
    assert Apply(s, begin).0 == State(id, Some(begun));
    OwnerDispatches(State(id, Some(begun)), begun);
    EngineReports(State(id, Some(queued)), queued, start, reported, outcome, end);
    hide Apply, Run, SameOperationSaveName;
    RunFive(s, begin, MarkDispatching(id), MarkQueued(id), ObserveStarted(kind, None, start), complete);
  }

  lemma OwnerDispatches(s: State, o: Operation)
    requires s.operation == Some(o) && o.active && o.phase == Reserved
    ensures Apply(Apply(s, MarkDispatching(o.id)).0, MarkQueued(o.id)).0 == s.(operation := Some(o.(phase := Queued)))
  {}

  lemma EngineReports(s: State, o: Operation, start: nat, reported: string, outcome: bool, end: nat)
    requires s.operation == Some(o) && o.active && o.phase == Queued && start > o.actionCursor && end > o.actionCursor
    requires SameOperationSaveName(o.name, reported)
    ensures Apply(Apply(s, ObserveStarted(o.kind, None, start)).0,
                  ObserveCompleted(o.kind, Some(reported), Some(outcome), end)).0
            == s.(operation := Some(o.(
                    phase := if outcome then Succeeded else Failed,
                    startedCursor := Some(start), completedCursor := Some(end),
                    success := Some(outcome), observedName := Some(reported),
                    error := if outcome then o.error else "native lifecycle reported failure", active := false)))
  {
    hide SameOperationSaveName;
  }

  lemma RunCons(s: State, c: Call, rest: seq<Call>)
    ensures Run(s, [c] + rest) == Run(Apply(s, c).0, rest)
  {
    hide Apply;
    assert ([c] + rest)[1..] == rest;
  }

  lemma RunFive(s: State, a: Call, b: Call, c: Call, d: Call, e: Call)
    ensures Run(s, [a, b, c, d, e]) == Apply(Apply(Apply(Apply(Apply(s, a).0, b).0, c).0, d).0, e).0
  {
    var s1 := Apply(s, a).0;
    var s2 := Apply(s1, b).0;
    var s3 := Apply(s2, c).0;
    var s4 := Apply(s3, d).0;
    RunCons(s, a, [b, c, d, e]);
    RunCons(s1, b, [c, d, e]);
    RunCons(s2, c, [d, e]);
    RunCons(s3, d, [e]);
    RunCons(s4, e, []);
    assert Run(Apply(s4, e).0, []) == Apply(s4, e).0;
    hide Apply, Run;
    assert [a] + [b, c, d, e] == [a, b, c, d, e] && [b] + [c, d, e] == [b, c, d, e];
    assert [c] + [d, e] == [c, d, e] && [d] + [e] == [d, e] && [e] + [] == [e];
  }

  // ----- Save names, continued -----

  lemma {:induction false} BaseNameOfPath(dir: string, name: string)
    requires forall c :: c in name ==> !IsSeparator(c)
    requires dir == [] || IsSeparator(dir[|dir| - 1])
    ensures BaseName(dir + name) == name
  {
    if name == [] {
      assert dir + name == dir;
    } else {
      var init := name[..|name| - 1];
      assert (dir + name)[..|dir + name| - 1] == dir + init;
      assert name[|name| - 1] in name;
      forall c | c in init ensures !IsSeparator(c) { assert c in name; }
      BaseNameOfPath(dir, init);
    }
  }

  lemma {:induction false} LowerConcat(a: string, b: string)
    ensures Lower(a + b) == Lower(a) + Lower(b)
  {
    if a == [] {
      assert a + b == b;
    } else {
      assert (a + b)[1..] == a[1..] + b;
      LowerConcat(a[1..], b);
    }
  }

  predicate IsExtension(e: string) { e == ".fos" || e == ".f4se" || e == ".ess" || e == ".skse" }

  lemma EndsInAppended(base: string, e: string, other: string)
    requires e != [] && other != []
    ensures |e| == |other| ==> (EndsWith(base + e, other) <==> e == other)
    ensures e[|e| - 1] != other[|other| - 1] ==> !EndsWith(base + e, other)
  {
    var s := base + e;
    if |other| <= |s| {
      assert s[|s| - |other|..][|other| - 1] == s[|s| - 1] == e[|e| - 1];
    }
    assert s[|s| - |e|..] == e;
  }

  lemma DropAppended(base: string, extension: string)
    requires IsExtension(extension)
    ensures DropExtension(base + extension) == base
  {
    EndsInAppended(base, extension, ".fos");
    EndsInAppended(base, extension, ".f4se");
    EndsInAppended(base, extension, ".ess");
    EndsInAppended(base, extension, ".skse");
    assert (base + extension)[..|base|] == base;
  }

  /** The engine may report a save by its path, in any case, with any of the four extensions: it
      matches the requested name exactly when that name has no such extension of its own. */
  lemma ReportedPathMatches(requested: string, dir: string, extension: string)
    requires forall c :: c in requested ==> !IsSeparator(c)
    requires dir == [] || IsSeparator(dir[|dir| - 1])
    requires IsExtension(extension)
    ensures SameOperationSaveName(requested, dir + (requested + extension)) <==>
              DropExtension(Lower(requested)) == Lower(requested)
  {
    forall c | c in requested + extension ensures !IsSeparator(c) {}
    BaseNameOfPath(dir, requested + extension);
    BaseNameOfPath([], requested);
    assert [] + requested == requested;
    LowerConcat(requested, extension);
    LowerExtension(extension);
    DropAppended(Lower(requested), extension);
  }

  // The names a game accepts for a save: ValidateSaveName refuses its own two extensions.
  predicate LacksExtensions(name: string, saveExtension: string, coSaveExtension: string) {
    !EndsWith(Lower(name), saveExtension) && !EndsWith(Lower(name), coSaveExtension)
  }

  lemma KeptWithoutExtension(s: string)
    ensures DropExtension(s) == s <==>
            !EndsWith(s, ".fos") && !EndsWith(s, ".f4se") && !EndsWith(s, ".ess") && !EndsWith(s, ".skse")
  {}

  /** A name the game accepts is recognised in the engine's report exactly when it does not end in an
      extension of the other game either. */
  lemma AcceptedNameMatches(requested: string, dir: string)
    requires forall c :: c in requested ==> !IsSeparator(c)
    requires dir == [] || IsSeparator(dir[|dir| - 1])
    ensures LacksExtensions(requested, ".ess", ".skse") ==>
              (SameOperationSaveName(requested, dir + (requested + ".ess")) <==>
                   LacksExtensions(requested, ".fos", ".f4se"))
    ensures LacksExtensions(requested, ".fos", ".f4se") ==>
              (SameOperationSaveName(requested, dir + (requested + ".fos")) <==>
                   LacksExtensions(requested, ".ess", ".skse"))
  {
    hide SameOperationSaveName, DropExtension, Lower, EndsWith;
    ReportedPathMatches(requested, dir, ".ess");
    ReportedPathMatches(requested, dir, ".fos");
    KeptWithoutExtension(Lower(requested));
  }

  lemma SmallLetters()
    ensures Lower("a.fos") == "a.fos"
  {
    LowerConcat("a", ".fos");
    LowerExtension(".fos");
    assert Lower("a") == "a";
    assert "a" + ".fos" == "a.fos";
  }

  /** Skyrim accepts the name "a.fos" for a save, and then does not recognise the save when the engine
      reports it as "a.fos.ess": the operation is never seen to complete. */
  lemma ForeignExtensionIsNotRecognised(s: State, outcome: Option<bool>, cursor: nat)
    requires s.operation.Some? && s.operation.value.name == "a.fos"
    ensures LacksExtensions("a.fos", ".ess", ".skse") && !SameOperationSaveName("a.fos", "a.fos.ess")
    ensures Apply(s, ObserveCompleted(s.operation.value.kind, Some("a.fos.ess"), outcome, cursor)) == (s, false)
  {
    SmallLetters();
    hide Lower, SameOperationSaveName;
    EndsInAppended("a", ".fos", ".ess");
    EndsInAppended("a", ".fos", ".skse");
    EndsInAppended("a", ".fos", ".fos");
    assert "a" + ".fos" == "a.fos";
    AcceptedNameMatches("a.fos", "");
    assert "" + ("a.fos" + ".ess") == "a.fos.ess";
    UnrecognisedReportIsDropped(s, "a.fos.ess", outcome, cursor);
  }

  lemma UnrecognisedReportIsDropped(s: State, reported: string, outcome: Option<bool>, cursor: nat)
    requires s.operation.Some? && !SameOperationSaveName(s.operation.value.name, reported)
    ensures Apply(s, ObserveCompleted(s.operation.value.kind, Some(reported), outcome, cursor)) == (s, false)
  {
    hide SameOperationSaveName;
  }

  lemma LowerExtension(e: string)
    requires IsExtension(e)
    ensures Lower(e) == e
  {
    assert e[0] == '.';
    assert Lower(e[1..]) == e[1..] by {
      assert Lower(e[2..]) == e[2..] by {
        assert Lower(e[3..]) == e[3..] by {
          assert Lower(e[4..]) == e[4..] by {
            if |e| == 5 { assert e[5..] == []; }
            else { assert e[4..] == []; }
          }
        }
      }
    }
  }
}
