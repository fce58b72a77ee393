/**
 * Length-prefixed fields over a pipe that may fragment every transfer, time out, or break at any
 * byte: what one side reads is what the other side wrote.
 */
module LaunchWire {
  import opened Wrappers
  import opened Bytes

  const MAX_FIELD_BYTES := 65536

  type Field = seq<Byte>

  predicate Bounded(fields: seq<Field>) { forall i :: 0 <= i < |fields| ==> |fields[i]| <= MAX_FIELD_BYTES }

  // ----- The wire format -----

  function Frame(field: Field): seq<Byte> { ToLittleEndian(|field|, 4) + field }

  function FrameAll(fields: seq<Field>): seq<Byte> {
    if fields == [] then [] else Frame(fields[0]) + FrameAll(fields[1..])
  }

  lemma LengthFits(n: nat)
    requires n <= MAX_FIELD_BYTES
    ensures n < Power256(4)
  {
    assert Power256(1) == 0x100 && Power256(2) == 0x10000 && Power256(3) == 0x1000000;
  }

  // The length a stream announces is that of the field it starts with.
  lemma AnnouncedLength(field: Field, stream: seq<Byte>)
    requires |field| <= MAX_FIELD_BYTES && |stream| >= 4
    requires stream[..4] == Frame(field)[..4]
    ensures FromLittleEndian(stream[..4]) == |field|
  {
    LengthFits(|field|);
    ReadUndoesWrite(|field|, 4);
    assert Frame(field)[..4] == ToLittleEndian(|field|, 4);
  }

  // A whole field is at the front of what has arrived.
  ghost predicate Arrived(field: Field, incoming: seq<Byte>) { |field| <= MAX_FIELD_BYTES && Frame(field) <= incoming }

  lemma ArrivedLength(field: Field, was: seq<Byte>, lengthBytes: seq<Byte>, incoming: seq<Byte>)
    requires Arrived(field, was)
    ensures |was| >= 4
    ensures |lengthBytes| == 4 && was == lengthBytes + incoming ==>
              FromLittleEndian(lengthBytes) == |field| <= MAX_FIELD_BYTES && |incoming| >= |field|
  {
    FrameSize(field);
    if |lengthBytes| == 4 && was == lengthBytes + incoming {
      assert was[..4] == lengthBytes && Frame(field)[..4] == was[..4];
      AnnouncedLength(field, was);
    }
  }

  lemma FrameSize(field: Field)
    ensures |Frame(field)| == 4 + |field| && Frame(field)[4..] == field
  {}

  lemma ReadFrame(lengthBytes: seq<Byte>, field: Field)
    requires |lengthBytes| == 4 && FromLittleEndian(lengthBytes) == |field|
    ensures Frame(field) == lengthBytes + field
  {
    WriteUndoesRead(lengthBytes);
  }

  // Two streams that agree as far as the shorter goes start with the same frame.
  lemma FirstFrame(g: Field, left: seq<Byte>, h: Field, rest: seq<Byte>)
    requires |g| <= MAX_FIELD_BYTES && |h| <= MAX_FIELD_BYTES && Frame(g) + left <= Frame(h) + rest
    ensures g == h && left <= rest
  {
    hide Frame;
    FrameSize(g);
    FrameSize(h);
    var short, long := Frame(g) + left, Frame(h) + rest;
    assert short[..4] == long[..4] == Frame(g)[..4] == Frame(h)[..4];
    AnnouncedLength(g, short);
    AnnouncedLength(h, short);
    var n := 4 + |g|;
    assert short[..n] == Frame(g) && long[..n] == Frame(h) && short[..n] == long[..n];
    assert short[n..] == left && long[n..] == rest;
  }

  lemma FirstOfAll(fields: seq<Field>, left: seq<Byte>)
    requires fields != []
    ensures FrameAll(fields) + left == Frame(fields[0]) + (FrameAll(fields[1..]) + left)
  {
    hide Frame;
  }

  lemma SamePrefix(sent: seq<Field>, got: seq<Field>)
    requires sent != [] && got != [] && got[0] == sent[0] && got[1..] <= sent[1..]
    ensures got <= sent && sent[1..][|got| - 1..] == sent[|got|..]
  {
    assert got == [got[0]] + got[1..] && sent == [sent[0]] + sent[1..];
  }

  /** Whatever part of the stream has arrived, the fields read from it are the first fields written,
      unchanged and in order, and what is left is the start of the others. */
  lemma {:induction false} FieldsArriveInOrder(sent: seq<Field>, got: seq<Field>, left: seq<Byte>)
    requires Bounded(sent) && Bounded(got) && FrameAll(got) + left <= FrameAll(sent)
    ensures got <= sent && left <= FrameAll(sent[|got|..])
    decreases |got|
  {
    if got == [] {
      assert FrameAll(got) + left == left && sent[0..] == sent;
    } else {
      FrameSize(got[0]);
      assert sent != [];
      assert FrameAll(sent) == Frame(sent[0]) + FrameAll(sent[1..]);
      hide Frame, FrameAll;
      FirstOfAll(got, left);
      FirstFrame(got[0], FrameAll(got[1..]) + left, sent[0], FrameAll(sent[1..]));
      FieldsArriveInOrder(sent[1..], got[1..], left);
      SamePrefix(sent, got);
    }
  }

  // ----- The pipe -----

  datatype WireError = Timeout | Disconnected | ProtocolError

  // What the system makes of one transfer: at most so many bytes, or a failure.
  datatype Outcome = Moved(count: nat) | Failed(error: WireError)

  // The next n transfers move something.
  predicate Progress(outcomes: seq<Outcome>, n: nat) {
    |outcomes| >= n && forall i :: 0 <= i < n ==> outcomes[i].Moved? && outcomes[i].count > 0
  }

  ghost predicate UsesAtMost(was: seq<Outcome>, now: seq<Outcome>, n: nat) {
    exists used: nat :: used <= n && used <= |was| && now == was[used..]
  }

  lemma NothingUsed(outcomes: seq<Outcome>)
    ensures UsesAtMost(outcomes, outcomes, 0)
  {
    assert outcomes[0..] == outcomes;
  }

  // One more transfer uses one more outcome, and there is progress while enough are left.
  lemma OneMoreUsed(was: seq<Outcome>, now: seq<Outcome>, m: nat, n: nat)
    requires UsesAtMost(was, now, m) && m < n
    ensures now != [] ==> UsesAtMost(was, now[1..], m + 1)
    ensures Progress(was, n) ==> Progress(now, 1)
  {
    var used: nat :| used <= m && used <= |was| && now == was[used..];
    if now != [] { assert now[1..] == was[used + 1..]; }
  }

  lemma UsedSoFar(was: seq<Outcome>, now: seq<Outcome>, m: nat, n: nat)
    requires UsesAtMost(was, now, m) && m <= n
    ensures UsesAtMost(was, now, n)
  {}

  lemma ProgressGoesOn(was: seq<Outcome>, now: seq<Outcome>, m: nat, n: nat)
    requires Progress(was, m + n) && UsesAtMost(was, now, m)
    ensures Progress(now, n)
  {}

  class Pipe {
    // The bytes the peer has sent that this end has not read, and those this end has sent.
    var incoming: seq<Byte>
    var outgoing: seq<Byte>
    // The outcomes of the transfers still to be attempted; after the last one, none completes in time.
    var outcomes: seq<Outcome>

    constructor (incoming: seq<Byte>, outcomes: seq<Outcome>)
      ensures this.incoming == incoming && this.outcomes == outcomes && outgoing == []
    {
      this.incoming, this.outgoing, this.outcomes := incoming, [], outcomes;
    }

    // One transfer: it moves something at the offset, or fails and moves nothing.
    method TransferSome(buffer: array<Byte>, offset: nat, write: bool)
      returns (failure: Option<WireError>, transferred: nat)
      requires offset < buffer.Length
      modifies this, buffer
      ensures if old(outcomes) == [] then failure.Some? else outcomes == old(outcomes[1..])
      ensures failure.Some? ==>
                && transferred == 0 && incoming == old(incoming) && outgoing == old(outgoing)
                && buffer[..] == old(buffer[..])
      ensures failure.None? ==> 0 < transferred <= buffer.Length - offset
      ensures write ==> incoming == old(incoming) && buffer[..] == old(buffer[..])
                        && outgoing == old(outgoing) + old(buffer[..])[offset..offset + transferred]
      ensures !write ==> outgoing == old(outgoing) && buffer[..offset] == old(buffer[..offset])
                         && old(incoming) == buffer[offset..offset + transferred] + incoming
      ensures Progress(old(outcomes), 1) && (write || |old(incoming)| > 0) ==> failure.None?
    {
      transferred := 0;
      if outcomes == [] {
        return Some(Timeout), 0;
      }
      var outcome := outcomes[0];
      outcomes := outcomes[1..];
      if outcome.Failed? {
        return Some(outcome.error), 0;
      }
      transferred := Min(outcome.count, buffer.Length - offset);
      if !write {
        transferred := Min(transferred, |incoming|);
      }
      if transferred == 0 {
        return Some(Disconnected), 0;
      }
      if write {
        outgoing := outgoing + buffer[offset..offset + transferred];
      } else {
        CopyIn(buffer, offset, incoming[..transferred]);
        incoming := incoming[transferred..];
      }
      return None, transferred;
    }

    /** Moves the whole buffer in or out, in whatever fragments; on a failure, exactly a first part of
        it has been moved. */
    method TransferExact(buffer: array<Byte>, write: bool) returns (failure: Option<WireError>, ghost moved: nat)
      modifies this, buffer
      ensures moved <= buffer.Length && (failure.None? ==> moved == buffer.Length)
      ensures write ==> outgoing == old(outgoing) + old(buffer[..moved]) && incoming == old(incoming)
      ensures write ==> buffer[..] == old(buffer[..])
      ensures !write ==> old(incoming) == buffer[..moved] + incoming && outgoing == old(outgoing)
      ensures Progress(old(outcomes), buffer.Length) && (write || |old(incoming)| >= buffer.Length) ==> failure.None?
      ensures failure.None? ==> UsesAtMost(old(outcomes), outcomes, buffer.Length)
    {
      var offset: nat := 0;
      ghost var was, outcomesWas, incomingWas, outgoingWas := buffer[..], outcomes, incoming, outgoing;
      NothingUsed(outcomes);
      while offset < buffer.Length
        invariant offset <= buffer.Length && UsesAtMost(outcomesWas, outcomes, offset)
        invariant write ==> outgoing == outgoingWas + was[..offset] && incoming == incomingWas && buffer[..] == was
        invariant !write ==> incomingWas == buffer[..offset] + incoming && outgoing == outgoingWas
      {
        hide Progress, UsesAtMost;
        OneMoreUsed(outcomesWas, outcomes, offset, buffer.Length);
        ghost var before := buffer[..offset];
        var failed, transferred := TransferSome(buffer, offset, write);
        if failed.Some? {
          return failed, offset;
        }
        assert write ==> was[..offset] + was[offset..offset + transferred] == was[..offset + transferred];
        assert !write ==> before + buffer[offset..offset + transferred] == buffer[..offset + transferred];
        UsedSoFar(outcomesWas, outcomes, offset + 1, offset + transferred);
        offset := offset + transferred;
      }
      return None, offset;
    }

    static method CopyIn(buffer: array<Byte>, offset: nat, bytes: seq<Byte>)
      requires offset + |bytes| <= buffer.Length
      modifies buffer
      ensures buffer[..] == old(buffer[..offset]) + bytes + old(buffer[offset + |bytes|..])
    {
      for i := 0 to |bytes|
        invariant forall k :: 0 <= k < buffer.Length ==>
                    buffer[k] == if offset <= k < offset + i then bytes[k - offset] else old(buffer[k])
      {
        buffer[offset + i] := bytes[i];
      }
    }

    static method Buffer(bytes: seq<Byte>) returns (buffer: array<Byte>)
      ensures fresh(buffer) && buffer.Length == |bytes| && buffer[..] == bytes
    {
      buffer := new Byte[|bytes|](i requires 0 <= i < |bytes| => bytes[i]);
    }

    method ReadBytes(count: nat) returns (result: Result<seq<Byte>, WireError>)
      modifies this
      ensures outgoing == old(outgoing)
      ensures result.Success? ==>
                && |result.value| == count && old(incoming) == result.value + incoming
                && UsesAtMost(old(outcomes), outcomes, count)
      ensures result.Failure? ==> exists gone :: gone + incoming == old(incoming)
      ensures Progress(old(outcomes), count) && |old(incoming)| >= count ==> result.Success?
    {
      hide Progress, UsesAtMost;
      ghost var was := incoming;
      var bytes := new Byte[count];
      var failure, moved := TransferExact(bytes, false);
      assert bytes[..moved] + incoming == was;
      if failure.Some? {
        return Failure(failure.value);
      }
      assert bytes[..] == bytes[..moved];
      return Success(bytes[..]);
    }

    /** Reads one field: what comes off the pipe is exactly that field's frame. */
    method Read() returns (result: Result<Field, WireError>)
      modifies this
      ensures outgoing == old(outgoing)
      ensures result.Success? ==> |result.value| <= MAX_FIELD_BYTES && old(incoming) == Frame(result.value) + incoming
      ensures result.Failure? ==> exists gone :: gone + incoming == old(incoming)
      ensures (exists field :: Arrived(field, old(incoming)) && Progress(old(outcomes), 4 + |field|))
              ==> result.Success?
    {
      hide Frame, Progress, UsesAtMost, Arrived;
      ghost var was, outcomesWas := incoming, outcomes;
      var lengthBytes := ReadBytes(4);
      forall field | Arrived(field, was) && Progress(outcomesWas, 4 + |field|)
        ensures lengthBytes.Success? && FromLittleEndian(lengthBytes.value) == |field| <= MAX_FIELD_BYTES
        ensures |incoming| >= |field| && Progress(outcomes, |field|)
      {
        LessProgress(outcomesWas, 4, 4 + |field|);
        ArrivedLength(field, was, lengthBytes.GetOr([]), incoming);
        ProgressGoesOn(outcomesWas, outcomes, 4, |field|);
      }
      if lengthBytes.Failure? {
        return lengthBytes;
      }
      var length := FromLittleEndian(lengthBytes.value);
      if length > MAX_FIELD_BYTES {
        assert lengthBytes.value + incoming == was;
        return Failure(ProtocolError);
      }
      ghost var rest := incoming;
      result := ReadBytes(length);
      if result.Failure? {
        ghost var gone :| gone + incoming == rest;
        assert (lengthBytes.value + gone) + incoming == was;
        return;
      }
      ReadFrame(lengthBytes.value, result.value);
      assert was == Frame(result.value) + incoming;
    }

    /** Writes one field: its frame, or on a failure the start of it; an oversized field writes
        nothing. */
    method Write(value: Field) returns (failure: Option<WireError>)
      modifies this
      ensures incoming == old(incoming)
      ensures failure.None? ==> |value| <= MAX_FIELD_BYTES && outgoing == old(outgoing) + Frame(value)
      ensures |value| > MAX_FIELD_BYTES ==> failure == Some(ProtocolError) && outgoing == old(outgoing)
      ensures exists n: nat :: n <= |Frame(value)| && outgoing == old(outgoing) + Frame(value)[..n]
      ensures |value| <= MAX_FIELD_BYTES && Progress(old(outcomes), 4 + |value|) ==> failure.None?
    {
      ghost var was, outcomesWas, frame := outgoing, outcomes, Frame(value);
      assert was == was + frame[..0];
      if |value| > MAX_FIELD_BYTES {
        return Some(ProtocolError);
      }
      var lengthBytes := ToLittleEndian(|value|, 4);
      FrameParts(value);
      hide Frame, Progress, UsesAtMost, ToLittleEndian;
      var buffer := Buffer(lengthBytes);
      if Progress(outcomesWas, 4 + |value|) {
        LessProgress(outcomesWas, 4, 4 + |value|);
      }
      ghost var moved: nat;
      failure, moved := TransferExact(buffer, true);
      assert outgoing == was + frame[..moved];
      if failure.Some? {
        return failure;
      }
      assert outgoing == was + lengthBytes;
      if Progress(outcomesWas, 4 + |value|) {
        ProgressGoesOn(outcomesWas, outcomes, 4, |value|);
      }
      buffer := Buffer(value);
      failure, moved := TransferExact(buffer, true);
      assert outgoing == was + frame[..4 + moved];
    }
  }

  // What a frame's first bytes are.
  lemma FrameParts(value: Field)
    ensures var length, frame := ToLittleEndian(|value|, 4), Frame(value);
      && |length| == 4 && |frame| == 4 + |value|
      && (forall n: nat :: n <= 4 ==> frame[..n] == length[..n])
      && (forall n: nat :: n <= |value| ==> frame[..4 + n] == length + value[..n])
  {
    hide ToLittleEndian;
  }

  lemma LessProgress(outcomes: seq<Outcome>, m: nat, n: nat)
    requires m <= n
    ensures Progress(outcomes, n) ==> Progress(outcomes, m)
  {}
}
