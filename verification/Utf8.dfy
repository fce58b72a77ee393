/**
 * The UTF-8 check that Fallout 4 save metadata must pass, against the encoding of RFC 3629. The bit
 * masks are written as divisions and remainders by powers of two.
 */
module Utf8 {
  import opened Wrappers
  import opened Bytes

  // ----- RFC 3629, sections 3 and 4 -----

  // A Unicode scalar value: a code point that is not a surrogate.
  predicate Scalar(c: int) { 0 <= c <= 0x10FFFF && !(0xD800 <= c <= 0xDFFF) }

  function Encode(c: int): (bytes: seq<Byte>)
    requires Scalar(c)
    ensures bytes != []
  {
    if c < 0x80 then [c]
    else if c < 0x800 then [0xC0 + c / 0x40, 0x80 + c % 0x40]
    else if c < 0x10000 then [0xE0 + c / 0x1000, 0x80 + c / 0x40 % 0x40, 0x80 + c % 0x40]
    else [0xF0 + c / 0x40000, 0x80 + c / 0x1000 % 0x40, 0x80 + c / 0x40 % 0x40, 0x80 + c % 0x40]
  }

  predicate Scalars(text: seq<int>) { forall c <- text :: Scalar(c) }

  function EncodeAll(text: seq<int>): seq<Byte>
    requires Scalars(text)
  {
    if text == [] then [] else Encode(text[0]) + EncodeAll(text[1..])
  }

  ghost predicate WellFormed(bytes: seq<Byte>) {
    exists text :: Scalars(text) && EncodeAll(text) == bytes
  }

  // ----- How a sequence is taken apart -----

  // How many continuation bytes a lead byte announces; -1: it is no lead byte.
  function Continuations(lead: Byte): int {
    if lead < 0x80 then 0
    else if lead / 0x20 == 6 then 1
    else if lead / 0x10 == 14 then 2
    else if lead / 8 == 30 then 3
    else -1
  }

  function Payload(lead: Byte): int
    requires Continuations(lead) >= 0
  {
    if Continuations(lead) == 0 then lead
    else if Continuations(lead) == 1 then lead % 0x20
    else if Continuations(lead) == 2 then lead % 0x10
    else lead % 8
  }

  predicate AllTails(bytes: seq<Byte>) { forall i :: 0 <= i < |bytes| ==> bytes[i] / 0x40 == 2 }

  function Combine(code: int, tail: seq<Byte>): int {
    if tail == [] then code else Combine(code, tail[..|tail| - 1]) * 0x40 + tail[|tail| - 1] % 0x40
  }

  function Minimum(continuations: int): int {
    if continuations == 0 then 0 else if continuations == 1 then 0x80 else if continuations == 2 then 0x800 else 0x10000
  }

  // The scalar value a whole sequence stands for, if it is one.
  predicate Stands(bytes: seq<Byte>, c: int) {
    && bytes != [] && Continuations(bytes[0]) == |bytes| - 1 && AllTails(bytes[1..])
    && c == Combine(Payload(bytes[0]), bytes[1..]) && Scalar(c) && c >= Minimum(|bytes| - 1)
  }

  lemma CombineUpTo3(code: int, tail: seq<Byte>)
    ensures |tail| == 0 ==> Combine(code, tail) == code
    ensures |tail| == 1 ==> Combine(code, tail) == code * 0x40 + tail[0] % 0x40
    ensures |tail| == 2 ==> Combine(code, tail) == (code * 0x40 + tail[0] % 0x40) * 0x40 + tail[1] % 0x40
    ensures |tail| == 3 ==> Combine(code, tail) ==
                            ((code * 0x40 + tail[0] % 0x40) * 0x40 + tail[1] % 0x40) * 0x40 + tail[2] % 0x40
  {
    if |tail| == 2 {
      CombineUpTo3(code, tail[..1]);
    } else if |tail| == 3 {
      CombineUpTo3(code, tail[..2]);
    }
  }

  // Six-bit groups: c is put together again from its upper part and its last six bits.
  lemma SixBits(c: nat)
    ensures c == c / 0x40 * 0x40 + c % 0x40
    ensures c / 0x1000 == c / 0x40 / 0x40 && c / 0x40000 == c / 0x40 / 0x40 / 0x40
    ensures (0x80 + c % 0x40) % 0x40 == c % 0x40 && (0x80 + c % 0x40) / 0x40 == 2
  {}

  lemma EncodingStands(c: int)
    requires Scalar(c)
    ensures Stands(Encode(c), c)
  {
    var e := Encode(c);
    CombineUpTo3(Payload(e[0]), e[1..]);
    SixBits(c);
    SixBits(c / 0x40);
    SixBits(c / 0x1000);
  }

  lemma TailByte(b: Byte)
    requires b / 0x40 == 2
    ensures b == 0x80 + b % 0x40
  {}

  lemma LeadByte(b: Byte)
    requires Continuations(b) > 0
    ensures Continuations(b) == 1 ==> b == 0xC0 + b % 0x20
    ensures Continuations(b) == 2 ==> b == 0xE0 + b % 0x10
    ensures Continuations(b) == 3 ==> b == 0xF0 + b % 8
  {}

  lemma Split(high: int, low: int)
    requires 0 <= low < 0x40
    ensures (high * 0x40 + low) / 0x40 == high && (high * 0x40 + low) % 0x40 == low
  {}

  // The arithmetic of two, three and four bytes put together and taken apart again.
  lemma TwoBytes(p: int, x: Byte, c: int)
    requires x / 0x40 == 2 && c == p * 0x40 + x % 0x40
    ensures c / 0x40 == p && 0x80 + c % 0x40 == x
  {
    TailByte(x);
    Split(p, x % 0x40);
  }

  lemma ThreeBytes(p: int, x: Byte, y: Byte, c: int)
    requires x / 0x40 == 2 && y / 0x40 == 2 && c == (p * 0x40 + x % 0x40) * 0x40 + y % 0x40
    ensures c / 0x1000 == p && 0x80 + c / 0x40 % 0x40 == x && 0x80 + c % 0x40 == y
  {
    TwoBytes(p, x, p * 0x40 + x % 0x40);
    TwoBytes(p * 0x40 + x % 0x40, y, c);
    assert c / 0x1000 == c / 0x40 / 0x40;
  }

  lemma FourBytes(p: int, x: Byte, y: Byte, z: Byte, c: int)
    requires x / 0x40 == 2 && y / 0x40 == 2 && z / 0x40 == 2
    requires c == ((p * 0x40 + x % 0x40) * 0x40 + y % 0x40) * 0x40 + z % 0x40
    ensures c / 0x40000 == p && 0x80 + c / 0x1000 % 0x40 == x && 0x80 + c / 0x40 % 0x40 == y && 0x80 + c % 0x40 == z
  {
    var c2 := (p * 0x40 + x % 0x40) * 0x40 + y % 0x40;
    ThreeBytes(p, x, y, c2);
    TwoBytes(c2, z, c);
    assert c / 0x1000 == c / 0x40 / 0x40 && c / 0x40000 == c / 0x40 / 0x1000;
  }

  lemma StandingEncodes(bytes: seq<Byte>, c: int)
    requires Stands(bytes, c)
    ensures Encode(c) == bytes
  {
    var lead, tail := bytes[0], bytes[1..];
    var p := Payload(lead);
    CombineUpTo3(p, tail);
    if |tail| == 1 {
      LeadByte(lead);
      TwoBytes(p, tail[0], c);
    } else if |tail| == 2 {
      LeadByte(lead);
      ThreeBytes(p, tail[0], tail[1], c);
    } else if |tail| == 3 {
      LeadByte(lead);
      FourBytes(p, tail[0], tail[1], tail[2], c);
    }
    assert bytes == [lead] + tail;
  }

  // The encoding at the front of a byte string is unique.
  lemma FrontIsUnique(bytes: seq<Byte>, c: int, d: int)
    requires Scalar(c) && Scalar(d) && Encode(c) <= bytes && Encode(d) <= bytes
    ensures c == d
  {
    EncodingStands(c);
    EncodingStands(d);
    assert bytes[0] == Encode(c)[0] == Encode(d)[0];
    assert Encode(c) == bytes[..|Encode(c)|] == Encode(d);
  }

  // A byte string stays well formed, or not, when an encoding is taken off its front.
  lemma TakeFront(bytes: seq<Byte>, c: int)
    requires Scalar(c) && Encode(c) <= bytes
    ensures WellFormed(bytes) <==> WellFormed(bytes[|Encode(c)|..])
  {
    var n := |Encode(c)|;
    if WellFormed(bytes) {
      var text :| Scalars(text) && EncodeAll(text) == bytes;
      assert Encode(text[0]) <= bytes;
      FrontIsUnique(bytes, c, text[0]);
      assert Scalars(text[1..]) && EncodeAll(text[1..]) == bytes[n..];
    }
    if WellFormed(bytes[n..]) {
      var text :| Scalars(text) && EncodeAll(text) == bytes[n..];
      assert Scalars([c] + text) && ([c] + text)[1..] == text;
      assert EncodeAll([c] + text) == bytes;
    }
  }

  // A nonempty well-formed string starts with the sequence its lead byte announces.
  lemma FrontStands(bytes: seq<Byte>)
    requires WellFormed(bytes) && bytes != []
    ensures var k := Continuations(bytes[0]);
      0 <= k < |bytes| && Stands(bytes[..k + 1], Combine(Payload(bytes[0]), bytes[1..k + 1]))
  {
    var text :| Scalars(text) && EncodeAll(text) == bytes;
    var e := Encode(text[0]);
    EncodingStands(text[0]);
    assert e == bytes[..|e|] && e[1..] == bytes[1..|e|];
  }

  lemma NotAtFront(bytes: seq<Byte>)
    requires bytes != []
    requires var k := Continuations(bytes[0]);
      k < 0 || k >= |bytes| || !Stands(bytes[..k + 1], Combine(Payload(bytes[0]), bytes[1..k + 1]))
    ensures !WellFormed(bytes)
  {
    if WellFormed(bytes) {
      FrontStands(bytes);
      assert false;
    }
  }

  // What the check finds out about the sequence at the front, and what that says of the whole.
  lemma BadTail(bytes: seq<Byte>, offset: nat)
    requires bytes != [] && 1 <= offset <= Continuations(bytes[0]) < |bytes| && bytes[offset] / 0x40 != 2
    ensures !WellFormed(bytes)
  {
    var k := Continuations(bytes[0]);
    assert bytes[..k + 1][1..][offset - 1] == bytes[offset];
    NotAtFront(bytes);
  }

  lemma FrontDecides(bytes: seq<Byte>, c: int)
    requires bytes != [] && 0 <= Continuations(bytes[0]) < |bytes|
    requires var k := Continuations(bytes[0]);
      AllTails(bytes[1..k + 1]) && c == Combine(Payload(bytes[0]), bytes[1..k + 1])
    ensures var k := Continuations(bytes[0]);
      if Scalar(c) && c >= Minimum(k) then WellFormed(bytes) <==> WellFormed(bytes[k + 1..]) else !WellFormed(bytes)
  {
    var k := Continuations(bytes[0]);
    var front := bytes[..k + 1];
    assert front[1..] == bytes[1..k + 1];
    if Scalar(c) && c >= Minimum(k) {
      StandingEncodes(front, c);
      TakeFront(bytes, c);
    } else {
      NotAtFront(bytes);
    }
  }

  lemma OneMoreTail(code: int, bytes: seq<Byte>, offset: nat)
    requires 1 <= offset < |bytes| && AllTails(bytes[1..offset]) && bytes[offset] / 0x40 == 2
    ensures AllTails(bytes[1..offset + 1])
    ensures Combine(code, bytes[1..offset + 1]) == Combine(code, bytes[1..offset]) * 0x40 + bytes[offset] % 0x40
  {
    assert bytes[1..offset + 1] == bytes[1..offset] + [bytes[offset]];
  }

  lemma NoTails(code: int, bytes: seq<Byte>)
    requires |bytes| >= 1
    ensures AllTails(bytes[1..1]) && Combine(code, bytes[1..1]) == code
  {}

  lemma EmptyIsWellFormed()
    ensures WellFormed([])
  {
    assert Scalars([]) && EncodeAll([]) == [];
  }

  // The sequence at the front of a nonempty string: how many continuation bytes it has, or none if it
  // is not the encoding of a scalar value.
  method CheckSequence(value: seq<Byte>, index: nat) returns (continuationCount: Option<nat>)
    requires index < |value| && value[index] >= 0x80
    ensures continuationCount.None? ==> !WellFormed(value[index..])
    ensures continuationCount.Some? ==>
              && index + continuationCount.value < |value|
              && (WellFormed(value[index..]) <==> WellFormed(value[index + continuationCount.value + 1..]))
  {
    hide WellFormed, Combine, AllTails, Stands;
    ghost var rest := value[index..];
    var lead := value[index];
    var count: nat := 0;
    var codePoint: int := 0;
    if lead / 0x20 == 6 {
      count := 1;
      codePoint := lead % 0x20;
    } else if lead / 0x10 == 14 {
      count := 2;
      codePoint := lead % 0x10;
    } else if lead / 8 == 30 {
      count := 3;
      codePoint := lead % 8;
    } else {
      NotAtFront(rest);
      return None;
    }
    if index + count >= |value| {
      NotAtFront(rest);
      return None;
    }
    assert count == Continuations(rest[0]) && codePoint == Payload(rest[0]);
    hide Continuations, Payload;
    NoTails(Payload(rest[0]), rest);
    var offset := 1;
    while offset <= count
      invariant 1 <= offset <= count + 1
      invariant AllTails(rest[1..offset]) && codePoint == Combine(Payload(rest[0]), rest[1..offset])
    {
      var continuation := value[index + offset];
      assert continuation == rest[offset];
      if continuation / 0x40 != 2 {
        BadTail(rest, offset);
        return None;
      }
      OneMoreTail(Payload(rest[0]), rest, offset);
      codePoint := codePoint * 0x40 + continuation % 0x40;
      offset := offset + 1;
    }
    FrontDecides(rest, codePoint);
    var minimum: int := if count == 1 then 0x80 else if count == 2 then 0x800 else 0x10000;
    if codePoint < minimum || codePoint > 0x10FFFF || (codePoint >= 0xD800 && codePoint <= 0xDFFF) {
      return None;
    }
    assert rest[count + 1..] == value[index + count + 1..];
    return Some(count);
  }

  /** A byte string is accepted exactly when it is the UTF-8 encoding of some sequence of Unicode
      scalar values. */
  method IsValidUtf8(value: seq<Byte>) returns (valid: bool)
    ensures valid <==> exists text :: Scalars(text) && EncodeAll(text) == value
  {
    var index := 0;
    while index < |value|
      invariant 0 <= index <= |value| && (WellFormed(value) <==> WellFormed(value[index..]))
    {
      var lead := value[index];
      if lead < 0x80 {
        StandingEncodes([lead], lead);
        TakeFront(value[index..], lead);
        index := index + 1;
        continue;
      }
      var continuationCount := CheckSequence(value, index);
      if continuationCount.None? {
        return false;
      }
      index := index + continuationCount.value + 1;
    }
    EmptyIsWellFormed();
    assert value[index..] == [];
    return true;
  }
}
