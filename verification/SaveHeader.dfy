/**
 * The bounded save-header parsers of both games: a reader that advances through the header bytes,
 * proved against an encoder of the same record.
 */
module SaveHeader {
  import opened Wrappers
  import opened Bytes
  import Utf8

  const MAX_HEADER_BYTES := 256 * 1024
  const MAX_STRING_BYTES := 4096
  const MAX_SCREENSHOT_DIMENSION := 16384
  const MAX_UINT64 := 0xFFFF_FFFF_FFFF_FFFF

  // The screenshot after the header is BGRA in Fallout 4, RGB in Skyrim.
  datatype Game = Game(magic: seq<Byte>, bytesPerPixel: nat, checksUtf8: bool)

  function Fallout4(): Game { Game(Ascii("FO4_SAVEGAME"), 4, true) }

  function Skyrim(): Game { Game(Ascii("TESV_SAVEGAME"), 3, false) }

  function PrefixBytes(game: Game): nat { |game.magic| + 4 }

  // ----- The wire format -----

  // A field is a little-endian number of some width (a float by its bits), or a text of at most
  // 4096 bytes behind its 16-bit length.
  datatype Kind = Number(width: nat) | Text

  datatype Value = N(n: nat) | T(bytes: seq<Byte>)

  predicate Fits(kind: Kind, v: Value) {
    match kind
    case Number(width) => v.N? && v.n < Power256(width)
    case Text => v.T? && |v.bytes| <= MAX_STRING_BYTES
  }

  function Put(kind: Kind, v: Value): seq<Byte>
    requires Fits(kind, v)
  {
    match kind
    case Number(width) => ToLittleEndian(v.n, width)
    case Text => ToLittleEndian(|v.bytes|, 2) + v.bytes
  }

  predicate AllFit(kinds: seq<Kind>, values: seq<Value>) {
    |values| == |kinds| && forall i :: 0 <= i < |kinds| ==> Fits(kinds[i], values[i])
  }

  function PutAll(kinds: seq<Kind>, values: seq<Value>): seq<Byte>
    requires AllFit(kinds, values)
  {
    if kinds == [] then [] else Put(kinds[0], values[0]) + PutAll(kinds[1..], values[1..])
  }

  // What reading a field makes of the bytes left: its value and the bytes after it.
  function Take(kind: Kind, s: seq<Byte>): Option<(Value, seq<Byte>)> {
    match kind
    case Number(width) =>
      if |s| < width then None else Some((N(FromLittleEndian(s[..width])), s[width..]))
    case Text =>
      if |s| < 2 then None
      else
        var length := FromLittleEndian(s[..2]);
        if length > MAX_STRING_BYTES || |s| - 2 < length then None else Some((T(s[2..2 + length]), s[2 + length..]))
  }

  function TakeAll(kinds: seq<Kind>, s: seq<Byte>): Option<(seq<Value>, seq<Byte>)> {
    if kinds == [] then Some(([], s))
    else
      match Take(kinds[0], s)
      case None => None
      case Some((v, rest)) =>
        match TakeAll(kinds[1..], rest)
        case None => None
        case Some((vs, end)) => Some(([v] + vs, end))
  }

  lemma TakeUndoesPut(kind: Kind, v: Value, tail: seq<Byte>)
    requires Fits(kind, v)
    ensures Take(kind, Put(kind, v) + tail) == Some((v, tail))
  {
    var s := Put(kind, v) + tail;
    match kind
    case Number(width) =>
      assert s[..width] == ToLittleEndian(v.n, width);
      ReadUndoesWrite(v.n, width);
    case Text =>
      assert s[..2] == ToLittleEndian(|v.bytes|, 2);
      assert Power256(2) == 0x10000 by { assert Power256(1) == 0x100; }
      ReadUndoesWrite(|v.bytes|, 2);
  }

  lemma PutUndoesTake(kind: Kind, s: seq<Byte>)
    requires Take(kind, s).Some?
    ensures var (v, rest) := Take(kind, s).value; Fits(kind, v) && s == Put(kind, v) + rest
  {
    match kind
    case Number(width) => WriteUndoesRead(s[..width]);
    case Text =>
      WriteUndoesRead(s[..2]);
      var length := FromLittleEndian(s[..2]);
      assert s == s[..2] + s[2..2 + length] + s[2 + length..];
  }

  lemma {:induction false} TakeAllUndoesPutAll(kinds: seq<Kind>, values: seq<Value>, tail: seq<Byte>)
    requires AllFit(kinds, values)
    ensures TakeAll(kinds, PutAll(kinds, values) + tail) == Some((values, tail))
    decreases |kinds|
  {
    hide Take, Put;
    if kinds == [] {
      assert PutAll(kinds, values) + tail == tail;
    } else {
      var rest := PutAll(kinds[1..], values[1..]);
      TakeUndoesPut(kinds[0], values[0], rest + tail);
      TakeAllUndoesPutAll(kinds[1..], values[1..], tail);
      assert PutAll(kinds, values) + tail == Put(kinds[0], values[0]) + (rest + tail);
      assert [values[0]] + values[1..] == values;
    }
  }

  lemma {:induction false} PutAllUndoesTakeAll(kinds: seq<Kind>, s: seq<Byte>)
    requires TakeAll(kinds, s).Some?
    ensures var (values, rest) := TakeAll(kinds, s).value; AllFit(kinds, values) && s == PutAll(kinds, values) + rest
    decreases |kinds|
  {
    if kinds != [] {
      PutUndoesTake(kinds[0], s);
      var (v, rest) := Take(kinds[0], s).value;
      PutAllUndoesTakeAll(kinds[1..], rest);
      var (vs, end) := TakeAll(kinds[1..], rest).value;
      assert ([v] + vs)[1..] == vs;
      assert s == Put(kinds[0], v) + (PutAll(kinds[1..], vs) + end);
    }
  }

  // ----- The reader -----

  // What one read saw, what it returned, and what it left.
  datatype Read = Read(kind: Kind, before: seq<Byte>, value: Option<Value>, after: seq<Byte>)

  ghost predicate IsRead(read: Read) {
    match Take(read.kind, read.before)
    case None => read.value.None?
    case Some((v, rest)) => read.value == Some(v) && read.after == rest
  }

  class HeaderReader {
    const bytes: seq<Byte>
    var offset: nat

    ghost predicate Valid()
      reads this
    {
      offset <= |bytes|
    }

    ghost function Rest(): seq<Byte>
      requires Valid()
      reads this
    {
      bytes[offset..]
    }

    constructor (bytes: seq<Byte>)
      ensures Valid() && Rest() == bytes
    {
      this.bytes := bytes;
      offset := 0;
    }

    function Remaining(): nat
      requires Valid()
      reads this
      ensures Remaining() == |Rest()|
    {
      |bytes| - offset
    }

    method ReadNumber(width: nat) returns (value: Option<nat>, ghost read: Read)
      requires Valid()
      modifies this
      ensures Valid() && read.kind == Number(width) && read.before == old(Rest()) && read.after == Rest()
              && IsRead(read)
      ensures value.Some? == read.value.Some? && (value.Some? ==> read.value.value == N(value.value))
    {
      ghost var before := Rest();
      if Remaining() < width {
        return None, Read(Number(width), before, None, before);
      }
      var n := FromLittleEndian(bytes[offset..offset + width]);
      assert before[..width] == bytes[offset..offset + width];
      offset := offset + width;
      return Some(n), Read(Number(width), before, Some(N(n)), Rest());
    }

    method ReadString() returns (value: Option<seq<Byte>>, ghost read: Read)
      requires Valid()
      modifies this
      ensures Valid() && read.kind == Text && read.before == old(Rest()) && read.after == Rest() && IsRead(read)
      ensures value.Some? == read.value.Some? && (value.Some? ==> read.value.value == T(value.value))
    {
      ghost var before := Rest();
      var length, lengthRead := ReadNumber(2);
      if length.None? || length.value > MAX_STRING_BYTES || Remaining() < length.value {
        return None, Read(Text, before, None, Rest());
      }
      var text := bytes[offset..offset + length.value];
      assert bytes[offset..] == before[2..];
      assert text == bytes[offset..][..length.value] == before[2..2 + length.value];
      offset := offset + length.value;
      return Some(text), Read(Text, before, Some(T(text)), Rest());
    }
  }

  // Reads in a row, each starting where the one before it stopped.
  ghost predicate InARow(trace: seq<Read>, s: seq<Byte>, end: seq<Byte>) {
    if trace == [] then end == s
    else trace[0].before == s && IsRead(trace[0]) && InARow(trace[1..], trace[0].after, end)
  }

  function Kinds(trace: seq<Read>): (kinds: seq<Kind>)
    ensures |kinds| == |trace|
  {
    seq(|trace|, i requires 0 <= i < |trace| => trace[i].kind)
  }

  ghost predicate AllGood(trace: seq<Read>) { forall r <- trace :: r.value.Some? }

  function Values(trace: seq<Read>): seq<Value>
    requires AllGood(trace)
  {
    if trace == [] then [] else [trace[0].value.value] + Values(trace[1..])
  }

  // Reading field by field is taking the whole record, and fails where that does.
  lemma {:induction false} ReadsTakeAll(trace: seq<Read>, s: seq<Byte>, end: seq<Byte>)
    requires InARow(trace, s, end)
    ensures TakeAll(Kinds(trace), s) == if AllGood(trace) then Some((Values(trace), end)) else None
    decreases |trace|
  {
    if trace != [] {
      assert Kinds(trace)[1..] == Kinds(trace[1..]);
      assert trace == [trace[0]] + trace[1..];
      if trace[0].value.Some? {
        ReadsTakeAll(trace[1..], trace[0].after, end);
      }
    }
  }

  // ----- The header -----

  const LAYOUT := [
    Number(4), Number(4), Text, Number(4), Text, Text, Text,
    Number(2), Number(4), Number(4), Number(8), Number(4), Number(4)
  ]

  // Experience counts are floats, kept here as their bits.
  datatype Fields = Fields(
    formatVersion: nat, saveNumber: nat, characterName: seq<Byte>, level: nat, location: seq<Byte>,
    playTime: seq<Byte>, race: seq<Byte>, sex: nat, currentExperience: nat, requiredExperience: nat,
    fileTime: nat, screenshotWidth: nat, screenshotHeight: nat)

  function ToValues(f: Fields): seq<Value> {
    [N(f.formatVersion), N(f.saveNumber), T(f.characterName), N(f.level), T(f.location), T(f.playTime),
     T(f.race), N(f.sex), N(f.currentExperience), N(f.requiredExperience), N(f.fileTime),
     N(f.screenshotWidth), N(f.screenshotHeight)]
  }

  function FromValues(v: seq<Value>): (f: Fields)
    requires AllFit(LAYOUT, v)
    ensures ToValues(f) == v
  {
    assert Fits(LAYOUT[0], v[0]) && Fits(LAYOUT[1], v[1]) && Fits(LAYOUT[2], v[2]) && Fits(LAYOUT[3], v[3]);
    assert Fits(LAYOUT[4], v[4]) && Fits(LAYOUT[5], v[5]) && Fits(LAYOUT[6], v[6]) && Fits(LAYOUT[7], v[7]);
    assert Fits(LAYOUT[8], v[8]) && Fits(LAYOUT[9], v[9]) && Fits(LAYOUT[10], v[10]) && Fits(LAYOUT[11], v[11]);
    assert Fits(LAYOUT[12], v[12]);
    Fields(v[0].n, v[1].n, v[2].bytes, v[3].n, v[4].bytes, v[5].bytes, v[6].bytes, v[7].n, v[8].n, v[9].n,
           v[10].n, v[11].n, v[12].n)
  }

  // What the game can have written and the tools accept.
  ghost predicate Acceptable(game: Game, f: Fields) {
    && AllFit(LAYOUT, ToValues(f))
    && |PutAll(LAYOUT, ToValues(f))| <= MAX_HEADER_BYTES
    && (game.checksUtf8 ==>
          Utf8.WellFormed(f.characterName) && Utf8.WellFormed(f.location) && Utf8.WellFormed(f.playTime)
            && Utf8.WellFormed(f.race))
    && 0 < f.screenshotWidth <= MAX_SCREENSHOT_DIMENSION && 0 < f.screenshotHeight <= MAX_SCREENSHOT_DIMENSION
  }

  function Encode(game: Game, f: Fields): seq<Byte>
    requires AllFit(LAYOUT, ToValues(f))
  {
    var body := PutAll(LAYOUT, ToValues(f));
    game.magic + ToLittleEndian(|body|, 4) + body
  }

  function ScreenshotBytes(game: Game, f: Fields): nat {
    f.screenshotWidth * f.screenshotHeight * game.bytesPerPixel
  }

  // A file holds the header and the screenshot behind it.
  predicate Holds(fileSize: nat, game: Game, f: Fields)
    requires AllFit(LAYOUT, ToValues(f))
  {
    |Encode(game, f)| + ScreenshotBytes(game, f) <= fileSize
  }

  datatype Metadata = Metadata(fields: Fields, fileTimeUnix: Option<int>)

  const TICKS_PER_SECOND := 10_000_000
  const UNIX_EPOCH_OFFSET_SECONDS := 11_644_473_600

  function FileTimeToUnix(fileTime: nat): int { fileTime / TICKS_PER_SECOND - UNIX_EPOCH_OFFSET_SECONDS }

  function ToMetadata(f: Fields): Metadata {
    Metadata(f, if f.fileTime != 0 then Some(FileTimeToUnix(f.fileTime)) else None)
  }

  datatype Problem =
    | TruncatedPrefix
    | InvalidMagic
    | HeaderSizeOutOfBounds
    | TruncatedHeader
    | InvalidFields
    | InvalidUtf8
    | SizeMismatch
    | DimensionsOutOfBounds
    | ScreenshotOverflow
    | TruncatedScreenshot

  function HeaderSize(game: Game, header: seq<Byte>): nat
    requires |header| >= PrefixBytes(game)
  {
    FromLittleEndian(header[|game.magic|..PrefixBytes(game)])
  }

  predicate ScreenshotOverflows(game: Game, f: Fields)
    requires game.bytesPerPixel > 0 && f.screenshotWidth > 0
  {
    || f.screenshotHeight > MAX_UINT64 / f.screenshotWidth
    || f.screenshotWidth * f.screenshotHeight > MAX_UINT64 / game.bytesPerPixel
  }

  // Which check, if any, the decoded fields fail first; left: the header bytes after the fields.
  ghost function FirstComplaint(game: Game, f: Fields, left: seq<Byte>, fileSize: nat, offset: nat): Option<Problem>
    requires game.bytesPerPixel > 0
  {
    if game.checksUtf8 && !(Utf8.WellFormed(f.characterName) && Utf8.WellFormed(f.location) &&
                            Utf8.WellFormed(f.playTime) && Utf8.WellFormed(f.race)) then Some(InvalidUtf8)
    else if left != [] then Some(SizeMismatch)
    else if f.screenshotWidth == 0 || f.screenshotHeight == 0 || f.screenshotWidth > MAX_SCREENSHOT_DIMENSION ||
            f.screenshotHeight > MAX_SCREENSHOT_DIMENSION then Some(DimensionsOutOfBounds)
    else if ScreenshotOverflows(game, f) then Some(ScreenshotOverflow)
    else if offset > fileSize || ScreenshotBytes(game, f) > fileSize - offset then
      Some(TruncatedScreenshot)
    else None
  }

  ghost function Parsed(game: Game, header: seq<Byte>, fileSize: nat): Result<Metadata, Problem>
    requires game.bytesPerPixel > 0
  {
    if |header| < PrefixBytes(game) then Failure(TruncatedPrefix)
    else if header[..|game.magic|] != game.magic then Failure(InvalidMagic)
    else
      var size := HeaderSize(game, header);
      if size == 0 || size > MAX_HEADER_BYTES then Failure(HeaderSizeOutOfBounds)
      else if |header| < PrefixBytes(game) + size then Failure(TruncatedHeader)
      else
        match TakeAll(LAYOUT, header[PrefixBytes(game)..PrefixBytes(game) + size])
        case None => Failure(InvalidFields)
        case Some((values, left)) =>
          PutAllUndoesTakeAll(LAYOUT, header[PrefixBytes(game)..PrefixBytes(game) + size]);
          var f := FromValues(values);
          match FirstComplaint(game, f, left, fileSize, PrefixBytes(game) + size)
          case Some(problem) => Failure(problem)
          case None => Success(ToMetadata(f))
  }

  method CheckUtf8(f: Fields) returns (valid: bool)
    ensures valid == (Utf8.WellFormed(f.characterName) && Utf8.WellFormed(f.location) &&
                      Utf8.WellFormed(f.playTime) && Utf8.WellFormed(f.race))
  {
    var nameValid := Utf8.IsValidUtf8(f.characterName);
    var locationValid := Utf8.IsValidUtf8(f.location);
    var playTimeValid := Utf8.IsValidUtf8(f.playTime);
    var raceValid := Utf8.IsValidUtf8(f.race);
    return nameValid && locationValid && playTimeValid && raceValid;
  }

  // What a read returned is what it was asked for and what its record says.
  ghost predicate NumberRead(read: Read, width: nat, value: Option<nat>) {
    && read.kind == Number(width) && IsRead(read) && value.Some? == read.value.Some?
    && (value.Some? ==> read.value.value == N(value.value))
  }

  ghost predicate TextRead(read: Read, value: Option<seq<Byte>>) {
    && read.kind == Text && IsRead(read) && value.Some? == read.value.Some?
    && (value.Some? ==> read.value.value == T(value.value))
  }

  // The first seven fields of the record.
  method ReadNames(reader: HeaderReader)
    returns (formatVersion: Option<nat>, saveNumber: Option<nat>, characterName: Option<seq<Byte>>, level: Option<nat>,
             location: Option<seq<Byte>>, playTime: Option<seq<Byte>>, race: Option<seq<Byte>>,
             ghost r0: Read, ghost r1: Read, ghost r2: Read, ghost r3: Read, ghost r4: Read, ghost r5: Read,
             ghost r6: Read)
    requires reader.Valid()
    modifies reader
    ensures reader.Valid() && r0.before == old(reader.Rest()) && r6.after == reader.Rest()
    ensures r0.after == r1.before && r1.after == r2.before && r2.after == r3.before
    ensures r3.after == r4.before && r4.after == r5.before && r5.after == r6.before
    ensures NumberRead(r0, 4, formatVersion) && NumberRead(r1, 4, saveNumber) && TextRead(r2, characterName)
    ensures NumberRead(r3, 4, level) && TextRead(r4, location) && TextRead(r5, playTime) && TextRead(r6, race)
  {
    hide IsRead;
    formatVersion, r0 := reader.ReadNumber(4);
    saveNumber, r1 := reader.ReadNumber(4);
    characterName, r2 := reader.ReadString();
    level, r3 := reader.ReadNumber(4);
    location, r4 := reader.ReadString();
    playTime, r5 := reader.ReadString();
    race, r6 := reader.ReadString();
  }

  // The six after those.
  method ReadNumbers(reader: HeaderReader)
    returns (sex: Option<nat>, currentExperience: Option<nat>, requiredExperience: Option<nat>, fileTime: Option<nat>,
             screenshotWidth: Option<nat>, screenshotHeight: Option<nat>,
             ghost r7: Read, ghost r8: Read, ghost r9: Read, ghost r10: Read, ghost r11: Read, ghost r12: Read)
    requires reader.Valid()
    modifies reader
    ensures reader.Valid() && r7.before == old(reader.Rest()) && r12.after == reader.Rest()
    ensures r7.after == r8.before && r8.after == r9.before && r9.after == r10.before
    ensures r10.after == r11.before && r11.after == r12.before
    ensures NumberRead(r7, 2, sex) && NumberRead(r8, 4, currentExperience) && NumberRead(r9, 4, requiredExperience)
    ensures NumberRead(r10, 8, fileTime) && NumberRead(r11, 4, screenshotWidth) && NumberRead(r12, 4, screenshotHeight)
  {
    hide IsRead;
    sex, r7 := reader.ReadNumber(2);
    currentExperience, r8 := reader.ReadNumber(4);
    requiredExperience, r9 := reader.ReadNumber(4);
    fileTime, r10 := reader.ReadNumber(8);
    screenshotWidth, r11 := reader.ReadNumber(4);
    screenshotHeight, r12 := reader.ReadNumber(4);
  }

  method ReadFields(body: seq<Byte>) returns (fields: Option<Fields>, left: nat)
    ensures match TakeAll(LAYOUT, body)
      case None => fields == None
      case Some((values, rest)) => fields.Some? && ToValues(fields.value) == values && left == |rest|
  {
    hide IsRead, TakeAll;
    var reader := new HeaderReader(body);
    var formatVersion, saveNumber, characterName, level, location, playTime, race,
        r0, r1, r2, r3, r4, r5, r6 := ReadNames(reader);
    var sex, currentExperience, requiredExperience, fileTime, screenshotWidth, screenshotHeight,
        r7, r8, r9, r10, r11, r12 := ReadNumbers(reader);
    RecordRead(body, reader.Rest(), [r0, r1, r2, r3, r4, r5, r6, r7, r8, r9, r10, r11, r12]);
    left := reader.Remaining();
    if formatVersion.None? || saveNumber.None? || characterName.None? || level.None? || location.None? ||
       playTime.None? || race.None? || sex.None? || currentExperience.None? || requiredExperience.None? ||
       fileTime.None? || screenshotWidth.None? || screenshotHeight.None? {
      return None, left;
    }
    fields := Some(Fields(
      formatVersion.value, saveNumber.value, characterName.value, level.value, location.value, playTime.value,
      race.value, sex.value, currentExperience.value, requiredExperience.value, fileTime.value,
      screenshotWidth.value, screenshotHeight.value));
    FieldValues(fields.value);
  }

  lemma FieldValues(f: Fields)
    ensures ToValues(f) ==
            [N(f.formatVersion), N(f.saveNumber), T(f.characterName), N(f.level), T(f.location), T(f.playTime),
             T(f.race), N(f.sex), N(f.currentExperience), N(f.requiredExperience), N(f.fileTime),
             N(f.screenshotWidth), N(f.screenshotHeight)]
  {}

  lemma GoodOf13(trace: seq<Read>)
    requires |trace| == 13
    ensures AllGood(trace) <==>
              && trace[0].value.Some? && trace[1].value.Some? && trace[2].value.Some? && trace[3].value.Some?
              && trace[4].value.Some? && trace[5].value.Some? && trace[6].value.Some? && trace[7].value.Some?
              && trace[8].value.Some? && trace[9].value.Some? && trace[10].value.Some? && trace[11].value.Some?
              && trace[12].value.Some?
  {}

  // Thirteen reads in a row, one for each field of the record.
  lemma RecordRead(body: seq<Byte>, end: seq<Byte>, trace: seq<Read>)
    requires |trace| == 13
    requires trace[0].before == body && trace[12].after == end
    requires forall i :: 0 <= i < 13 ==> IsRead(trace[i])
    requires forall i :: 0 <= i < 12 ==> trace[i].after == trace[i + 1].before
    requires trace[0].kind == trace[1].kind == trace[3].kind == trace[8].kind == trace[9].kind == Number(4)
    requires trace[2].kind == trace[4].kind == trace[5].kind == trace[6].kind == Text
    requires trace[7].kind == Number(2) && trace[10].kind == Number(8) && trace[11].kind == trace[12].kind == Number(4)
    ensures TakeAll(LAYOUT, body) ==
            if && trace[0].value.Some? && trace[1].value.Some? && trace[2].value.Some? && trace[3].value.Some?
               && trace[4].value.Some? && trace[5].value.Some? && trace[6].value.Some? && trace[7].value.Some?
               && trace[8].value.Some? && trace[9].value.Some? && trace[10].value.Some? && trace[11].value.Some?
               && trace[12].value.Some?
            then
              Some(([trace[0].value.value, trace[1].value.value, trace[2].value.value, trace[3].value.value,
                     trace[4].value.value, trace[5].value.value, trace[6].value.value, trace[7].value.value,
                     trace[8].value.value, trace[9].value.value, trace[10].value.value, trace[11].value.value,
                     trace[12].value.value], end))
            else None
  {
    hide TakeAll, IsRead, Values, InARow;
    assert Kinds(trace) == LAYOUT;
    ChainIsInARow(trace, body, end);
    ReadsTakeAll(trace, body, end);
    GoodOf13(trace);
    if AllGood(trace) {
      ValuesOfReads(trace);
      assert Values(trace) ==
             [trace[0].value.value, trace[1].value.value, trace[2].value.value, trace[3].value.value,
              trace[4].value.value, trace[5].value.value, trace[6].value.value, trace[7].value.value,
              trace[8].value.value, trace[9].value.value, trace[10].value.value, trace[11].value.value,
              trace[12].value.value];
    }
  }

  lemma {:induction false} ChainIsInARow(trace: seq<Read>, s: seq<Byte>, end: seq<Byte>)
    requires forall r <- trace :: IsRead(r)
    requires forall i :: 0 <= i < |trace| - 1 ==> trace[i].after == trace[i + 1].before
    requires if trace == [] then s == end else trace[0].before == s && trace[|trace| - 1].after == end
    ensures InARow(trace, s, end)
    decreases |trace|
  {
    if trace != [] {
      ChainIsInARow(trace[1..], trace[0].after, end);
    }
  }

  lemma {:induction false} ValuesOfReads(trace: seq<Read>)
    requires AllGood(trace)
    ensures |Values(trace)| == |trace|
    ensures forall i :: 0 <= i < |trace| ==> Values(trace)[i] == trace[i].value.value
  {
    if trace != [] {
      ValuesOfReads(trace[1..]);
    }
  }

  method ParseSaveHeader(game: Game, header: seq<Byte>, fileSize: nat) returns (result: Result<Metadata, Problem>)
    requires game.bytesPerPixel > 0
    ensures result == Parsed(game, header, fileSize)
  {
    var magicSize := |game.magic|;
    if |header| < PrefixBytes(game) { return Failure(TruncatedPrefix); }
    if header[..magicSize] != game.magic { return Failure(InvalidMagic); }
    var headerSize := FromLittleEndian(header[magicSize..PrefixBytes(game)]);
    if headerSize == 0 || headerSize > MAX_HEADER_BYTES { return Failure(HeaderSizeOutOfBounds); }
    if |header| < PrefixBytes(game) + headerSize { return Failure(TruncatedHeader); }
    var body := header[PrefixBytes(game)..PrefixBytes(game) + headerSize];
    var fields, remaining := ReadFields(body);
    if fields.None? { return Failure(InvalidFields); }
    var f := fields.value;
    if game.checksUtf8 {
      var valid := CheckUtf8(f);
      if !valid { return Failure(InvalidUtf8); }
    }
    if remaining != 0 { return Failure(SizeMismatch); }
    if f.screenshotWidth == 0 || f.screenshotHeight == 0 || f.screenshotWidth > MAX_SCREENSHOT_DIMENSION ||
       f.screenshotHeight > MAX_SCREENSHOT_DIMENSION {
      return Failure(DimensionsOutOfBounds);
    }
    if f.screenshotHeight > MAX_UINT64 / f.screenshotWidth ||
       f.screenshotWidth * f.screenshotHeight > MAX_UINT64 / game.bytesPerPixel {
      return Failure(ScreenshotOverflow);
    }
    var screenshotBytes := f.screenshotWidth * f.screenshotHeight * game.bytesPerPixel;
    var screenshotOffset := PrefixBytes(game) + headerSize;
    if screenshotOffset > fileSize || screenshotBytes > fileSize - screenshotOffset {
      return Failure(TruncatedScreenshot);
    }
    return Success(ToMetadata(f));
  }

  // ----- What parsing means -----

  predicate IsGame(game: Game) { game == Fallout4() || game == Skyrim() }

  lemma PixelBound(w: nat, h: nat)
    requires 0 < w <= MAX_SCREENSHOT_DIMENSION && h <= MAX_SCREENSHOT_DIMENSION
    ensures w * h <= 0x1000_0000 && MAX_UINT64 / w >= MAX_SCREENSHOT_DIMENSION
  {
    assert w * h <= MAX_SCREENSHOT_DIMENSION * h;
    assert MAX_SCREENSHOT_DIMENSION * w <= MAX_UINT64;
  }

  /** The checks for an overflowing screenshot can never fire. */
  lemma NoOverflow(game: Game, f: Fields, left: seq<Byte>, fileSize: nat, offset: nat)
    requires IsGame(game)
    ensures FirstComplaint(game, f, left, fileSize, offset) != Some(ScreenshotOverflow)
  {
    if 0 < f.screenshotWidth <= MAX_SCREENSHOT_DIMENSION && f.screenshotHeight <= MAX_SCREENSHOT_DIMENSION {
      PixelBound(f.screenshotWidth, f.screenshotHeight);
    }
  }

  // The three parts of an encoded header, whatever follows it.
  lemma PartsOfHeader(magic: seq<Byte>, size: seq<Byte>, body: seq<Byte>, more: seq<Byte>)
    requires |size| == 4
    ensures var header := magic + size + body + more; var start := |magic| + 4;
      && |header| >= start + |body| && header[..|magic|] == magic && header[|magic|..start] == size
      && header[start..start + |body|] == body
  {}

  lemma PartsAreHeader(header: seq<Byte>, magic: seq<Byte>, body: seq<Byte>)
    requires |header| >= |magic| + 4 + |body|
    requires header[..|magic|] == magic && header[|magic| + 4..|magic| + 4 + |body|] == body
    ensures magic + header[|magic|..|magic| + 4] + body == header[..|magic| + 4 + |body|]
  {}

  /** Every acceptable record, encoded and followed by anything, is parsed back from a file that is
      large enough for its screenshot. */
  lemma ParseUndoesEncode(game: Game, f: Fields, more: seq<Byte>, fileSize: nat)
    requires IsGame(game) && Acceptable(game, f) && Holds(fileSize, game, f)
    ensures Parsed(game, Encode(game, f) + more, fileSize) == Success(ToMetadata(f))
  {
    hide TakeAll, PutAll, FirstComplaint, Acceptable, Holds, IsGame, FromLittleEndian, ToLittleEndian;
    hide AllFit, ToValues, FromValues;
    NothingToComplain(game, f, fileSize);
    var values := ToValues(f);
    var body := PutAll(LAYOUT, values);
    HeaderSizeFits(|body|);
    ReadUndoesWrite(|body|, 4);
    LayoutIsNotEmpty(values);
    TakeAllUndoesPutAll(LAYOUT, values, []);
    assert body + [] == body;
    PartsOfHeader(game.magic, ToLittleEndian(|body|, 4), body, more);
    FieldsOfValues(f);
  }

  lemma NothingToComplain(game: Game, f: Fields, fileSize: nat)
    requires IsGame(game) && Acceptable(game, f) && Holds(fileSize, game, f)
    ensures AllFit(LAYOUT, ToValues(f)) && 0 < game.bytesPerPixel && |PutAll(LAYOUT, ToValues(f))| <= MAX_HEADER_BYTES
    ensures FirstComplaint(game, f, [], fileSize, PrefixBytes(game) + |PutAll(LAYOUT, ToValues(f))|) == None
  {
    hide AllFit, ToValues, PutAll, ToLittleEndian;
    PixelBound(f.screenshotWidth, f.screenshotHeight);
  }

  lemma FieldsOfValues(f: Fields)
    requires AllFit(LAYOUT, ToValues(f))
    ensures FromValues(ToValues(f)) == f
  {}

  lemma HeaderSizeFits(n: nat)
    requires n <= MAX_HEADER_BYTES
    ensures n < Power256(4)
  {
    assert Power256(1) == 0x100 && Power256(2) == 0x10000 && Power256(3) == 0x1000000;
  }

  lemma LayoutIsNotEmpty(values: seq<Value>)
    requires AllFit(LAYOUT, values)
    ensures PutAll(LAYOUT, values) != []
  {
    assert Fits(LAYOUT[0], values[0]);
    assert |Put(LAYOUT[0], values[0])| == 4;
  }

  /** Every accepted header is, byte for byte, the encoding of the acceptable record it was parsed to,
      and the file holds the whole screenshot. */
  lemma AcceptedIsEncoding(game: Game, header: seq<Byte>, fileSize: nat)
    requires IsGame(game) && Parsed(game, header, fileSize).Success?
    ensures var f := Parsed(game, header, fileSize).value.fields;
      && Parsed(game, header, fileSize).value == ToMetadata(f)
      && Acceptable(game, f) && Encode(game, f) <= header && Holds(fileSize, game, f)
  {
    hide TakeAll, PutAll, FromLittleEndian, ToLittleEndian;
    var size := HeaderSize(game, header);
    var start := PrefixBytes(game);
    var body := header[start..start + size];
    PutAllUndoesTakeAll(LAYOUT, body);
    var (values, left) := TakeAll(LAYOUT, body).value;
    assert PutAll(LAYOUT, values) + left == PutAll(LAYOUT, values);
    WriteUndoesRead(header[|game.magic|..start]);
    PartsAreHeader(header, game.magic, body);
    assert Parsed(game, header, fileSize) == Success(ToMetadata(FromValues(values)));
  }

  /** A header is accepted exactly when it starts with the encoding of an acceptable record whose
      screenshot the file can hold. */
  lemma AcceptedExactlyEncodings(game: Game, header: seq<Byte>, fileSize: nat)
    requires IsGame(game)
    ensures Parsed(game, header, fileSize).Success? <==>
            exists f :: Acceptable(game, f) && Encode(game, f) <= header && Holds(fileSize, game, f)
  {
    if Parsed(game, header, fileSize).Success? {
      AcceptedIsEncoding(game, header, fileSize);
    }
    forall f | Acceptable(game, f) && Encode(game, f) <= header && Holds(fileSize, game, f)
      ensures Parsed(game, header, fileSize).Success?
    {
      var more := header[|Encode(game, f)|..];
      assert header == Encode(game, f) + more;
      ParseUndoesEncode(game, f, more, fileSize);
    }
  }

  /** A file time in ticks of a second since 1601 is shown as the Unix second it falls in. */
  lemma FileTimeIsUnixSecond(second: int, ticks: nat)
    requires second >= -UNIX_EPOCH_OFFSET_SECONDS && ticks < TICKS_PER_SECOND
    ensures FileTimeToUnix((second + UNIX_EPOCH_OFFSET_SECONDS) * TICKS_PER_SECOND + ticks) == second
  {}
}
