/**
 * Console captures: cutting the lines between two markers out of the scrollback.
 */
module ConsoleCapture {
  import opened Wrappers

  const MAX_CAPTURE_LINES := 200

  // ----- Searching -----

  predicate At(s: string, pattern: string, i: nat) {
    i + |pattern| <= |s| && s[i..i + |pattern|] == pattern
  }

  lemma AtBreak(s: string, i: nat)
    ensures At(s, "\n", i) <==> i < |s| && s[i] == '\n'
  {}

  // The first place of the pattern from a position on.
  function Find(s: string, pattern: string, from: nat): (r: Option<nat>)
    ensures r.Some? ==> r.value >= from && At(s, pattern, r.value)
    ensures r.Some? ==> forall i :: from <= i < r.value ==> !At(s, pattern, i)
    ensures r.None? ==> forall i: nat :: from <= i ==> !At(s, pattern, i)
    decreases |s| - from
  {
    if At(s, pattern, from) then Some(from)
    else if from >= |s| then None
    else Find(s, pattern, from + 1)
  }

  // The last place of the pattern up to a position.
  function FindLast(s: string, pattern: string, upto: nat): (r: Option<nat>)
    ensures r.Some? ==> r.value <= upto && At(s, pattern, r.value)
    ensures r.Some? ==> forall i :: r.value < i <= upto ==> !At(s, pattern, i)
    ensures r.None? ==> forall i: nat :: i <= upto ==> !At(s, pattern, i)
    decreases upto
  {
    if At(s, pattern, upto) then Some(upto)
    else if upto == 0 then None
    else FindLast(s, pattern, upto - 1)
  }

  // The pattern occurs nowhere in a stretch of the text.
  ghost predicate Absent(s: string, pattern: string, from: nat, end: nat) {
    forall i: nat :: from <= i < end ==> !At(s, pattern, i)
  }

  lemma FindIs(s: string, pattern: string, from: nat, i: nat)
    requires from <= i && At(s, pattern, i) && Absent(s, pattern, from, i)
    ensures Find(s, pattern, from) == Some(i)
  {
    hide At, Find;
  }

  lemma FindLastIs(s: string, pattern: string, upto: nat, i: nat)
    requires i <= upto && At(s, pattern, i) && Absent(s, pattern, i + 1, upto + 1)
    ensures FindLast(s, pattern, upto) == Some(i)
  {
    hide At, FindLast;
  }

  // ----- Lines -----

  function WithoutReturn(line: string): string {
    if line != "" && line[|line| - 1] == '\r' then line[..|line| - 1] else line
  }

  // A line as it is reported: without its carriage return, and not at all if nothing is left.
  function Reported(line: string): (lines: seq<string>)
    ensures |lines| <= 1 && forall l <- lines :: l != ""
  {
    if WithoutReturn(line) == "" then [] else [WithoutReturn(line)]
  }

  function Lines(s: string): seq<string>
    decreases |s|
  {
    if s == "" then []
    else
      match Find(s, "\n", 0)
      case None => Reported(s)
      case Some(n) => Reported(s[..n]) + Lines(s[n + 1..])
  }

  predicate NoBreak(s: string) { forall i :: 0 <= i < |s| ==> s[i] != '\n' }

  // Up to the first line break there is one line.
  lemma FirstLine(line: string, rest: string)
    requires NoBreak(line)
    ensures Lines(line + "\n" + rest) == Reported(line) + Lines(rest)
  {
    var s := line + "\n" + rest;
    assert At(s, "\n", |line|);
    forall i: nat | i < |line|
      ensures !At(s, "\n", i)
    {
      assert s[i] == line[i];
    }
    assert Find(s, "\n", 0) == Some(|line|);
    assert s[..|line|] == line && s[|line| + 1..] == rest;
  }

  lemma OneLine(line: string)
    requires NoBreak(line)
    ensures Lines(line) == Reported(line)
  {
    forall i: nat
      ensures !At(line, "\n", i)
    {
      AtBreak(line, i);
    }
    assert Find(line, "\n", 0) == None;
  }

  /** Every reported line is nonempty and holds no line break. */
  lemma {:induction false} LinesAreClean(s: string)
    ensures forall l <- Lines(s) :: l != "" && NoBreak(l)
    decreases |s|
  {
    if s != "" {
      var end := Find(s, "\n", 0).GetOr(|s|);
      forall i: nat | i < end
        ensures s[i] != '\n'
      {
        assert !At(s, "\n", i);
      }
      assert NoBreak(s[..end]);
      if end < |s| {
        LinesAreClean(s[end + 1..]);
      } else {
        assert s[..end] == s;
      }
    }
  }

  function LastLines(lines: seq<string>, n: nat): seq<string> { if |lines| > n then lines[|lines| - n..] else lines }

  // ----- Cutting a capture out of the scrollback -----

  datatype Extract = Extract(sawBegin: bool, sawEnd: bool, truncated: bool, lines: seq<string>)

  // The text between the line of the last begin marker and that of the first end marker after it.
  function Between(buffer: string, begin: nat, end: nat): (text: Option<string>)
    requires begin <= end <= |buffer|
  {
    match Find(buffer, "\n", begin)
    case None => None
    case Some(firstLineEnd) =>
      var start := firstLineEnd + 1;
      match FindLast(buffer, "\n", end)
      case None => Some("")
      case Some(stop) => Some(if stop < start then "" else buffer[start..stop])
  }

  function Extracted(buffer: string, beginMarker: string, endMarker: string, maxLines: nat): Extract {
    if beginMarker == "" || endMarker == "" then Extract(false, false, false, [])
    else
      match FindLast(buffer, beginMarker, |buffer|)
      case None => Extract(false, Find(buffer, endMarker, 0).Some?, false, [])
      case Some(begin) =>
        match Find(buffer, endMarker, begin + |beginMarker|)
        case None => Extract(true, false, false, [])
        case Some(end) =>
          match Between(buffer, begin, end)
          case None => Extract(true, true, false, [])
          case Some(text) => Extract(true, true, |Lines(text)| > maxLines, LastLines(Lines(text), maxLines))
  }

  // The line the loop is at, and those after it.
  lemma NextLine(buffer: string, cursor: nat, stop: nat, lineEnd: nat)
    requires cursor < stop <= |buffer| && cursor <= lineEnd <= stop
    requires forall i :: cursor <= i < lineEnd ==> buffer[i] != '\n'
    requires lineEnd < stop ==> buffer[lineEnd] == '\n'
    ensures Lines(buffer[cursor..stop]) == Reported(buffer[cursor..lineEnd]) +
            if lineEnd < stop then Lines(buffer[lineEnd + 1..stop]) else []
  {
    hide Lines, Reported;
    var line := buffer[cursor..lineEnd];
    if lineEnd < stop {
      FirstLine(line, buffer[lineEnd + 1..stop]);
      assert buffer[cursor..stop] == line + "\n" + buffer[lineEnd + 1..stop];
    } else {
      OneLine(line);
    }
  }

  lemma OneMoreLine(all: seq<string>, lines: seq<string>, buffer: string, cursor: nat, stop: nat, lineEnd: nat)
    requires cursor < stop <= |buffer| && cursor <= lineEnd <= stop
    requires forall i :: cursor <= i < lineEnd ==> buffer[i] != '\n'
    requires lineEnd < stop ==> buffer[lineEnd] == '\n'
    requires lines + Lines(buffer[cursor..stop]) == all
    ensures lines + Reported(buffer[cursor..lineEnd])
            + (if lineEnd < stop then Lines(buffer[lineEnd + 1..stop]) else []) == all
  {
    NextLine(buffer, cursor, stop, lineEnd);
    hide Lines, Reported;
  }

  lemma NoLines()
    ensures Lines("") == []
  {}

  method CollectLines(buffer: string, start: nat, stop: nat) returns (lines: seq<string>)
    requires start <= stop <= |buffer|
    requires start < stop ==> stop < |buffer| && buffer[stop] == '\n'
    ensures lines == Lines(buffer[start..stop])
  {
    NoLines();
    hide Find, Lines;
    ghost var all := Lines(buffer[start..stop]);
    var cursor := start;
    lines := [];
    while cursor < stop
      invariant start <= cursor <= stop
      invariant lines + Lines(buffer[cursor..stop]) == all
    {
      var newline := Find(buffer, "\n", cursor);
      var lineEnd := if newline.None? || newline.value > stop then stop else newline.value;
      forall i | cursor <= i < lineEnd
        ensures buffer[i] != '\n'
      {
        AtBreak(buffer, i);
      }
      AtBreak(buffer, lineEnd);
      OneMoreLine(all, lines, buffer, cursor, stop, lineEnd);
      var line := buffer[cursor..lineEnd];
      ghost var whole := line;
      if line != "" && line[|line| - 1] == '\r' {
        line := line[..|line| - 1];
      }
      assert line == WithoutReturn(whole);
      assert Reported(whole) == if line != "" then [line] else [];
      hide Reported, WithoutReturn;
      if line != "" {
        lines := lines + [line];
      }
      if lineEnd == stop {
        return;
      }
      cursor := lineEnd + 1;
    }
    assert buffer[cursor..stop] == "";
  }

  lemma ExtractedFrom(buffer: string, beginMarker: string, endMarker: string, maxLines: nat, begin: nat, end: nat,
                      text: string)
    requires beginMarker != "" && endMarker != "" && begin <= end <= |buffer|
    requires FindLast(buffer, beginMarker, |buffer|) == Some(begin)
    requires Find(buffer, endMarker, begin + |beginMarker|) == Some(end)
    requires Between(buffer, begin, end) == Some(text)
    ensures Extracted(buffer, beginMarker, endMarker, maxLines)
            == Extract(true, true, |Lines(text)| > maxLines, LastLines(Lines(text), maxLines))
  {
    hide Find, FindLast, Between, Lines;
  }

  lemma MarkersFit(buffer: string, beginMarker: string, endMarker: string, begin: nat, end: nat)
    requires At(buffer, beginMarker, begin) && At(buffer, endMarker, end) && begin + |beginMarker| <= end
    ensures begin <= end <= |buffer|
  {}

  lemma NothingBetween(buffer: string, begin: nat, end: nat)
    requires begin <= end <= |buffer|
    ensures Find(buffer, "\n", begin).None? ==> Between(buffer, begin, end) == None
  {
    hide Find, FindLast;
  }

  lemma BetweenIs(buffer: string, begin: nat, end: nat, firstLineEnd: nat, markerLineStart: Option<nat>, stop: nat)
    requires begin <= end <= |buffer|
    requires Find(buffer, "\n", begin) == Some(firstLineEnd) && FindLast(buffer, "\n", end) == markerLineStart
    requires var start := firstLineEnd + 1;
      stop == if markerLineStart.None? || markerLineStart.value < start then start else markerLineStart.value
    ensures firstLineEnd + 1 <= stop <= |buffer| && Between(buffer, begin, end) == Some(buffer[firstLineEnd + 1..stop])
    ensures firstLineEnd + 1 < stop ==> stop < |buffer| && buffer[stop] == '\n'
  {
    hide Find, FindLast;
    AtBreak(buffer, firstLineEnd);
    AtBreak(buffer, stop);
    assert buffer[firstLineEnd + 1..firstLineEnd + 1] == "";
  }

  /** The last maxLines nonempty lines, without carriage returns, between the two marker lines. */
  method ExtractConsoleCapture(buffer: string, beginMarker: string, endMarker: string, maxLines: nat)
    returns (out: Extract)
    ensures out == Extracted(buffer, beginMarker, endMarker, maxLines)
  {
    hide Find, FindLast, Lines, Between, At;
    out := Extract(false, false, false, []);
    if beginMarker == "" || endMarker == "" {
      return;
    }
    var begin := FindLast(buffer, beginMarker, |buffer|);
    var anyEnd := Find(buffer, endMarker, 0);
    out := out.(sawBegin := begin.Some?, sawEnd := anyEnd.Some?);
    if begin.None? {
      return;
    }
    var end := Find(buffer, endMarker, begin.value + |beginMarker|);
    out := out.(sawEnd := end.Some?);
    if end.None? {
      return;
    }
    MarkersFit(buffer, beginMarker, endMarker, begin.value, end.value);
    var firstLineEnd := Find(buffer, "\n", begin.value);
    NothingBetween(buffer, begin.value, end.value);
    if firstLineEnd.None? {
      return;
    }
    var start := firstLineEnd.value + 1;
    var markerLineStart := FindLast(buffer, "\n", end.value);
    var stop := if markerLineStart.None? || markerLineStart.value < start then start else markerLineStart.value;
    BetweenIs(buffer, begin.value, end.value, firstLineEnd.value, markerLineStart, stop);
    var lines := CollectLines(buffer, start, stop);
    ExtractedFrom(buffer, beginMarker, endMarker, maxLines, begin.value, end.value, buffer[start..stop]);
    out := out.(lines := lines);
    if |lines| > maxLines {
      out := out.(truncated := true, lines := lines[|lines| - maxLines..]);
    }
  }

  // ----- Printing a fenced block -----

  // Whether a line survives being printed: it is not empty, has no line break, and ends in no
  // carriage return that would be taken for part of its line end.
  predicate Printable(line: string, crlf: bool) {
    line != "" && NoBreak(line) && (crlf || line[|line| - 1] != '\r')
  }

  function Printed(lines: seq<string>, crlf: bool): string {
    if lines == [] then "" else lines[0] + (if crlf then "\r\n" else "\n") + Printed(lines[1..], crlf)
  }

  lemma PrintedLine(line: string, crlf: bool, printed: string)
    requires Printable(line, crlf) && printed == if crlf then line + "\r" else line
    ensures NoBreak(printed) && Reported(printed) == [line]
  {
    assert crlf ==> printed[..|printed| - 1] == line;
  }

  lemma {:induction false} LinesUndoPrint(lines: seq<string>, crlf: bool)
    requires forall i :: 0 <= i < |lines| ==> Printable(lines[i], crlf)
    ensures Lines(Printed(lines, crlf)) == lines
    decreases |lines|
  {
    NoLines();
    hide Lines, Find;
    if lines != [] {
      var line := if crlf then lines[0] + "\r" else lines[0];
      var rest := Printed(lines[1..], crlf);
      PrintedLine(lines[0], crlf, line);
      hide Reported, Printable;
      assert Printed(lines, crlf) == line + "\n" + rest;
      hide Printed;
      FirstLine(line, rest);
      LinesUndoPrint(lines[1..], crlf);
    }
  }

  lemma {:induction false} PrintedEndsInBreak(lines: seq<string>, crlf: bool)
    ensures Printed(lines, crlf) != "" ==> Printed(lines, crlf)[|Printed(lines, crlf)| - 1] == '\n'
    decreases |lines|
  {
    if lines != [] { PrintedEndsInBreak(lines[1..], crlf); }
  }

  // The first line of a text and the rest of it.
  lemma FirstBreak(s: string) returns (n: nat)
    requires !NoBreak(s)
    ensures n < |s| && s[n] == '\n' && NoBreak(s[..n]) && s == s[..n] + "\n" + s[n + 1..]
  {
    var k :| 0 <= k < |s| && s[k] == '\n';
    n := 0;
    while s[n] != '\n'
      invariant n <= k && NoBreak(s[..n])
      decreases k - n
    {
      n := n + 1;
    }
  }

  // A last empty line adds nothing.
  lemma {:induction false} LastBreakAddsNothing(s: string)
    ensures Lines(s + "\n") == Lines(s)
    decreases |s|
  {
    NoLines();
    hide Lines, Reported;
    if NoBreak(s) {
      FirstLine(s, "");
      OneLine(s);
      assert s + "\n" + "" == s + "\n";
    } else {
      var n := FirstBreak(s);
      var rest := s[n + 1..];
      FirstLine(s[..n], rest);
      FirstLine(s[..n], rest + "\n");
      LastBreakAddsNothing(rest);
      assert s + "\n" == s[..n] + "\n" + (rest + "\n");
    }
  }

  // A begin marker, whatever else its line says, a block of whole lines, and an end marker.
  function Fenced(before: string, beginMarker: string, echo: string, block: string, endMarker: string,
                  after: string): string {
    before + beginMarker + echo + "\n" + block + endMarker + after
  }

  lemma AtMiddle(s: string, a: string, b: string, c: string)
    requires s == a + b + c
    ensures At(s, b, |a|)
  {}

  lemma FindsFirst(s: string, front: string, pattern: string, tail: string, from: nat)
    requires s == front + pattern + tail && from <= |front| && Absent(s, pattern, from, |front|)
    ensures Find(s, pattern, from) == Some(|front|)
  {
    hide Find, At;
    AtMiddle(s, front, pattern, tail);
    FindIs(s, pattern, from, |front|);
  }

  lemma FindsLast(s: string, front: string, pattern: string, tail: string)
    requires s == front + pattern + tail && Absent(s, pattern, |front| + 1, |s| + 1)
    ensures FindLast(s, pattern, |s|) == Some(|front|)
  {
    hide FindLast, At;
    AtMiddle(s, front, pattern, tail);
    FindLastIs(s, pattern, |s|, |front|);
  }

  lemma FindsLineEnd(s: string, before: string, line: string, tail: string)
    requires s == before + line + "\n" + tail && NoBreak(line)
    ensures Find(s, "\n", |before|) == Some(|before + line|)
  {
    hide Find, At, NoBreak;
    var rest := "\n" + tail;
    assert s == before + line + rest;
    NoBreakWithin(before, line, rest);
    FindsFirst(s, before + line, "\n", tail, |before|);
  }

  lemma NoBreakWithin(a: string, marker: string, c: string)
    requires NoBreak(marker)
    ensures Absent(a + marker + c, "\n", |a|, |a| + |marker|)
  {
    var s := a + marker + c;
    forall i: nat | |a| <= i < |a| + |marker|
      ensures !At(s, "\n", i)
    {
      assert s[i] == marker[i - |a|];
      AtBreak(s, i);
    }
  }

  lemma BlockText(head: string, block: string, tail: string)
    requires block != "" && block[|block| - 1] == '\n'
    ensures (head + "\n" + block + tail)[|head| + 1..|head| + |block|] + "\n" == block
  {
    var s := head + "\n" + block + tail;
    assert s[|head| + 1..|head| + 1 + |block|] == block;
  }

  // The last line break before the end marker closes the last line, or the begin marker's own.
  lemma BlockIsBetween(head: string, block: string, endMarker: string, after: string)
    requires endMarker != "" && NoBreak(endMarker)
    requires block != "" ==> block[|block| - 1] == '\n'
    ensures FindLast(head + "\n" + block + endMarker + after, "\n", |head| + 1 + |block|) == Some(|head| + |block|)
  {
    var buffer := head + "\n" + block + endMarker + after;
    var end := |head| + 1 + |block|;
    assert buffer[end] == endMarker[0];
    assert buffer[end - 1] == if block == "" then '\n' else block[|block| - 1];
    AtBreak(buffer, end);
    AtBreak(buffer, end - 1);
    FindLastIs(buffer, "\n", end, end - 1);
  }

  // The lines of what stands between the markers are those of the block.
  lemma LinesBetween(buffer: string, head: string, block: string, tail: string, begin: nat) returns (text: string)
    requires buffer == head + "\n" + block + tail && begin <= |head|
    requires block != "" ==> block[|block| - 1] == '\n'
    requires Find(buffer, "\n", begin) == Some(|head|)
    requires FindLast(buffer, "\n", |head| + 1 + |block|) == Some(|head| + |block|)
    ensures Between(buffer, begin, |head| + 1 + |block|) == Some(text)
    ensures Lines(text) == Lines(block)
  {
    hide Find, FindLast, Lines;
    if block == "" {
      text := "";
    } else {
      text := buffer[|head| + 1..|head| + |block|];
      BlockText(head, block, tail);
      LastBreakAddsNothing(text);
    }
  }

  lemma NoBreakInBoth(a: string, b: string)
    requires NoBreak(a) && NoBreak(b)
    ensures NoBreak(a + b)
  {}

  lemma ExtractFenced(buffer: string, before: string, beginMarker: string, echo: string, lines: seq<string>, crlf: bool,
                      endMarker: string, after: string, maxLines: nat)
    requires beginMarker != "" && endMarker != "" && NoBreak(beginMarker) && NoBreak(endMarker) && NoBreak(echo)
    requires forall i :: 0 <= i < |lines| ==> Printable(lines[i], crlf)
    requires buffer == Fenced(before, beginMarker, echo, Printed(lines, crlf), endMarker, after)
    requires Absent(buffer, beginMarker, |before| + 1, |buffer| + 1)
    requires var start := |before| + |beginMarker|;
      Absent(buffer, endMarker, start, start + |echo| + 1 + |Printed(lines, crlf)|)
    ensures Extracted(buffer, beginMarker, endMarker, maxLines)
            == Extract(true, true, |lines| > maxLines, LastLines(lines, maxLines))
  {
    hide Extracted, Lines, Find, FindLast, Absent, At, NoBreak, Printed, Printable, Between, LastLines;
    var block := Printed(lines, crlf);
    var head, tail := before + beginMarker + echo, endMarker + after;
    PrintedEndsInBreak(lines, crlf);
    LinesUndoPrint(lines, crlf);
    assert |head| == |before| + |beginMarker| + |echo|;
    var rest := echo + "\n" + block + tail;
    assert buffer == before + beginMarker + rest;
    FindsLast(buffer, before, beginMarker, rest);
    var front := head + "\n" + block;
    assert buffer == front + endMarker + after;
    FindsFirst(buffer, front, endMarker, after, |before| + |beginMarker|);
    var line := beginMarker + echo;
    NoBreakInBoth(beginMarker, echo);
    assert buffer == before + line + "\n" + (block + tail);
    FindsLineEnd(buffer, before, line, block + tail);
    assert Find(buffer, "\n", |before|) == Some(|head|);
    BlockIsBetween(head, block, endMarker, after);
    assert buffer == head + "\n" + block + endMarker + after;
    assert buffer == head + "\n" + block + tail;
    var text := LinesBetween(buffer, head, block, tail, |before|);
    ExtractedFrom(buffer, beginMarker, endMarker, maxLines, |before|, |head| + 1 + |block|, text);
  }

  // ----- Where a marker can occur -----

  ghost predicate Holds(text: string, marker: string) { exists i: nat :: At(text, marker, i) }

  // A piece of one line: it holds no line end.
  predicate Piece(marker: string) { marker != "" && '\n' !in marker && '\r' !in marker }

  // A marker that does not hold a character lies on one side of it.
  lemma OnOneSide(s: string, a: string, c: char, b: string, marker: string, i: nat)
    requires s == a + [c] + b && marker != "" && c !in marker && At(s, marker, i)
    ensures At(a, marker, i) || (i > |a| && At(b, marker, i - |a| - 1))
  {
    if i + |marker| <= |a| {
      assert s[i..i + |marker|] == a[i..i + |marker|];
    } else if i > |a| {
      assert s[i..i + |marker|] == b[i - |a| - 1..i - |a| - 1 + |marker|];
    } else {
      Covers(s, marker, i, |a|);
    }
  }

  lemma Covers(s: string, marker: string, i: nat, k: nat)
    requires At(s, marker, i) && i <= k < i + |marker|
    ensures s[k] in marker
  {
    assert s[i..i + |marker|][k - i] == s[k];
  }

  lemma Behind(s: string, front: string, rest: string, marker: string, i: nat)
    requires s == front + rest && At(s, marker, i) && i >= |front|
    ensures At(rest, marker, i - |front|)
  {
    assert s[i..i + |marker|] == rest[i - |front|..i - |front| + |marker|];
  }

  // A marker that a line does not hold lies behind its line end.
  lemma AfterLine(s: string, line: string, crlf: bool, rest: string, marker: string, i: nat)
    requires Piece(marker) && !Holds(line, marker) && At(s, marker, i)
    requires s == line + (if crlf then "\r\n" else "\n") + rest
    ensures var n := |line| + if crlf then 2 else 1; i >= n && At(rest, marker, i - n)
  {
    hide At, Holds;
    NotHeld(line, marker, i);
    if crlf {
      var tail := "\n" + rest;
      assert s == line + ['\r'] + tail;
      OnOneSide(s, line, '\r', tail, marker, i);
      assert tail == [] + ['\n'] + rest;
      OnOneSide(tail, [], '\n', rest, marker, i - |line| - 1);
      NothingHolds(marker, i - |line| - 1);
    } else {
      OnOneSide(s, line, '\n', rest, marker, i);
    }
  }

  lemma NothingHolds(marker: string, i: nat)
    requires marker != ""
    ensures !At("", marker, i)
  {}

  lemma NotHeld(text: string, marker: string, i: nat)
    requires !Holds(text, marker)
    ensures !At(text, marker, i)
  {}

  // A marker that none of the printed lines holds occurs only after them.
  lemma {:induction false} AfterPrinted(s: string, lines: seq<string>, crlf: bool, tail: string, marker: string, i: nat)
    requires s == Printed(lines, crlf) + tail && Piece(marker) && At(s, marker, i)
    requires forall line <- lines :: !Holds(line, marker)
    ensures var n := |Printed(lines, crlf)|; i >= n && At(tail, marker, i - n)
    decreases |lines|
  {
    hide At, Holds, Piece;
    if lines == [] {
      assert s == tail;
    } else {
      var line, rest := lines[0], Printed(lines[1..], crlf) + tail;
      assert s == line + (if crlf then "\r\n" else "\n") + rest;
      AfterLine(s, line, crlf, rest, marker, i);
      AfterPrinted(rest, lines[1..], crlf, tail, marker, i - |line| - if crlf then 2 else 1);
    }
  }

  // From a place within the fence's first line on, a marker that the rest of that line and the printed
  // lines do not hold occurs only after them.
  lemma AfterFirstLine(s: string, front: string, echo: string, lines: seq<string>, crlf: bool, tail: string,
                       marker: string, i: nat)
    requires s == front + echo + "\n" + Printed(lines, crlf) + tail
    requires Piece(marker) && At(s, marker, i) && i >= |front|
    requires !Holds(echo, marker) && forall line <- lines :: !Holds(line, marker)
    ensures var n := |front| + |echo| + 1 + |Printed(lines, crlf)|; i >= n && At(tail, marker, i - n)
  {
    hide At, Holds, Piece, Printed;
    var block := Printed(lines, crlf) + tail;
    var rest := echo + "\n" + block;
    assert s == front + rest;
    Behind(s, front, rest, marker, i);
    AfterLine(rest, echo, false, block, marker, i - |front|);
    AfterPrinted(block, lines, crlf, tail, marker, i - |front| - |echo| - 1);
  }

  /** Reading back the lines printed between the markers gives those lines, or the last maxLines of
      them, whatever stands before and whatever the two marker lines go on to say: as long as no line
      holds a marker, the begin marker does not occur again later, and the rest of its line does not
      hold the end marker. */
  lemma ExtractUndoesPrint(before: string, beginMarker: string, echo: string, lines: seq<string>, crlf: bool,
                           endMarker: string, after: string, maxLines: nat)
    requires Piece(beginMarker) && Piece(endMarker) && NoBreak(echo)
    requires forall i :: 0 <= i < |lines| ==> Printable(lines[i], crlf)
    requires forall line <- lines :: !Holds(line, beginMarker) && !Holds(line, endMarker)
    requires !Holds((beginMarker + echo)[1..], beginMarker) && !Holds(endMarker + after, beginMarker)
    requires !Holds(echo, endMarker)
    ensures Extracted(Fenced(before, beginMarker, echo, Printed(lines, crlf), endMarker, after),
                      beginMarker, endMarker, maxLines)
            == Extract(true, true, |lines| > maxLines, LastLines(lines, maxLines))
  {
    hide Extracted, Lines, At, Printed, Printable, LastLines, Holds;
    var block := Printed(lines, crlf);
    var buffer := Fenced(before, beginMarker, echo, block, endMarker, after);
    EndMarkerComesLater(buffer, before + beginMarker, echo, lines, crlf, endMarker, after);
    var rest := (beginMarker + echo)[1..];
    assert buffer == before + [beginMarker[0]] + rest + "\n" + block + endMarker + after;
    BeginMarkerIsLast(buffer, before + [beginMarker[0]], rest, lines, crlf, beginMarker, endMarker + after);
    ExtractFenced(buffer, before, beginMarker, echo, lines, crlf, endMarker, after, maxLines);
  }

  lemma EndMarkerComesLater(buffer: string, front: string, echo: string, lines: seq<string>, crlf: bool,
                            endMarker: string, after: string)
    requires buffer == front + echo + "\n" + Printed(lines, crlf) + endMarker + after && Piece(endMarker)
    requires !Holds(echo, endMarker) && forall line <- lines :: !Holds(line, endMarker)
    ensures Absent(buffer, endMarker, |front|, |front| + |echo| + 1 + |Printed(lines, crlf)|)
  {
    hide At, Holds, Printed, Piece;
    var tail := endMarker + after;
    assert buffer == front + echo + "\n" + Printed(lines, crlf) + tail;
    forall i: nat | |front| <= i < |front| + |echo| + 1 + |Printed(lines, crlf)|
      ensures !At(buffer, endMarker, i)
    {
      if At(buffer, endMarker, i) {
        AfterFirstLine(buffer, front, echo, lines, crlf, tail, endMarker, i);
      }
    }
  }

  lemma BeginMarkerIsLast(buffer: string, front: string, rest: string, lines: seq<string>, crlf: bool,
                          beginMarker: string, tail: string)
    requires buffer == front + rest + "\n" + Printed(lines, crlf) + tail && Piece(beginMarker)
    requires !Holds(rest, beginMarker) && !Holds(tail, beginMarker)
    requires forall line <- lines :: !Holds(line, beginMarker)
    ensures Absent(buffer, beginMarker, |front|, |buffer| + 1)
  {
    hide At, Holds, Printed, Piece;
    forall i: nat | |front| <= i < |buffer| + 1
      ensures !At(buffer, beginMarker, i)
    {
      if At(buffer, beginMarker, i) {
        AfterFirstLine(buffer, front, rest, lines, crlf, tail, beginMarker, i);
        NotHeld(tail, beginMarker, i - (|front| + |rest| + 1 + |Printed(lines, crlf)|));
      }
    }
  }
}
