/** internal/tools/files/read/read.go and internal/tools/files/update/update.go:
    reading a range of lines with bufio.Scanner, replacing one by splitting on
    newlines, and how far the two undo each other. Files are byte strings. */
module Lines {
  import opened Text

  datatype Result<+T> = Ok(value: T) | Err(error: string)

  /** bufio.MaxScanTokenSize: a line of this many bytes does not fit. */
  const MAX_LINE := 65536

  /** strings.HasSuffix and strings.TrimSuffix with one character. */
  predicate EndsWith(s: string, c: char) {
    s != "" && s[|s| - 1] == c
  }

  function Chop(s: string, c: char): string {
    if EndsWith(s, c) then s[..|s| - 1] else s
  }

  predicate EndsLine(s: string) {
    EndsWith(s, '\n')
  }

  /** The lines of a file, as Update sees them. */
  function RawLines(content: string): seq<string> {
    if content == "" then [] else Split(Chop(content, '\n'), '\n')
  }

  lemma RawLinesFree(content: string)
    ensures AllFree(RawLines(content), '\n')
  {
    SplitAllFree(Chop(content, '\n'), '\n');
  }

  function DropCR(line: string): string {
    Chop(line, '\r')
  }

  // ----- the scanner -----

  /** Where the line that starts at `pos` ends: at a newline or with the data. */
  function LineEnd(data: string, pos: nat): (end: nat)
    requires pos <= |data|
    ensures pos <= end <= |data|
    ensures '\n' !in data[pos..end]
    ensures end < |data| ==> data[end] == '\n'
    decreases |data| - pos
  {
    if pos == |data| || data[pos] == '\n' then pos
    else
      var end := LineEnd(data, pos + 1);
      assert data[pos..end] == [data[pos]] + data[pos + 1..end];
      end
  }

  lemma SuffixOfTail(a: string, b: string)
    requires b != ""
    ensures EndsWith(a + b, '\n') <==> EndsWith(b, '\n')
    ensures Chop(a + b, '\n') == a + Chop(b, '\n')
  {
    assert (a + b)[|a + b| - 1..] == b[|b| - 1..];
    if EndsWith(b, '\n') {
      assert (a + b)[..|a + b| - 1] == a + b[..|b| - 1];
    }
  }

  lemma OneLine(line: string)
    requires '\n' !in line
    ensures !EndsWith(line, '\n') && Chop(line + "\n", '\n') == line
    ensures RawLines(line + "\n") == [line]
    ensures line != "" ==> RawLines(line) == [line]
  {
    if line != "" {
      assert line[|line| - 1..][0] == line[|line| - 1] && line[|line| - 1] in line;
    }
    assert (line + "\n")[|line|..] == "\n" && (line + "\n")[..|line|] == line;
    SplitFree(line, '\n');
  }

  lemma FirstLine(line: string, rest: string)
    requires '\n' !in line
    ensures RawLines(line + "\n" + rest) == [line] + RawLines(rest)
  {
    OneLine(line);
    if rest == "" {
      assert line + "\n" + rest == line + "\n";
    } else {
      SuffixOfTail(line + "\n", rest);
      assert line + "\n" + Chop(rest, '\n') == line + ['\n'] + Chop(rest, '\n');
      SplitAt(line, Chop(rest, '\n'), '\n');
      SplitFree(line, '\n');
    }
  }

  /** One line at a time: the scanner and the splitter find the same lines. */
  lemma NextLine(data: string, pos: nat)
    requires pos < |data|
    ensures var end := LineEnd(data, pos);
            RawLines(data[pos..]) == [data[pos..end]] + (if end < |data| then RawLines(data[end + 1..]) else [])
  {
    var end := LineEnd(data, pos);
    var line := data[pos..end];
    if end < |data| {
      assert data[pos..] == line + "\n" + data[end + 1..];
      FirstLine(line, data[end + 1..]);
    } else {
      assert data[pos..] == line;
      OneLine(line);
    }
  }

  /** bufio.Scanner with its default split function and buffer. */
  class Scanner {
    const data: string
    var pos: nat
    var text: string
    var tooLong: bool
    ghost var rest: seq<string>    // the lines still to come

    ghost predicate Valid()
      reads this
    {
      pos <= |data| && rest == RawLines(data[pos..])
    }

    constructor (data: string)
      ensures Valid() && this.data == data && rest == RawLines(data) && !tooLong
    {
      this.data := data;
      pos, text, tooLong := 0, "", false;
      rest := RawLines(data);
      new;
      assert data[0..] == data;
    }

    method Scan() returns (more: bool)
      requires Valid() && !tooLong
      modifies this
      ensures Valid()
      ensures more <==> old(rest) != [] && |old(rest)[0]| < MAX_LINE
      ensures more ==> text == DropCR(old(rest)[0]) && rest == old(rest)[1..] && !tooLong
      ensures !more ==> rest == old(rest) && (tooLong <==> rest != [])
    {
      if pos == |data| {
        assert data[pos..] == "";
        return false;
      }
      NextLine(data, pos);
      var end := LineEnd(data, pos);
      if end - pos >= MAX_LINE {
        tooLong := true;
        return false;
      }
      text := DropCR(data[pos..end]);
      assert end == |data| ==> data[end..] == "";
      pos := if end < |data| then end + 1 else end;
      rest := rest[1..];
      return true;
    }
  }

  // ----- files/read with start_line or end_line -----

  /** `first` counts from 0. */
  datatype Range = Range(first: nat, end: Option<nat>)

  /** The range Read uses: from line 1 and to the end unless told otherwise. */
  function Effective(startLine: Option<int>, endLine: Option<int>): Range {
    var start := if startLine.Some? && startLine.value > 0 then startLine.value else 1;
    Range(start - 1, if endLine.Some? && endLine.value >= start then Some(endLine.value) else None)
  }

  function Min(a: nat, b: nat): nat {
    if a < b then a else b
  }

  /** How many lines are returned up to, and how many have to be scanned. */
  function Upto(r: Range, lines: seq<string>): nat {
    if r.end.Some? then Min(r.end.value, |lines|) else |lines|
  }

  function Scanned(r: Range, lines: seq<string>): nat {
    if r.end.Some? then Min(r.end.value + 1, |lines|) else |lines|
  }

  /** Lines a .. b - 1, counting from 0, as they are returned. */
  function Shown(lines: seq<string>, a: nat, b: nat): string
    requires b <= |lines|
    decreases b
  {
    if b <= a then "" else Shown(lines, a, b - 1) + DropCR(lines[b - 1]) + "\n"
  }

  /** None of the first `n` lines is overlong. */
  predicate AllFit(lines: seq<string>, n: nat)
    requires n <= |lines|
  {
    n == 0 || (AllFit(lines, n - 1) && |lines[n - 1]| < MAX_LINE)
  }

  lemma {:induction false} AllFitIs(lines: seq<string>, n: nat)
    requires n <= |lines|
    ensures AllFit(lines, n) <==> forall i :: 0 <= i < n ==> |lines[i]| < 65536
  {
    if n > 0 {
      AllFitIs(lines, n - 1);
    }
  }

  lemma {:induction false} OneTooLong(lines: seq<string>, n: nat, m: nat)
    requires n <= m <= |lines| && !AllFit(lines, n)
    ensures !AllFit(lines, m)
  {
    if n < m {
      OneTooLong(lines, n, m - 1);
    }
  }

  /** What is known when line `n` (from 1) has been asked for. */
  ghost predicate AtLine(lines: seq<string>, n: nat, more: bool, text: string, rest: seq<string>, tooLong: bool) {
    && 1 <= n <= |lines| + 1
    && AllFit(lines, n - 1)
    && (more ==> n <= |lines| && text == DropCR(lines[n - 1]) && |lines[n - 1]| < MAX_LINE && rest == lines[n..] && !tooLong)
    && (!more ==> (tooLong <==> n <= |lines|) && (tooLong ==> |lines[n - 1]| >= MAX_LINE))
  }

  lemma NextAt(lines: seq<string>, n: nat, text: string, more': bool, text': string, rest': seq<string>, tooLong': bool)
    requires n <= |lines| && AtLine(lines, n, true, text, lines[n..], false)
    requires more' <==> lines[n..] != [] && |lines[n..][0]| < MAX_LINE
    requires more' ==> text' == DropCR(lines[n..][0]) && rest' == lines[n..][1..] && !tooLong'
    requires !more' ==> rest' == lines[n..] && (tooLong' <==> rest' != [])
    ensures AtLine(lines, n + 1, more', text', rest', tooLong')
  {
    if n < |lines| {
      assert lines[n..][0] == lines[n] && lines[n..][1..] == lines[n + 1..];
    }
  }

  /** Whether Read succeeds on these lines. */
  ghost predicate Readable(r: Range, lines: seq<string>) {
    AllFit(lines, Scanned(r, lines)) && r.first < |lines|
  }

  /** The range in terms of the arguments. */
  lemma RangeIs(lines: seq<string>, startLine: Option<int>, endLine: Option<int>)
    ensures var range := Effective(startLine, endLine);
            var start := if startLine.Some? && startLine.value > 0 then startLine.value - 1 else 0;
            var open := endLine.None? || endLine.value <= start;
            && range.first == start
            && (Readable(range, lines) <==>
                  start < |lines| && forall i :: 0 <= i < |lines| && (open || i <= endLine.value) ==> |lines[i]| < 65536)
            && Upto(range, lines) == if open || endLine.value > |lines| then |lines| else endLine.value
  {
    AllFitIs(lines, Scanned(Effective(startLine, endLine), lines));
  }

  lemma LoopDone(lines: seq<string>, r: Range, n: nat, more: bool, text: string, rest: seq<string>, tooLong: bool)
    requires AtLine(lines, n, more, text, rest, tooLong)
    requires r.end.Some? ==> n <= r.end.value + 1 && r.first < r.end.value
    requires more ==> r.end.Some? && n == r.end.value + 1
    ensures tooLong ==> !Readable(r, lines)
    ensures !tooLong ==> n - 1 == Upto(r, lines) && (Readable(r, lines) <==> r.first < n - 1)
  {
    if tooLong {
      OneTooLong(lines, n, Scanned(r, lines));
    }
  }

  /** Ask for the next line, after `n` of them. */
  method Advance(scanner: Scanner, ghost lines: seq<string>, ghost n: nat) returns (found: bool)
    requires scanner.Valid() && AtLine(lines, n, true, scanner.text, scanner.rest, scanner.tooLong)
    modifies scanner
    ensures scanner.Valid() && AtLine(lines, n + 1, found, scanner.text, scanner.rest, scanner.tooLong)
  {
    ghost var text := scanner.text;
    found := scanner.Scan();
    NextAt(lines, n, text, found, scanner.text, scanner.rest, scanner.tooLong);
  }

  method Begin(content: string) returns (scanner: Scanner, found: bool)
    ensures fresh(scanner) && scanner.Valid()
    ensures AtLine(RawLines(content), 1, found, scanner.text, scanner.rest, scanner.tooLong)
  {
    scanner := new Scanner(content);
    assert RawLines(content)[0..] == RawLines(content);
    found := scanner.Scan();
  }

  /** The scanner loop: `lineNum` lines are behind it. */
  method ScanRange(content: string, start: nat, end: int, ghost range: Range, ghost lines: seq<string>)
    returns (result: string, lineNum: nat, tooLong: bool, ghost more: bool, ghost text: string, ghost rest: seq<string>)
    requires start == range.first + 1 && end == (if range.end.Some? then range.end.value else -1)
    requires range.end.Some? ==> range.first < range.end.value
    requires lines == RawLines(content)
    ensures AtLine(lines, lineNum, more, text, rest, tooLong)
    ensures result == Shown(lines, range.first, lineNum - 1)
    ensures range.end.Some? ==> lineNum <= range.end.value + 1
    ensures more ==> range.end.Some? && lineNum == range.end.value + 1
  {
    var scanner, found := Begin(content);
    result := "";
    lineNum := 1;
    while found
      invariant fresh(scanner) && scanner.Valid()
      invariant AtLine(lines, lineNum, found, scanner.text, scanner.rest, scanner.tooLong)
      invariant end != -1 ==> lineNum <= end + 1
      invariant result == Shown(lines, range.first, lineNum - 1)
      decreases |lines| + 1 - lineNum, found
    {
      if lineNum >= start {
        if end != -1 && lineNum > end {
          break;
        }
        result := result + scanner.text + "\n";
      }
      lineNum := lineNum + 1;
      found := Advance(scanner, lines, lineNum - 1);
    }
    tooLong := scanner.tooLong;
    more, text, rest := found, scanner.text, scanner.rest;
  }

  /** Read in line mode, the file's content given: the lines of the range, each
      without a final carriage return. It fails for a range that starts past
      the end, and for an overlong line up to one line past the range. */
  method ReadLines(content: string, startLine: Option<int>, endLine: Option<int>) returns (r: Result<string>)
    ensures var range, lines := Effective(startLine, endLine), RawLines(content);
            && (r.Ok? <==> Readable(range, lines))
            && (r.Ok? ==> r.value == Shown(lines, range.first, Upto(range, lines)))
    ensures var lines := RawLines(content);
            var start := if startLine.Some? && startLine.value > 0 then startLine.value - 1 else 0;
            var open := endLine.None? || endLine.value <= start;
            && (r.Ok? <==> start < |lines| && forall i :: 0 <= i < |lines| && (open || i <= endLine.value) ==> |lines[i]| < 65536)
            && (r.Ok? ==> r.value == Shown(lines, start, if open || endLine.value > |lines| then |lines| else endLine.value))
  {
    RangeIs(RawLines(content), startLine, endLine);
    var start := 1;
    if startLine.Some? && startLine.value > 0 {
      start := startLine.value;
    }
    var end := -1;
    if endLine.Some? && endLine.value >= start {
      end := endLine.value;
    }
    ghost var range, lines := Effective(startLine, endLine), RawLines(content);
    var result, lineNum, tooLong, more, text, rest := ScanRange(content, start, end, range, lines);
    LoopDone(lines, range, lineNum, more, text, rest, tooLong);
    if tooLong {
      return Err("error reading lines: token too long");
    }
    var total := lineNum - 1;
    ShownEmpty(lines, range.first, total);
    if result == "" && start > total {
      return Err("start_line is past the end of the file");
    }
    return Ok(result);
  }

  lemma ShownEmpty(lines: seq<string>, a: nat, b: nat)
    requires b <= |lines|
    ensures Shown(lines, a, b) == "" <==> b <= a
  {
  }

  // ----- files/update -----

  /** The lines of a replacement text; one final newline ends the last of them. */
  function NewLines(text: string): (lines: seq<string>)
    ensures |lines| >= 1
  {
    Split(Chop(text, '\n'), '\n')
  }

  /** The file whose lines these are. */
  function Written(lines: seq<string>, newline: bool): string {
    Join(lines, '\n') + (if newline then "\n" else "")
  }

  predicate KeepsNewline(content: string) {
    EndsLine(content) || content == ""
  }

  /** Lines first .. stop - 1 (from 0) replaced. */
  function Replaced(lines: seq<string>, first: nat, stop: nat, by_: seq<string>): seq<string>
    requires first <= |lines| && stop <= |lines|
  {
    lines[..first] + by_ + lines[stop..]
  }

  /** The lines Update writes. */
  function UpdatedLines(lines: seq<string>, first: nat, end: nat, text: string): seq<string> {
    if first >= |lines| then lines + [Chop(text, '\n')]
    else Replaced(lines, first, Min(end, |lines|), NewLines(text))
  }

  /** What Update makes of a file when both line numbers are good. */
  function Updated(content: string, first: nat, end: nat, text: string): string {
    Written(UpdatedLines(RawLines(content), first, end, text), KeepsNewline(content))
  }

  class File {
    var data: string

    constructor (data: string)
      ensures this.data == data
    {
      this.data := data;
    }

    method Truncate()
      modifies this
      ensures data == ""
    {
      data := "";
    }

    /** WriteAt(bytes, 0). */
    method WriteAtStart(bytes: string)
      modifies this
      ensures data == bytes + (if |bytes| < |old(data)| then old(data)[|bytes|..] else "")
    {
      data := bytes + (if |bytes| < |data| then data[|bytes|..] else "");
    }
  }

  /** Update, once its arguments are decoded and the file is open. */
  method Update(f: File, text: string, append: bool, startLine: Option<int>, endLine: Option<int>) returns (r: Result<string>)
    modifies f
    ensures r.Ok? <==> append || (startLine.Some? && endLine.Some? && 1 <= startLine.value <= endLine.value)
    ensures f.data == if append then old(f.data) + text
                      else if r.Ok? then Updated(old(f.data), startLine.value - 1, endLine.value, text)
                      else old(f.data)
  {
    if append {
      f.data := f.data + text;
      return Ok("appended");
    }
    if startLine.None? || endLine.None? {
      return Err("must specify either 'append' or both 'start_line' and 'end_line'");
    }
    if startLine.value < 1 || endLine.value < startLine.value {
      return Err("invalid line range");
    }
    var content := f.data;
    var hadTrailingNewline := EndsWith(content, '\n');
    var lines: seq<string> := [];
    if |content| > 0 {
      lines := Split(Chop(content, '\n'), '\n');
    }
    var startIdx, endIdx := startLine.value - 1, endLine.value - 1;
    if startIdx >= |lines| {
      lines := lines + [Chop(text, '\n')];
    } else {
      if endIdx >= |lines| {
        endIdx := |lines| - 1;
      }
      var newLines := lines[..startIdx];
      newLines := newLines + Split(Chop(text, '\n'), '\n');
      if endIdx + 1 < |lines| {
        newLines := newLines + lines[endIdx + 1..];
      }
      assert newLines == UpdatedLines(lines, startIdx, endLine.value, text);
      lines := newLines;
    }
    var output := Join(lines, '\n');
    if hadTrailingNewline || |content| == 0 {
      output := output + "\n";
    }
    assert output == Updated(content, startIdx, endLine.value, text);
    f.Truncate();
    f.WriteAtStart(output);
    return Ok("updated");
  }

  // ----- what a rewrite keeps -----

  lemma JoinLast(lines: seq<string>, init: seq<string>, last: string)
    requires lines == init + [last] && |init| >= 1 && '\n' !in last
    ensures EndsWith(Join(lines, '\n'), '\n') <==> last == ""
    ensures Join(lines, '\n') != ""
  {
    JoinConcat(init, [last], '\n');
    EndOf(Join(init, '\n') + "\n", last);
  }

  lemma EndOf(head: string, last: string)
    requires EndsWith(head, '\n') && '\n' !in last
    ensures EndsWith(head + last, '\n') <==> last == ""
  {
    if last != "" {
      assert (head + last)[|head + last| - 1] == last[|last| - 1];
    } else {
      assert head + last == head;
    }
  }

  lemma JoinEnd(lines: seq<string>)
    requires |lines| >= 1 && AllFree(lines, '\n')
    ensures EndsWith(Join(lines, '\n'), '\n') <==> |lines| >= 2 && lines[|lines| - 1] == ""
    ensures Join(lines, '\n') == "" <==> lines == [""]
  {
    assert Free(lines[|lines| - 1], '\n');
    if |lines| >= 2 {
      Unsnoc(lines);
      JoinLast(lines, lines[..|lines| - 1], lines[|lines| - 1]);
    } else {
      JoinOne(lines);
    }
  }

  lemma Unsnoc(lines: seq<string>)
    requires lines != []
    ensures lines == lines[..|lines| - 1] + [lines[|lines| - 1]]
  {
  }

  lemma JoinOne(lines: seq<string>)
    requires |lines| == 1 && '\n' !in lines[0]
    ensures Join(lines, '\n') == lines[0] && !EndsWith(lines[0], '\n')
    ensures lines[0] == "" <==> lines == [""]
  {
    assert lines == [lines[0]];
    OneLine(lines[0]);
  }

  /** A file written from a list of lines has these lines, and ends as asked,
      exactly when a final newline is written or the last line is not empty. */
  lemma WrittenLines(lines: seq<string>, newline: bool)
    requires |lines| >= 1 && AllFree(lines, '\n')
    ensures RawLines(Written(lines, newline)) == lines <==> newline || lines[|lines| - 1] != ""
    ensures newline || lines[|lines| - 1] != "" ==> EndsLine(Written(lines, newline)) == newline
    ensures lines != [""] && !newline && lines[|lines| - 1] == "" ==> EndsLine(Written(lines, newline))
  {
    var joined := Join(lines, '\n');
    JoinEnd(lines);
    SplitJoin(lines, '\n');
    if newline {
      assert (joined + "\n")[..|joined|] == joined && (joined + "\n")[|joined|..] == "\n";
    } else {
      assert Written(lines, false) == joined;
      if |lines| >= 2 && lines[|lines| - 1] == "" {
        var init := lines[..|lines| - 1];
        assert lines == init + [""];
        JoinConcat(init, [""], '\n');
        assert joined == Join(init, '\n') + "\n";
        assert joined[..|joined| - 1] == Join(init, '\n');
        FreeSlice(lines, 0, |lines| - 1);
        assert init == lines[0..|lines| - 1];
        SplitJoin(init, '\n');
      }
    }
  }

  lemma FreeConcat(a: seq<string>, b: seq<string>)
    requires AllFree(a, '\n') && AllFree(b, '\n')
    ensures AllFree(a + b, '\n')
  {
  }

  lemma FreeSlice(lines: seq<string>, a: nat, b: nat)
    requires a <= b <= |lines| && AllFree(lines, '\n')
    ensures AllFree(lines[a..b], '\n')
  {
    forall i | 0 <= i < b - a ensures Free(lines[a..b][i], '\n') {
      assert lines[a..b][i] == lines[a + i];
    }
  }

  /** The lines of a file and its final newline say all there is. */
  lemma ContentIsItsLines(content: string)
    requires content != ""
    ensures RawLines(content) != [] && Written(RawLines(content), EndsLine(content)) == content
    ensures !EndsLine(content) ==> RawLines(content)[|RawLines(content)| - 1] != ""
  {
    JoinSplit(Chop(content, '\n'), '\n');
    var lines := RawLines(content);
    RawLinesFree(content);
    JoinEnd(lines);
  }

  /** Whether replacing up to `end` with `text` can be told apart at the end:
      it cannot when the file has no final newline, the range reaches its last
      line and the last new line is empty. */
  predicate EndIsKept(content: string, end: nat, text: string) {
    KeepsNewline(content) || end < |RawLines(content)| || NewLines(text)[|NewLines(text)| - 1] != ""
  }

  lemma ReplacedFree(lines: seq<string>, first: nat, stop: nat, by_: seq<string>)
    requires first <= stop <= |lines| && AllFree(lines, '\n') && AllFree(by_, '\n')
    ensures AllFree(Replaced(lines, first, stop, by_), '\n')
  {
    FreeSlice(lines, 0, first);
    FreeSlice(lines, stop, |lines|);
    assert lines[..first] == lines[0..first] && lines[stop..] == lines[stop..|lines|];
    FreeConcat(lines[..first], by_);
    FreeConcat(lines[..first] + by_, lines[stop..]);
  }

  lemma ReplacedLast(lines: seq<string>, first: nat, stop: nat, by_: seq<string>)
    requires first <= stop <= |lines| && |by_| >= 1
    ensures var all := Replaced(lines, first, stop, by_);
            |all| >= 1 && all[|all| - 1] == if stop < |lines| then lines[|lines| - 1] else by_[|by_| - 1]
  {
  }

  /** Every line outside the range is kept and the new lines stand in its place
      exactly when EndIsKept; then the final newline is as it was, and else it
      is too only if nothing but one empty line is left. */
  lemma OutsideIsKept(content: string, first: nat, end: nat, text: string)
    requires first < |RawLines(content)| && first < end
    ensures var lines, output := RawLines(content), Updated(content, first, end, text);
            var all := Replaced(lines, first, Min(end, |lines|), NewLines(text));
            && (EndIsKept(content, end, text) <==> RawLines(output) == all)
            && (EndsLine(output) == EndsLine(content) <==> EndIsKept(content, end, text) || all == [""])
  {
    var lines, by_ := RawLines(content), NewLines(text);
    var stop := Min(end, |lines|);
    var all := Replaced(lines, first, stop, by_);
    var newline, kept := EndsLine(content), EndIsKept(content, end, text);
    assert lines != [] && newline == KeepsNewline(content);
    var output := Written(all, newline);
    assert Updated(content, first, end, text) == output;
    assert (kept <==> RawLines(output) == all) && (EndsLine(output) == newline <==> kept || all == [""]) by {
      RawLinesFree(content);
      SplitAllFree(Chop(text, '\n'), '\n');
      ContentIsItsLines(content);
      OutsideKeptInLines(lines, newline, first, stop, by_);
    }
  }

  lemma OutsideKeptInLines(lines: seq<string>, newline: bool, first: nat, stop: nat, by_: seq<string>)
    requires first < stop <= |lines| && AllFree(lines, '\n') && AllFree(by_, '\n') && |by_| >= 1
    requires newline || lines[|lines| - 1] != ""
    ensures var all := Replaced(lines, first, stop, by_);
            var kept := newline || stop < |lines| || by_[|by_| - 1] != "";
            && (kept <==> RawLines(Written(all, newline)) == all)
            && (EndsLine(Written(all, newline)) == newline <==> kept || all == [""])
  {
    ReplacedFree(lines, first, stop, by_);
    ReplacedLast(lines, first, stop, by_);
    WrittenLines(Replaced(lines, first, stop, by_), newline);
  }

  /** A range that starts past the end adds the text as one more line, with the
      final newline the file had, or had not; an empty file gets one. */
  lemma PastTheEnd(content: string, first: nat, end: nat, text: string)
    requires first >= |RawLines(content)|
    ensures var line := if text != "" && text[|text| - 1] == '\n' then text[..|text| - 1] else text;
            Updated(content, first, end, text) ==
              if content == "" then line + "\n"
              else if content[|content| - 1] == '\n' then content + line + "\n"
              else content + "\n" + line
  {
    var lines, line := RawLines(content), Chop(text, '\n');
    if content == "" {
      assert lines + [line] == [line];
    } else {
      ContentIsItsLines(content);
      JoinConcat(lines, [line], '\n');
      assert EndsLine(content) ==> content == Join(lines, '\n') + "\n";
    }
  }

  // ----- reading back -----

  function Dropped(lines: seq<string>, a: nat, b: nat): seq<string>
    requires a <= b <= |lines|
  {
    seq(b - a, i requires 0 <= i < b - a => DropCR(lines[a + i]))
  }

  lemma {:induction false} ShownIsJoined(lines: seq<string>, a: nat, b: nat)
    requires a < b <= |lines|
    ensures Shown(lines, a, b) == Join(Dropped(lines, a, b), '\n') + "\n"
    decreases b
  {
    var all := Dropped(lines, a, b);
    if b == a + 1 {
      assert all == [DropCR(lines[a])];
      assert Shown(lines, a, b - 1) == "";
    } else {
      ShownIsJoined(lines, a, b - 1);
      assert all == Dropped(lines, a, b - 1) + [DropCR(lines[b - 1])];
      JoinConcat(Dropped(lines, a, b - 1), [DropCR(lines[b - 1])], '\n');
    }
  }

  lemma DroppedFree(lines: seq<string>, a: nat, b: nat)
    requires a <= b <= |lines| && AllFree(lines, '\n')
    ensures AllFree(Dropped(lines, a, b), '\n')
  {
    var all := Dropped(lines, a, b);
    forall i | 0 <= i < |all| ensures Free(all[i], '\n') {
      assert all[i] == DropCR(lines[a + i]) && Free(lines[a + i], '\n');
    }
  }

  /** Written back, what is shown of a range is the range without its final
      carriage returns. */
  lemma ShownSplits(lines: seq<string>, a: nat, b: nat)
    requires a < b <= |lines| && AllFree(lines, '\n')
    ensures NewLines(Shown(lines, a, b)) == Dropped(lines, a, b)
  {
    ShownIsJoined(lines, a, b);
    DroppedFree(lines, a, b);
    var joined := Join(Dropped(lines, a, b), '\n');
    assert (joined + "\n")[..|joined|] == joined && (joined + "\n")[|joined|..] == "\n";
    SplitJoin(Dropped(lines, a, b), '\n');
  }

  predicate NoCR(lines: seq<string>, a: nat, b: nat)
    requires a <= b <= |lines|
  {
    forall i :: a <= i < b ==> !EndsWith(lines[i], '\r')
  }

  lemma DroppedSame(lines: seq<string>, a: nat, b: nat)
    requires a <= b <= |lines|
    ensures Dropped(lines, a, b) == lines[a..b] <==> NoCR(lines, a, b)
  {
    forall i | a <= i < b ensures DropCR(lines[i]) == lines[i] <==> !EndsWith(lines[i], '\r') {
    }
    if Dropped(lines, a, b) == lines[a..b] {
      forall i | a <= i < b ensures !EndsWith(lines[i], '\r') {
        assert Dropped(lines, a, b)[i - a] == lines[a..b][i - a];
      }
    }
  }

  /** Writing other lines into a file with lines changes it. */
  lemma RewriteIsSame(lines: seq<string>, first: nat, stop: nat, by_: seq<string>, newline: bool)
    requires first < stop <= |lines| && |by_| == stop - first && AllFree(lines, '\n') && AllFree(by_, '\n')
    ensures Written(Replaced(lines, first, stop, by_), newline) == Written(lines, newline) <==> by_ == lines[first..stop]
  {
    assert lines == lines[..first] + lines[first..stop] + lines[stop..];
    if by_ != lines[first..stop] {
      SameSplit(lines[..first], by_, lines[first..stop], lines[stop..]);
      ReplacedFree(lines, first, stop, by_);
      DifferentLines(lines, Replaced(lines, first, stop, by_), newline);
    }
  }

  /** Reading a range and writing the answer back leaves the file byte for byte
      as it was, exactly when no line of the range ends in a carriage return. */
  lemma ReadThenWriteBack(content: string, first: nat, end: nat)
    requires first < |RawLines(content)| && first < end
    ensures var lines := RawLines(content);
            var stop := Min(end, |lines|);
            Updated(content, first, end, Shown(lines, first, stop)) == content <==> NoCR(lines, first, stop)
  {
    var lines := RawLines(content);
    var stop := Min(end, |lines|);
    RawLinesFree(content);
    ShownSplits(lines, first, stop);
    DroppedSame(lines, first, stop);
    DroppedFree(lines, first, stop);
    ContentIsItsLines(content);
    RewriteIsSame(lines, first, stop, Dropped(lines, first, stop), EndsLine(content));
  }

  lemma SameSplit(a: seq<string>, b: seq<string>, c: seq<string>, d: seq<string>)
    requires |b| == |c| && b != c
    ensures a + b + d != a + c + d
  {
    var i :| 0 <= i < |b| && b[i] != c[i];
    assert (a + b + d)[|a| + i] == b[i] && (a + c + d)[|a| + i] == c[i];
  }

  lemma DifferentLines(x: seq<string>, y: seq<string>, newline: bool)
    requires |x| >= 1 && |y| >= 1 && AllFree(x, '\n') && AllFree(y, '\n') && x != y
    ensures Written(x, newline) != Written(y, newline)
  {
    SplitJoin(x, '\n');
    SplitJoin(y, '\n');
    assert Join(x, '\n') != Join(y, '\n');
    var a, b := Join(x, '\n'), Join(y, '\n');
    assert (a + "\n")[..|a + "\n"| - 1] == a && (b + "\n")[..|b + "\n"| - 1] == b;
    assert a + "" == a && b + "" == b;
  }

  lemma {:induction false} ShownOfPart(lines: seq<string>, mid: seq<string>, a: nat, n: nat)
    requires n <= |mid| && a + |mid| <= |lines| && lines[a..a + |mid|] == mid
    ensures Shown(lines, a, a + n) == Shown(mid, 0, n)
  {
    if n > 0 {
      ShownOfPart(lines, mid, a, n - 1);
      assert lines[a + n - 1] == mid[n - 1];
    }
  }

  /** From line `first` on, reading shows these lines. */
  predicate ReadsAs(lines: seq<string>, first: nat, shown: seq<string>) {
    first + |shown| <= |lines| && Shown(lines, first, first + |shown|) == Shown(shown, 0, |shown|)
  }

  /** What was written is what is read: after an update that keeps the end, the
      replaced lines read back as the lines of the new text. */
  lemma WriteThenRead(content: string, first: nat, end: nat, text: string)
    requires first < |RawLines(content)| && first < end && EndIsKept(content, end, text)
    ensures ReadsAs(RawLines(Updated(content, first, end, text)), first, NewLines(text))
  {
    var lines, by_ := RawLines(content), NewLines(text);
    var stop := Min(end, |lines|);
    ReadsBack(lines, first, stop, by_);
    assert RawLines(Updated(content, first, end, text)) == Replaced(lines, first, stop, by_) by {
      OutsideIsKept(content, first, end, text);
    }
  }

  lemma ReadsBack(lines: seq<string>, first: nat, stop: nat, by_: seq<string>)
    requires first <= |lines| && stop <= |lines|
    ensures ReadsAs(Replaced(lines, first, stop, by_), first, by_)
  {
    var all := Replaced(lines, first, stop, by_);
    assert all[first..first + |by_|] == by_;
    ShownOfPart(all, by_, first, |by_|);
  }
}
