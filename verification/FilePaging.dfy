/** `read_file`: selecting lines, cutting the selection, and following `next_start_line`. */
module FilePaging {
  import opened Prelude
  import opened Utf8
  import opened Truncation

  // ----- the lines of an open file (newline="") -----

  /** Length of the first line with its terminator: LF, CR LF, or a lone CR. */
  function LineEnd(text: string): (n: nat)
    requires text != []
    ensures 1 <= n <= |text|
  {
    if text[0] == '\n' then 1
    else if text[0] == '\r' then (if |text| > 1 && text[1] == '\n' then 2 else 1)
    else if |text| == 1 then 1
    else 1 + LineEnd(text[1..])
  }

  function FileLines(text: string): seq<string> {
    if text == [] then [] else [text[..LineEnd(text)]] + FileLines(text[LineEnd(text)..])
  }

  function Concat(parts: seq<string>): string {
    if parts == [] then [] else parts[0] + Concat(parts[1..])
  }

  lemma {:induction false} ConcatAppend(a: seq<string>, b: seq<string>)
    ensures Concat(a + b) == Concat(a) + Concat(b)
    decreases |a|
  {
    if a == [] {
      assert a + b == b;
    } else {
      ConcatAppend(a[1..], b);
      assert (a + b)[1..] == a[1..] + b;
    }
  }

  lemma {:induction false} FileLinesConcat(text: string)
    ensures Concat(FileLines(text)) == text
    decreases |text|
  {
    if text != [] { FileLinesConcat(text[LineEnd(text)..]); }
  }

  /** A line as a file holds it: one LF, CR LF or lone CR, at the end; only the last line may go without. */
  ghost predicate OneLine(line: string, last: bool) {
    exists body, end: string ::
      && line == body + end && '\n' !in body && '\r' !in body
      && (end == "\n" || end == "\r\n" || end == "\r" || (last && end == [] && body != []))
  }

  /** Lines are ended by every LF, CR LF and lone CR, and by nothing else. */
  lemma {:induction false} FileLinesEnd(text: string, i: nat)
    requires i < |FileLines(text)|
    ensures var lines := FileLines(text);
            && OneLine(lines[i], i == |lines| - 1)
            && (i + 1 < |lines| && lines[i][|lines[i]| - 1] == '\r' ==> lines[i + 1] != [] && lines[i + 1][0] != '\n')
    decreases |text|
  {
    hide OneLine, LineEnd;
    var n := LineEnd(text);
    var line, rest := text[..n], text[n..];
    FirstLine(text);
    if i > 0 {
      FileLinesEnd(rest, i - 1);
    } else if rest != [] {
      assert FileLines(rest)[0][0] == rest[0];
    }
  }

  lemma {:induction false} FirstLine(text: string)
    requires text != []
    ensures var n := LineEnd(text);
            && OneLine(text[..n], n == |text|)
            && (n < |text| && text[n - 1] == '\r' ==> text[n] != '\n')
  {
    hide OneLine;
    var n := LineEnd(text);
    if text[0] == '\n' || text[0] == '\r' {
      assert text[..n] == (if text[0] == '\n' then "\n" else if n == 2 then "\r\n" else "\r");
      EndAlone(text[..n], n == |text|);
    } else if |text| == 1 {
      LastCharacter(text);
      assert text[..1] == text;
    } else {
      var rest := text[1..];
      FirstLine(rest);
      var m := LineEnd(rest);
      LineGrows(text[0], rest[..m], m == |rest|);
      assert text[..n] == [text[0]] + rest[..m];
    }
  }

  lemma EndAlone(end: string, last: bool)
    requires end == "\n" || end == "\r\n" || end == "\r"
    ensures OneLine(end, last)
  {
    assert end == [] + end;
  }

  lemma LastCharacter(line: string)
    requires |line| == 1 && line[0] != '\n' && line[0] != '\r'
    ensures OneLine(line, true)
  {
    assert line == line + [];
  }

  lemma LineGrows(c: char, line: string, last: bool)
    requires OneLine(line, last) && c != '\n' && c != '\r'
    ensures OneLine([c] + line, last)
  {
    var body, end: string :| && line == body + end && '\n' !in body && '\r' !in body
                             && (end == "\n" || end == "\r\n" || end == "\r" || (last && end == [] && body != []));
    assert [c] + line == ([c] + body) + end;
  }

  function Chomp(line: string): string {
    if line != [] && line[|line| - 1] == '\n' then line[..|line| - 1] else line
  }

  function ChompAll(lines: seq<string>): (bare: seq<string>)
    ensures |bare| == |lines| && forall i :: 0 <= i < |lines| ==> bare[i] == Chomp(lines[i])
  {
    seq(|lines|, i requires 0 <= i < |lines| => Chomp(lines[i]))
  }

  /** Lines in the LF sense: nothing but the last one may lack its newline. */
  predicate LfLines(lines: seq<string>) {
    && (forall i :: 0 <= i < |lines| ==> lines[i] != [] && '\n' !in Chomp(lines[i]))
    && (forall i :: 0 <= i < |lines| - 1 ==> lines[i] == Chomp(lines[i]) + "\n")
  }

  predicate Ended(lines: seq<string>) {
    lines == [] || lines[|lines| - 1] == Chomp(lines[|lines| - 1]) + "\n"
  }

  lemma {:induction false} FirstLf(text: string)
    requires text != [] && '\r' !in text
    ensures var line := text[..LineEnd(text)];
            '\n' !in Chomp(line) && (LineEnd(text) < |text| ==> line == Chomp(line) + "\n")
  {
    if text[0] != '\n' && |text| > 1 {
      FirstLf(text[1..]);
      var n, rest := LineEnd(text), text[1..];
      assert text[..n] == [text[0]] + rest[..LineEnd(rest)];
    }
  }

  lemma {:induction false} FileLinesAreLf(text: string)
    requires '\r' !in text
    ensures LfLines(FileLines(text))
    decreases |text|
  {
    hide LfLines, Chomp, LineEnd;
    if text == [] {
      NoLines();
    } else {
      var line, rest := text[..LineEnd(text)], text[LineEnd(text)..];
      FirstLf(text);
      FileLinesAreLf(rest);
      OneMoreLine(line, FileLines(rest));
    }
  }

  lemma NoLines()
    ensures LfLines([])
  {}

  lemma OneMoreLine(line: string, rest: seq<string>)
    requires LfLines(rest) && line != [] && '\n' !in Chomp(line) && (rest != [] ==> line == Chomp(line) + "\n")
    ensures LfLines([line] + rest)
  {
    hide Chomp;
    var lines := [line] + rest;
    assert forall i :: 1 <= i < |lines| ==> lines[i] == rest[i - 1];
  }

  /** Splitting a run of lines on LF gives the bare lines, and an empty one after a final newline. */
  lemma {:induction false} SplitOfLines(lines: seq<string>)
    requires LfLines(lines)
    ensures Split(Concat(lines)) == ChompAll(lines) + (if Ended(lines) then [[]] else [])
    decreases |lines|
  {
    hide Split, Chomp, Concat;
    ConcatNone();
    EmptySplits();
    if lines != [] {
      ChompFirst(lines);
      ConcatFirst(lines);
      if |lines| == 1 {
        SplitOneLine(lines[0]);
      } else {
        SplitOfLines(lines[1..]);
        SplitLine(Chomp(lines[0]), Concat(lines[1..]));
      }
    }
  }

  lemma ChompFirst(lines: seq<string>)
    requires lines != []
    ensures ChompAll(lines) == [Chomp(lines[0])] + ChompAll(lines[1..])
  {}

  lemma ConcatFirst(lines: seq<string>)
    requires lines != []
    ensures Concat(lines) == lines[0] + Concat(lines[1..]) && (|lines| == 1 ==> Concat(lines) == lines[0])
  {}

  lemma SplitOneLine(line: string)
    requires line != [] && '\n' !in Chomp(line)
    ensures Split(line) == [Chomp(line)] + (if line == Chomp(line) + "\n" then [[]] else [])
  {
    var bare := Chomp(line);
    SplitLine(bare, []);
    hide Split;
    assert bare + "\n" + [] == bare + "\n";
    assert bare == line || bare + "\n" == line;
    EmptySplits();
  }

  lemma {:induction false} JoinOfLines(lines: seq<string>)
    requires LfLines(lines) && lines != [] && Ended(lines)
    ensures Join(ChompAll(lines)) + "\n" == Concat(lines)
    decreases |lines|
  {
    hide Chomp, ChompAll, Join, Concat;
    ChompFirst(lines);
    ConcatFirst(lines);
    JoinFirst(Chomp(lines[0]), ChompAll(lines[1..]));
    if |lines| > 1 { JoinOfLines(lines[1..]); }
  }

  // ----- the tool -----

  datatype ReadError = BinaryFile | InvalidArgument | UnsupportedEncoding

  datatype FilePage = FilePage(content: string, startLine: int, endLine: int, totalLines: nat, truncated: bool, next: Option<int>)

  datatype ReadResult = Page(page: FilePage) | Failed(error: ReadError)

  predicate Over(lines: seq<string>, first: nat, q: nat, maxBytes: int)
    requires first + q <= |lines|
  {
    q > DEFAULT_MAX_LINES || Size(Concat(lines[first..first + q])) > maxBytes
  }

  function Last(lines: seq<string>, endLine: Option<int>): int {
    if endLine.None? || endLine.value > |lines| then |lines| else endLine.value
  }

  /** Exactly `p` lines are taken: all up to `last`, or just enough to break a limit. */
  ghost predicate IsSelection(lines: seq<string>, first: nat, last: int, maxBytes: int, p: nat) {
    && (p == 0 || first + p <= last <= |lines|)
    && (forall q :: 0 < q < p ==> !Over(lines, first, q, maxBytes))
    && (p == AtLeast(0, last - first) || (p > 0 && Over(lines, first, p, maxBytes)))
  }

  function Selected(lines: seq<string>, first: nat, p: nat): seq<string> {
    if p > 0 && first + p <= |lines| then lines[first..first + p] else []
  }

  function MakePage(lines: seq<string>, start: int, endLine: Option<int>, complete: bool, t: TextTruncation): FilePage {
    var truncated := t.truncated || complete;
    var end := if endLine.Some? then endLine.value else |lines|;
    var actual :=
      if truncated && t.outputLines > 0
      then (if start + t.outputLines - 1 < |lines| then start + t.outputLines - 1 else |lines|)
      else Last(lines, endLine);
    FilePage(if end < start then [] else t.content, start, actual, |lines|, truncated,
             if truncated && actual < |lines| then Some(actual + 1) else None)
  }

  ghost predicate Yields(lines: seq<string>, start: int, endLine: Option<int>, maxBytes: int, page: FilePage, p: nat, t: TextTruncation) {
    && start >= 1
    && IsSelection(lines, start - 1, Last(lines, endLine), maxBytes, p)
    && IsHead(Concat(Selected(lines, start - 1, p)), DEFAULT_MAX_LINES, AtLeast(1, maxBytes), t)
    && page == MakePage(lines, start, endLine, p > 0 && Over(lines, start - 1, p, maxBytes), t)
  }

  ghost predicate IsPage(lines: seq<string>, start: int, endLine: Option<int>, maxBytes: int, page: FilePage) {
    exists p: nat, t: TextTruncation :: Yields(lines, start, endLine, maxBytes, page, p, t)
  }

  predicate HasNul(data: Bytes) {
    exists i :: 0 <= i < |data| && i < 4096 && data[i] == 0
  }

  lemma NulInHead(data: Bytes)
    ensures HasNul(data) <==> 0 in (if |data| <= 4096 then data else data[..4096])
  {
    var head := if |data| <= 4096 then data else data[..4096];
    assert forall i :: 0 <= i < |head| ==> head[i] == data[i];
    if HasNul(data) {
      var i :| 0 <= i < |data| && i < 4096 && data[i] == 0;
      assert head[i] == 0;
    }
  }

  method ReadFile(data: Bytes, startLine: int, endLine: Option<int>, maxBytes: int) returns (r: ReadResult)
    ensures r == Failed(BinaryFile) <==> HasNul(data)
    ensures r == Failed(BinaryFile) <==> 0 in (if |data| <= 4096 then data else data[..4096])
    ensures r == Failed(InvalidArgument) <==> !HasNul(data) && startLine < 1
    ensures r == Failed(UnsupportedEncoding) <==> !HasNul(data) && startLine >= 1 && Decode(data).None?
    ensures r.Page? ==> Decode(data).Some? && IsPage(FileLines(Decode(data).value), startLine, endLine, maxBytes, r.page)
  {
    hide Encode, Decode, FileLines, IsHead, Concat, IsSelection, Selected, Over;
    NulInHead(data);
    if HasNul(data) { return Failed(BinaryFile); }
    if startLine < 1 { return Failed(InvalidArgument); }
    var text := Decode(data);
    if text.None? { return Failed(UnsupportedEncoding); }
    var lines := FileLines(text.value);
    var parts, complete := SelectLines(lines, startLine, endLine, maxBytes);
    var t := TruncateTextHead(Concat(parts), DEFAULT_MAX_LINES, maxBytes);
    var page := MakePage(lines, startLine, endLine, complete, t);
    assert Yields(lines, startLine, endLine, maxBytes, page, |parts|, t);
    r := Page(page);
  }

  method SelectLines(lines: seq<string>, startLine: int, endLine: Option<int>, maxBytes: int)
    returns (parts: seq<string>, complete: bool)
    requires startLine >= 1
    ensures IsSelection(lines, startLine - 1, Last(lines, endLine), maxBytes, |parts|)
    ensures parts == Selected(lines, startLine - 1, |parts|)
    ensures complete <==> |parts| > 0 && Over(lines, startLine - 1, |parts|, maxBytes)
  {
    hide Encode, Concat, Over, SelectedSoFar, Selected, IsSelection;
    ghost var first: nat, last := startLine - 1, Last(lines, endLine);
    var bytes, total := 0, 0;
    parts, complete := [], false;
    ConcatNone();
    SelectStarts(lines, first, last, maxBytes);
    while total < |lines|
      invariant total <= |lines| && SelectedSoFar(lines, first, last, maxBytes, parts, total, complete)
      invariant bytes == Size(Concat(parts))
    {
      SelectSkips(lines, first, last, maxBytes, parts, total, complete);
      var line := lines[total];
      total := total + 1;
      if total < startLine { continue; }
      if endLine.Some? && total > endLine.value { continue; }
      if complete { continue; }
      SelectTakes(lines, first, last, maxBytes, parts, total - 1);
      ConcatOne(parts, line);
      parts := parts + [line];
      bytes := bytes + Size(line);
      if |parts| > DEFAULT_MAX_LINES || bytes > maxBytes { complete := true; }
    }
    SelectEnds(lines, first, last, maxBytes, parts, complete);
  }

  lemma SelectStarts(lines: seq<string>, first: nat, last: int, maxBytes: int)
    ensures SelectedSoFar(lines, first, last, maxBytes, [], 0, false)
  {}

  lemma SelectEnds(lines: seq<string>, first: nat, last: int, maxBytes: int, parts: seq<string>, complete: bool)
    requires SelectedSoFar(lines, first, last, maxBytes, parts, |lines|, complete) && last <= |lines|
    ensures IsSelection(lines, first, last, maxBytes, |parts|) && parts == Selected(lines, first, |parts|)
    ensures |parts| > 0 ==> first + |parts| <= |lines|
    ensures complete <==> |parts| > 0 && Over(lines, first, |parts|, maxBytes)
  {
    hide Over;
  }

  lemma SelectSkips(lines: seq<string>, first: nat, last: int, maxBytes: int, parts: seq<string>, total: nat, complete: bool)
    requires SelectedSoFar(lines, first, last, maxBytes, parts, total, complete) && total < |lines|
    ensures total < first || total >= last || complete ==> SelectedSoFar(lines, first, last, maxBytes, parts, total + 1, complete)
  {
    hide Over;
  }

  lemma SelectTakes(lines: seq<string>, first: nat, last: int, maxBytes: int, parts: seq<string>, total: nat)
    requires SelectedSoFar(lines, first, last, maxBytes, parts, total, false) && first <= total < last <= |lines|
    ensures var taken := parts + [lines[total]];
            SelectedSoFar(lines, first, last, maxBytes, taken, total + 1,
                          |taken| > DEFAULT_MAX_LINES || Size(Concat(taken)) > maxBytes)
  {
    hide Over, Concat, Encode;
    TakeNext(lines, first, parts, total);
    OverMeans(lines, first, |parts| + 1, maxBytes);
  }

  ghost predicate SelectedSoFar(lines: seq<string>, first: nat, last: int, maxBytes: int, parts: seq<string>, total: nat, complete: bool)
  {
    var p := |parts|;
    && (p > 0 ==> first + p <= total && first + p <= last <= |lines|)
    && parts == Selected(lines, first, p)
    && (forall q :: 0 < q < p ==> !Over(lines, first, q, maxBytes))
    && (complete <==> p > 0 && Over(lines, first, p, maxBytes))
    && (!complete ==> p == AtLeast(0, (if total < last then total else last) - first))
  }

  lemma TakeNext(lines: seq<string>, first: nat, parts: seq<string>, i: nat)
    requires parts == Selected(lines, first, |parts|) && i < |lines| && first + |parts| == i
    ensures parts + [lines[i]] == lines[first..i + 1] == Selected(lines, first, |parts| + 1)
  {
    assert lines[first..i + 1] == lines[first..i] + [lines[i]];
  }

  lemma OverMeans(lines: seq<string>, first: nat, q: nat, maxBytes: int)
    requires first + q <= |lines|
    ensures Over(lines, first, q, maxBytes) <==>
            q > DEFAULT_MAX_LINES || Size(Concat(lines[first..first + q])) > maxBytes
  {}

  lemma ConcatNone()
    ensures Concat([]) == [] && Size([]) == 0
  {}

  lemma ConcatOne(parts: seq<string>, line: string)
    ensures Concat(parts + [line]) == Concat(parts) + line
    ensures Size(Concat(parts + [line])) == Size(Concat(parts)) + Size(line)
  {
    ConcatAppend(parts, [line]);
    EncodeConcat(Concat(parts), line);
    assert Concat([line]) == line;
  }

  // ----- following next_start_line -----

  /**
   Line `i` can start a page.  Below one byte, which a caller of the tool cannot ask for, the
   selection stops after one line while the cut still allows a byte.
   */
  predicate FitsAt(lines: seq<string>, i: nat, maxBytes: int)
    requires i < |lines|
  {
    if maxBytes >= 1 then Size(Chomp(lines[i])) <= maxBytes
    else
      || (lines[i] == Chomp(lines[i]) + "\n" && Size(Chomp(lines[i])) == 1)
      || (lines[i] == "\n" && i + 1 < |lines| && lines[i + 1] == "\n")
  }

  predicate Fits(lines: seq<string>, maxBytes: int) {
    forall i :: 0 <= i < |lines| ==> FitsAt(lines, i, maxBytes)
  }

  /** The page's text is exactly its lines; a cut page leaves off the newline before the cut. */
  function Delivered(page: FilePage): string {
    page.content + if page.truncated then "\n" else []
  }

  predicate Delivers(lines: seq<string>, page: FilePage) {
    && 1 <= page.startLine <= page.endLine <= |lines|
    && Delivered(page) == Concat(lines[page.startLine - 1..page.endLine])
    && page.next == (if page.endLine < |lines| then Some(page.endLine + 1) else None)
  }

  /** A page that is not cut holds the lines asked for, from `start` to the smaller of `end_line` and the last line. */
  lemma UncutPage(lines: seq<string>, start: int, endLine: Option<int>, maxBytes: int, page: FilePage)
    requires IsPage(lines, start, endLine, maxBytes, page) && !page.truncated
    ensures var end := if endLine.Some? && endLine.value < |lines| then endLine.value else |lines|;
            && page.startLine == start && page.endLine == end && page.totalLines == |lines| && page.next == None
            && page.content == if start <= end then Concat(lines[start - 1..end]) else []
  {
    hide Encode, Over, Split, Join;
    var p: nat, t: TextTruncation :| Yields(lines, start, endLine, maxBytes, page, p, t);
    assert t.content == Concat(Selected(lines, start - 1, p));
  }

  /** The lines a caller asks for. */
  function Asked(lines: seq<string>, start: int, endLine: Option<int>): seq<string> {
    if 1 <= start <= Last(lines, endLine) then lines[start - 1..Last(lines, endLine)] else []
  }

  /** A page is not cut exactly when the lines asked for are within every limit. */
  lemma UncutExactly(lines: seq<string>, start: int, endLine: Option<int>, maxBytes: int, page: FilePage)
    requires IsPage(lines, start, endLine, maxBytes, page)
    ensures var asked := Asked(lines, start, endLine);
            !page.truncated <==>
            || asked == []
            || (|asked| <= DEFAULT_MAX_LINES && |Split(Concat(asked))| <= DEFAULT_MAX_LINES && Size(Concat(asked)) <= maxBytes)
  {
    hide Encode, Split, Join, Concat, Over;
    var p: nat, t: TextTruncation :| Yields(lines, start, endLine, maxBytes, page, p, t);
    NothingAsked(lines, start, endLine, maxBytes, p, t);
    if p > 0 {
      var first, last := start - 1, Last(lines, endLine);
      OverMeans(lines, first, p, maxBytes);
      OverGrows(lines, first, p, last - first, maxBytes);
      OverMeans(lines, first, last - first, maxBytes);
    }
  }

  lemma NothingAsked(lines: seq<string>, start: int, endLine: Option<int>, maxBytes: int, p: nat, t: TextTruncation)
    requires start >= 1 && IsSelection(lines, start - 1, Last(lines, endLine), maxBytes, p)
    requires IsHead(Concat(Selected(lines, start - 1, p)), DEFAULT_MAX_LINES, AtLeast(1, maxBytes), t)
    ensures p == 0 <==> Asked(lines, start, endLine) == []
    ensures p == 0 ==> !t.truncated
  {
    hide Encode, Join, Over;
    ConcatNone();
    EmptySplits();
  }

  lemma OverGrows(lines: seq<string>, first: nat, p: nat, q: nat, maxBytes: int)
    requires p <= q && first + q <= |lines|
    ensures Over(lines, first, p, maxBytes) ==> Over(lines, first, q, maxBytes)
  {
    hide Concat, Encode;
    ConcatRuns(lines, first, first + p, first + q);
    EncodeConcat(Concat(lines[first..first + p]), Concat(lines[first + p..first + q]));
  }

  /** Of an LF file, a page with an `end_line` holds whole lines from `start` on and none past the range; a cut one
      names the line after its last. */
  lemma RangedPage(lines: seq<string>, start: int, endLine: Option<int>, maxBytes: int, page: FilePage)
    requires LfLines(lines) && maxBytes >= 1 && 1 <= start <= Last(lines, endLine) && IsPage(lines, start, endLine, maxBytes, page)
    ensures Size(Chomp(lines[start - 1])) <= maxBytes ==>
              && start == page.startLine <= page.endLine <= Last(lines, endLine)
              && Delivered(page) == Concat(lines[start - 1..page.endLine])
    ensures Size(Chomp(lines[start - 1])) > maxBytes ==> page.truncated && page.content < Chomp(lines[start - 1])
    ensures page.truncated && page.content != [] ==>
              page.next == (if page.endLine < |lines| then Some(page.endLine + 1) else None)
  {
    hide IsHead, Concat, Encode, LfLines, Chomp, Over;
    var p: nat, t: TextTruncation :| Yields(lines, start, endLine, maxBytes, page, p, t);
    var first := start - 1;
    var parts := lines[first..first + p];
    SubLines(lines, first, first + p);
    OverMeans(lines, first, p, maxBytes);
    CutOfLines(parts, maxBytes, t);
    if t.truncated && !t.firstLineExceedsLimit {
      assert parts[..t.outputLines] == lines[first..first + t.outputLines];
    }
  }

  /** A page of an LF file delivers its lines exactly when its first line fits. */
  lemma PageDelivers(lines: seq<string>, start: int, maxBytes: int, page: FilePage)
    requires LfLines(lines) && 1 <= start <= |lines| && IsPage(lines, start, None, maxBytes, page)
    ensures Delivers(lines, page) <==> FitsAt(lines, start - 1, maxBytes)
    ensures page.startLine == start
    // Of a line that is too long a part is delivered, and nothing of it again.
    ensures Size(Chomp(lines[start - 1])) > AtLeast(1, maxBytes) ==>
              && page.content < Chomp(lines[start - 1])
              && page.next == (if page.content == [] || start == |lines| then None else Some(start + 1))
  {
    hide IsPage, Delivers, FitsAt, LfLines, Chomp;
    YieldsPage(lines, start, maxBytes, page);
    var p: nat, t: TextTruncation :| Yields(lines, start, None, maxBytes, page, p, t);
    if maxBytes >= 1 {
      WidePage(lines, start, maxBytes, page, p, t);
    } else {
      TinyPage(lines, start, maxBytes, page, p, t);
    }
  }

  lemma YieldsPage(lines: seq<string>, start: int, maxBytes: int, page: FilePage)
    requires IsPage(lines, start, None, maxBytes, page)
    ensures exists p: nat, t: TextTruncation :: Yields(lines, start, None, maxBytes, page, p, t)
  {}

  lemma WidePage(lines: seq<string>, start: int, maxBytes: int, page: FilePage, p: nat, t: TextTruncation)
    requires LfLines(lines) && maxBytes >= 1 && 1 <= start <= |lines| && Yields(lines, start, None, maxBytes, page, p, t)
    ensures Delivers(lines, page) <==> FitsAt(lines, start - 1, maxBytes)
    ensures page.startLine == start
    ensures Size(Chomp(lines[start - 1])) > maxBytes ==>
              && page.content < Chomp(lines[start - 1])
              && page.next == (if page.content == [] || start == |lines| then None else Some(start + 1))
  {
    hide IsSelection, IsHead, Concat, Encode, LfLines, Chomp, Delivers, MakePage;
    var first := start - 1;
    SelectionTakes(lines, first, maxBytes, p);
    SubLines(lines, first, first + p);
    OverMeans(lines, first, p, maxBytes);
    CutOfLines(lines[first..first + p], maxBytes, t);
    if t.firstLineExceedsLimit {
      PartOfLine(lines, first, page, Over(lines, first, p, maxBytes), t);
    } else {
      WholeLines(lines, first, page, p, Over(lines, first, p, maxBytes), t);
    }
  }

  lemma PartOfLine(lines: seq<string>, first: nat, page: FilePage, complete: bool, t: TextTruncation)
    requires LfLines(lines) && first < |lines| && page == MakePage(lines, first + 1, None, complete, t)
    requires t.truncated && t.content < Chomp(lines[first]) && t.outputLines == (if t.content == [] then 0 else 1)
    ensures !Delivers(lines, page) && page.startLine == first + 1 && page.content == t.content
    ensures page.next == (if page.content == [] || first + 1 == |lines| then None else Some(first + 2))
  {
    hide Concat, LfLines, Chomp;
    if page.endLine >= first + 1 { CutLineMissing(lines, first, page.endLine, page.content); }
  }

  lemma WholeLines(lines: seq<string>, first: nat, page: FilePage, p: nat, complete: bool, t: TextTruncation)
    requires 0 < p && first + p <= |lines| && page == MakePage(lines, first + 1, None, complete, t)
    requires (complete ==> t.truncated) && (complete || first + p == |lines|)
    requires !t.truncated ==> t.content == Concat(lines[first..first + p])
    requires t.truncated ==> 1 <= t.outputLines <= p && t.content + "\n" == Concat(lines[first..first + p][..t.outputLines])
    ensures Delivers(lines, page) && page.startLine == first + 1
  {
    hide Concat;
    if t.truncated {
      assert lines[first..first + p][..t.outputLines] == lines[first..first + t.outputLines];
    } else {
      assert t.content + [] == t.content;
    }
  }

  /** With room for less than a byte one line is selected, and cut to a byte. */
  lemma TinyPage(lines: seq<string>, start: int, maxBytes: int, page: FilePage, p: nat, t: TextTruncation)
    requires LfLines(lines) && maxBytes < 1 && 1 <= start <= |lines| && Yields(lines, start, None, maxBytes, page, p, t)
    ensures Delivers(lines, page) <==> FitsAt(lines, start - 1, maxBytes)
    ensures page.startLine == start
    ensures Size(Chomp(lines[start - 1])) > 1 ==>
              && page.content < Chomp(lines[start - 1])
              && page.next == (if page.content == [] || start == |lines| then None else Some(start + 1))
  {
    hide IsSelection, IsHead, Concat, Encode, LfLines, Chomp;
    var first, line := start - 1, lines[start - 1];
    OneLineSelected(lines, first, maxBytes, p);
    assert lines[first..first + 1] == [line];
    SubLines(lines, first, first + 1);
    ConcatFirst([line]);
    LinesParts(lines, first);
    CutOfLines([line], 1, t);
    OneLineCut(line, t);
    if t.firstLineExceedsLimit {
      if page.endLine >= start { CutLineMissing(lines, first, page.endLine, page.content); }
    } else if !t.truncated {
      UncutLine(lines, first, page, t);
    } else {
      assert [line][..1] == [line];
      ChompBack(t.content);
      SizeOfLine(line);
    }
  }

  /** A line that fits a byte whole: a newline, or one character without its newline. */
  lemma UncutLine(lines: seq<string>, first: nat, page: FilePage, t: TextTruncation)
    requires LfLines(lines) && first < |lines| && !t.truncated && t.content == lines[first] && Size(lines[first]) <= 1
    requires t.outputLines == (if lines[first] == "\n" then 2 else 1)
    requires page == MakePage(lines, first + 1, None, true, t)
    ensures Delivers(lines, page) <==> lines[first] == "\n" && first + 1 < |lines| && lines[first + 1] == "\n"
    ensures Size(Chomp(lines[first])) <= 1 && !(lines[first] == Chomp(lines[first]) + "\n" && Size(Chomp(lines[first])) == 1)
  {
    hide Concat, Encode, LfLines, Chomp;
    var line := lines[first];
    LinesParts(lines, first);
    SizeOfLine(line);
    ConcatRun(lines, first);
    if line == "\n" && first + 1 < |lines| {
      SameAfter(line, lines[first + 1], "\n");
    } else {
      Longer(line);
    }
  }

  lemma ConcatRun(lines: seq<string>, first: nat)
    requires first < |lines|
    ensures Concat(lines[first..first + 1]) == lines[first]
    ensures first + 1 < |lines| ==> Concat(lines[first..first + 2]) == lines[first] + lines[first + 1]
  {
    hide *;
    assert lines[first..first + 1] == [lines[first]];
    ConcatFirst([lines[first]]);
    if first + 1 < |lines| {
      assert lines[first..first + 2] == [lines[first]] + [lines[first + 1]];
      ConcatFirst([lines[first + 1]]);
      ConcatAppend([lines[first]], [lines[first + 1]]);
    }
  }

  lemma SameAfter(a: string, b: string, c: string)
    ensures a + b == a + c <==> b == c
  {
    assert (a + b)[|a|..] == b && (a + c)[|a|..] == c;
  }

  lemma Longer(line: string)
    ensures line + "\n" != line
  {
    assert |line + "\n"| == |line| + 1;
  }

  lemma ChompBack(bare: string)
    ensures Chomp(bare + "\n") == bare
  {}

  lemma LinesParts(lines: seq<string>, i: nat)
    requires LfLines(lines) && i < |lines|
    ensures lines[i] != [] && '\n' !in Chomp(lines[i]) && (i + 1 < |lines| ==> lines[i] == Chomp(lines[i]) + "\n")
  {}

  lemma SizeOfLine(line: string)
    requires line != []
    ensures Size(line) >= |line| && Size(Chomp(line)) <= Size(line)
    ensures line == Chomp(line) + "\n" ==> Size(line) == Size(Chomp(line)) + 1
  {
    hide Encode;
    SizeAtLeast(line);
    EncodeConcat(Chomp(line), "\n");
    EncodeSingle('\n');
    if line == Chomp(line) + "\n" {} else { assert Chomp(line) == line; }
  }

  lemma OneLineSelected(lines: seq<string>, first: nat, maxBytes: int, p: nat)
    requires LfLines(lines) && first < |lines| && maxBytes < 1 && IsSelection(lines, first, |lines|, maxBytes, p)
    ensures p == 1 && Over(lines, first, 1, maxBytes)
  {
    hide Concat, Encode, Chomp;
    assert lines[first..first + 1] == [lines[first]];
    LinesParts(lines, first);
    ConcatFirst([lines[first]]);
    SizeAtLeast(lines[first]);
    assert Over(lines, first, 1, maxBytes);
  }

  /** Whether a single line is cut to a byte, and how many pieces it counts when it is not. */
  lemma OneLineCut(line: string, t: TextTruncation)
    requires line != [] && '\n' !in Chomp(line) && IsHead(line, DEFAULT_MAX_LINES, 1, t)
    ensures t.truncated <==> Size(line) > 1
    ensures !t.truncated ==> t.content == line && t.outputLines == (if line == "\n" then 2 else 1)
    ensures !t.firstLineExceedsLimit <==> Size(Chomp(line)) <= 1
    ensures line == Chomp(line) + "\n" && Size(Chomp(line)) == 1 ==> t.truncated
  {
    hide Encode, Split, Join, LongestPrefix, IsLongestHead, Chomp;
    SplitOneLine(line);
    assert Split(line)[0] == Chomp(line);
    SizeOfLine(line);
    if Size(line) <= 1 { ShortLine(line); }
  }

  lemma ShortLine(line: string)
    requires line != [] && Size(line) <= 1
    ensures line == Chomp(line) + "\n" <==> line == "\n"
  {
    SizeAtLeast(line);
    assert line == [line[0]];
  }

  lemma SubLines(lines: seq<string>, i: nat, j: nat)
    requires LfLines(lines) && i <= j <= |lines|
    ensures LfLines(lines[i..j])
  {}

  /** What a head cut of a run of LF lines contains. */
  lemma CutOfLines(parts: seq<string>, maxBytes: nat, t: TextTruncation)
    requires LfLines(parts) && parts != [] && IsHead(Concat(parts), DEFAULT_MAX_LINES, maxBytes, t)
    ensures t.firstLineExceedsLimit <==> Size(Chomp(parts[0])) > maxBytes
    ensures |parts| > DEFAULT_MAX_LINES || Size(Concat(parts)) > maxBytes ==> t.truncated
    ensures !t.truncated ==> t.content == Concat(parts)
    ensures t.firstLineExceedsLimit ==>
              t.truncated && t.content < Chomp(parts[0]) && t.outputLines == (if t.content == [] then 0 else 1)
    ensures t.truncated && !t.firstLineExceedsLimit ==>
              1 <= t.outputLines <= |parts| && t.content + "\n" == Concat(parts[..t.outputLines])
  {
    hide Split, Join, Encode, LfLines, Concat, Chomp, Ended, IsLongestHead;
    SplitCounts(parts);
    if t.truncated && !t.firstLineExceedsLimit {
      LongestHeadRange(Split(Concat(parts)), DEFAULT_MAX_LINES, maxBytes, t.outputLines);
      WholeCut(parts, t.outputLines);
    } else if t.truncated {
      assert Size(t.content) <= maxBytes;
      assert t.content != Chomp(parts[0]);
    }
  }

  lemma LongestHeadRange(all: seq<string>, lines: nat, bytes: nat, k: nat)
    requires IsLongestHead(all, lines, bytes, k)
    ensures 1 <= k <= |all|
  {}

  lemma SplitCounts(parts: seq<string>)
    requires LfLines(parts) && parts != []
    ensures var all := Split(Concat(parts)); all[0] == Chomp(parts[0]) && |parts| <= |all|
  {
    hide Split, LfLines, Concat, Chomp, Ended;
    SplitOfLines(parts);
  }

  lemma WholeCut(parts: seq<string>, k: nat)
    requires LfLines(parts) && parts != [] && 1 <= k < |Split(Concat(parts))|
    ensures k <= |parts| && Join(Split(Concat(parts))[..k]) + "\n" == Concat(parts[..k])
  {
    hide Split, Join, LfLines, Concat, Chomp, Ended;
    SplitOfLines(parts);
    EndedBefore(parts, k);
    SubLines(parts, 0, k);
    assert parts[0..k] == parts[..k];
    JoinOfLines(parts[..k]);
    assert ChompAll(parts[..k]) == Split(Concat(parts))[..k];
  }

  lemma EndedBefore(parts: seq<string>, k: nat)
    requires LfLines(parts) && 1 <= k <= |parts| && (k == |parts| ==> Ended(parts))
    ensures Ended(parts[..k])
  {}

  lemma CutLineMissing(lines: seq<string>, i: nat, j: nat, content: string)
    requires LfLines(lines) && i < j <= |lines| && content < Chomp(lines[i])
    ensures content + "\n" != Concat(lines[i..j])
  {
    ConcatFirst(lines[i..j]);
    hide Concat;
    var bare := Chomp(lines[i]);
    var n := |content|;
    assert bare[n] != '\n';
    assert Concat(lines[i..j])[n] == bare[n];
    assert (content + "\n")[n] == '\n';
  }

  lemma SelectionTakes(lines: seq<string>, first: nat, maxBytes: int, p: nat)
    requires first < |lines| && IsSelection(lines, first, |lines|, maxBytes, p)
    ensures p > 0 && first + p <= |lines|
    ensures Over(lines, first, p, maxBytes) || first + p == |lines|
  {}

  /** Pages read one after another, each at the line the one before names. */
  ghost predicate Chain(lines: seq<string>, maxBytes: int, start: int, pages: seq<FilePage>)
    decreases |pages|
  {
    && pages != [] && IsPage(lines, start, None, maxBytes, pages[0])
    && (|pages| > 1 ==> pages[0].next.Some? && Chain(lines, maxBytes, pages[0].next.value, pages[1..]))
  }

  function Assembled(pages: seq<FilePage>): string {
    if pages == [] then [] else Delivered(pages[0]) + Assembled(pages[1..])
  }

  /** Following the chain reads every line from `start` on once and in order, and must end. */
  lemma {:induction false} ChainPartitions(lines: seq<string>, maxBytes: int, start: int, pages: seq<FilePage>)
    requires LfLines(lines) && 1 <= start <= |lines| && Fits(lines, maxBytes)
    requires Chain(lines, maxBytes, start, pages)
    ensures var end := pages[|pages| - 1].endLine;
            start <= end <= |lines| && Assembled(pages) == Concat(lines[start - 1..end]) && |pages| <= end - start + 1
    ensures pages[0].startLine == start
    ensures forall k :: 0 <= k < |pages| ==> Delivers(lines, pages[k])
    ensures forall k :: 0 <= k < |pages| - 1 ==> pages[k + 1].startLine == pages[k].endLine + 1
    decreases |pages|
  {
    hide *;
    ChainFirst(lines, maxBytes, start, pages);
    FitsEach(lines, maxBytes, start - 1);
    PageDelivers(lines, start, maxBytes, pages[0]);
    DeliveredLines(lines, pages[0]);
    AssembledFirst(pages);
    var end := pages[0].endLine;
    if |pages| > 1 {
      var rest := pages[1..];
      ChainPartitions(lines, maxBytes, end + 1, rest);
      ConcatRuns(lines, start - 1, end, rest[|rest| - 1].endLine);
      forall k | 0 <= k < |pages| ensures Delivers(lines, pages[k]) {
        if k > 0 { assert pages[k] == rest[k - 1]; }
      }
      forall k | 0 <= k < |pages| - 1 ensures pages[k + 1].startLine == pages[k].endLine + 1 {
        assert pages[k + 1] == rest[k];
        if k > 0 { assert pages[k] == rest[k - 1] && rest[k - 1 + 1].startLine == rest[k - 1].endLine + 1; }
      }
    }
  }

  lemma ChainFirst(lines: seq<string>, maxBytes: int, start: int, pages: seq<FilePage>)
    requires Chain(lines, maxBytes, start, pages)
    ensures pages != [] && IsPage(lines, start, None, maxBytes, pages[0])
    ensures |pages| > 1 ==> pages[0].next.Some? && Chain(lines, maxBytes, pages[0].next.value, pages[1..])
  {}

  lemma ConcatRuns(lines: seq<string>, i: nat, j: nat, k: nat)
    requires i <= j <= k <= |lines|
    ensures Concat(lines[i..k]) == Concat(lines[i..j]) + Concat(lines[j..k])
  {
    hide *;
    ConcatAppend(lines[i..j], lines[j..k]);
    assert lines[i..k] == lines[i..j] + lines[j..k];
  }

  lemma DeliveredLines(lines: seq<string>, page: FilePage)
    requires Delivers(lines, page)
    ensures 1 <= page.startLine <= page.endLine <= |lines|
    ensures Delivered(page) == Concat(lines[page.startLine - 1..page.endLine])
    ensures page.next == if page.endLine < |lines| then Some(page.endLine + 1) else None
  {}

  lemma AssembledFirst(pages: seq<FilePage>)
    requires pages != []
    ensures Assembled(pages) == Delivered(pages[0]) + Assembled(pages[1..])
    ensures |pages| == 1 ==> Assembled(pages) == Delivered(pages[0])
  {
    if |pages| == 1 { assert Assembled(pages[1..]) == []; }
  }

  lemma FitsEach(lines: seq<string>, maxBytes: int, i: nat)
    requires Fits(lines, maxBytes) && i < |lines|
    ensures FitsAt(lines, i, maxBytes)
  {}

  /** Reading an LF file whose lines fit, page after page from line 1, gives back the file. */
  lemma PagesPartitionFile(text: string, maxBytes: int, pages: seq<FilePage>)
    requires '\r' !in text && text != [] && Fits(FileLines(text), maxBytes)
    requires Chain(FileLines(text), maxBytes, 1, pages)
    ensures |pages| <= |FileLines(text)| && (pages[|pages| - 1].next.None? ==> Assembled(pages) == text)
    ensures forall k :: 0 <= k < |pages| ==> Delivers(FileLines(text), pages[k])
    ensures forall k :: 0 <= k < |pages| - 1 ==> pages[k + 1].startLine == pages[k].endLine + 1
  {
    hide FileLines, Chain, Fits, LfLines, Concat, Assembled, Delivers;
    SomePage(FileLines(text), maxBytes, 1, pages);
    FileLinesAreLf(text);
    FileLinesConcat(text);
    SomeLine(text);
    var lines := FileLines(text);
    assert lines[0..|lines|] == lines;
    ChainPartitions(lines, maxBytes, 1, pages);
    DeliveredLines(lines, pages[|pages| - 1]);
  }

  lemma SomePage(lines: seq<string>, maxBytes: int, start: int, pages: seq<FilePage>)
    requires Chain(lines, maxBytes, start, pages)
    ensures pages != []
  {}

  lemma SomeLine(text: string)
    requires text != []
    ensures FileLines(text) != []
  {}
}
