/**
 From the text of a file to the lines that hunks match, and back: byte-order mark, line
 endings, and the final newline.
 */
module PatchText {
  import opened Prelude
  import opened Truncation
  import opened Hunks

  const BOM: char := '\U{FEFF}'

  datatype Ending = Lf | CrLf

  // ----- helpers of the source -----

  predicate HasBom(content: string) {
    content != [] && content[0] == BOM
  }

  function StripBom(content: string): (r: (string, string))
    ensures r.0 + r.1 == content
  {
    if HasBom(content) then ([BOM], content[1..]) else ([], content)
  }

  /** `text.find(c)`, with the length for "not found". */
  function Find(text: string, c: char): (n: nat)
    ensures n <= |text| && (n < |text| ==> text[n] == c) && forall i :: 0 <= i < n ==> text[i] != c
  {
    if text == [] || text[0] == c then 0 else 1 + Find(text[1..], c)
  }

  function FindCrLf(text: string): (n: nat)
    ensures n <= |text| && (n < |text| ==> n + 1 < |text| && text[n] == '\r' && text[n + 1] == '\n')
    ensures forall i :: 0 <= i < n && i + 1 < |text| ==> !(text[i] == '\r' && text[i + 1] == '\n')
  {
    if |text| < 2 then |text| else if text[0] == '\r' && text[1] == '\n' then 0 else 1 + FindCrLf(text[1..])
  }

  function DetectLineEnding(text: string): Ending {
    var crlf, lf := FindCrLf(text), Find(text, '\n');
    if lf == |text| || crlf == |text| then Lf else if crlf <= lf then CrLf else Lf
  }

  /** `text.replace("\r\n", "\n")` */
  function CollapseCrLf(text: string): string {
    if text == [] then []
    else if |text| > 1 && text[0] == '\r' && text[1] == '\n' then ['\n'] + CollapseCrLf(text[2..])
    else [text[0]] + CollapseCrLf(text[1..])
  }

  /** `text.replace("\r", "\n")` */
  function CollapseCr(text: string): (r: string)
    ensures |r| == |text| && forall i :: 0 <= i < |text| ==> r[i] == if text[i] == '\r' then '\n' else text[i]
  {
    seq(|text|, i requires 0 <= i < |text| => if text[i] == '\r' then '\n' else text[i])
  }

  function NormalizeToLf(text: string): string {
    CollapseCr(CollapseCrLf(text))
  }

  function RestoreLineEndings(text: string, ending: Ending): string {
    if ending == Lf || text == [] then text
    else (if text[0] == '\n' then "\r\n" else [text[0]]) + RestoreLineEndings(text[1..], ending)
  }

  /** Characters other than LF and CR at which `splitlines` breaks. */
  predicate Exotic(c: char) {
    c as int in {0x0B, 0x0C, 0x1C, 0x1D, 0x1E, 0x85, 0x2028, 0x2029}
  }

  predicate Breaks(c: char) {
    c == '\n' || c == '\r' || Exotic(c)
  }

  function BareLength(text: string): (n: nat)
    ensures n <= |text| && (n < |text| ==> Breaks(text[n])) && forall i :: 0 <= i < n ==> !Breaks(text[i])
  {
    if text == [] || Breaks(text[0]) then 0 else 1 + BareLength(text[1..])
  }

  /** `text.splitlines()` */
  function SplitLines(text: string): seq<string> {
    if text == [] then []
    else
      var n := BareLength(text);
      var next := if n == |text| then n else if n + 1 < |text| && text[n] == '\r' && text[n + 1] == '\n' then n + 2 else n + 1;
      [text[..n]] + SplitLines(text[next..])
  }

  function LinesOf(text: string): seq<string> {
    SplitLines(NormalizeToLf(text))
  }

  predicate EndsWithNewline(text: string) {
    text != [] && text[|text| - 1] == '\n'
  }

  /** The text for updated lines, given the text they came from. */
  function Rewrite(text: string, lines: seq<string>): string {
    var joined := Join(lines);
    var terminated :=
      if EndsWithNewline(NormalizeToLf(text)) && (lines != [] || joined == []) then joined + "\n"
      else if text == [] && lines != [] then joined + "\n"
      else joined;
    RestoreLineEndings(terminated, DetectLineEnding(text))
  }

  // ----- line endings -----

  predicate NoExotic(text: string) {
    forall c :: c in text ==> !Exotic(c)
  }

  /** CR and LF occur as CR LF only. */
  predicate CrLfOnly(text: string) {
    text == [] || (if text[0] == '\r' then |text| > 1 && text[1] == '\n' && CrLfOnly(text[2..])
                   else text[0] != '\n' && CrLfOnly(text[1..]))
  }

  /** One convention of line endings throughout, and no other line separators. */
  predicate Regular(text: string) {
    NoExotic(text) && ('\r' !in text || CrLfOnly(text))
  }

  lemma {:induction false} CollapseCrLfPlain(text: string)
    requires '\r' !in text
    ensures CollapseCrLf(text) == text
  {
    if text != [] {
      assert text[0] in text;
      CollapseCrLfPlain(text[1..]);
    }
  }

  lemma NormalizePlain(text: string)
    requires '\r' !in text
    ensures NormalizeToLf(text) == text
  {
    CollapseCrLfPlain(text);
    forall i | 0 <= i < |text| ensures CollapseCr(text)[i] == text[i] { assert text[i] in text; }
  }

  lemma NormalizeHasNoCr(text: string)
    ensures '\r' !in NormalizeToLf(text)
  {}

  lemma CollapseCrCons(c: char, text: string)
    ensures CollapseCr([c] + text) == [if c == '\r' then '\n' else c] + CollapseCr(text)
  {}

  lemma {:induction false} CrLfRoundTrip(text: string)
    requires CrLfOnly(text)
    ensures RestoreLineEndings(NormalizeToLf(text), CrLf) == text
    decreases |text|
  {
    if text != [] {
      if text[0] == '\r' {
        CrLfRoundTrip(text[2..]);
        CollapseCrCons('\n', CollapseCrLf(text[2..]));
        assert NormalizeToLf(text) == ['\n'] + NormalizeToLf(text[2..]);
        assert text == ['\r', '\n'] + text[2..];
      } else {
        CrLfRoundTrip(text[1..]);
        CollapseCrCons(text[0], CollapseCrLf(text[1..]));
        assert NormalizeToLf(text) == [text[0]] + NormalizeToLf(text[1..]);
        assert text == [text[0]] + text[1..];
      }
    }
  }

  lemma {:induction false} RestoredIsCrLfOnly(text: string)
    requires '\r' !in text
    ensures CrLfOnly(RestoreLineEndings(text, CrLf))
    ensures NormalizeToLf(RestoreLineEndings(text, CrLf)) == text
    decreases |text|
  {
    if text != [] {
      assert text[0] in text;
      RestoredIsCrLfOnly(text[1..]);
      var rest := RestoreLineEndings(text[1..], CrLf);
      var r := RestoreLineEndings(text, CrLf);
      if text[0] == '\n' {
        assert r == ['\r', '\n'] + rest && r[2..] == rest;
        CollapseCrCons('\n', CollapseCrLf(rest));
      } else {
        assert r == [text[0]] + rest && r[1..] == rest;
        CollapseCrCons(text[0], CollapseCrLf(rest));
      }
    }
  }

  lemma DetectsCrLf(text: string)
    requires CrLfOnly(text) && '\r' in text
    ensures DetectLineEnding(text) == CrLf
  {
    FirstBreak(text);
  }

  lemma {:induction false} FirstBreak(text: string)
    requires CrLfOnly(text) && '\r' in text
    ensures FindCrLf(text) < |text| && Find(text, '\n') == FindCrLf(text) + 1
    decreases |text|
  {
    if text[0] != '\r' { FirstBreak(text[1..]); }
  }

  lemma DetectsLf(text: string)
    requires '\r' !in text
    ensures DetectLineEnding(text) == Lf
  {}

  // ----- lines and back -----

  function Terminator(text: string): string {
    if EndsWithNewline(text) then "\n" else []
  }

  /** Breaking at LF and joining again gives the text less its final newline. */
  lemma {:induction false} JoinOfSplitLines(text: string)
    requires NoExotic(text) && '\r' !in text
    ensures Join(SplitLines(text)) + Terminator(text) == text
    decreases |text|
  {
    hide SplitLines, BareLength, Exotic, Join;
    NothingHasNoLines();
    if text != [] {
      var n := BareLength(text);
      var line := text[..n];
      BareIsBare(text);
      if n < |text| {
        var rest := text[n + 1..];
        JoinOfSplitLines(rest);
        FirstOfLines(line, rest);
        JoinFirst(line, SplitLines(rest));
        SomeLines(rest);
        assert text == line + "\n" + rest;
      } else {
        assert line == text;
        LinesOfLine(text);
        JoinFirst(text, []);
        assert [text] + [] == [text];
      }
    }
  }

  lemma BareIsBare(text: string)
    requires NoExotic(text) && '\r' !in text
    ensures var n := BareLength(text);
            && (forall c :: c in text[..n] ==> !Breaks(c)) && (n < |text| ==> text[n] == '\n' && NoExotic(text[n + 1..]))
            && (n == |text| ==> !EndsWithNewline(text))
  {}

  lemma SomeLines(text: string)
    ensures SplitLines(text) == [] <==> text == []
  {}

  lemma {:induction false} SplitLinesAreBare(text: string, i: nat)
    requires i < |SplitLines(text)|
    ensures forall c :: c in SplitLines(text)[i] ==> !Breaks(c)
    decreases |text|
  {
    hide BareLength, Breaks;
    var n := BareLength(text);
    var next := if n == |text| then n else if n + 1 < |text| && text[n] == '\r' && text[n + 1] == '\n' then n + 2 else n + 1;
    assert SplitLines(text) == [text[..n]] + SplitLines(text[next..]);
    if i > 0 { SplitLinesAreBare(text[next..], i - 1); }
  }

  predicate BreakFree(lines: seq<string>) {
    forall i :: 0 <= i < |lines| ==> forall c :: c in lines[i] ==> !Breaks(c)
  }

  lemma {:induction false} JoinBreaksOnlyAtLf(lines: seq<string>)
    requires BreakFree(lines)
    ensures forall c :: c in Join(lines) ==> c == '\n' || !Breaks(c)
    decreases |lines|
  {
    if |lines| > 1 { JoinBreaksOnlyAtLf(lines[1..]); }
  }

  lemma {:induction false} RestoreAddsOnlyCr(text: string, ending: Ending)
    ensures forall c :: c in RestoreLineEndings(text, ending) ==> c in text || c == '\r'
    decreases |text|
  {
    if text != [] { RestoreAddsOnlyCr(text[1..], ending); }
  }

  lemma RewriteHasNoExotic(text: string, lines: seq<string>)
    requires BreakFree(lines)
    ensures NoExotic(Rewrite(text, lines))
  {
    JoinBreaksOnlyAtLf(lines);
    RestoreAddsOnlyCr(Join(lines), DetectLineEnding(text));
    RestoreAddsOnlyCr(Join(lines) + "\n", DetectLineEnding(text));
  }

  /** Rewriting a file from its own lines gives the file back exactly when it is regular. */
  lemma RewriteIsIdentity(text: string)
    ensures Rewrite(text, LinesOf(text)) == text <==> Regular(text)
  {
    var n := NormalizeToLf(text);
    var lines := LinesOf(text);
    forall i | 0 <= i < |lines| ensures forall c :: c in lines[i] ==> !Breaks(c) { SplitLinesAreBare(n, i); }
    RewriteHasNoExotic(text, lines);
    NormalizeHasNoCr(text);
    if NoExotic(text) {
      NormalizeAddsNothing(text);
      JoinOfSplitLines(n);
      RewriteOfOwnLines(text);
      if '\r' !in text {
        NormalizePlain(text);
        DetectsLf(text);
      } else {
        RestoredIsCrLfOnly(n);
        if CrLfOnly(text) {
          DetectsCrLf(text);
          CrLfRoundTrip(text);
        }
      }
    }
  }

  lemma {:induction false} CollapseAddsNothing(text: string)
    ensures forall c :: c in CollapseCrLf(text) ==> c in text
    decreases |text|
  {
    if |text| > 1 && text[0] == '\r' && text[1] == '\n' {
      CollapseAddsNothing(text[2..]);
    } else if text != [] {
      CollapseAddsNothing(text[1..]);
    }
  }

  lemma NormalizeAddsNothing(text: string)
    ensures forall c :: c in NormalizeToLf(text) ==> c in text || c == '\n'
  {
    CollapseAddsNothing(text);
  }

  lemma RewriteOfOwnLines(text: string)
    requires var n := NormalizeToLf(text); Join(SplitLines(n)) + Terminator(n) == n
    ensures Rewrite(text, LinesOf(text)) == RestoreLineEndings(NormalizeToLf(text), DetectLineEnding(text))
  {
    hide NormalizeToLf, RestoreLineEndings, DetectLineEnding, SplitLines, Join;
    NothingHasNoLines();
    var joined := Join(LinesOf(text));
    assert joined + [] == joined;
  }

  lemma NothingHasNoLines()
    ensures NormalizeToLf([]) == [] && SplitLines([]) == [] && Join([]) == []
  {}

  // ----- reading the result again -----

  /** Reading the rewritten text again gives the lines that were written. */
  lemma RewriteRoundTrip(text: string, lines: seq<string>)
    requires BreakFree(lines)
    ensures var closed := EndsWithNewline(NormalizeToLf(text)) || (text == [] && lines != []);
            LinesOf(Rewrite(text, lines)) == lines <==>
            if closed then lines != [] else lines == [] || lines[|lines| - 1] != []
  {
    hide NormalizeToLf, RestoreLineEndings, DetectLineEnding, SplitLines, Join, LinesOf;
    NothingHasNoLines();
    var joined := Join(lines);
    var closed := EndsWithNewline(NormalizeToLf(text)) || (text == [] && lines != []);
    JoinBreaksOnlyAtLf(lines);
    var terminated := if closed then joined + "\n" else joined;
    assert Rewrite(text, lines) == RestoreLineEndings(terminated, DetectLineEnding(text));
    LinesOfRestored(terminated, DetectLineEnding(text));
    if lines == [] {
      SplitLinesOfNewline();
      assert [] + "\n" == "\n";
    } else {
      SplitLinesOfJoin(lines);
    }
  }

  lemma LinesOfRestored(text: string, ending: Ending)
    requires '\r' !in text
    ensures LinesOf(RestoreLineEndings(text, ending)) == SplitLines(text)
  {
    NormalizePlain(text);
    RestoredIsCrLfOnly(text);
    hide SplitLines, NormalizeToLf;
  }

  lemma SplitLinesOfNewline()
    ensures SplitLines("\n") == [[]]
  {}

  lemma {:induction false} SplitLinesOfJoin(lines: seq<string>)
    requires BreakFree(lines) && lines != []
    ensures SplitLines(Join(lines) + "\n") == lines
    ensures SplitLines(Join(lines)) == if lines[|lines| - 1] == [] then lines[..|lines| - 1] else lines
    decreases |lines|
  {
    hide SplitLines;
    var line, rest := lines[0], lines[1..];
    if rest == [] {
      FirstOfLines(line, []);
      assert Join(lines) + "\n" == line + "\n" + [];
      LinesOfLine(line);
      NothingHasNoLines();
    } else {
      SplitLinesOfJoin(rest);
      FirstOfLines(line, Join(rest));
      FirstOfLines(line, Join(rest) + "\n");
      assert Join(lines) == line + "\n" + Join(rest);
      assert Join(lines) + "\n" == line + "\n" + (Join(rest) + "\n");
      assert lines == [line] + rest;
      assert lines[..|lines| - 1] == [line] + rest[..|rest| - 1];
    }
  }

  lemma FirstOfLines(line: string, rest: string)
    requires forall c :: c in line ==> !Breaks(c)
    ensures SplitLines(line + "\n" + rest) == [line] + SplitLines(rest)
  {
    var text := line + "\n" + rest;
    var n := BareLength(text);
    assert text[|line|] == '\n';
    assert forall i :: 0 <= i < |line| ==> text[i] == line[i] && line[i] in line;
    assert n == |line|;
    assert text[..n] == line && text[n + 1..] == rest;
  }

  lemma LinesOfLine(line: string)
    requires forall c :: c in line ==> !Breaks(c)
    ensures SplitLines(line) == if line == [] then [] else [line]
  {
    if line != [] {
      var n := BareLength(line);
      assert forall i :: 0 <= i < |line| ==> line[i] in line;
      assert n == |line|;
      assert line[..n] == line && SplitLines(line[n..]) == [];
    }
  }

  // ----- hunks as written in a patch -----

  datatype Edit = Keep(line: string) | Remove(line: string) | Insert(line: string) {
    /** How the edit is written in a patch. */
    function Render(): string {
      match this
      case Keep(line) => " " + line
      case Remove(line) => "-" + line
      case Insert(line) => "+" + line
    }
  }

  const END_OF_FILE := "*** End of File"

  predicate Marked(raw: string) {
    raw == END_OF_FILE || (raw != [] && raw[0] in " -+")
  }

  predicate AllMarked(hunk: seq<string>) {
    forall i :: 0 <= i < |hunk| ==> Marked(hunk[i])
  }

  function Kept(edits: seq<Edit>): seq<string> {
    if edits == [] then [] else (if edits[0].Insert? then [] else [edits[0].line]) + Kept(edits[1..])
  }

  function Wanted(edits: seq<Edit>): seq<string> {
    if edits == [] then [] else (if edits[0].Remove? then [] else [edits[0].line]) + Wanted(edits[1..])
  }

  /** `hunk` is these edits written down, apart from end-of-file marks. */
  ghost predicate Writes(hunk: seq<string>, edits: seq<Edit>)
    decreases |hunk|
  {
    if hunk == [] then edits == []
    else if hunk[0] == END_OF_FILE then Writes(hunk[1..], edits)
    else edits != [] && hunk[0] == edits[0].Render() && Writes(hunk[1..], edits[1..])
  }

  /** Both sides of a hunk, read off its lines. */
  method ParseUpdateHunk(hunk: seq<string>) returns (r: Option<Hunk<string>>, ghost edits: seq<Edit>)
    ensures r.Some? <==> AllMarked(hunk)
    ensures r.Some? ==> Writes(hunk, edits) && r.value == Hunk(Kept(edits), Wanted(edits))
  {
    hide Kept, Wanted, Writes, Marked;
    var before, after: seq<string> := [], [];
    edits := [];
    NothingWritten();
    for i := 0 to |hunk|
      invariant forall k :: 0 <= k < i ==> Marked(hunk[k])
      invariant Writes(hunk[..i], edits) && before == Kept(edits) && after == Wanted(edits)
    {
      var raw := hunk[i];
      assert hunk[..i + 1] == hunk[..i] + [raw];
      MarkOf(raw);
      if raw == END_OF_FILE {
        WritesMark(hunk[..i], edits);
        continue;
      }
      if raw == [] { return None, edits; }
      var marker, value := raw[0], raw[1..];
      if marker == ' ' {
        WritesOne(hunk[..i], edits, Keep(value));
        before, after, edits := before + [value], after + [value], edits + [Keep(value)];
      } else if marker == '-' {
        WritesOne(hunk[..i], edits, Remove(value));
        before, edits := before + [value], edits + [Remove(value)];
      } else if marker == '+' {
        WritesOne(hunk[..i], edits, Insert(value));
        after, edits := after + [value], edits + [Insert(value)];
      } else {
        return None, edits;
      }
    }
    assert hunk[..|hunk|] == hunk;
    r := Some(Hunk(before, after));
  }

  lemma NothingWritten()
    ensures Writes([], []) && Kept([]) == [] && Wanted([]) == []
  {}

  lemma MarkOf(raw: string)
    ensures Marked(raw) <==> raw == END_OF_FILE || (raw != [] && (raw[0] == ' ' || raw[0] == '-' || raw[0] == '+'))
    ensures raw != [] ==> raw == [raw[0]] + raw[1..]
  {}

  lemma {:induction false} WritesMark(hunk: seq<string>, edits: seq<Edit>)
    requires Writes(hunk, edits)
    ensures Writes(hunk + [END_OF_FILE], edits)
    decreases |hunk|
  {
    if hunk != [] {
      assert (hunk + [END_OF_FILE])[1..] == hunk[1..] + [END_OF_FILE];
      WritesMark(hunk[1..], if hunk[0] == END_OF_FILE then edits else edits[1..]);
    }
  }

  lemma WritesOne(hunk: seq<string>, edits: seq<Edit>, e: Edit)
    requires Writes(hunk, edits)
    ensures Writes(hunk + [e.Render()], edits + [e])
    ensures Kept(edits + [e]) == Kept(edits) + (if e.Insert? then [] else [e.line])
    ensures Wanted(edits + [e]) == Wanted(edits) + (if e.Remove? then [] else [e.line])
  {
    WritesMore(hunk, edits, e);
    SidesOfOneMore(edits, e);
  }

  lemma {:induction false} WritesMore(hunk: seq<string>, edits: seq<Edit>, e: Edit)
    requires Writes(hunk, edits)
    ensures Writes(hunk + [e.Render()], edits + [e])
    decreases |hunk|
  {
    NoEndOfFile(e);
    if hunk != [] {
      assert (hunk + [e.Render()])[1..] == hunk[1..] + [e.Render()];
      WritesMore(hunk[1..], if hunk[0] == END_OF_FILE then edits else edits[1..], e);
      assert edits != [] ==> (edits + [e])[1..] == edits[1..] + [e];
    }
  }

  lemma NoEndOfFile(e: Edit)
    ensures e.Render() != END_OF_FILE
  {
    assert e.Render()[0] != END_OF_FILE[0];
  }

  lemma SidesOfOneMore(edits: seq<Edit>, e: Edit)
    ensures Kept(edits + [e]) == Kept(edits) + (if e.Insert? then [] else [e.line])
    ensures Wanted(edits + [e]) == Wanted(edits) + (if e.Remove? then [] else [e.line])
  {
    hide *;
    NothingWritten();
    SidesConcat(edits, [e]);
    SidesStep([e]);
    assert [e][1..] == [];
  }

  lemma {:induction false} SidesConcat(a: seq<Edit>, b: seq<Edit>)
    ensures Kept(a + b) == Kept(a) + Kept(b) && Wanted(a + b) == Wanted(a) + Wanted(b)
    decreases |a|
  {
    hide *;
    NothingWritten();
    if a == [] {
      assert a + b == b;
    } else {
      SidesConcat(a[1..], b);
      SidesStep(a);
      SidesStep(a + b);
      assert (a + b)[1..] == a[1..] + b && (a + b)[0] == a[0];
    }
  }

  lemma SidesStep(edits: seq<Edit>)
    requires edits != []
    ensures Kept(edits) == (if edits[0].Insert? then [] else [edits[0].line]) + Kept(edits[1..])
    ensures Wanted(edits) == (if edits[0].Remove? then [] else [edits[0].line]) + Wanted(edits[1..])
  {}

  /** A written-down edit list reads back as itself: a hunk has one meaning. */
  lemma {:induction false} WritesOneThing(hunk: seq<string>, edits: seq<Edit>, edits': seq<Edit>)
    requires Writes(hunk, edits) && Writes(hunk, edits')
    ensures edits == edits'
    decreases |hunk|
  {
    if hunk != [] {
      if hunk[0] == END_OF_FILE {
        WritesOneThing(hunk[1..], edits, edits');
      } else {
        WritesOneThing(hunk[1..], edits[1..], edits'[1..]);
        RenderIsInjective(edits[0], edits'[0]);
        assert edits == [edits[0]] + edits[1..] && edits' == [edits'[0]] + edits'[1..];
      }
    }
  }

  lemma RenderIsInjective(e: Edit, e': Edit)
    requires e.Render() == e'.Render()
    ensures e == e'
  {
    assert e.Render()[0] == e'.Render()[0] && e.Render()[1..] == e.line && e'.Render()[1..] == e'.line;
  }

  // ----- the whole update -----

  /** The edits a well-marked hunk writes down. */
  function EditsOf(hunk: seq<string>): (edits: seq<Edit>)
    requires AllMarked(hunk)
    ensures Writes(hunk, edits)
  {
    if hunk == [] then []
    else if hunk[0] == END_OF_FILE then EditsOf(hunk[1..])
    else
      var raw := hunk[0];
      assert Marked(raw);
      MarkOf(raw);
      var e := if raw[0] == ' ' then Keep(raw[1..]) else if raw[0] == '-' then Remove(raw[1..]) else Insert(raw[1..]);
      [e] + EditsOf(hunk[1..])
  }

  function HunkOf(hunk: seq<string>): Hunk<string>
    requires AllMarked(hunk)
  {
    Hunk(Kept(EditsOf(hunk)), Wanted(EditsOf(hunk)))
  }

  predicate WellFormed(hunks: seq<seq<string>>) {
    forall k :: 0 <= k < |hunks| ==> AllMarked(hunks[k])
  }

  function Parsed(hunks: seq<seq<string>>): (parsed: seq<Hunk<string>>)
    requires WellFormed(hunks)
    ensures |parsed| == |hunks| && forall k :: 0 <= k < |hunks| ==> parsed[k] == HunkOf(hunks[k])
  {
    seq(|hunks|, k requires 0 <= k < |hunks| => HunkOf(hunks[k]))
  }

  /** `apply_update_hunks` as a function; nothing stands for any refusal. */
  function EditText(content: string, hunks: seq<seq<string>>): Option<string> {
    if hunks == [] then Some(content)
    else if !WellFormed(hunks) then None
    else
      var (bom, text) := StripBom(content);
      var lines := Apply(LinesOf(text), Parsed(hunks));
      if lines.None? then None else Some(bom + Rewrite(text, lines.value))
  }

  datatype UpdateResult = Rewritten(content: string) | BadHunk | Unmatched(why: Result<string>)

  /** `apply_update_hunks` on the text of a file. */
  method ApplyUpdate(content: string, hunks: seq<seq<string>>) returns (r: UpdateResult)
    ensures EditText(content, hunks) == if r.Rewritten? then Some(r.content) else None
    ensures hunks == [] ==> r == Rewritten(content)
    ensures hunks != [] ==> (r.BadHunk? <==> !WellFormed(hunks))
    ensures hunks != [] && !r.BadHunk? ==>
              var (bom, text) := StripBom(content);
              var lines, parsed := LinesOf(text), Parsed(hunks);
              && (r.Rewritten? <==> Applicable(lines, parsed))
              && (r.Rewritten? && FaithfulAtTop(lines, parsed) ==>
                    r.content == bom + Rewrite(text, Simultaneous(lines, Places(lines, parsed), 0)))
              && (r.Unmatched? ==> Refuses(lines, parsed, r.why))
  {
    hide AllMarked, LinesOf, Rewrite, Applicable, Places, Simultaneous, Hunks.Chain, FaithfulAtTop, HunkOf, Refuses, Spliced, Apply;
    if hunks == [] { return Rewritten(content); }
    var (bom, text) := StripBom(content);
    var lines := LinesOf(text);
    var parsed: seq<Hunk<string>> := [];
    for i := 0 to |hunks|
      invariant |parsed| == i && forall k :: 0 <= k < i ==> AllMarked(hunks[k]) && parsed[k] == HunkOf(hunks[k])
    {
      var h, edits := ParseUpdateHunk(hunks[i]);
      if h.None? { return BadHunk; }
      OneMeaning(hunks[i], h.value, edits);
      parsed := parsed + [h.value];
    }
    assert parsed == Parsed(hunks);
    ApplyMeans(lines, parsed);
    var u := ApplyUpdateHunks(lines, parsed);
    if !u.Updated? { return Unmatched(u); }
    r := Rewritten(bom + Rewrite(text, u.lines));
  }

  lemma OneMeaning(hunk: seq<string>, h: Hunk<string>, edits: seq<Edit>)
    requires AllMarked(hunk) && Writes(hunk, edits) && h == Hunk(Kept(edits), Wanted(edits))
    ensures h == HunkOf(hunk)
  {
    WritesOneThing(hunk, edits, EditsOf(hunk));
  }

  /** Replacing every match by itself replaces nothing. */
  lemma {:induction false} ReplacingBySame(s: seq<string>, ms: seq<Match<string>>, from: nat)
    requires Hunks.Chain(ms, from, |s|) && from <= |s|
    requires forall k :: 0 <= k < |ms| ==> ms[k].end <= |s| && ms[k].start <= ms[k].end && ms[k].after == s[ms[k].start..ms[k].end]
    ensures Simultaneous(s, ms, from) == s[from..]
    decreases |ms|
  {
    if ms != [] {
      ChainTail(ms, from, |s|);
      ReplacingBySame(s, ms[1..], ms[0].end);
      assert s[from..] == s[from..ms[0].start] + s[ms[0].start..ms[0].end] + s[ms[0].end..];
    }
  }

  /** A patch that only names context leaves a file alone, byte for byte, exactly when the file is regular. */
  lemma ContextOnlyPatch(text: string, hunks: seq<Hunk<string>>)
    requires AllContextual(hunks) && Applicable(LinesOf(text), hunks)
    requires forall k :: 0 <= k < |hunks| ==> hunks[k].before == hunks[k].after
    ensures Rewrite(text, Simultaneous(LinesOf(text), Places(LinesOf(text), hunks), 0)) == text <==> Regular(text)
  {
    hide LinesOf, Rewrite, Regular;
    var lines := LinesOf(text);
    PlacesHoldContext(lines, hunks);
    ReplacingBySame(lines, Places(lines, hunks), 0);
    assert lines[0..] == lines;
    RewriteIsIdentity(text);
  }

  lemma PlacesHoldContext(lines: seq<string>, hunks: seq<Hunk<string>>)
    requires AllContextual(hunks) && Applicable(lines, hunks)
    requires forall k :: 0 <= k < |hunks| ==> hunks[k].before == hunks[k].after
    ensures var ms := Places(lines, hunks);
            forall k :: 0 <= k < |ms| ==>
                          ms[k].end <= |lines| && ms[k].start <= ms[k].end && ms[k].after == lines[ms[k].start..ms[k].end]
  {
    hide SortAscending;
    var ms := SomeLocation(lines, hunks);
    PlacesAre(lines, hunks, ms);
    SortAscendingSorts(ms);
    var sorted := SortAscending(ms);
    forall k | 0 <= k < |sorted|
      ensures sorted[k].end <= |lines| && sorted[k].start <= sorted[k].end && sorted[k].after == lines[sorted[k].start..sorted[k].end]
    {
      assert sorted[k] in multiset(sorted);
      assert sorted[k] in multiset(ms);
      var j :| 0 <= j < |ms| && ms[j] == sorted[k];
      assert UniquelyAt(lines, hunks[j], ms[j].start);
    }
  }
}
