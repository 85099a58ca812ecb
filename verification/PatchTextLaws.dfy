/** What patching does to text, stated on the text: every line terminator, the byte-order mark, and the ending kept. */
module PatchTextLaws {
  import opened Prelude
  import opened Truncation
  import opened Hunks
  import opened PatchText

  // ----- reading -----

  /** Everything that ends a line, as written in a file. */
  const TERMINATORS: set<string> :=
    {"\n", "\r\n", "\r", "\U{0B}", "\U{0C}", "\U{1C}", "\U{1D}", "\U{1E}", "\U{85}", "\U{2028}", "\U{2029}"}

  /** A character that may stand inside a line. */
  predicate Inner(c: char) {
    [c] !in TERMINATORS
  }

  datatype Ended = Ended(line: string, terminator: string)

  /** A CR is not followed by an LF of another line, which would make the two one terminator. */
  ghost predicate Legible(lines: seq<Ended>, last: string)
  {
    && (forall i :: 0 <= i < |lines| ==> lines[i].terminator in TERMINATORS && forall c :: c in lines[i].line ==> Inner(c))
    && (forall c :: c in last ==> Inner(c))
    && (forall i :: 0 <= i < |lines| - 1 && lines[i].terminator == "\r" ==> !(lines[i + 1].line == [] && lines[i + 1].terminator == "\n"))
  }

  function Written(lines: seq<Ended>, last: string): string {
    if lines == [] then last else lines[0].line + lines[0].terminator + Written(lines[1..], last)
  }

  function Bare(lines: seq<Ended>, last: string): seq<string> {
    if lines == [] then (if last == [] then [] else [last]) else [lines[0].line] + Bare(lines[1..], last)
  }

  lemma InnerIsNoBreak(c: char)
    ensures Inner(c) <==> !Breaks(c)
  {
    assert forall s :: s in TERMINATORS && |s| == 1 ==> Breaks(s[0]);
    if Breaks(c) {
      if c == '\n' { assert [c] == "\n"; }
      else if c == '\r' { assert [c] == "\r"; }
    }
  }

  lemma {:induction false} CollapsePast(line: string, rest: string)
    requires '\r' !in line
    ensures CollapseCrLf(line + rest) == line + CollapseCrLf(rest)
    decreases |line|
  {
    if line == [] {
      assert line + rest == rest;
    } else {
      assert line[0] in line;
      CollapsePast(line[1..], rest);
      assert (line + rest)[1..] == line[1..] + rest;
    }
  }

  lemma NormalizePast(line: string, rest: string)
    requires '\r' !in line
    ensures NormalizeToLf(line + rest) == line + NormalizeToLf(rest)
  {
    CollapsePast(line, rest);
    forall i | 0 <= i < |line| ensures line[i] != '\r' { assert line[i] in line; }
  }

  lemma NormalizeTerminator(t: string, rest: string)
    requires t in TERMINATORS && (t == "\r" ==> rest == [] || rest[0] != '\n')
    ensures NormalizeToLf(t + rest) == (if '\r' in t then "\n" else t) + NormalizeToLf(rest)
  {
    if t == "\r\n" {
      assert (t + rest)[2..] == rest;
      CollapseCrCons('\n', CollapseCrLf(rest));
    } else if t == "\r" {
      assert (t + rest)[1..] == rest;
      CollapseCrCons('\r', CollapseCrLf(rest));
    } else {
      NormalizePast(t, rest);
    }
  }

  lemma BreakAfter(line: string, t: string, rest: string)
    requires t in TERMINATORS && '\r' !in t && forall c :: c in line ==> Inner(c)
    ensures SplitLines(line + (t + rest)) == [line] + SplitLines(rest)
  {
    hide Exotic;
    var text := line + (t + rest);
    assert |t| == 1;
    assert t == [t[0]];
    InnerIsNoBreak(t[0]);
    forall c | c in line ensures !Breaks(c) { InnerIsNoBreak(c); }
    assert text[|line|] == t[0];
    assert forall i :: 0 <= i < |line| ==> text[i] == line[i] && line[i] in line;
    var n := BareLength(text);
    assert n == |line|;
    assert text[..n] == line && text[n + 1..] == rest;
  }

  lemma FirstWritten(lines: seq<Ended>, last: string)
    requires Legible(lines, last) && lines != [] && lines[0].terminator == "\r"
    ensures var rest := Written(lines[1..], last); rest == [] || rest[0] != '\n'
  {
    var rest := Written(lines[1..], last);
    if |lines| == 1 {
      assert lines[1..] == [];
      if last != [] { assert last[0] in last; }
    } else if lines[1].line != [] {
      assert lines[1].line[0] in lines[1].line;
    }
  }

  /** A file is read as its lines, however each of them is ended. */
  lemma {:induction false} EveryTerminator(lines: seq<Ended>, last: string)
    requires Legible(lines, last)
    ensures LinesOf(Written(lines, last)) == Bare(lines, last)
    decreases |lines|
  {
    hide NormalizeToLf, SplitLines, Legible;
    if lines == [] {
      LastLine(lines, last);
    } else {
      var line, t, rest := lines[0].line, lines[0].terminator, Written(lines[1..], last);
      LegibleParts(lines, last);
      EveryTerminator(lines[1..], last);
      if t == "\r" { FirstWritten(lines, last); }
      NormalizeTerminator(t, rest);
      NormalizePast(line, t + rest);
      BreakAfter(line, if '\r' in t then "\n" else t, NormalizeToLf(rest));
      assert line + t + rest == line + (t + rest);
    }
  }

  lemma LegibleParts(lines: seq<Ended>, last: string)
    requires Legible(lines, last) && lines != []
    ensures Legible(lines[1..], last) && lines[0].terminator in TERMINATORS
    ensures '\r' !in lines[0].line && forall c :: c in lines[0].line ==> Inner(c)
  {
    assert [lines[0]] + lines[1..] == lines;
    assert "\r" == ['\r'];
  }

  lemma LastLine(lines: seq<Ended>, last: string)
    requires Legible(lines, last) && lines == []
    ensures LinesOf(last) == if last == [] then [] else [last]
  {
    hide NormalizeToLf, SplitLines;
    forall c | c in last ensures !Breaks(c) { InnerIsNoBreak(c); }
    NormalizePlain(last);
    LinesOfLine(last);
  }

  // ----- the ending that is kept -----

  /** A file is taken for a CR LF file exactly when its first LF follows a CR. */
  lemma EndingIsFirst(text: string)
    ensures DetectLineEnding(text) == CrLf <==>
            exists n :: 0 < n < |text| && text[n] == '\n' && text[n - 1] == '\r' && '\n' !in text[..n]
  {
    var lf, crlf := Find(text, '\n'), FindCrLf(text);
    if DetectLineEnding(text) == CrLf {
      assert 0 < crlf + 1 < |text| && text[crlf + 1] == '\n' && text[crlf] == '\r';
      assert '\n' !in text[..crlf + 1];
    }
    forall n | 0 < n < |text| && text[n] == '\n' && text[n - 1] == '\r' && '\n' !in text[..n]
      ensures DetectLineEnding(text) == CrLf
    {
      assert forall i :: 0 <= i < n ==> text[i] in text[..n];
    }
  }

  /** Updated text has one ending throughout: that of the first line of the file. */
  lemma OneEnding(text: string, lines: seq<string>)
    requires BreakFree(lines)
    ensures if DetectLineEnding(text) == CrLf then CrLfOnly(Rewrite(text, lines)) else '\r' !in Rewrite(text, lines)
  {
    hide DetectLineEnding, CrLfOnly, NormalizeToLf, RestoreLineEndings, Join;
    JoinBreaksOnlyAtLf(lines);
    var joined := Join(lines);
    assert '\r' !in joined && '\r' !in joined + "\n";
    RestoredIsCrLfOnly(joined);
    RestoredIsCrLfOnly(joined + "\n");
    RestoreLf(joined);
    RestoreLf(joined + "\n");
  }

  lemma RestoreLf(text: string)
    ensures RestoreLineEndings(text, Lf) == text
  {}

  // ----- the byte-order mark -----

  /** A byte-order mark takes no part in an update, and stays where it is. */
  lemma BomIsKept(text: string, hunks: seq<seq<string>>)
    requires text == [] || text[0] != '\U{FEFF}'
    ensures var plain, marked := EditText(text, hunks), EditText("\U{FEFF}" + text, hunks);
            marked == if plain.None? then None else Some("\U{FEFF}" + plain.value)
  {
    hide LinesOf, Rewrite, Apply, Parsed, WellFormed;
    assert ("\U{FEFF}" + text)[1..] == text;
    assert StripBom("\U{FEFF}" + text) == ("\U{FEFF}", text);
    assert StripBom(text) == ([], text);
    assert forall r: string :: [] + r == r;
  }
}
