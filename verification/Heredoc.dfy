/**
 Dropping heredoc bodies, as section 2.7.4 of the POSIX.1-2017 Shell Command Language delimits
 them, from a shell command before it is scanned.
 */
module Heredoc {
  import opened Prelude
  import opened Truncation

  datatype Doc = Doc(delimiter: string, stripTabs: bool)

  // ----- characters -----

  /** `str.isspace` of one character. */
  predicate IsSpace(c: char) {
    var n := c as int;
    || 0x09 <= n <= 0x0D || 0x1C <= n <= 0x20 || n == 0x85 || n == 0xA0 || n == 0x1680
    || 0x2000 <= n <= 0x200A || n == 0x2028 || n == 0x2029 || n == 0x202F || n == 0x205F || n == 0x3000
  }

  predicate IsQuote(c: char) {
    c == '\'' || c == '"'
  }

  predicate EndsWord(c: char) {
    IsSpace(c) || c in ";&|<>()"
  }

  // ----- the delimiter word -----

  function QuoteLength(rest: string, quote: char): (n: nat)
    ensures n <= |rest|
    ensures forall i :: 0 <= i < n ==> rest[i] != quote
    ensures n < |rest| ==> rest[n] == quote
  {
    if rest == [] || rest[0] == quote then 0 else 1 + QuoteLength(rest[1..], quote)
  }

  datatype Word = Word(text: string, length: nat)

  /** The first part of a word: a quoted stretch, an escaped character or a plain one; nothing at its end. */
  function ReadPiece(rest: string): (w: Word)
    requires rest != []
    ensures w.length <= |rest|
  {
    if IsQuote(rest[0]) then
      var n := QuoteLength(rest[1..], rest[0]);
      Word(rest[1..][..n], if 1 + n < |rest| then n + 2 else n + 1)
    else if rest[0] == '\\' && |rest| > 1 then Word([rest[1]], 2)
    else if EndsWord(rest[0]) then Word([], 0)
    else Word([rest[0]], 1)
  }

  /** A shell word with quotes and backslashes removed. */
  function ReadWord(rest: string): (w: Word)
    ensures w.length <= |rest|
    decreases |rest|
  {
    if rest == [] || ReadPiece(rest).length == 0 then Word([], 0)
    else
      var piece := ReadPiece(rest);
      var more := ReadWord(rest[piece.length..]);
      Word(piece.text + more.text, piece.length + more.length)
  }

  function Blanks(rest: string): (n: nat)
    ensures n <= |rest|
  {
    if rest != [] && (rest[0] == ' ' || rest[0] == '\t') then 1 + Blanks(rest[1..]) else 0
  }

  datatype Operator = Operator(doc: Doc, length: nat)

  /** What follows `<<`: an optional dash, blanks, and the word. */
  function ReadOperator(rest: string): (o: Operator)
    ensures o.length <= |rest|
  {
    var dash := if rest != [] && rest[0] == '-' then 1 else 0;
    var from := dash + Blanks(rest[dash..]);
    var w := ReadWord(rest[from..]);
    Operator(Doc(w.text, dash == 1), from + w.length)
  }

  method ParseHeredocDelimiter(command: string, start: nat) returns (end: nat, delimiter: string, stripTabs: bool)
    requires start <= |command|
    ensures start <= end <= |command|
    ensures Operator(Doc(delimiter, stripTabs), end - start) == ReadOperator(command[start..])
  {
    hide *;
    var index := start;
    stripTabs := false;
    if index < |command| && command[index] == '-' {
      stripTabs := true;
      index := index + 1;
    }
    ghost var dash := index - start;
    ghost var first := index + Blanks(command[index..]);
    assert command[start..][dash..] == command[index..];
    while index < |command| && (command[index] == ' ' || command[index] == '\t')
      invariant index <= |command| && first == index + Blanks(command[index..])
    {
      SkipBlank(command, index);
      index := index + 1;
    }
    SkipBlank(command, index);
    end, delimiter := ReadDelimiterWord(command, index);
    WordEnds(command, start, dash, first, end, delimiter);
  }

  ghost predicate Stops(command: string, index: nat)
    requires index < |command|
  {
    EndsWord(command[index]) && !IsQuote(command[index]) && (command[index] == '\\' ==> index + 1 == |command|)
  }

  method ReadDelimiterWord(command: string, first: nat) returns (index: nat, delimiter: string)
    requires first <= |command|
    ensures WordSoFar(command, first, index, delimiter)
    ensures first <= index <= |command| && (index == |command| || Stops(command, index))
  {
    hide WordSoFar, IsQuote, EndsWord;
    index, delimiter := first, [];
    WordStarts(command, first);
    while index < |command|
      invariant first <= index <= |command| && WordSoFar(command, first, index, delimiter)
      decreases |command| - index
    {
      var c := command[index];
      if IsQuote(c) {
        ghost var from, was := index, delimiter;
        var quoted;
        index, quoted := ReadQuoted(command, index);
        QuotedPiece(command, first, from, index, was);
        delimiter := delimiter + quoted;
        if index < |command| { index := index + 1; }
        continue;
      }
      if c == '\\' && index + 1 < |command| {
        EscapedPiece(command, first, index, delimiter);
        delimiter := delimiter + [command[index + 1]];
        index := index + 2;
        continue;
      }
      if EndsWord(c) { break; }
      PlainPiece(command, first, index, delimiter);
      delimiter := delimiter + [c];
      index := index + 1;
    }
  }

  method ReadQuoted(command: string, from: nat) returns (index: nat, quoted: string)
    requires from < |command|
    ensures from < index == from + 1 + QuoteLength(command[from + 1..], command[from]) <= |command|
    ensures quoted == command[from + 1..index]
  {
    index, quoted := from + 1, [];
    while index < |command| && command[index] != command[from]
      invariant from < index <= from + 1 + QuoteLength(command[from + 1..], command[from])
      invariant quoted == command[from + 1..index]
    {
      quoted := quoted + [command[index]];
      index := index + 1;
    }
  }

  /** The word starting at `first` is `delimiter` and then the word starting at `index`. */
  ghost predicate WordSoFar(command: string, first: nat, index: nat, delimiter: string) {
    && first <= index <= |command|
    && var more := ReadWord(command[index..]);
    ReadWord(command[first..]) == Word(delimiter + more.text, index - first + more.length)
  }

  lemma WordStarts(command: string, first: nat)
    requires first <= |command|
    ensures WordSoFar(command, first, first, [])
  {}

  lemma QuotedPiece(command: string, first: nat, from: nat, index: nat, delimiter: string)
    requires WordSoFar(command, first, from, delimiter) && from < |command| && IsQuote(command[from])
    requires from < index == from + 1 + QuoteLength(command[from + 1..], command[from])
    ensures WordSoFar(command, first, if index < |command| then index + 1 else index, delimiter + command[from + 1..index])
  {
    hide ReadWord, QuoteLength, EndsWord;
    NextPiece(command, from);
    assert command[from..][1..] == command[from + 1..];
    assert command[from + 1..][..index - from - 1] == command[from + 1..index];
  }

  lemma EscapedPiece(command: string, first: nat, index: nat, delimiter: string)
    requires WordSoFar(command, first, index, delimiter) && index + 1 < |command| && command[index] == '\\'
    ensures WordSoFar(command, first, index + 2, delimiter + [command[index + 1]])
  {
    hide ReadWord, QuoteLength, EndsWord;
    NextPiece(command, index);
  }

  lemma PlainPiece(command: string, first: nat, index: nat, delimiter: string)
    requires WordSoFar(command, first, index, delimiter) && index < |command|
    requires !IsQuote(command[index]) && !EndsWord(command[index]) && (command[index] == '\\' ==> index + 1 == |command|)
    ensures WordSoFar(command, first, index + 1, delimiter + [command[index]])
  {
    hide ReadWord, QuoteLength, EndsWord;
    NextPiece(command, index);
  }

  lemma WordEnds(command: string, start: nat, dash: nat, first: nat, index: nat, delimiter: string)
    requires WordSoFar(command, first, index, delimiter)
    requires index == |command| || Stops(command, index)
    requires start <= start + dash <= |command| && dash == (if start < |command| && command[start] == '-' then 1 else 0)
    requires first == start + dash + Blanks(command[start + dash..])
    ensures ReadOperator(command[start..]) == Operator(Doc(delimiter, dash == 1), index - start)
  {
    hide ReadWord, Blanks, QuoteLength, EndsWord;
    WordOfNothing();
    if index < |command| { NextPiece(command, index); }
    assert command[start..][dash..] == command[start + dash..];
    assert command[start..][first - start..] == command[first..];
  }

  lemma SkipBlank(command: string, index: nat)
    requires index <= |command|
    ensures Blanks(command[index..]) ==
            if index < |command| && (command[index] == ' ' || command[index] == '\t')
            then 1 + Blanks(command[index + 1..]) else 0
  {}

  lemma NextPiece(command: string, index: nat)
    requires index < |command|
    ensures var piece := ReadPiece(command[index..]);
            && index + piece.length <= |command|
            && ReadWord(command[index..]) ==
               (if piece.length == 0 then Word([], 0)
                else
                  var more := ReadWord(command[index + piece.length..]);
                  Word(piece.text + more.text, piece.length + more.length))
  {
    hide ReadPiece;
    var rest := command[index..];
    var n := ReadPiece(rest).length;
    assert rest[n..] == command[index + n..];
  }

  lemma WordOfNothing()
    ensures ReadWord([]) == Word([], 0)
  {}

  // ----- bodies -----

  function LineLength(text: string): (n: nat)
    ensures n <= |text|
    ensures forall i :: 0 <= i < n ==> text[i] != '\n'
    ensures n < |text| ==> text[n] == '\n'
  {
    if text == [] || text[0] == '\n' then 0 else 1 + LineLength(text[1..])
  }

  function AfterLine(text: string): string {
    if LineLength(text) < |text| then text[LineLength(text) + 1..] else []
  }

  function DropReturns(line: string): string {
    if line != [] && line[|line| - 1] == '\r' then DropReturns(line[..|line| - 1]) else line
  }

  function DropTabs(line: string): string {
    if line != [] && line[0] == '\t' then DropTabs(line[1..]) else line
  }

  predicate Closes(line: string, doc: Doc) {
    (if doc.stripTabs then DropTabs(DropReturns(line)) else DropReturns(line)) == doc.delimiter
  }

  /** What is left of `text` after the body of one heredoc and its closing line. */
  function AfterBody(text: string, doc: Doc): (r: string)
    ensures |r| <= |text|
    decreases |text|
  {
    if text == [] then []
    else if Closes(text[..LineLength(text)], doc) then AfterLine(text)
    else AfterBody(AfterLine(text), doc)
  }

  /** Bodies of several heredocs follow each other in the order of their operators. */
  function AfterBodies(text: string, docs: seq<Doc>): (r: string)
    ensures |r| <= |text|
    decreases |docs|
  {
    if docs == [] then text else AfterBodies(AfterBody(text, docs[0]), docs[1..])
  }

  // ----- scanning -----

  /** Inside single quotes, inside double quotes, and open parentheses of an arithmetic expansion. */
  datatype Mode = Mode(single: bool, double: bool, arith: nat)

  const PLAIN := Mode(false, false, 0)

  datatype Token = Token(length: nat, mode: Mode, doc: Option<Doc>)

  predicate LiveNewline(text: string, m: Mode) {
    text != [] && text[0] == '\n' && m == PLAIN
  }

  /** The next stretch of code, the mode after it, and the heredoc it announces. */
  function Lex(text: string, m: Mode): (t: Token)
    requires text != []
    ensures 1 <= t.length <= |text|
  {
    var c := text[0];
    if m.single then Token(1, m.(single := c != '\''), None)
    else if m.double then
      if c == '\\' && |text| > 1 then Token(2, m, None) else Token(1, m.(double := c != '"'), None)
    else if c == '\\' && |text| > 1 then Token(2, m, None)
    else if c == '\'' then Token(1, m.(single := true), None)
    else if c == '"' then Token(1, m.(double := true), None)
    else if m.arith > 0 then
      Token(1, m.(arith := if c == '(' then m.arith + 1 else if c == ')' then m.arith - 1 else m.arith), None)
    else if "((" <= text then Token(2, m.(arith := 2), None)
    else if "<<<" <= text then Token(3, m, None)
    else if "<<" <= text then
      var o := ReadOperator(text[2..]);
      Token(2 + o.length, m, if o.doc.delimiter == [] then None else Some(o.doc))
    else Token(1, m, None)
  }

  function Announced(t: Token): seq<Doc> {
    if t.doc.Some? then [t.doc.value] else []
  }

  /** The command without the bodies: all code stays, and after each live newline the bodies announced before it go. */
  function Strip(text: string, m: Mode, pending: seq<Doc>): string
    decreases |text|
  {
    if text == [] then []
    else if LiveNewline(text, m) then ['\n'] + Strip(AfterBodies(text[1..], pending), m, [])
    else
      var t := Lex(text, m);
      text[..t.length] + Strip(text[t.length..], t.mode, pending + Announced(t))
  }

  // ----- the scanner -----

  function Rest(command: string, index: nat): string {
    if index <= |command| then command[index..] else []
  }

  method SkipBodies(command: string, start: nat, pending: seq<Doc>) returns (index: nat)
    requires start <= |command|
    ensures start <= index <= |command| + 1
    ensures Rest(command, index) == AfterBodies(command[start..], pending)
  {
    hide AfterBody, AfterBodies;
    index := start;
    assert pending[0..] == pending;
    for k := 0 to |pending|
      invariant start <= index <= |command| + 1
      invariant AfterBodies(Rest(command, index), pending[k..]) == AfterBodies(command[start..], pending)
    {
      NextBody(Rest(command, index), pending, k);
      index := SkipBody(command, index, pending[k]);
    }
    assert pending[|pending|..] == [];
    NoBodies(Rest(command, index));
  }

  method SkipBody(command: string, start: nat, doc: Doc) returns (index: nat)
    requires start <= |command| + 1
    ensures start <= index <= |command| + 1
    ensures Rest(command, index) == AfterBody(Rest(command, start), doc)
  {
    hide AfterBody, Closes, LineLength;
    index := start;
    while index < |command|
      invariant start <= index <= |command| + 1
      invariant AfterBody(Rest(command, index), doc) == AfterBody(Rest(command, start), doc)
      decreases |command| + 1 - index
    {
      NextBodyLine(command, index, doc);
      var end := index + LineLength(command[index..]);
      var line := command[index..end];
      index := end + 1;
      if Closes(line, doc) { return; }
    }
    BodyOfNothing(doc);
  }

  lemma NextBody(text: string, pending: seq<Doc>, k: nat)
    requires k < |pending|
    ensures AfterBodies(text, pending[k..]) == AfterBodies(AfterBody(text, pending[k]), pending[k + 1..])
  {}

  lemma NextBodyLine(command: string, index: nat, doc: Doc)
    requires index < |command|
    ensures var end := index + LineLength(command[index..]);
            end <= |command| && AfterBody(command[index..], doc) ==
                                if Closes(command[index..end], doc) then Rest(command, end + 1) else AfterBody(Rest(command, end + 1), doc)
  {
    hide *;
    var text := command[index..];
    var n := LineLength(text);
    BodyStep(text, doc);
    assert text[..n] == command[index..index + n];
    RestAfterLine(command, index);
  }

  lemma BodyStep(text: string, doc: Doc)
    requires text != []
    ensures AfterBody(text, doc) ==
            if Closes(text[..LineLength(text)], doc) then AfterLine(text) else AfterBody(AfterLine(text), doc)
  {
    hide Closes, LineLength, AfterLine;
  }

  lemma RestAfterLine(command: string, index: nat)
    requires index < |command|
    ensures AfterLine(command[index..]) == Rest(command, index + LineLength(command[index..]) + 1)
  {
    hide LineLength;
    var text := command[index..];
    var n := LineLength(text);
    if n < |text| { TailOfTail(command, index, n + 1); }
  }

  lemma BodyOfNothing(doc: Doc)
    ensures AfterBody([], doc) == []
  {}

  lemma NoBodies(text: string)
    ensures AfterBodies(text, []) == text
  {}

  predicate HasOperator(command: string) {
    exists i :: 0 <= i < |command| - 1 && command[i] == '<' && command[i + 1] == '<'
  }

  method StripHeredocPayloads(command: string) returns (r: string)
    ensures r == Strip(command, PLAIN, [])
  {
    hide Lex, AfterBodies, ReadOperator, Scanned, HasOperator;
    if !HasOperator(command) {
      NoOperatorUnchanged(command, PLAIN);
      return command;
    }
    var live, pending, index, m := [], [], 0, PLAIN;
    ScanStarts(command);
    while index < |command|
      invariant 0 <= index <= |command| + 1 && Scanned(command, live, index, m, pending)
      decreases |command| + 1 - index
    {
      var rest := command[index..];
      if LiveNewline(rest, m) {
        var next := SkipBodies(command, index + 1, pending);
        NewlineStep(command, live, index, m, pending, next);
        live, index, pending := live + ['\n'], next, [];
      } else if m == PLAIN && "<<" <= rest && !("<<<" <= rest) {
        var end, delimiter, stripTabs := ParseHeredocDelimiter(command, index + 2);
        OperatorStep(command, live, index, pending, Doc(delimiter, stripTabs), end);
        live, index := live + command[index..end], end;
        if delimiter != [] { pending := pending + [Doc(delimiter, stripTabs)]; }
      } else {
        var t := Lex(rest, m);
        CodeStep(command, live, index, m, pending);
        live, index, m := live + command[index..index + t.length], index + t.length, t.mode;
      }
    }
    ScanEnds(command, live, index, m, pending);
    r := live;
  }

  /** `live` is what the scan kept of the command before `index`. */
  ghost predicate Scanned(command: string, live: string, index: nat, m: Mode, pending: seq<Doc>) {
    live + Strip(Rest(command, index), m, pending) == Strip(command, PLAIN, [])
  }

  lemma ScanStarts(command: string)
    ensures Scanned(command, [], 0, PLAIN, [])
  {}

  lemma ScanEnds(command: string, live: string, index: nat, m: Mode, pending: seq<Doc>)
    requires Scanned(command, live, index, m, pending) && index >= |command|
    ensures live == Strip(command, PLAIN, [])
  {}

  lemma NewlineStep(command: string, live: string, index: nat, m: Mode, pending: seq<Doc>, next: nat)
    requires Scanned(command, live, index, m, pending) && index < |command| && LiveNewline(command[index..], m)
    requires Rest(command, next) == AfterBodies(command[index + 1..], pending)
    ensures Scanned(command, live + ['\n'], next, m, [])
  {}

  lemma OperatorStep(command: string, live: string, index: nat, pending: seq<Doc>, doc: Doc, end: nat)
    requires Scanned(command, live, index, PLAIN, pending) && index + 2 <= end <= |command|
    requires "<<" <= command[index..] && !("<<<" <= command[index..])
    requires ReadOperator(command[index + 2..]) == Operator(doc, end - index - 2)
    ensures Scanned(command, live + command[index..end], end, PLAIN, if doc.delimiter == [] then pending else pending + [doc])
  {
    hide ReadOperator, Strip, AfterBodies, Scanned;
    var text := command[index..];
    assert text[2..] == command[index + 2..];
    assert text[0] == '<' && text[1] == '<';
    assert Lex(text, PLAIN) == Token(end - index, PLAIN, if doc.delimiter == [] then None else Some(doc));
    TokenStep(command, live, index, PLAIN, pending);
    assert pending + [] == pending;
  }

  lemma CodeStep(command: string, live: string, index: nat, m: Mode, pending: seq<Doc>)
    requires Scanned(command, live, index, m, pending) && index < |command|
    requires var text := command[index..]; !LiveNewline(text, m) && !(m == PLAIN && "<<" <= text && !("<<<" <= text))
    ensures var t := Lex(command[index..], m);
            Scanned(command, live + command[index..index + t.length], index + t.length, t.mode, pending)
  {
    hide ReadOperator, Strip, AfterBodies;
    TokenStep(command, live, index, m, pending);
    assert pending + [] == pending;
  }

  lemma StripToken(text: string, m: Mode, pending: seq<Doc>)
    requires text != [] && !LiveNewline(text, m)
    ensures var t := Lex(text, m);
            Strip(text, m, pending) == text[..t.length] + Strip(text[t.length..], t.mode, pending + Announced(t))
  {}

  lemma TokenStep(command: string, live: string, index: nat, m: Mode, pending: seq<Doc>)
    requires Scanned(command, live, index, m, pending) && index < |command| && !LiveNewline(command[index..], m)
    ensures var t := Lex(command[index..], m);
            Scanned(command, live + command[index..index + t.length], index + t.length, t.mode, pending + Announced(t))
  {
    hide Lex, Strip;
    var text := command[index..];
    var t := Lex(text, m);
    StripToken(text, m, pending);
    assert text[..t.length] == command[index..index + t.length] && text[t.length..] == command[index + t.length..];
    var more := Strip(text[t.length..], t.mode, pending + Announced(t));
    assert live + (text[..t.length] + more) == live + text[..t.length] + more;
  }

  /** A command whose `<<`s are all quoted, escaped or arithmetic stays as it is. */
  ghost predicate NoLiveOperator(text: string, m: Mode)
    decreases |text|
  {
    text == [] || (if LiveNewline(text, m) then NoLiveOperator(text[1..], m)
                   else Lex(text, m).doc.None? && NoLiveOperator(text[Lex(text, m).length..], Lex(text, m).mode))
  }

  lemma {:induction false} NoLiveOperatorUnchanged(text: string, m: Mode)
    requires NoLiveOperator(text, m)
    ensures Strip(text, m, []) == text
    decreases |text|
  {
    hide Lex;
    if text != [] {
      if LiveNewline(text, m) {
        NoLiveOperatorUnchanged(text[1..], m);
        NoBodies(text[1..]);
        assert ['\n'] + text[1..] == text;
      } else {
        var t := Lex(text, m);
        NoLiveOperatorUnchanged(text[t.length..], t.mode);
        assert text[..t.length] + text[t.length..] == text;
        assert Announced(t) == [] && [] + Announced(t) == [];
      }
    }
  }

  lemma {:induction false} NoOperatorUnchanged(text: string, m: Mode)
    requires !HasOperator(text)
    ensures NoLiveOperator(text, m) && Strip(text, m, []) == text
    decreases |text|
  {
    if text != [] {
      var live := LiveNewline(text, m);
      var t := Lex(text, m);
      TailHasNoOperator(text, if live then 1 else t.length);
      NoOperatorUnchanged(if live then text[1..] else text[t.length..], if live then m else t.mode);
      NoOperatorAhead(text);
      NoLiveOperatorUnchanged(text, m);
    } else {
      NoLiveOperatorUnchanged(text, m);
    }
  }

  lemma TailHasNoOperator(text: string, n: nat)
    requires !HasOperator(text) && n <= |text|
    ensures !HasOperator(text[n..])
  {}

  lemma NoOperatorAhead(text: string)
    requires !HasOperator(text)
    ensures !("<<" <= text)
  {
    if |text| > 1 {
      var i := 0;
      assert !(text[i] == '<' && text[i + 1] == '<');
    }
  }

  // ----- what a body is -----

  /**
   A body ends with the first line that is the delimiter, or with the input: `k` lines that do
   not close it, then the closing line if there is one, then what is left.
   */
  lemma {:induction false} BodyEndsAtDelimiter(text: string, doc: Doc) returns (k: nat)
    requires doc.delimiter != []
    ensures var lines := Split(text);
            && k <= |lines| && (forall i :: 0 <= i < k ==> !Closes(lines[i], doc))
            && (if k < |lines| then Closes(lines[k], doc) && AfterBody(text, doc) == Join(lines[k + 1..])
                else AfterBody(text, doc) == [])
    decreases |text|
  {
    hide Closes, Join, Split;
    var n := LineLength(text);
    var line, rest := text[..n], AfterLine(text);
    SplitAtLine(text);
    EmptyNeverCloses(doc);
    EmptySplits();
    var lines := Split(text);
    if text == [] {
      k := 1;
    } else if Closes(line, doc) {
      k := 0;
      if n < |text| { JoinSplit(rest); }
    } else if n == |text| {
      k := 1;
      BodyOfNothing(doc);
    } else {
      var j := BodyEndsAtDelimiter(rest, doc);
      k := j + 1;
      assert lines == [line] + Split(rest);
      if j < |Split(rest)| { assert lines[k + 1..] == Split(rest)[j + 1..]; }
    }
  }

  lemma SplitAtLine(text: string)
    ensures var n := LineLength(text);
            Split(text) == [text[..n]] + (if n < |text| then Split(AfterLine(text)) else [])
  {
    hide Split, LineLength;
    var n := LineLength(text);
    SplitLine(text[..n], AfterLine(text));
    if n < |text| { SplitText(text, n); } else { assert text[..n] == text; }
  }

  lemma SplitText(text: string, n: nat)
    requires n < |text| && text[n] == '\n'
    ensures text == text[..n] + "\n" + text[n + 1..]
  {}

  lemma EmptyNeverCloses(doc: Doc)
    requires doc.delimiter != []
    ensures !Closes([], doc)
  {}

  // ----- what is deleted -----

  /** A deleted stretch and the heredocs whose bodies it holds. */
  datatype Cut = Cut(from: nat, to: nat, docs: seq<Doc>)

  predicate Named(docs: seq<Doc>) {
    forall i :: 0 <= i < |docs| ==> docs[i].delimiter != []
  }

  ghost function Cuts(command: string, at: nat, m: Mode, pending: seq<Doc>): seq<Cut>
    requires at <= |command|
    decreases |command| - at
  {
    var text := command[at..];
    if text == [] then []
    else if LiveNewline(text, m) then
      var to := |command| - |AfterBodies(command[at + 1..], pending)|;
      [Cut(at + 1, to, pending)] + Cuts(command, to, m, [])
    else
      var t := Lex(text, m);
      Cuts(command, at + t.length, t.mode, pending + Announced(t))
  }

  function RemoveCuts(command: string, at: nat, cuts: seq<Cut>): string
    requires InOrder(command, at, cuts)
    decreases |cuts|
  {
    if cuts == [] then command[at..] else command[at..cuts[0].from] + RemoveCuts(command, cuts[0].to, cuts[1..])
  }

  predicate InOrder(command: string, at: nat, cuts: seq<Cut>)
    decreases |cuts|
  {
    at <= |command| && (cuts == [] || (at <= cuts[0].from <= cuts[0].to <= |command| && InOrder(command, cuts[0].to, cuts[1..])))
  }

  /** Whole lines, starting after a live newline: the bodies of `docs`, one after another. */
  ghost predicate WellCut(command: string, c: Cut) {
    && 0 < c.from <= c.to <= |command| && command[c.from - 1] == '\n'
    && (c.to == c.from || c.to == |command| || command[c.to - 1] == '\n')
    && command[c.to..] == AfterBodies(command[c.from..], c.docs) && Named(c.docs)
  }

  lemma {:induction false} AfterBodyIsTail(text: string, doc: Doc)
    ensures var n := |text| - |AfterBody(text, doc)|;
            AfterBody(text, doc) == text[n..] && (n == 0 || n == |text| || text[n - 1] == '\n')
    decreases |text|
  {
    hide Closes, LineLength, AfterLine;
    if text != [] {
      var n := AfterLineIsTail(text);
      if !Closes(text[..LineLength(text)], doc) {
        var rest := AfterLine(text);
        AfterBodyIsTail(rest, doc);
        TailOfTail(text, n, |rest| - |AfterBody(rest, doc)|);
      }
    }
  }

  lemma AfterLineIsTail(text: string) returns (n: nat)
    requires text != []
    ensures 0 < n <= |text| && AfterLine(text) == text[n..] && (n == |text| || text[n - 1] == '\n')
  {
    hide LineLength;
    n := if LineLength(text) < |text| then LineLength(text) + 1 else |text|;
  }

  lemma {:induction false} AfterBodiesIsTail(text: string, docs: seq<Doc>)
    ensures var n := |text| - |AfterBodies(text, docs)|;
            AfterBodies(text, docs) == text[n..] && (n == 0 || n == |text| || text[n - 1] == '\n')
    decreases |docs|
  {
    hide AfterBody;
    if docs != [] {
      AfterBodyIsTail(text, docs[0]);
      AfterBodiesIsTail(AfterBody(text, docs[0]), docs[1..]);
    }
  }

  /** Stripping removes exactly the cuts, and every cut is made of whole body lines. */
  lemma {:induction false} StripRemovesBodies(command: string, at: nat, m: Mode, pending: seq<Doc>)
    requires at <= |command| && Named(pending)
    ensures var cuts := Cuts(command, at, m, pending);
            && InOrder(command, at, cuts) && (forall k :: 0 <= k < |cuts| ==> WellCut(command, cuts[k]))
            && Strip(command[at..], m, pending) == RemoveCuts(command, at, cuts)
    decreases |command| - at
  {
    hide Lex, AfterBodies, WellCut, Named, LiveNewline, InOrder, RemoveCuts;
    var text := command[at..];
    if text == [] {
      NoCuts(command, at);
    } else if LiveNewline(text, m) {
      var to := OneCut(command, at, m, pending);
      StripRemovesBodies(command, to, m, []);
      ConsCut(command, at, Cut(at + 1, to, pending), Cuts(command, to, m, []));
      assert text[1..] == command[at + 1..];
    } else {
      var t := Lex(text, m);
      AnnouncedAreNamed(text, m, pending);
      StripRemovesBodies(command, at + t.length, t.mode, pending + Announced(t));
      assert text[t.length..] == command[at + t.length..] && text[..t.length] == command[at..at + t.length];
      KeepMore(command, at, at + t.length, Cuts(command, at + t.length, t.mode, pending + Announced(t)));
    }
  }

  lemma NoCuts(command: string, at: nat)
    requires at <= |command|
    ensures InOrder(command, at, []) && RemoveCuts(command, at, []) == command[at..]
    ensures Named([])
  {}

  lemma ConsCut(command: string, at: nat, c: Cut, cuts: seq<Cut>)
    requires at <= c.from <= c.to <= |command| && InOrder(command, c.to, cuts)
    ensures InOrder(command, at, [c] + cuts)
    ensures RemoveCuts(command, at, [c] + cuts) == command[at..c.from] + RemoveCuts(command, c.to, cuts)
  {}

  lemma OneCut(command: string, at: nat, m: Mode, pending: seq<Doc>) returns (to: nat)
    requires at < |command| && LiveNewline(command[at..], m) && Named(pending)
    ensures at < to <= |command| && to == |command| - |AfterBodies(command[at + 1..], pending)|
    ensures AfterBodies(command[at + 1..], pending) == command[to..] && command[at..at + 1] == ['\n']
    ensures WellCut(command, Cut(at + 1, to, pending)) && Named([])
  {
    hide AfterBodies;
    AfterBodiesIsTail(command[at + 1..], pending);
    var rest := command[at + 1..];
    var n := |rest| - |AfterBodies(rest, pending)|;
    to := at + 1 + n;
    TailOfTail(command, at + 1, n);
    assert command[at..][0] == command[at];
  }

  lemma TailOfTail(command: string, i: nat, n: nat)
    requires i + n <= |command|
    ensures command[i..][n..] == command[i + n..] && (n > 0 ==> command[i..][n - 1] == command[i + n - 1])
  {}

  lemma AnnouncedAreNamed(text: string, m: Mode, pending: seq<Doc>)
    requires text != [] && Named(pending)
    ensures Named(pending + Announced(Lex(text, m)))
  {}

  lemma KeepMore(command: string, at: nat, next: nat, cuts: seq<Cut>)
    requires at <= next && InOrder(command, next, cuts)
    ensures InOrder(command, at, cuts) && RemoveCuts(command, at, cuts) == command[at..next] + RemoveCuts(command, next, cuts)
  {
    hide *;
    FirstCut(command, next, cuts);
    NoCuts(command, at);
    if cuts == [] {
      Together(command, at, next, |command|);
    } else {
      var c, rest := cuts[0], cuts[1..];
      ConsCut(command, at, c, rest);
      Together(command, at, next, c.from);
    }
  }

  lemma FirstCut(command: string, at: nat, cuts: seq<Cut>)
    requires InOrder(command, at, cuts)
    ensures at <= |command|
    ensures cuts == [] ==> RemoveCuts(command, at, cuts) == command[at..|command|]
    ensures cuts != [] ==>
              var c, rest := cuts[0], cuts[1..];
              && cuts == [c] + rest && at <= c.from <= c.to <= |command| && InOrder(command, c.to, rest)
              && RemoveCuts(command, at, cuts) == command[at..c.from] + RemoveCuts(command, c.to, rest)
  {}

  lemma Together(command: string, i: nat, j: nat, k: nat)
    requires i <= j <= k <= |command|
    ensures command[i..k] == command[i..j] + command[j..k] && (k == |command| ==> command[i..k] == command[i..])
  {}

  /** The command comes back unchanged exactly when every body is empty. */
  lemma UnchangedExactly(command: string)
    ensures Strip(command, PLAIN, []) == command <==>
            forall k :: 0 <= k < |Cuts(command, 0, PLAIN, [])| ==>
                          Cuts(command, 0, PLAIN, [])[k].from == Cuts(command, 0, PLAIN, [])[k].to
  {
    StripRemovesBodies(command, 0, PLAIN, []);
    hide Strip, Cuts, WellCut;
    assert command[0..] == command;
    EmptyCuts(command, 0, Cuts(command, 0, PLAIN, []));
  }

  lemma {:induction false} EmptyCuts(command: string, at: nat, cuts: seq<Cut>)
    requires InOrder(command, at, cuts)
    ensures |RemoveCuts(command, at, cuts)| <= |command| - at
    ensures RemoveCuts(command, at, cuts) == command[at..] <==> forall k :: 0 <= k < |cuts| ==> cuts[k].from == cuts[k].to
    decreases |cuts|
  {
    if cuts != [] {
      var c := cuts[0];
      EmptyCuts(command, c.to, cuts[1..]);
      if c.from == c.to {
        assert command[at..] == command[at..c.from] + command[c.from..];
        var more := RemoveCuts(command, c.to, cuts[1..]);
        if RemoveCuts(command, at, cuts) == command[at..] {
          assert more == (command[at..c.from] + more)[c.from - at..] == command[at..][c.from - at..] == command[c.to..];
        }
      }
    }
  }

  // ----- a heredoc from end to end -----

  predicate Quiet(text: string) {
    forall c :: c in text ==> c != '\'' && c != '"' && c != '\\' && c != '(' && c != '<' && c != '\n'
  }

  predicate PlainWord(word: string) {
    word != [] && word[0] != '-' && forall c :: c in word ==> !IsQuote(c) && c != '\\' && !EndsWord(c)
  }

  function Render(body: seq<string>): string {
    if body == [] then [] else body[0] + "\n" + Render(body[1..])
  }

  lemma {:induction false} QuietStays(text: string, rest: string, pending: seq<Doc>)
    requires Quiet(text)
    ensures Strip(text + rest, PLAIN, pending) == text + Strip(rest, PLAIN, pending)
    decreases |text|
  {
    hide Lex, AfterBodies;
    if text == [] {
      assert text + rest == rest;
    } else {
      var all := text + rest;
      QuietHead(text, rest);
      QuietStays(text[1..], rest, pending);
      assert all[1..] == text[1..] + rest && all[..1] == [text[0]];
      assert pending + Announced(Lex(all, PLAIN)) == pending;
    }
  }

  lemma QuietHead(text: string, rest: string)
    requires Quiet(text) && text != []
    ensures Lex(text + rest, PLAIN) == Token(1, PLAIN, None) && !LiveNewline(text + rest, PLAIN) && Quiet(text[1..])
  {
    var all := text + rest;
    assert all[0] == text[0] && text[0] in text;
    forall c | c in text[1..] ensures c in text {}
  }

  lemma {:induction false} ReadPlainWord(word: string, rest: string)
    requires forall c :: c in word ==> !IsQuote(c) && c != '\\' && !EndsWord(c)
    requires rest != [] && EndsWord(rest[0]) && !IsQuote(rest[0]) && rest[0] != '\\'
    ensures ReadWord(word + rest) == Word(word, |word|)
    decreases |word|
  {
    hide EndsWord;
    if word == [] {
      assert word + rest == rest;
    } else {
      assert word[0] in word && (word + rest)[0] == word[0];
      forall c | c in word[1..] ensures c in word {}
      ReadPlainWord(word[1..], rest);
      assert (word + rest)[1..] == word[1..] + rest;
    }
  }

  lemma PlainOperator(word: string, rest: string)
    requires PlainWord(word) && rest != [] && EndsWord(rest[0])
    ensures ReadOperator(word + rest) == Operator(Doc(word, false), |word|)
  {
    hide ReadWord;
    var text := word + rest;
    assert text[0] == word[0] && word[0] in word;
    assert Blanks(text) == 0 && text[0..] == text;
    ReadPlainWord(word, rest);
  }

  lemma {:induction false} BodyVanishes(body: seq<string>, closing: string, after: string, doc: Doc)
    requires forall i :: 0 <= i < |body| ==> '\n' !in body[i] && !Closes(body[i], doc)
    requires '\n' !in closing && Closes(closing, doc)
    ensures AfterBody(Render(body) + closing + "\n" + after, doc) == after
    decreases |body|
  {
    hide *;
    RenderFirst(body, closing + "\n" + after);
    Assoc(Render(body), closing, "\n");
    Assoc(Render(body), closing + "\n", after);
    if body == [] {
      NextLineOfBody(closing, after, doc);
    } else {
      var rest := Render(body[1..]) + (closing + "\n" + after);
      Assoc(Render(body[1..]), closing, "\n");
      Assoc(Render(body[1..]), closing + "\n", after);
      NextLineOfBody(body[0], rest, doc);
      BodyVanishes(body[1..], closing, after, doc);
    }
  }

  lemma RenderFirst(body: seq<string>, rest: string)
    ensures Render(body) + rest == if body == [] then rest else body[0] + "\n" + (Render(body[1..]) + rest)
  {
    hide *;
    RenderStep(body);
    if body != [] {
      Assoc(body[0] + "\n", Render(body[1..]), rest);
    } else {
      assert [] + rest == rest;
    }
  }

  lemma RenderStep(body: seq<string>)
    ensures Render(body) == if body == [] then [] else body[0] + "\n" + Render(body[1..])
  {}

  lemma Assoc(a: string, b: string, c: string)
    ensures a + b + c == a + (b + c)
  {}

  lemma NextLineOfBody(line: string, rest: string, doc: Doc)
    requires '\n' !in line
    ensures AfterBody(line + "\n" + rest, doc) == if Closes(line, doc) then rest else AfterBody(rest, doc)
  {
    hide Closes, LineLength, AfterLine;
    FirstLineOf(line, rest);
  }

  lemma FirstLineOf(line: string, rest: string)
    requires '\n' !in line
    ensures var text := line + "\n" + rest; LineLength(text) == |line| && text[..|line|] == line && AfterLine(text) == rest
  {
    var text := line + "\n" + rest;
    hide LineLength;
    assert text[|line|] == '\n';
    assert forall i :: 0 <= i < |line| ==> text[i] == line[i] && line[i] in line;
    var n := LineLength(text);
    assert n == |line|;
  }

  /** Of a heredoc, the operator's whole line stays, the body and its closing line go, and what follows is code again. */
  lemma HeredocBodyVanishes(lead: string, word: string, tail: string, body: seq<string>, closing: string, after: string)
    requires Quiet(lead) && PlainWord(word) && Quiet(tail) && (tail == [] || EndsWord(tail[0]))
    requires forall i :: 0 <= i < |body| ==> '\n' !in body[i] && !Closes(body[i], Doc(word, false))
    requires '\n' !in closing && Closes(closing, Doc(word, false))
    ensures Strip(lead + "<<" + word + tail + "\n" + Render(body) + closing + "\n" + after, PLAIN, []) ==
            lead + "<<" + word + tail + "\n" + Strip(after, PLAIN, [])
  {
    hide Strip, Quiet, PlainWord, EndsWord, Closes, AfterBody, AfterBodies, Render;
    var doc := Doc(word, false);
    var bodies := Render(body) + closing + "\n" + after;
    var line := tail + "\n" + bodies;
    var op := "<<" + word + line;
    assert lead + "<<" + word + tail + "\n" + Render(body) + closing + "\n" + after == lead + op;
    QuietStays(lead, op, []);
    OperatorKept(word, line, tail == []);
    QuietStays(tail, "\n" + bodies, [doc]);
    assert line == tail + ("\n" + bodies);
    NewlineDrops(bodies, doc);
    BodyVanishes(body, closing, after, doc);
    assert lead + ("<<" + word + (tail + (['\n'] + Strip(after, PLAIN, [])))) ==
           lead + "<<" + word + tail + "\n" + Strip(after, PLAIN, []);
  }

  lemma OperatorKept(word: string, line: string, newline: bool)
    requires PlainWord(word) && line != [] && (newline ==> line[0] == '\n') && (!newline ==> EndsWord(line[0]))
    ensures Strip("<<" + word + line, PLAIN, []) == "<<" + word + Strip(line, PLAIN, [Doc(word, false)])
  {
    hide Lex, AfterBodies, PlainWord, EndsWord;
    var text := "<<" + word + line;
    LexOperator(word, line, newline);
    var t := Lex(text, PLAIN);
    assert text[0] == '<';
    assert text[..t.length] == "<<" + word && text[t.length..] == line;
    assert [] + Announced(t) == [Doc(word, false)];
  }

  lemma LexOperator(word: string, line: string, newline: bool)
    requires PlainWord(word) && line != [] && (newline ==> line[0] == '\n') && (!newline ==> EndsWord(line[0]))
    ensures Lex("<<" + word + line, PLAIN) == Token(2 + |word|, PLAIN, Some(Doc(word, false)))
  {
    hide ReadOperator, ReadWord;
    var text := "<<" + word + line;
    assert text[2..] == word + line && text[2] == word[0] && word[0] in word;
    PlainOperator(word, line);
  }

  lemma NewlineDrops(bodies: string, doc: Doc)
    ensures Strip("\n" + bodies, PLAIN, [doc]) == ['\n'] + Strip(AfterBody(bodies, doc), PLAIN, [])
  {
    var text := "\n" + bodies;
    assert text[1..] == bodies;
    hide AfterBody;
    assert AfterBodies(bodies, [doc]) == AfterBodies(AfterBody(bodies, doc), []);
  }
}
