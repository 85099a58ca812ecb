/**
 What stripping does to text a reader can recognise: quoted and escaped stretches, arithmetic,
 here-strings, and heredocs in all their spellings.  None of it mentions how the scanner reads.
 */
module HeredocLaws {
  import opened Prelude
  import opened Heredoc

  /** Outside quotes. */
  predicate Open(m: Mode) {
    !m.single && !m.double
  }

  lemma StepOver(text: string, n: nat, m: Mode, m': Mode, pending: seq<Doc>)
    requires n <= |text| && text != [] && !LiveNewline(text, m) && Lex(text, m) == Token(n, m', None)
    ensures Strip(text, m, pending) == text[..n] + Strip(text[n..], m', pending)
  {
    hide Lex, Strip;
    StripToken(text, m, pending);
    assert pending + [] == pending;
  }

  // ----- single quotes -----

  /** `q` followed by the closing quote, from inside the quotes. */
  lemma {:induction false} InSingleQuotes(q: string, rest: string, m: Mode, pending: seq<Doc>)
    requires '\'' !in q && Open(m)
    ensures Strip(q + "'" + rest, m.(single := true), pending) == q + "'" + Strip(rest, m, pending)
    decreases |q|
  {
    hide Strip;
    var text := q + "'" + rest;
    if q == [] {
      assert text == ['\''] + rest && text[1..] == rest && text[..1] == "'";
      StepOver(text, 1, m.(single := true), m, pending);
    } else {
      assert q[0] in q && text[0] == q[0];
      assert text[1..] == q[1..] + "'" + rest && text[..1] == [q[0]];
      StepOver(text, 1, m.(single := true), m.(single := true), pending);
      InSingleQuotes(q[1..], rest, m, pending);
      Prepend(q, "'" + Strip(rest, m, pending));
      Assoc(q[1..], "'", Strip(rest, m, pending));
      Assoc(q, "'", Strip(rest, m, pending));
    }
  }

  lemma Prepend(q: string, rest: string)
    requires q != []
    ensures [q[0]] + (q[1..] + rest) == q + rest
  {}

  /** A single-quoted stretch stays, whatever it holds, and announces nothing. */
  lemma SingleQuoted(q: string, rest: string, m: Mode, pending: seq<Doc>)
    requires '\'' !in q && Open(m)
    ensures Strip("'" + q + "'" + rest, m, pending) == "'" + q + "'" + Strip(rest, m, pending)
  {
    hide Strip;
    var text := "'" + (q + "'" + rest);
    assert "'" + q + "'" + rest == text;
    assert text[0] == '\'' && text[1..] == q + "'" + rest && text[..1] == "'";
    StepOver(text, 1, m, m.(single := true), pending);
    InSingleQuotes(q, rest, m, pending);
    assert "'" + (q + "'" + Strip(rest, m, pending)) == "'" + q + "'" + Strip(rest, m, pending);
  }

  // ----- double quotes -----

  /** Text between double quotes: a quote or a backslash occurs only after a backslash. */
  predicate Quotable(q: string) {
    q == [] || (if q[0] == '\\' then |q| > 1 && Quotable(q[2..]) else q[0] != '"' && Quotable(q[1..]))
  }

  lemma {:induction false} InDoubleQuotes(q: string, rest: string, m: Mode, pending: seq<Doc>)
    requires Quotable(q) && Open(m)
    ensures Strip(q + "\"" + rest, m.(double := true), pending) == q + "\"" + Strip(rest, m, pending)
    decreases |q|
  {
    hide Strip;
    var text := q + "\"" + rest;
    var inside := m.(double := true);
    if q == [] {
      assert text == ['"'] + rest && text[1..] == rest && text[..1] == "\"";
      StepOver(text, 1, inside, m, pending);
    } else {
      var n := if q[0] == '\\' then 2 else 1;
      assert text[0] == q[0] && text[n..] == q[n..] + "\"" + rest && text[..n] == q[..n];
      StepOver(text, n, inside, inside, pending);
      InDoubleQuotes(q[n..], rest, m, pending);
      Glue(q, n, "\"", Strip(rest, m, pending));
    }
  }

  lemma Glue(q: string, n: nat, a: string, b: string)
    requires n <= |q|
    ensures q[..n] + (q[n..] + a + b) == q + a + b
  {
    assert q == q[..n] + q[n..];
  }

  lemma DoubleQuoted(q: string, rest: string, m: Mode, pending: seq<Doc>)
    requires Quotable(q) && Open(m)
    ensures Strip("\"" + q + "\"" + rest, m, pending) == "\"" + q + "\"" + Strip(rest, m, pending)
  {
    hide Strip;
    var text := "\"" + (q + "\"" + rest);
    assert "\"" + q + "\"" + rest == text;
    assert text[0] == '"' && text[1..] == q + "\"" + rest && text[..1] == "\"";
    StepOver(text, 1, m, m.(double := true), pending);
    InDoubleQuotes(q, rest, m, pending);
    assert "\"" + (q + "\"" + Strip(rest, m, pending)) == "\"" + q + "\"" + Strip(rest, m, pending);
  }

  // ----- escapes, here-strings, lone brackets -----

  /** A backslash takes the next character out of the game, a newline included. */
  lemma Escaped(c: char, rest: string, m: Mode, pending: seq<Doc>)
    requires Open(m)
    ensures Strip(['\\', c] + rest, m, pending) == ['\\', c] + Strip(rest, m, pending)
  {
    hide Strip;
    var text := ['\\', c] + rest;
    assert text[0] == '\\' && text[2..] == rest && text[..2] == ['\\', c];
    StepOver(text, 2, m, m, pending);
  }

  lemma HereString(rest: string, pending: seq<Doc>)
    ensures Strip("<<<" + rest, PLAIN, pending) == "<<<" + Strip(rest, PLAIN, pending)
  {
    hide Strip;
    var text := "<<<" + rest;
    assert text[0] == '<' && text[3..] == rest && text[..3] == "<<<" && "<<<" <= text;
    StepOver(text, 3, PLAIN, PLAIN, pending);
  }

  /** One bracket by itself is code like any other character. */
  lemma LoneBracket(c: char, rest: string, pending: seq<Doc>)
    requires (c == '(' || c == '<') && (rest == [] || rest[0] != c)
    ensures Strip([c] + rest, PLAIN, pending) == [c] + Strip(rest, PLAIN, pending)
  {
    hide Strip;
    var text := [c] + rest;
    assert text[0] == c && text[1..] == rest && text[..1] == [c];
    assert rest != [] ==> text[1] == rest[0];
    StepOver(text, 1, PLAIN, PLAIN, pending);
  }

  /** So is every character without a meaning of its own. */
  lemma Ordinary(c: char, rest: string, pending: seq<Doc>)
    requires c !in ['\\', '\'', '"', '(', '<', '\n']
    ensures Strip([c] + rest, PLAIN, pending) == [c] + Strip(rest, PLAIN, pending)
  {
    hide Strip;
    var text := [c] + rest;
    assert text[0] == c && text[1..] == rest && text[..1] == [c];
    StepOver(text, 1, PLAIN, PLAIN, pending);
  }

  // ----- arithmetic -----

  /** Plain text that, starting `depth` deep in parentheses, never gets out of them. */
  predicate Enclosed(text: string, depth: nat) {
    text == [] ||
    (&& depth > 0 && text[0] != '\'' && text[0] != '"' && text[0] != '\\'
     && Enclosed(text[1..], Deeper(text[0], depth)))
  }

  function Deeper(c: char, depth: nat): nat {
    if c == '(' then depth + 1 else if c == ')' && depth > 0 then depth - 1 else depth
  }

  /** How deep one is after it. */
  function DepthAfter(text: string, depth: nat): nat {
    if text == [] then depth else DepthAfter(text[1..], Deeper(text[0], depth))
  }

  lemma {:induction false} InArithmetic(a: string, rest: string, depth: nat, pending: seq<Doc>)
    requires Enclosed(a, depth)
    ensures Strip(a + rest, PLAIN.(arith := depth), pending) == a + Strip(rest, PLAIN.(arith := DepthAfter(a, depth)), pending)
    decreases |a|
  {
    hide Strip;
    if a == [] {
      assert a + rest == rest;
    } else {
      var text := a + rest;
      assert text[0] == a[0] && text[1..] == a[1..] + rest && text[..1] == [a[0]];
      StepOver(text, 1, PLAIN.(arith := depth), PLAIN.(arith := Deeper(a[0], depth)), pending);
      InArithmetic(a[1..], rest, Deeper(a[0], depth), pending);
      Prepend(a, Strip(rest, PLAIN.(arith := DepthAfter(a, depth)), pending));
    }
  }

  /** A balanced `((...))` stays, `<<` in it being a shift. */
  lemma Arithmetic(a: string, rest: string, pending: seq<Doc>)
    requires Enclosed(a, 2) && DepthAfter(a, 2) == 2
    ensures Strip("((" + a + "))" + rest, PLAIN, pending) == "((" + a + "))" + Strip(rest, PLAIN, pending)
  {
    hide Strip;
    var text := "((" + (a + ("))" + rest));
    assert "((" + a + "))" + rest == text;
    assert text[0] == '(' && text[2..] == a + ("))" + rest) && text[..2] == "((" && "((" <= text;
    StepOver(text, 2, PLAIN, PLAIN.(arith := 2), pending);
    InArithmetic(a, "))" + rest, 2, pending);
    ClosesBoth();
    InArithmetic("))", rest, 2, pending);
    assert "((" + (a + ("))" + Strip(rest, PLAIN, pending))) == "((" + a + "))" + Strip(rest, PLAIN, pending);
  }

  lemma ClosesBoth()
    ensures Enclosed("))", 2) && DepthAfter("))", 2) == 0
  {
    assert "))"[1..] == ")" && ")"[1..] == "";
    assert Enclosed("", 0) && Enclosed(")", 1) && DepthAfter("", 0) == 0 && DepthAfter(")", 1) == 0;
  }

  // ----- the closing line -----

  predicate AllOf(s: string, c: char) {
    forall i :: 0 <= i < |s| ==> s[i] == c
  }

  /** A delimiter line may end in carriage returns, and after `<<-` start with tabs. */
  lemma ClosingLine(tabs: string, word: string, crs: string, dash: bool)
    requires AllOf(tabs, '\t') && AllOf(crs, '\r') && word != [] && word[0] != '\t' && word[|word| - 1] != '\r'
    ensures Closes(tabs + word + crs, Doc(word, dash)) <==> dash || tabs == []
  {
    ReturnsDropped(tabs + word, crs);
    TabsDropped(tabs, word);
    if tabs != [] { assert |tabs + word| > |word|; } else { assert tabs + word == word; }
  }

  lemma {:induction false} ReturnsDropped(line: string, crs: string)
    requires AllOf(crs, '\r') && line != [] && line[|line| - 1] != '\r'
    ensures DropReturns(line + crs) == line
    decreases |crs|
  {
    var all := line + crs;
    if crs == [] {
      assert all == line;
    } else {
      var n := |crs| - 1;
      assert all[|all| - 1] == crs[n] && all[..|all| - 1] == line + crs[..n];
      ReturnsDropped(line, crs[..n]);
    }
  }

  lemma {:induction false} TabsDropped(tabs: string, word: string)
    requires AllOf(tabs, '\t') && word != [] && word[0] != '\t'
    ensures DropTabs(tabs + word) == word
    decreases |tabs|
  {
    if tabs == [] {
      assert tabs + word == word;
    } else {
      assert (tabs + word)[0] == tabs[0] && (tabs + word)[1..] == tabs[1..] + word;
      TabsDropped(tabs[1..], word);
    }
  }

  // ----- the delimiter word -----

  datatype Quoting = Bare | Single | Double | Backslash

  /** How a delimiter may be written after the operator. */
  function Spell(word: string, how: Quoting): string {
    match how
    case Bare => word
    case Single => "'" + word + "'"
    case Double => "\"" + word + "\""
    case Backslash => "\\" + word
  }

  predicate PlainLetters(word: string) {
    forall c :: c in word ==> !IsQuote(c) && c != '\\' && !EndsWord(c)
  }

  predicate Spellable(word: string, how: Quoting) {
    && word != []
    && match how
       case Bare => word[0] != '-' && PlainLetters(word)
       case Single => '\'' !in word
       case Double => '"' !in word
       case Backslash => PlainLetters(word[1..])
  }

  /** However it is written, the word is read as itself. */
  lemma SpellingIsRead(word: string, how: Quoting, rest: string)
    requires Spellable(word, how) && rest != [] && EndsWord(rest[0]) && !IsQuote(rest[0]) && rest[0] != '\\'
    ensures ReadWord(Spell(word, how) + rest) == Word(word, |Spell(word, how)|)
  {
    hide ReadWord, EndsWord;
    match how
    case Bare => ReadPlainWord(word, rest);
    case Single => QuotedIsRead('\'', word, rest);
    case Double => QuotedIsRead('"', word, rest);
    case Backslash =>
      var text := "\\" + word + rest;
      ReadPlainWord(word[1..], rest);
      assert text[0] == '\\' && text[1] == word[0] && text[2..] == word[1..] + rest;
      PieceThenWord(text);
      assert [word[0]] + word[1..] == word;
  }

  lemma QuotedIsRead(q: char, word: string, rest: string)
    requires IsQuote(q) && q !in word && rest != [] && EndsWord(rest[0]) && !IsQuote(rest[0]) && rest[0] != '\\'
    ensures ReadWord([q] + word + [q] + rest) == Word(word, |word| + 2)
  {
    hide ReadWord, EndsWord, ReadPiece;
    var text := [q] + word + [q] + rest;
    QuotedPieceOf(q, word, rest);
    Ends(q, word, rest);
    PieceThenWord(text);
    ReadPlainWord([], rest);
    assert [] + rest == rest && word + [] == word;
  }

  lemma QuotedPieceOf(q: char, word: string, rest: string)
    requires IsQuote(q) && q !in word
    ensures ReadPiece([q] + word + [q] + rest) == Word(word, |word| + 2)
  {
    hide EndsWord, QuoteLength;
    Ends(q, word, rest);
    QuoteEnds(q, word, rest);
  }

  lemma Ends(q: char, word: string, rest: string)
    ensures var text := [q] + word + [q] + rest;
            && text[0] == q && text[1..] == word + [q] + rest && text[1..][..|word|] == word && text[|word| + 2..] == rest
  {}

  lemma {:induction false} QuoteEnds(q: char, word: string, rest: string)
    requires q !in word
    ensures QuoteLength(word + [q] + rest, q) == |word|
    decreases |word|
  {
    var text := word + [q] + rest;
    if word == [] {
      assert text[0] == q;
    } else {
      assert text[0] == word[0] && word[0] in word && text[1..] == word[1..] + [q] + rest;
      QuoteEnds(q, word[1..], rest);
    }
  }

  lemma PieceThenWord(text: string)
    requires text != [] && ReadPiece(text).length > 0
    ensures var piece := ReadPiece(text);
            var more := ReadWord(text[piece.length..]);
            ReadWord(text) == Word(piece.text + more.text, piece.length + more.length)
  {
    hide ReadPiece;
  }

  /** The operator with its optional dash and blanks. */
  lemma OperatorIsRead(dash: bool, gap: string, word: string, how: Quoting, rest: string)
    requires forall i :: 0 <= i < |gap| ==> gap[i] == ' ' || gap[i] == '\t'
    requires Spellable(word, how) && rest != [] && EndsWord(rest[0]) && !IsQuote(rest[0]) && rest[0] != '\\'
    ensures var op := (if dash then "-" else "") + gap + Spell(word, how);
            ReadOperator(op + rest) == Operator(Doc(word, dash), |op|)
  {
    hide ReadWord, EndsWord, ReadOperator, Spell;
    SpellingStarts(word, how, rest);
    SpellingIsRead(word, how, rest);
    BeforeWord(dash, gap, Spell(word, how) + rest);
    var start := (if dash then "-" else "") + gap;
    assert start + Spell(word, how) + rest == start + (Spell(word, how) + rest);
  }

  lemma BeforeWord(dash: bool, gap: string, rest: string)
    requires forall i :: 0 <= i < |gap| ==> gap[i] == ' ' || gap[i] == '\t'
    requires rest != [] && rest[0] != ' ' && rest[0] != '\t' && rest[0] != '-'
    ensures var start := (if dash then "-" else "") + gap;
            ReadOperator(start + rest) == Operator(Doc(ReadWord(rest).text, dash), |start| + ReadWord(rest).length)
  {
    hide ReadWord, Blanks;
    var text := (if dash then "-" else "") + gap + rest;
    BlanksBefore(gap, rest);
    var d := if dash then 1 else 0;
    assert text[d..] == gap + rest && text[d + |gap|..] == rest;
    assert !dash ==> text[0] != '-';
  }

  lemma SpellingStarts(word: string, how: Quoting, rest: string)
    requires Spellable(word, how)
    ensures var s := Spell(word, how) + rest; s != [] && s[0] != ' ' && s[0] != '\t' && s[0] != '-'
  {
    assert word[0] in word;
  }

  lemma {:induction false} BlanksBefore(gap: string, rest: string)
    requires forall i :: 0 <= i < |gap| ==> gap[i] == ' ' || gap[i] == '\t'
    requires rest != [] && rest[0] != ' ' && rest[0] != '\t'
    ensures Blanks(gap + rest) == |gap|
    decreases |gap|
  {
    if gap == [] {
      assert gap + rest == rest;
    } else {
      assert (gap + rest)[0] == gap[0] && (gap + rest)[1..] == gap[1..] + rest;
      BlanksBefore(gap[1..], rest);
    }
  }

  /** What ends a word among the ASCII characters. */
  lemma WordCharacters(c: char)
    requires c as int < 0x80
    ensures EndsWord(c) <==>
            c in [' ', '\t', '\n', '\r', '\U{0B}', '\U{0C}', '\U{1C}', '\U{1D}', '\U{1E}', '\U{1F}', ';', '&', '|', '<', '>', '(', ')']
  {}

  // ----- words written in several ways at once -----

  datatype Part = Part(text: string, how: Quoting)

  predicate ProperPart(p: Part) {
    match p.how
    case Bare => PlainLetters(p.text)
    case Single => '\'' !in p.text
    case Double => '"' !in p.text
    case Backslash => |p.text| == 1
  }

  function SpellAll(parts: seq<Part>): string {
    if parts == [] then [] else Spell(parts[0].text, parts[0].how) + SpellAll(parts[1..])
  }

  function WordOf(parts: seq<Part>): string {
    if parts == [] then [] else parts[0].text + WordOf(parts[1..])
  }

  /** A word is its parts with the quotes taken off. */
  lemma {:induction false} PartsAreRead(parts: seq<Part>, rest: string)
    requires forall i :: 0 <= i < |parts| ==> ProperPart(parts[i])
    requires rest == [] || (EndsWord(rest[0]) && !IsQuote(rest[0]) && rest[0] != '\\')
    ensures ReadWord(SpellAll(parts) + rest) == Word(WordOf(parts), |SpellAll(parts)|)
    decreases |parts|
  {
    hide ReadWord, ProperPart, EndsWord, Spell;
    if parts == [] {
      assert SpellAll(parts) + rest == rest;
      NoWordHere(rest);
    } else {
      var tail := SpellAll(parts[1..]) + rest;
      PartsAreRead(parts[1..], rest);
      PartIsRead(parts[0], tail);
      assert SpellAll(parts) + rest == Spell(parts[0].text, parts[0].how) + tail;
    }
  }

  lemma NoWordHere(rest: string)
    requires rest == [] || (EndsWord(rest[0]) && !IsQuote(rest[0]) && rest[0] != '\\')
    ensures ReadWord(rest) == Word([], 0)
  {}

  lemma PartIsRead(p: Part, tail: string)
    requires ProperPart(p)
    ensures var more := ReadWord(tail);
            var spelled := Spell(p.text, p.how);
            ReadWord(spelled + tail) == Word(p.text + more.text, |spelled| + more.length)
  {
    hide ReadWord, EndsWord, ReadPiece;
    match p.how
    case Bare => LettersAreRead(p.text, tail);
    case Single =>
      QuotedPieceOf('\'', p.text, tail);
      Ends('\'', p.text, tail);
      PieceThenWord("'" + p.text + "'" + tail);
    case Double =>
      QuotedPieceOf('"', p.text, tail);
      Ends('"', p.text, tail);
      PieceThenWord("\"" + p.text + "\"" + tail);
    case Backslash =>
      EscapeIsRead(p.text[0], tail);
      assert p.text == [p.text[0]];
      assert "\\" + p.text + tail == ['\\', p.text[0]] + tail;
  }

  lemma EscapeIsRead(c: char, tail: string)
    ensures var more := ReadWord(tail);
            ReadWord(['\\', c] + tail) == Word([c] + more.text, 2 + more.length)
  {
    hide ReadWord, EndsWord;
    var text := ['\\', c] + tail;
    assert text[0] == '\\' && text[1] == c && text[2..] == tail;
    PieceThenWord(text);
  }

  lemma {:induction false} LettersAreRead(word: string, tail: string)
    requires PlainLetters(word)
    ensures var more := ReadWord(tail); ReadWord(word + tail) == Word(word + more.text, |word| + more.length)
    decreases |word|
  {
    hide ReadWord, EndsWord;
    if word == [] {
      assert word + tail == tail;
    } else {
      var text := word + tail;
      assert word[0] in word && text[0] == word[0] && text[1..] == word[1..] + tail;
      LettersAreRead(word[1..], tail);
      PieceThenWord(text);
      assert [word[0]] + (word[1..] + ReadWord(tail).text) == word + ReadWord(tail).text;
    }
  }

  /** A quote that is never closed takes the rest of the command. */
  lemma UnclosedQuote(q: char, word: string)
    requires IsQuote(q) && q !in word
    ensures ReadWord([q] + word) == Word(word, |word| + 1)
  {
    hide ReadWord, QuoteLength, EndsWord;
    var text := [q] + word;
    assert text[0] == q && text[1..] == word;
    var n := QuoteLength(word, q);
    assert forall i :: 0 <= i < |word| ==> word[i] in word;
    assert n == |word|;
    assert word[..n] == word;
    PieceThenWord(text);
    assert text[|word| + 1..] == [];
    NoWordHere([]);
  }

  /** `<<` without a word announces nothing. */
  lemma NoWord(dash: bool, gap: string, rest: string, pending: seq<Doc>)
    requires forall i :: 0 <= i < |gap| ==> gap[i] == ' ' || gap[i] == '\t'
    requires rest != [] && rest[0] in ['\n', ';', '&', '|', '>', '(', ')']
    ensures var op := "<<" + ((if dash then "-" else "") + gap);
            Strip(op + rest, PLAIN, pending) == op + Strip(rest, PLAIN, pending)
  {
    hide Strip, ReadWord, ReadOperator;
    var op := (if dash then "-" else "") + gap;
    var text := "<<" + op + rest;
    BeforeWord(dash, gap, rest);
    NoWordHere(rest);
    assert text[2..] == op + rest;
    assert text[2] == (op + rest)[0] != '<';
    assert text[0] == '<' && text[1] == '<';
    StepOver(text, 2 + |op|, PLAIN, PLAIN, pending);
    assert text[..2 + |op|] == "<<" + op && text[2 + |op|..] == rest;
  }

  // ----- whole heredocs -----

  /** The written operator: `<<`, an optional dash, blanks and the delimiter. */
  function Written(dash: bool, gap: string, word: string, how: Quoting): string {
    "<<" + ((if dash then "-" else "") + gap + Spell(word, how))
  }

  predicate WellWritten(gap: string, word: string, how: Quoting) {
    Spellable(word, how) && forall i :: 0 <= i < |gap| ==> gap[i] == ' ' || gap[i] == '\t'
  }

  predicate StartsAfterWord(line: string) {
    line != [] && EndsWord(line[0]) && !IsQuote(line[0]) && line[0] != '\\' && line[0] != '<'
  }

  /** An operator stays, and announces its delimiter. */
  lemma WrittenIsKept(dash: bool, gap: string, word: string, how: Quoting, line: string, pending: seq<Doc>)
    requires WellWritten(gap, word, how) && StartsAfterWord(line)
    ensures Strip(Written(dash, gap, word, how) + line, PLAIN, pending) ==
            Written(dash, gap, word, how) + Strip(line, PLAIN, pending + [Doc(word, dash)])
  {
    hide Strip, EndsWord, ReadOperator, AfterBodies, Spell;
    var op := (if dash then "-" else "") + gap + Spell(word, how);
    var text := "<<" + op + line;
    OperatorIsRead(dash, gap, word, how, line);
    NotHereString(dash, gap, word, how, line);
    assert text[0] == '<' && text[2..] == op + line && "<<" <= text;
    var t := Lex(text, PLAIN);
    assert t == Token(2 + |op|, PLAIN, Some(Doc(word, dash)));
    StripToken(text, PLAIN, pending);
    assert text[..t.length] == "<<" + op && text[t.length..] == line;
  }

  lemma NotHereString(dash: bool, gap: string, word: string, how: Quoting, line: string)
    requires WellWritten(gap, word, how)
    ensures !("<<<" <= "<<" + ((if dash then "-" else "") + gap + Spell(word, how)) + line)
  {
    hide EndsWord;
    var op := (if dash then "-" else "") + gap + Spell(word, how);
    SpellingNotAngle(word, how);
    assert op[0] != '<';
    assert ("<<" + op + line)[2] == op[0];
  }

  lemma SpellingNotAngle(word: string, how: Quoting)
    requires Spellable(word, how)
    ensures Spell(word, how) != [] && Spell(word, how)[0] != '<'
  {
    assert word[0] in word;
    assert EndsWord('<');
  }

  /** A body with the line that closes it. */
  datatype Body = Body(lines: seq<string>, closing: string)

  ghost predicate BodyOf(b: Body, doc: Doc) {
    && (forall i :: 0 <= i < |b.lines| ==> '\n' !in b.lines[i] && !Closes(b.lines[i], doc))
    && '\n' !in b.closing && Closes(b.closing, doc)
  }

  function RenderAll(bodies: seq<Body>): string {
    if bodies == [] then [] else Render(bodies[0].lines) + bodies[0].closing + "\n" + RenderAll(bodies[1..])
  }

  /** Bodies follow each other in the order of their operators, and all of them go. */
  lemma {:induction false} BodiesVanish(docs: seq<Doc>, bodies: seq<Body>, after: string)
    requires |docs| == |bodies| && forall i :: 0 <= i < |docs| ==> BodyOf(bodies[i], docs[i])
    ensures AfterBodies(RenderAll(bodies) + after, docs) == after
    decreases |docs|
  {
    hide AfterBody, Render, Closes;
    if docs == [] {
      assert RenderAll(bodies) + after == after;
    } else {
      var b := bodies[0];
      var rest := RenderAll(bodies[1..]) + after;
      assert BodyOf(b, docs[0]);
      assert RenderAll(bodies) + after == Render(b.lines) + b.closing + "\n" + rest;
      BodyVanishes(b.lines, b.closing, rest, docs[0]);
      BodiesVanish(docs[1..], bodies[1..], after);
    }
  }

  /** At the end of a live line, the bodies announced on it go and what follows is code again. */
  lemma LineEndDropsBodies(docs: seq<Doc>, bodies: seq<Body>, after: string)
    requires |docs| == |bodies| && forall i :: 0 <= i < |docs| ==> BodyOf(bodies[i], docs[i])
    ensures Strip("\n" + RenderAll(bodies) + after, PLAIN, docs) == "\n" + Strip(after, PLAIN, [])
  {
    hide AfterBodies, RenderAll, Lex;
    var text := "\n" + (RenderAll(bodies) + after);
    assert "\n" + RenderAll(bodies) + after == text && text[0] == '\n' && text[1..] == RenderAll(bodies) + after;
    BodiesVanish(docs, bodies, after);
  }
}
