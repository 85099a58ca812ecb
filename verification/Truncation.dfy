/** Cutting text to a number of lines and of UTF-8 bytes, from either end. */
module Truncation {
  import opened Prelude
  import opened Utf8

  const DEFAULT_MAX_LINES := 2000

  // ----- lines -----

  /** `text.split("\n")` */
  function Split(text: string): (lines: seq<string>)
    ensures |lines| >= 1
  {
    if text == [] then [[]]
    else
      var rest := Split(text[1..]);
      if text[0] == '\n' then [[]] + rest else [[text[0]] + rest[0]] + rest[1..]
  }

  /** `"\n".join(lines)` */
  function Join(lines: seq<string>): string {
    if lines == [] then [] else if |lines| == 1 then lines[0] else lines[0] + "\n" + Join(lines[1..])
  }

  predicate Bare(lines: seq<string>) {
    forall i :: 0 <= i < |lines| ==> '\n' !in lines[i]
  }

  lemma EmptySplits()
    ensures Split([]) == [[]] && Join([]) == []
  {}

  lemma JoinFirst(line: string, rest: seq<string>)
    ensures Join([line] + rest) == if rest == [] then line else line + "\n" + Join(rest)
  {}

  lemma {:induction false} JoinSplit(text: string)
    ensures Join(Split(text)) == text && Bare(Split(text))
  {
    if text != [] {
      var rest := Split(text[1..]);
      JoinSplit(text[1..]);
      if text[0] == '\n' {
        assert ([[]] + rest)[1..] == rest;
      } else if |rest| > 1 {
        assert ([[text[0]] + rest[0]] + rest[1..])[1..] == rest[1..];
      }
    }
  }

  lemma {:induction false} SplitLine(line: string, rest: string)
    requires '\n' !in line
    ensures Split(line) == [line]
    ensures Split(line + "\n" + rest) == [line] + Split(rest)
    decreases |line|
  {
    if line == [] {
      assert line + "\n" + rest == ['\n'] + rest;
    } else {
      SplitLine(line[1..], rest);
      assert (line + "\n" + rest)[1..] == line[1..] + "\n" + rest;
      assert [line[0]] + line[1..] == line;
    }
  }

  lemma {:induction false} SplitJoin(lines: seq<string>)
    requires lines != [] && Bare(lines)
    ensures Split(Join(lines)) == lines
    decreases |lines|
  {
    SplitLine(lines[0], Join(lines[1..]));
    if |lines| > 1 {
      SplitJoin(lines[1..]);
      assert [lines[0]] + lines[1..] == lines;
    }
  }

  lemma {:induction false} JoinConcat(a: seq<string>, b: seq<string>)
    requires a != [] && b != []
    ensures Join(a + b) == Join(a) + "\n" + Join(b)
    decreases |a|
  {
    assert (a + b)[1..] == a[1..] + b;
    if |a| > 1 { JoinConcat(a[1..], b); }
  }

  lemma SizeOfJoin(a: seq<string>, b: seq<string>)
    requires a != [] && b != []
    ensures Size(Join(a + b)) == Size(Join(a)) + 1 + Size(Join(b))
  {
    JoinConcat(a, b);
    hide Encode;
    EncodeConcat(Join(a) + "\n", Join(b));
    EncodeConcat(Join(a), "\n");
    EncodeSingle('\n');
  }

  lemma HeadGrows(lines: seq<string>, j: nat, k: nat)
    requires 1 <= j < k <= |lines|
    ensures Join(lines[..k]) == Join(lines[..j]) + "\n" + Join(lines[j..k])
    ensures Size(Join(lines[..k])) == Size(Join(lines[..j])) + 1 + Size(Join(lines[j..k]))
  {
    hide Join, Encode;
    assert lines[..k] == lines[..j] + lines[j..k];
    JoinConcat(lines[..j], lines[j..k]);
    SizeOfJoin(lines[..j], lines[j..k]);
  }

  lemma TailGrows(lines: seq<string>, j: nat, k: nat)
    requires j < k < |lines|
    ensures Join(lines[j..]) == Join(lines[j..k]) + "\n" + Join(lines[k..])
    ensures Size(Join(lines[j..])) == Size(Join(lines[j..k])) + 1 + Size(Join(lines[k..]))
  {
    hide Join, Encode;
    assert lines[j..] == lines[j..k] + lines[k..];
    JoinConcat(lines[j..k], lines[k..]);
    SizeOfJoin(lines[j..k], lines[k..]);
  }

  // ----- the two boundary cutters -----

  ghost predicate LongestPrefix(text: string, max: nat, r: string) {
    r <= text && Size(r) <= max && forall n :: |r| < n <= |text| ==> Size(text[..n]) > max
  }

  ghost predicate LongestSuffix(text: string, max: nat, r: string) {
    && |r| <= |text| && r == text[|text| - |r|..] && Size(r) <= max
    && forall n :: 0 <= n < |text| - |r| ==> Size(text[n..]) > max
  }

  function AtLeast(low: int, n: int): int {
    if n < low then low else n
  }

  method CutFromStart(text: string, maxBytes: int) returns (r: string)
    ensures LongestPrefix(text, AtLeast(0, maxBytes), r)
  {
    hide Encode, EncodeChar, DecodeLossy, Continuation;
    var data := Encode(text);
    if |data| <= maxBytes {
      assert text[..|text|] == text;
      return text;
    }
    var end := AtLeast(0, maxBytes);
    EmptyEncodes();
    if text == [] { return DecodeLossy(data[..end]); }
    SizeAtLeast(text);
    ghost var n := CharHolding(text, end);
    while end > 0 && end < |data| && Continuation(data[end])
      invariant Size(text[..n]) <= end <= AtLeast(0, maxBytes)
    {
      end := end - 1;
    }
    EncodeUpToChar(text, n);
    DecodeEncode(text[..n]);
    PrefixIsLongest(text, AtLeast(0, maxBytes), n);
    r := DecodeLossy(data[..end]);
  }

  lemma EncodeUpToChar(text: string, n: nat)
    requires n <= |text|
    ensures Size(text[..n]) <= Size(text)
    ensures Encode(text)[..Size(text[..n])] == Encode(text[..n])
    ensures Encode(text)[Size(text[..n])..] == Encode(text[n..])
  {
    hide Encode;
    EncodeConcat(text[..n], text[n..]);
    assert text[..n] + text[n..] == text;
  }

  lemma PrefixIsLongest(text: string, max: nat, n: nat)
    requires n < |text| && Size(text[..n]) <= max < Size(text[..n + 1])
    ensures LongestPrefix(text, max, text[..n])
  {
    forall m | n < m <= |text| ensures Size(text[..m]) > max {
      PrefixSize(text, n + 1, m);
    }
  }

  method CutFromEnd(text: string, maxBytes: int) returns (r: string)
    ensures LongestSuffix(text, AtLeast(0, maxBytes), r)
  {
    hide Encode, EncodeChar, DecodeLossy, Continuation;
    var data := Encode(text);
    if |data| <= maxBytes {
      assert text[|text| - |text|..] == text;
      return text;
    }
    var start := |data| - maxBytes;
    assert text[..|text|] == text;
    EmptyEncodes();
    if start >= |data| {
      if text != [] { BytesOfChar(text, |text| - 1); }
      SuffixIsLongest(text, AtLeast(0, maxBytes), |text|);
      return DecodeLossy([]);
    }
    ghost var n := CharHolding(text, start);
    ghost var first := start;
    while start < |data| && Continuation(data[start])
      invariant first <= start <= Size(text[..n + 1])
      invariant first < start ==> Size(text[..n]) < first
    {
      start := start + 1;
    }
    ghost var cut := if Size(text[..n]) == start then n else n + 1;
    EncodeUpToChar(text, cut);
    DecodeEncode(text[cut..]);
    if cut == n > 0 { BytesOfChar(text, n - 1); }
    SuffixIsLongest(text, maxBytes, cut);
    r := DecodeLossy(data[start..]);
  }

  lemma EmptyEncodes()
    ensures Encode([]) == [] && DecodeLossy([]) == []
  {}

  lemma SuffixIsLongest(text: string, max: nat, cut: nat)
    requires cut <= |text| && Size(text) - Size(text[..cut]) <= max
    requires cut > 0 ==> Size(text) - Size(text[..cut - 1]) > max
    ensures LongestSuffix(text, max, text[cut..])
  {
    hide Encode;
    SuffixSize(text, cut);
    forall m | 0 <= m < cut ensures Size(text[m..]) > max {
      SuffixSize(text, m);
      PrefixSize(text, m, cut - 1);
    }
  }

  lemma SuffixSize(text: string, n: nat)
    requires n <= |text|
    ensures Size(text[n..]) == Size(text) - Size(text[..n])
  {
    EncodeConcat(text[..n], text[n..]);
    assert text[..n] + text[n..] == text;
  }

  // ----- head and tail -----

  datatype Limit = ByLines | ByBytes

  datatype TextTruncation = TextTruncation(
    content: string, truncated: bool, truncatedBy: Option<Limit>,
    totalLines: nat, totalBytes: nat, outputLines: nat, outputBytes: nat,
    lastLinePartial: bool, firstLineExceedsLimit: bool, maxLines: int, maxBytes: int)

  /** What both cuts promise: the counts, the limits, and that a text within them is left alone. */
  ghost predicate WithinLimits(text: string, lines: nat, bytes: nat, r: TextTruncation) {
    && r.maxLines == lines && r.maxBytes == bytes
    && r.totalLines == |Split(text)| && r.totalBytes == Size(text)
    && Size(r.content) == r.outputBytes <= bytes && |Split(r.content)| <= lines
    && (r.truncated <==> |Split(text)| > lines || Size(text) > bytes)
    && (!r.truncated ==>
          r.content == text && r.truncatedBy == None && r.outputLines == |Split(text)|
          && !r.lastLinePartial && !r.firstLineExceedsLimit)
  }

  /** A head cut is the longest run of whole first lines that fits, or else the longest part of line one. */
  ghost predicate IsHead(text: string, lines: nat, bytes: nat, r: TextTruncation) {
    var all := Split(text);
    && WithinLimits(text, lines, bytes, r)
    && r.content <= text && (r.truncated ==> |r.content| < |text|)
    && !r.lastLinePartial
    && (r.firstLineExceedsLimit <==> Size(all[0]) > bytes)
    && (r.firstLineExceedsLimit ==>
          && LongestPrefix(all[0], bytes, r.content)
          && r.outputLines == (if r.content == [] then 0 else 1) && r.truncatedBy == Some(ByBytes))
    && (r.truncated && !r.firstLineExceedsLimit ==>
          && IsLongestHead(all, lines, bytes, r.outputLines) && r.outputLines < |all|
          && r.content == Join(all[..r.outputLines])
          && r.truncatedBy == Some(if r.outputLines == lines then ByLines else ByBytes))
  }

  ghost predicate IsLongestHead(all: seq<string>, lines: nat, bytes: nat, k: nat) {
    && 1 <= k <= |all| && k <= lines && Size(Join(all[..k])) <= bytes
    && forall j :: k < j <= |all| ==> j > lines || Size(Join(all[..j])) > bytes
  }

  method TruncateTextHead(text: string, maxLines: int, maxBytes: int) returns (r: TextTruncation)
    ensures IsHead(text, AtLeast(1, maxLines), AtLeast(1, maxBytes), r)
  {
    hide Encode, Join, Split, LongestPrefix;
    var lineLimit: nat, byteLimit: nat := AtLeast(1, maxLines), AtLeast(1, maxBytes);
    var totalBytes, lines := Size(text), Split(text);
    JoinSplit(text);
    FirstLineFits(text);
    if |lines| <= lineLimit && totalBytes <= byteLimit {
      return TextTruncation(text, false, None, |lines|, totalBytes, |lines|, totalBytes, false, false, lineLimit, byteLimit);
    }
    if Size(lines[0]) > byteLimit {
      var prefix := CutFromStart(lines[0], byteLimit);
      FirstLinePart(text, byteLimit, prefix);
      return TextTruncation(prefix, true, Some(ByBytes), |lines|, totalBytes, if prefix == [] then 0 else 1, Size(prefix),
                            false, true, lineLimit, byteLimit);
    }
    var output, outputBytes, cause, i := [], 0, ByLines, 0;
    JoinSmall(lines);
    while i < |lines|
      invariant i <= |lines| && i <= lineLimit && output == lines[..i]
      invariant outputBytes == Size(Join(lines[..i])) <= byteLimit && cause == ByLines
      decreases |lines| - i
    {
      if |output| >= lineLimit {
        cause := ByLines;
        break;
      }
      var lineBytes := Size(lines[i]) + (if i > 0 then 1 else 0);
      NextHeadSize(lines, i);
      if outputBytes + lineBytes > byteLimit {
        cause := ByBytes;
        break;
      }
      output := output + [lines[i]];
      outputBytes := outputBytes + lineBytes;
      i := i + 1;
    }
    HeadIsLongest(text, lines, lineLimit, byteLimit, i);
    r := TextTruncation(Join(output), true, Some(cause), |lines|, totalBytes, |output|, Size(Join(output)),
                        false, false, lineLimit, byteLimit);
  }

  lemma JoinSmall(lines: seq<string>)
    requires lines != []
    ensures Join(lines[..0]) == [] && Size([]) == 0 && Join(lines[..1]) == lines[0] && Join(lines[|lines|..]) == []
    ensures Join(lines[..|lines|]) == Join(lines)
  {
    assert lines[..|lines|] == lines;
  }

  lemma NextHeadSize(lines: seq<string>, i: nat)
    requires i < |lines|
    ensures Size(Join(lines[..i + 1])) == Size(Join(lines[..i])) + Size(lines[i]) + if i > 0 then 1 else 0
  {
    if i > 0 {
      HeadGrows(lines, i, i + 1);
      assert lines[i..i + 1] == [lines[i]];
    }
  }

  lemma FirstLineFits(text: string)
    ensures Split(text)[0] <= text && Size(Split(text)[0]) <= Size(text)
  {}

  lemma FirstLinePart(text: string, bytes: nat, prefix: string)
    requires LongestPrefix(Split(text)[0], bytes, prefix) && Size(Split(text)[0]) > bytes
    ensures prefix <= text && |prefix| < |text| && Split(prefix) == [prefix] && Size(prefix) <= bytes
  {
    hide Encode, Join, Split;
    FirstLineFits(text);
    JoinSplit(text);
    var line := Split(text)[0];
    assert prefix == line[..|prefix|] && prefix != line;
    SplitLine(prefix, []);
  }

  lemma HeadIsLongest(text: string, lines: seq<string>, maxLines: nat, bytes: nat, k: nat)
    requires lines == Split(text) && maxLines >= 1 && Size(lines[0]) <= bytes
    requires |lines| > maxLines || Size(text) > bytes
    requires k <= |lines| && k <= maxLines && Size(Join(lines[..k])) <= bytes
    requires k == |lines| || k == maxLines || Size(Join(lines[..k + 1])) > bytes
    ensures IsLongestHead(lines, maxLines, bytes, k) && k < |lines|
    ensures Join(lines[..k]) <= text && |Join(lines[..k])| < |text| && |Split(Join(lines[..k]))| == k
  {
    hide Encode, Join, Split, Bare;
    JoinSplit(text);
    JoinSmall(lines);
    HeadShape(text, k);
    forall j | k < j <= |lines| ensures j > maxLines || Size(Join(lines[..j])) > bytes {
      if j > k + 1 { HeadGrows(lines, k + 1, j); }
    }
  }

  lemma HeadShape(text: string, k: nat)
    requires 1 <= k < |Split(text)|
    ensures var head := Join(Split(text)[..k]); head <= text && |head| < |text| && |Split(head)| == k
  {
    hide Encode, Join, Split;
    var lines := Split(text);
    JoinSplit(text);
    JoinSmall(lines);
    HeadGrows(lines, k, |lines|);
    SplitJoin(lines[..k]);
  }

  /** The contract leaves no freedom: it has one result. */
  lemma HeadDetermined(text: string, lines: nat, bytes: nat, r: TextTruncation, r': TextTruncation)
    requires IsHead(text, lines, bytes, r) && IsHead(text, lines, bytes, r')
    ensures r == r'
  {
    hide Encode, Join, Split;
    var all := Split(text);
    if r.firstLineExceedsLimit {
      assert r.content == all[0][..|r.content|] && r'.content == all[0][..|r'.content|];
    }
  }

  /** The lines a tail cut chooses from: the text less its final newline. */
  function TailLines(text: string): (all: seq<string>)
    ensures text != [] ==> all != []
  {
    var lines := Split(text);
    if lines[|lines| - 1] == [] then lines[..|lines| - 1] else lines
  }

  ghost predicate IsLongestTail(all: seq<string>, lines: nat, bytes: nat, k: nat) {
    && 1 <= k <= |all| && k <= lines && Size(Join(all[|all| - k..])) <= bytes
    && forall m :: 0 <= m < |all| - k ==> |all| - m > lines || Size(Join(all[m..])) > bytes
  }

  /** A tail cut is the longest run of whole last lines that fits, or else the longest end of the last line. */
  ghost predicate IsTail(text: string, lines: nat, bytes: nat, r: TextTruncation) {
    var all := TailLines(text);
    && WithinLimits(text, lines, bytes, r)
    && !r.firstLineExceedsLimit
    && (r.truncated ==> all != [] && r.content == Join(all)[AtLeast(0, |Join(all)| - |r.content|)..])
    && (r.lastLinePartial <==> r.truncated && Size(all[|all| - 1]) > bytes)
    && (r.lastLinePartial ==>
          LongestSuffix(all[|all| - 1], bytes, r.content) && r.outputLines == 1 && r.truncatedBy == Some(ByBytes))
    && (r.truncated && !r.lastLinePartial ==>
          && IsLongestTail(all, lines, bytes, r.outputLines)
          && r.content == Join(all[|all| - r.outputLines..])
          && r.truncatedBy == Some(if r.outputLines == |all| || r.outputLines == lines then ByLines else ByBytes))
  }

  /** The text less its final newline is what those lines join to. */
  lemma TailLinesJoin(text: string)
    requires text != []
    ensures text == Join(TailLines(text)) + (if text[|text| - 1] == '\n' then "\n" else [])
    ensures Bare(TailLines(text))
  {
    hide Join, Split;
    var lines := Split(text);
    JoinSplit(text);
    var n := |lines| - 1;
    LastAlone(lines);
    if n > 0 {
      JoinConcat(lines[..n], lines[n..]);
      assert lines[..n] + lines[n..] == lines;
    } else {
      assert lines[n..] == lines;
    }
    if lines[n] != [] {
      assert text[|text| - 1] == lines[n][|lines[n]| - 1];
    }
  }

  method TruncateTextTail(text: string, maxLines: int, maxBytes: int) returns (r: TextTruncation)
    ensures IsTail(text, AtLeast(1, maxLines), AtLeast(1, maxBytes), r)
  {
    hide Encode, Join, Split, LongestSuffix, TailLines, IsLongestTail, IsTail, Bare;
    var lineLimit: nat, byteLimit: nat := AtLeast(1, maxLines), AtLeast(1, maxBytes);
    var totalBytes, lines := Size(text), Split(text);
    if |lines| <= lineLimit && totalBytes <= byteLimit {
      r := TextTruncation(text, false, None, |lines|, totalBytes, |lines|, totalBytes, false, false, lineLimit, byteLimit);
      UncutIsTail(text, lineLimit, byteLimit, r);
      return;
    }
    EmptyText(text);
    var all := TailLines(text);
    TailLinesJoin(text);
    var output, outputBytes, cause, partial, i, n := [], 0, ByLines, false, 0, |all|;
    JoinSmall(all);
    while i < n
      invariant i <= n && i <= lineLimit && output == all[n - i..] && !partial && cause == ByLines
      invariant outputBytes == Size(Join(all[n - i..])) <= byteLimit
      decreases n - i
    {
      if |output| >= lineLimit {
        cause := ByLines;
        break;
      }
      var line := all[n - 1 - i];
      var lineBytes := Size(line) + (if i > 0 then 1 else 0);
      NextTailSize(all, i);
      if outputBytes + lineBytes > byteLimit {
        cause := ByBytes;
        if |output| == 0 {
          var end := CutFromEnd(line, byteLimit);
          output := [end];
          partial := true;
        }
        break;
      }
      output := [line] + output;
      outputBytes := outputBytes + lineBytes;
      i := i + 1;
    }
    r := TextTruncation(Join(output), true, Some(cause), |lines|, totalBytes, |output|, Size(Join(output)),
                        partial, false, lineLimit, byteLimit);
    if partial {
      PartIsTail(text, lineLimit, byteLimit, output[0], r);
    } else {
      LinesAreTail(text, lineLimit, byteLimit, i, r);
    }
  }

  lemma UncutIsTail(text: string, lines: nat, bytes: nat, r: TextTruncation)
    requires var n, m := |Split(text)|, Size(text);
             n <= lines && m <= bytes && r == TextTruncation(text, false, None, n, m, n, m, false, false, lines, bytes)
    ensures IsTail(text, lines, bytes, r)
  {}

  lemma PartIsTail(text: string, lines: nat, bytes: nat, end: string, r: TextTruncation)
    requires text != [] && (|Split(text)| > lines || Size(text) > bytes) && lines >= 1
    requires var last := TailLines(text)[|TailLines(text)| - 1]; LongestSuffix(last, bytes, end) && Size(last) > bytes
    requires r == TextTruncation(Join([end]), true, Some(ByBytes), |Split(text)|, Size(text), 1, Size(Join([end])), true, false,
                                 lines, bytes)
    ensures IsTail(text, lines, bytes, r)
  {
    hide Encode, Join, Split, TailLines;
    LastLinePart(text, bytes, end);
  }

  lemma LinesAreTail(text: string, lines: nat, bytes: nat, k: nat, r: TextTruncation)
    requires text != [] && (|Split(text)| > lines || Size(text) > bytes) && lines >= 1
    requires var all := TailLines(text);
             && k <= |all| && k <= lines && Size(Join(all[|all| - k..])) <= bytes
             && (k == |all| || k == lines || Size(Join(all[|all| - 1 - k..])) > bytes)
             && (k == 0 ==> Size(all[|all| - 1]) <= bytes)
             && var end := Join(all[|all| - k..]);
             r == TextTruncation(end, true, Some(if k == |all| || k == lines then ByLines else ByBytes),
                                 |Split(text)|, Size(text), k, Size(end), false, false, lines, bytes)
    ensures IsTail(text, lines, bytes, r)
  {
    hide Encode, Join, Split, TailLines, IsLongestTail, LongestSuffix, Size;
    var all := TailLines(text);
    TailIsLongest(text, all, lines, bytes, k);
    LongestIsPositive(all, lines, bytes, k);
    LastFits(all, k);
    var base, end := Join(all), Join(all[|all| - k..]);
    assert |base| - |end| == AtLeast(0, |base| - |end|);
    assert WithinLimits(text, lines, bytes, r);
    assert !(r.lastLinePartial) && !(Size(all[|all| - 1]) > bytes);
  }

  lemma LongestIsPositive(all: seq<string>, lines: nat, bytes: nat, k: nat)
    requires IsLongestTail(all, lines, bytes, k)
    ensures k >= 1
  {}

  lemma TailDetermined(text: string, lines: nat, bytes: nat, r: TextTruncation, r': TextTruncation)
    requires IsTail(text, lines, bytes, r) && IsTail(text, lines, bytes, r')
    ensures r == r'
  {
    hide Encode, Join, Split, TailLines;
    var all := TailLines(text);
    if r.truncated && !r.lastLinePartial {
      LongestTailDetermined(all, lines, bytes, r.outputLines, r'.outputLines);
    }
  }

  lemma LongestTailDetermined(all: seq<string>, lines: nat, bytes: nat, j: nat, k: nat)
    requires IsLongestTail(all, lines, bytes, j) && IsLongestTail(all, lines, bytes, k)
    ensures j == k
  {}

  lemma LastFits(all: seq<string>, k: nat)
    requires 1 <= k <= |all|
    ensures Size(all[|all| - 1]) <= Size(Join(all[|all| - k..]))
  {
    hide Encode, Join;
    LastAlone(all);
    if k > 1 { TailGrows(all, |all| - k, |all| - 1); }
  }

  lemma EmptyText(text: string)
    requires |Split(text)| > 1 || Size(text) > 0
    ensures text != []
  {}

  lemma NextTailSize(all: seq<string>, i: nat)
    requires i < |all|
    ensures Size(Join(all[|all| - 1 - i..])) == Size(Join(all[|all| - i..])) + Size(all[|all| - 1 - i]) + if i > 0 then 1 else 0
  {
    var k := |all| - 1 - i;
    if i > 0 {
      TailGrows(all, k, k + 1);
      assert all[k..k + 1] == [all[k]];
    }
  }

  lemma LastLinePart(text: string, bytes: nat, end: string)
    requires text != [] && var all := TailLines(text); LongestSuffix(all[|all| - 1], bytes, end)
    ensures var base := Join(TailLines(text)); |end| <= |base| && end == base[|base| - |end|..]
    ensures Split(end) == [end] && Join([end]) == end && Size(end) <= bytes
  {
    hide *;
    var all := TailLines(text);
    var last := all[|all| - 1];
    TailLinesJoin(text);
    SuffixParts(last, bytes, end);
    EndsWithLine(all);
    EndOfEnd(Join(all), last, end);
    BareAt(all, |all| - 1);
    SplitLine(end, []);
    JoinSingle(end);
  }

  lemma BareAt(lines: seq<string>, i: nat)
    requires Bare(lines) && i < |lines|
    ensures '\n' !in lines[i]
  {}

  lemma JoinSingle(line: string)
    ensures Join([line]) == line
  {}

  lemma SuffixParts(line: string, bytes: nat, end: string)
    requires LongestSuffix(line, bytes, end)
    ensures |end| <= |line| && end == line[|line| - |end|..] && Size(end) <= bytes
  {}

  lemma EndsWithLine(all: seq<string>)
    requires all != []
    ensures var base, last := Join(all), all[|all| - 1]; |last| <= |base| && last == base[|base| - |last|..]
  {
    var k := |all| - 1;
    LastAlone(all);
    hide Join, Encode;
    assert all[0..] == all;
    if k > 0 { TailGrows(all, 0, k); }
  }

  lemma EndOfEnd(base: string, last: string, end: string)
    requires |last| <= |base| && last == base[|base| - |last|..]
    requires |end| <= |last| && end == last[|last| - |end|..]
    ensures |end| <= |base| && end == base[|base| - |end|..]
    ensures forall c :: c in end ==> c in last
  {}

  lemma TailIsLongest(text: string, all: seq<string>, maxLines: nat, bytes: nat, k: nat)
    requires text != [] && all == TailLines(text) && maxLines >= 1 && (k == 0 ==> Size(all[|all| - 1]) <= bytes)
    requires k <= |all| && k <= maxLines && Size(Join(all[|all| - k..])) <= bytes
    requires k == |all| || k == maxLines || Size(Join(all[|all| - 1 - k..])) > bytes
    ensures IsLongestTail(all, maxLines, bytes, k) && |Split(Join(all[|all| - k..]))| == k
    ensures var base, end := Join(all), Join(all[|all| - k..]); |end| <= |base| && end == base[|base| - |end|..]
  {
    hide Encode, Join, Split;
    TailLinesJoin(text);
    LastAlone(all);
    var n := |all|;
    if k < n { TailGrows(all, 0, n - k); }
    assert all[0..] == all;
    SplitJoin(all[n - k..]);
    forall m | 0 <= m < n - k ensures n - m > maxLines || Size(Join(all[m..])) > bytes {
      if m < n - 1 - k { TailGrows(all, m, n - 1 - k); }
    }
  }

  lemma LastAlone(all: seq<string>)
    requires all != []
    ensures Join(all[|all| - 1..]) == all[|all| - 1] && Join(all[|all|..]) == []
  {}
}
