/**
 Applying the hunks of an update to the lines of a file: every hunk is located in the
 original lines, overlaps are refused, and the replacements are spliced in from the back.
 The lines themselves are opaque here.
 */
module Hunks {
  import opened Prelude

  datatype Hunk<T> = Hunk(before: seq<T>, after: seq<T>)

  datatype Match<T> = Match(hunk: nat, start: nat, end: nat, after: seq<T>)

  datatype Result<T> =
    | Updated(lines: seq<T>)
    | ContextNotFound(hunk: nat)
    | ContextAmbiguous(hunk: nat)
    | HunksOverlap(first: nat, second: nat)

  // ----- locating hunks -----

  predicate Occurs<T(==)>(lines: seq<T>, needle: seq<T>, at: nat) {
    at + |needle| <= |lines| && lines[at..at + |needle|] == needle
  }

  /** The matching positions from `index` on, in ascending order. */
  function FindFrom<T(==)>(lines: seq<T>, needle: seq<T>, index: nat): (r: seq<nat>)
    requires needle != []
    ensures forall i :: i in r <==> index <= i && Occurs(lines, needle, i)
    ensures forall i, j :: 0 <= i < j < |r| ==> r[i] < r[j]
    decreases |lines| - index
  {
    if index + |needle| > |lines| then []
    else if lines[index] == needle[0] && lines[index..index + |needle|] == needle then
      var rest := FindFrom(lines, needle, index + 1);
      assert forall i :: i in [index] + rest <==> i == index || i in rest;
      assert forall j :: 0 <= j < |rest| ==> rest[j] in rest;
      [index] + rest
    else
      FindFrom(lines, needle, index + 1)
  }

  function FindSubsequenceAll<T(==)>(lines: seq<T>, needle: seq<T>): (r: seq<nat>)
    ensures needle == [] ==> r == [0]
    ensures needle != [] ==> forall i :: i in r <==> Occurs(lines, needle, i)
    ensures forall i, j :: 0 <= i < j < |r| ==> r[i] < r[j]
  {
    if needle == [] then [0] else FindFrom(lines, needle, 0)
  }

  /** `at` is the one place where hunk `h` applies. */
  ghost predicate UniquelyAt<T>(lines: seq<T>, h: Hunk<T>, at: nat) {
    if h.before == [] then at == 0
    else Occurs(lines, h.before, at) && forall i :: Occurs(lines, h.before, i) ==> i == at
  }

  ghost predicate Located<T>(lines: seq<T>, hunks: seq<Hunk<T>>, ms: seq<Match<T>>) {
    && |ms| == |hunks|
    && forall k :: 0 <= k < |ms| ==>
                     && ms[k].hunk == k && ms[k].after == hunks[k].after
                     && ms[k].end == ms[k].start + |hunks[k].before|
                     && UniquelyAt(lines, hunks[k], ms[k].start)
  }

  ghost predicate Locatable<T>(lines: seq<T>, h: Hunk<T>) {
    exists at: nat :: UniquelyAt(lines, h, at)
  }

  ghost predicate AllLocatable<T>(lines: seq<T>, hunks: seq<Hunk<T>>) {
    forall k :: 0 <= k < |hunks| ==> Locatable(lines, hunks[k])
  }

  lemma LocatedIsUnique<T>(lines: seq<T>, hunks: seq<Hunk<T>>, a: seq<Match<T>>, b: seq<Match<T>>)
    requires Located(lines, hunks, a) && Located(lines, hunks, b)
    ensures a == b
  {}

  // ----- sorting by position -----

  /** `list.sort(key=start)`: stable. */
  function InsertAscending<T>(m: Match<T>, ms: seq<Match<T>>): seq<Match<T>> {
    if ms == [] || m.start <= ms[0].start then [m] + ms else [ms[0]] + InsertAscending(m, ms[1..])
  }

  function SortAscending<T>(ms: seq<Match<T>>): (r: seq<Match<T>>) {
    if ms == [] then [] else InsertAscending(ms[0], SortAscending(ms[1..]))
  }

  /** `sorted(key=start, reverse=True)`: stable as well, so equal starts keep their order. */
  function InsertDescending<T>(m: Match<T>, ms: seq<Match<T>>): seq<Match<T>> {
    if ms == [] || m.start >= ms[0].start then [m] + ms else [ms[0]] + InsertDescending(m, ms[1..])
  }

  function SortDescending<T>(ms: seq<Match<T>>): (r: seq<Match<T>>) {
    if ms == [] then [] else InsertDescending(ms[0], SortDescending(ms[1..]))
  }

  ghost predicate Ascending<T>(ms: seq<Match<T>>) {
    forall i, j :: 0 <= i < j < |ms| ==> ms[i].start <= ms[j].start
  }

  lemma {:induction false} InsertAscendingKeeps<T>(m: Match<T>, ms: seq<Match<T>>)
    ensures multiset(InsertAscending(m, ms)) == multiset{m} + multiset(ms)
  {
    if !(ms == [] || m.start <= ms[0].start) {
      InsertAscendingKeeps(m, ms[1..]);
      assert ms == [ms[0]] + ms[1..];
    }
  }

  lemma {:induction false} InsertAscendingSorts<T>(m: Match<T>, ms: seq<Match<T>>)
    requires Ascending(ms)
    ensures Ascending(InsertAscending(m, ms))
  {
    hide Ascending;
    if ms == [] || m.start <= ms[0].start {
      ConsAscending(m, ms);
    } else {
      TailAscends(ms);
      InsertAscendingSorts(m, ms[1..]);
      InsertAscendingKeeps(m, ms[1..]);
      var r := InsertAscending(m, ms[1..]);
      hide InsertAscending;
      forall j | 0 <= j < |r| ensures ms[0].start <= r[j].start { assert r[j] in multiset(r); }
      NoneBelow(ms[0], r);
    }
  }

  lemma TailAscends<T>(ms: seq<Match<T>>)
    requires Ascending(ms) && ms != []
    ensures Ascending(ms[1..]) && forall k :: 0 <= k < |ms[1..]| ==> ms[0].start <= ms[1..][k].start
  {}

  lemma NoneBelow<T>(m: Match<T>, ms: seq<Match<T>>)
    requires Ascending(ms) && forall k :: 0 <= k < |ms| ==> m.start <= ms[k].start
    ensures Ascending([m] + ms)
  {}

  lemma ConsAscending<T>(m: Match<T>, ms: seq<Match<T>>)
    requires Ascending(ms) && (ms != [] ==> m.start <= ms[0].start)
    ensures Ascending([m] + ms)
  {}

  lemma {:induction false} SortAscendingSorts<T>(ms: seq<Match<T>>)
    ensures Ascending(SortAscending(ms))
    ensures multiset(SortAscending(ms)) == multiset(ms)
  {
    if ms != [] {
      SortAscendingSorts(ms[1..]);
      InsertAscendingSorts(ms[0], SortAscending(ms[1..]));
      InsertAscendingKeeps(ms[0], SortAscending(ms[1..]));
      assert ms == [ms[0]] + ms[1..];
    }
  }

  // ----- splicing -----

  /** `s[:start] + after + s[end:]`, with the clamping of Python slices. */
  function Splice<T>(s: seq<T>, m: Match<T>): seq<T> {
    (if m.start <= |s| then s[..m.start] else s) + m.after + (if m.end <= |s| then s[m.end..] else [])
  }

  function SpliceAll<T>(s: seq<T>, ms: seq<Match<T>>): seq<T>
    decreases |ms|
  {
    if ms == [] then s else SpliceAll(Splice(s, ms[0]), ms[1..])
  }

  /** Positions in order, none overlapping the next, all inside `n` lines and not before `from`. */
  ghost predicate Chain<T>(ms: seq<Match<T>>, from: nat, n: nat) {
    && (forall k :: 0 <= k < |ms| ==> from <= ms[k].start <= ms[k].end <= n)
    && (forall k :: 0 <= k < |ms| - 1 ==> ms[k].end <= ms[k + 1].start)
  }

  /** The reference: untouched gaps of the original interleaved with the new blocks. */
  ghost function Simultaneous<T>(s: seq<T>, ms: seq<Match<T>>, from: nat): seq<T>
    requires Chain(ms, from, |s|) && from <= |s|
  {
    if ms == [] then s[from..]
    else
      ChainTail(ms, from, |s|);
      s[from..ms[0].start] + ms[0].after + Simultaneous(s, ms[1..], ms[0].end)
  }

  lemma {:induction false} ChainTail<T>(ms: seq<Match<T>>, from: nat, n: nat)
    requires Chain(ms, from, n) && ms != []
    ensures Chain(ms[1..], ms[0].end, n)
  {
    forall k | 0 <= k < |ms[1..]| ensures ms[0].end <= ms[1..][k].start {
      ChainStep(ms, from, n, k + 1);
    }
  }

  lemma {:induction false} ChainStep<T>(ms: seq<Match<T>>, from: nat, n: nat, k: nat)
    requires Chain(ms, from, n) && 0 < k < |ms|
    ensures ms[0].end <= ms[k].start
  {
    if k > 1 { ChainStep(ms, from, n, k - 1); }
  }

  function Reverse<T>(ms: seq<T>): (r: seq<T>)
    ensures |r| == |ms|
  {
    if ms == [] then [] else [ms[|ms| - 1]] + Reverse(ms[..|ms| - 1])
  }

  lemma SpliceShape<T>(s: seq<T>, m: Match<T>, from: nat, to: nat)
    requires from <= to <= m.start <= m.end <= |s|
    ensures |Splice(s, m)| == |s| + |m.after| - (m.end - m.start)
    ensures Splice(s, m)[from..to] == s[from..to]
    ensures Splice(s, m)[from..] == s[from..m.start] + m.after + s[m.end..]
  {}

  lemma ChainInit<T>(init: seq<Match<T>>, last: Match<T>, from: nat, n: nat)
    requires Chain(init + [last], from, n)
    ensures Chain(init, from, last.start) && from <= last.start <= last.end <= n
    ensures init != [] ==> Chain(init[1..] + [last], init[0].end, n) && (init + [last])[1..] == init[1..] + [last]
  {
    var ms := init + [last];
    assert last == ms[|init|];
    forall k | 0 <= k < |init| ensures init[k] == ms[k] && init[k].end <= last.start {
      LastStep(ms, from, n, k);
    }
    if init != [] {
      ChainTail(ms, from, n);
      assert ms[1..] == init[1..] + [last];
    }
  }

  /** Replacing the last match first does not disturb the others. */
  lemma {:induction false} SpliceLast<T>(s: seq<T>, init: seq<Match<T>>, last: Match<T>, from: nat)
    requires Chain(init + [last], from, |s|) && from <= |s|
    ensures Chain(init, from, |Splice(s, last)|) && from <= |Splice(s, last)|
    ensures Simultaneous(Splice(s, last), init, from) == Simultaneous(s, init + [last], from)
  {
    hide Chain, Splice;
    ChainInit(init, last, from, |s|);
    SpliceShape(s, last, from, from);
    ChainWider(init, from, last.start, |Splice(s, last)|);
    if init == [] {
      assert init + [last] == [last];
      ChainTail([last], from, |s|);
      assert [last][1..] == [];
    } else {
      ChainFirst(init, from, last.start);
      ChainTail(init + [last], from, |s|);
      SpliceLast(s, init[1..], last, init[0].end);
      SpliceShape(s, last, from, init[0].start);
    }
  }

  lemma ChainWider<T>(ms: seq<Match<T>>, from: nat, n: nat, n': nat)
    requires Chain(ms, from, n) && n <= n'
    ensures Chain(ms, from, n')
  {}

  lemma ChainFirst<T>(ms: seq<Match<T>>, from: nat, n: nat)
    requires Chain(ms, from, n) && ms != []
    ensures from <= ms[0].start <= ms[0].end <= n
  {}

  lemma {:induction false} LastStep<T>(ms: seq<Match<T>>, from: nat, n: nat, k: nat)
    requires Chain(ms, from, n) && k < |ms| - 1
    ensures ms[k].end <= ms[|ms| - 1].start
    decreases |ms| - k
  {
    if k + 1 < |ms| - 1 { LastStep(ms, from, n, k + 1); }
  }

  /** Back-to-front splicing is simultaneous replacement. */
  lemma {:induction false} BackToFront<T>(s: seq<T>, ms: seq<Match<T>>)
    requires Chain(ms, 0, |s|)
    ensures SpliceAll(s, Reverse(ms)) == Simultaneous(s, ms, 0)
    decreases |ms|
  {
    if ms != [] {
      var init, last := ms[..|ms| - 1], ms[|ms| - 1];
      assert ms == init + [last];
      SpliceLast(s, init, last, 0);
      BackToFront(Splice(s, last), init);
      assert Reverse(ms) == [last] + Reverse(init);
      assert Reverse(ms)[1..] == Reverse(init);
    }
  }

  function Growth<T>(ms: seq<Match<T>>): int {
    if ms == [] then 0 else |ms[0].after| - (ms[0].end - ms[0].start) + Growth(ms[1..])
  }

  lemma {:induction false} SimultaneousLength<T>(s: seq<T>, ms: seq<Match<T>>, from: nat)
    requires Chain(ms, from, |s|) && from <= |s|
    ensures |Simultaneous(s, ms, from)| == |s| - from + Growth(ms)
  {
    if ms != [] {
      ChainTail(ms, from, |s|);
      SimultaneousLength(s, ms[1..], ms[0].end);
    }
  }

  // ----- what the descending sort does, ties included -----

  lemma {:induction false} InsertPast<T>(m: Match<T>, above: seq<Match<T>>, rest: seq<Match<T>>)
    requires forall k :: 0 <= k < |above| ==> above[k].start > m.start
    requires rest == [] || m.start >= rest[0].start
    ensures InsertDescending(m, above + rest) == above + [m] + rest
  {
    if above == [] {
      assert above + rest == rest;
    } else {
      InsertPast(m, above[1..], rest);
      assert (above + rest)[1..] == above[1..] + rest;
    }
  }

  lemma {:induction false} ReverseFront<T>(x: T, xs: seq<T>)
    ensures Reverse([x] + xs) == Reverse(xs) + [x]
  {
    if xs != [] {
      var all := [x] + xs;
      assert all[..|all| - 1] == [x] + xs[..|xs| - 1];
      ReverseFront(x, xs[..|xs| - 1]);
    }
  }

  lemma {:induction false} ReverseKeeps<T>(xs: seq<T>)
    ensures forall x :: x in Reverse(xs) ==> x in xs
  {
    if xs != [] { ReverseKeeps(xs[..|xs| - 1]); }
  }

  ghost predicate StrictlyAscending<T>(ms: seq<Match<T>>) {
    forall i, j :: 0 <= i < j < |ms| ==> ms[i].start < ms[j].start
  }

  lemma {:induction false} DescendingReverses<T>(ms: seq<Match<T>>)
    requires StrictlyAscending(ms)
    ensures SortDescending(ms) == Reverse(ms)
  {
    if ms != [] {
      DescendingReverses(ms[1..]);
      ReverseKeeps(ms[1..]);
      var above := Reverse(ms[1..]);
      forall k | 0 <= k < |above| ensures above[k].start > ms[0].start {
        assert above[k] in ms[1..];
      }
      InsertPast(ms[0], above, []);
      assert above + [] == above && above + [ms[0]] + [] == above + [ms[0]];
      ReverseFront(ms[0], ms[1..]);
      assert ms == [ms[0]] + ms[1..];
    }
  }

  /** Equal starts keep their order, so matches at 0 come last and in listing order. */
  lemma {:induction false} DescendingKeepsTies<T>(zeros: seq<Match<T>>, rest: seq<Match<T>>)
    requires forall k :: 0 <= k < |zeros| ==> zeros[k].start == 0
    requires StrictlyAscending(rest) && forall k :: 0 <= k < |rest| ==> rest[k].start > 0
    ensures SortDescending(zeros + rest) == Reverse(rest) + zeros
  {
    hide StrictlyAscending, Reverse, InsertDescending, SortDescending;
    if zeros == [] {
      assert zeros + rest == rest;
      DescendingReverses(rest);
      assert Reverse(rest) + zeros == Reverse(rest);
    } else {
      var z, zs, above := zeros[0], zeros[1..], Reverse(rest);
      DescendingKeepsTies(zs, rest);
      SortDescendingCons(z, zs + rest);
      assert zeros + rest == [z] + (zs + rest);
      AllAbove(rest);
      InsertPast(z, above, zs);
      assert zeros == [z] + zs;
      assert above + [z] + zs == above + ([z] + zs);
    }
  }

  lemma SortDescendingCons<T>(m: Match<T>, ms: seq<Match<T>>)
    ensures SortDescending([m] + ms) == InsertDescending(m, SortDescending(ms))
  {}

  lemma AllAbove<T>(rest: seq<Match<T>>)
    requires forall k :: 0 <= k < |rest| ==> rest[k].start > 0
    ensures forall k :: 0 <= k < |Reverse(rest)| ==> Reverse(rest)[k].start > 0
  {}

  lemma {:induction false} SpliceAllConcat<T>(s: seq<T>, a: seq<Match<T>>, b: seq<Match<T>>)
    ensures SpliceAll(s, a + b) == SpliceAll(SpliceAll(s, a), b)
    decreases |a|
  {
    if a == [] {
      assert a + b == b;
    } else {
      assert (a + b)[1..] == a[1..] + b;
      SpliceAllConcat(Splice(s, a[0]), a[1..], b);
    }
  }

  ghost predicate Insertion<T>(m: Match<T>) {
    m.start == 0 && m.end == 0
  }

  function Forwards<T>(ins: seq<Match<T>>): seq<T> {
    if ins == [] then [] else ins[0].after + Forwards(ins[1..])
  }

  function Backwards<T>(ins: seq<Match<T>>): seq<T> {
    if ins == [] then [] else Backwards(ins[1..]) + ins[0].after
  }

  lemma {:induction false} InsertionsPileUp<T>(s: seq<T>, ins: seq<Match<T>>)
    requires forall k :: 0 <= k < |ins| ==> Insertion(ins[k])
    ensures SpliceAll(s, ins) == Backwards(ins) + s
    decreases |ins|
  {
    if ins == [] {
      assert Backwards(ins) + s == s;
    } else {
      InsertionsPileUp(Splice(s, ins[0]), ins[1..]);
      assert Splice(s, ins[0]) == ins[0].after + s;
      assert Backwards(ins[1..]) + (ins[0].after + s) == Backwards(ins) + s;
    }
  }

  lemma {:induction false} SimultaneousInsertions<T>(s: seq<T>, ins: seq<Match<T>>, rest: seq<Match<T>>)
    requires forall k :: 0 <= k < |ins| ==> Insertion(ins[k])
    requires Chain(ins + rest, 0, |s|)
    ensures Chain(rest, 0, |s|)
    ensures Simultaneous(s, ins + rest, 0) == Forwards(ins) + Simultaneous(s, rest, 0)
    decreases |ins|
  {
    hide Chain, Simultaneous, Forwards;
    ForwardsFirst(ins);
    if ins == [] {
      assert ins + rest == rest;
      assert [] + Simultaneous(s, rest, 0) == Simultaneous(s, rest, 0);
    } else {
      assert (ins + rest)[1..] == ins[1..] + rest && (ins + rest)[0] == ins[0];
      FirstMatch(s, ins + rest, 0, 0);
      SimultaneousInsertions(s, ins[1..], rest);
      assert s[0..0] + ins[0].after == ins[0].after;
      Regroup(ins[0].after, Forwards(ins[1..]), Simultaneous(s, rest, 0));
    }
  }

  lemma ForwardsFirst<T>(ins: seq<Match<T>>)
    ensures Forwards(ins) == if ins == [] then [] else ins[0].after + Forwards(ins[1..])
  {}

  lemma Regroup<T>(a: seq<T>, b: seq<T>, c: seq<T>)
    ensures a + b + c == a + (b + c)
  {}

  /** The untouched lines before the first match come out first. */
  lemma {:induction false} SimultaneousFrom<T>(s: seq<T>, ms: seq<Match<T>>, from: nat, to: nat)
    requires from <= to <= |s| && Chain(ms, to, |s|)
    ensures Chain(ms, from, |s|)
    ensures Simultaneous(s, ms, from) == s[from..to] + Simultaneous(s, ms, to)
  {}

  /** The number of pure insertions that lead a sorted list of matches. */
  function Insertions<T>(ms: seq<Match<T>>): (k: nat)
    ensures k <= |ms|
    ensures forall i :: 0 <= i < k ==> Insertion(ms[i])
    ensures k < |ms| ==> !Insertion(ms[k])
  {
    if ms == [] || ms[0].start != 0 || ms[0].end != 0 then 0 else 1 + Insertions(ms[1..])
  }

  /**
   Decides from the matches at line 0 alone whether back-to-front splicing meets the
   reference: the insertions are applied in listing order, each in front of the one before,
   and a replacement of the first lines then hits what was inserted.
   */
  predicate TiesAgree<T(==)>(s: seq<T>, ms: seq<Match<T>>) {
    var k := Insertions(ms);
    if k < |ms| && ms[k].start == 0 then
      var m := ms[k];
      m.end <= |s| &&
      m.after + (Backwards(ms[..k]) + s[..m.end])[m.end..] == Forwards(ms[..k]) + m.after
    else
      Backwards(ms[..k]) == Forwards(ms[..k])
  }

  /** Only hunks without context may match an empty range, and those match at 0. */
  ghost predicate OnlyZeroInsertions<T>(ms: seq<Match<T>>) {
    forall k :: 0 <= k < |ms| && ms[k].start == ms[k].end ==> ms[k].start == 0
  }

  lemma ChainParts<T>(a: seq<Match<T>>, b: seq<Match<T>>, n: nat)
    requires Chain(a + b, 0, n)
    ensures Chain(b, 0, n)
    ensures forall i, j :: 0 <= i < |a| && 0 <= j < |b| ==> a[i].end <= b[j].start
    decreases |a|
  {
    if a == [] {
      assert a + b == b;
    } else {
      ChainTail(a + b, 0, n);
      assert (a + b)[1..] == a[1..] + b;
      ChainParts(a[1..], b, n);
      forall j | 0 <= j < |b| ensures a[0].end <= b[j].start {
        ChainStep(a + b, 0, n, |a| + j);
      }
    }
  }

  lemma ChainAscends<T>(ms: seq<Match<T>>, from: nat, n: nat)
    requires Chain(ms, from, n)
    requires forall k :: 0 <= k < |ms| ==> ms[k].start < ms[k].end
    ensures StrictlyAscending(ms)
    decreases |ms|
  {
    if ms != [] {
      ChainTail(ms, from, n);
      ChainAscends(ms[1..], ms[0].end, n);
      forall j | 0 < j < |ms| ensures ms[0].start < ms[j].start { ChainStep(ms, from, n, j); }
    }
  }

  /** Exactly when the code's result is the simultaneous replacement. */
  lemma SpliceMeetsReference<T>(s: seq<T>, ms: seq<Match<T>>)
    requires Chain(ms, 0, |s|) && OnlyZeroInsertions(ms)
    ensures SpliceAll(s, SortDescending(ms)) == Simultaneous(s, ms, 0) <==> TiesAgree(s, ms)
  {
    hide Chain, SortDescending, SpliceAll, Simultaneous, Backwards, Forwards, StrictlyAscending;
    var k := Insertions(ms);
    var ins, others := ms[..k], ms[k..];
    assert ms == ins + others;
    ChainParts(ins, others, |s|);
    SimultaneousInsertions(s, ins, others);
    OthersAreWide(ms, |s|);
    ChainAscends(others, 0, |s|);
    if others != [] && others[0].start == 0 {
      TieWithReplacement(s, ins, others);
    } else {
      NoReplacementAtZero(others, |s|);
      InsertionsThenOthers(s, ins, others);
      CancelSuffix(Backwards(ins), Forwards(ins), Simultaneous(s, others, 0));
    }
  }

  lemma NoReplacementAtZero<T>(others: seq<Match<T>>, n: nat)
    requires Chain(others, 0, n) && (others != [] ==> others[0].start != 0)
    ensures forall k :: 0 <= k < |others| ==> others[k].start > 0
  {
    forall k | 0 < k < |others| ensures others[k].start > 0 { ChainStep(others, 0, n, k); }
  }

  /** Matches at 0 are spliced last, in listing order, into the otherwise updated lines. */
  lemma InsertionsThenOthers<T>(s: seq<T>, zeros: seq<Match<T>>, rest: seq<Match<T>>)
    requires Chain(rest, 0, |s|) && StrictlyAscending(rest)
    requires forall k :: 0 <= k < |zeros| ==> zeros[k].start == 0
    requires forall k :: 0 <= k < |rest| ==> rest[k].start > 0
    ensures SpliceAll(s, SortDescending(zeros + rest)) == SpliceAll(Simultaneous(s, rest, 0), zeros)
    ensures (forall k :: 0 <= k < |zeros| ==> Insertion(zeros[k])) ==>
              SpliceAll(s, SortDescending(zeros + rest)) == Backwards(zeros) + Simultaneous(s, rest, 0)
  {
    DescendingKeepsTies(zeros, rest);
    BackToFront(s, rest);
    SpliceAllConcat(s, Reverse(rest), zeros);
    if forall k :: 0 <= k < |zeros| ==> Insertion(zeros[k]) {
      InsertionsPileUp(Simultaneous(s, rest, 0), zeros);
    }
  }

  lemma TieWithReplacement<T>(s: seq<T>, ins: seq<Match<T>>, others: seq<Match<T>>)
    requires forall k :: 0 <= k < |ins| ==> Insertion(ins[k])
    requires Chain(others, 0, |s|) && StrictlyAscending(others) && others != [] && others[0].start == 0
    requires others[0].start < others[0].end
    ensures others[0].end <= |s|
    ensures SpliceAll(s, SortDescending(ins + others)) == Forwards(ins) + Simultaneous(s, others, 0) <==>
            others[0].after + (Backwards(ins) + s[..others[0].end])[others[0].end..] == Forwards(ins) + others[0].after
  {
    var m, rest := others[0], others[1..];
    ChainTail(others, 0, |s|);
    assert ins + others == (ins + [m]) + rest;
    SimultaneousFrom(s, rest, 0, m.end);
    InsertionsThenOthers(s, ins + [m], rest);
    var l := Simultaneous(s, rest, 0);
    SpliceAllConcat(l, ins, [m]);
    InsertionsPileUp(l, ins);
    assert Simultaneous(s, others, 0) == m.after + Simultaneous(s, rest, m.end) by {
      assert s[0..0] + m.after == m.after;
    }
    TieAtZero(s, ins, m, Simultaneous(s, rest, m.end));
  }

  lemma OthersAreWide<T>(ms: seq<Match<T>>, n: nat)
    requires Chain(ms, 0, n) && OnlyZeroInsertions(ms)
    ensures forall j :: Insertions(ms) <= j < |ms| ==> ms[j].start < ms[j].end
  {
    var k := Insertions(ms);
    forall j | k <= j < |ms| ensures ms[j].start < ms[j].end {
      assert ms[k].start < ms[k].end;
      if k < j { ChainOrder(ms, 0, n, k, j); }
    }
  }

  lemma {:induction false} ChainOrder<T>(ms: seq<Match<T>>, from: nat, n: nat, i: nat, j: nat)
    requires Chain(ms, from, n) && i < j < |ms|
    ensures ms[i].end <= ms[j].start
    decreases j - i
  {
    if i + 1 < j { ChainOrder(ms, from, n, i + 1, j); }
  }

  lemma CancelSuffix<T>(a: seq<T>, b: seq<T>, l: seq<T>)
    ensures a + l == b + l <==> a == b
  {
    if a + l == b + l {
      assert |a| == |b|;
      assert a == (a + l)[..|a|] == (b + l)[..|b|] == b;
    }
  }

  lemma TieAtZero<T>(s: seq<T>, ins: seq<Match<T>>, m: Match<T>, tail: seq<T>)
    requires m.start == 0 && m.end <= |s|
    ensures SpliceAll(Backwards(ins) + (s[..m.end] + tail), [m]) == Forwards(ins) + (m.after + tail) <==>
            m.after + (Backwards(ins) + s[..m.end])[m.end..] == Forwards(ins) + m.after
  {
    var piled := Backwards(ins) + (s[..m.end] + tail);
    var head := Backwards(ins) + s[..m.end];
    assert piled == head + tail;
    assert piled[m.end..] == head[m.end..] + tail;
    assert SpliceAll(piled, [m]) == Splice(piled, m) by { assert [m][1..] == []; }
    assert Splice(piled, m) == (m.after + head[m.end..]) + tail;
    assert Forwards(ins) + (m.after + tail) == (Forwards(ins) + m.after) + tail;
    CancelSuffix(m.after + head[m.end..], Forwards(ins) + m.after, tail);
  }

  // ----- the whole operation -----

  /** Every hunk has its one place and no two places overlap. */
  ghost predicate Applicable<T(!new)>(lines: seq<T>, hunks: seq<Hunk<T>>) {
    exists ms :: Located(lines, hunks, ms) && Chain(SortAscending(ms), 0, |lines|)
  }

  /** The located matches in position order. */
  ghost function Places<T(!new)>(lines: seq<T>, hunks: seq<Hunk<T>>): (ms: seq<Match<T>>)
    requires Applicable(lines, hunks)
    ensures Chain(ms, 0, |lines|) && OnlyZeroInsertions(ms)
  {
    var ms :| Located(lines, hunks, ms) && Chain(SortAscending(ms), 0, |lines|);
    SortedZeroInsertions(lines, hunks, ms);
    SortAscending(ms)
  }

  lemma SortedZeroInsertions<T>(lines: seq<T>, hunks: seq<Hunk<T>>, ms: seq<Match<T>>)
    requires Located(lines, hunks, ms)
    ensures OnlyZeroInsertions(SortAscending(ms))
  {
    SortAscendingSorts(ms);
    var r := SortAscending(ms);
    forall k | 0 <= k < |r| && r[k].start == r[k].end ensures r[k].start == 0 {
      assert r[k] in multiset(r);
      assert r[k] in ms;
    }
  }

  ghost predicate AllContextual<T>(hunks: seq<Hunk<T>>) {
    forall k :: 0 <= k < |hunks| ==> hunks[k].before != []
  }

  /** Lines added minus lines removed, over all hunks. */
  function NetGrowth<T>(hunks: seq<Hunk<T>>): int {
    if hunks == [] then 0 else |hunks[0].after| - |hunks[0].before| + NetGrowth(hunks[1..])
  }

  lemma {:induction false} GrowthOfInsert<T>(m: Match<T>, ms: seq<Match<T>>)
    ensures Growth(InsertAscending(m, ms)) == |m.after| - (m.end - m.start) + Growth(ms)
  {
    if ms == [] || m.start <= ms[0].start {
      assert ([m] + ms)[1..] == ms;
    } else {
      GrowthOfInsert(m, ms[1..]);
      assert ([ms[0]] + InsertAscending(m, ms[1..]))[1..] == InsertAscending(m, ms[1..]);
    }
  }

  lemma {:induction false} GrowthOfSort<T>(ms: seq<Match<T>>)
    ensures Growth(SortAscending(ms)) == Growth(ms)
  {
    if ms != [] {
      GrowthOfSort(ms[1..]);
      GrowthOfInsert(ms[0], SortAscending(ms[1..]));
    }
  }

  lemma {:induction false} GrowthOfLocated<T>(lines: seq<T>, hunks: seq<Hunk<T>>, ms: seq<Match<T>>, k: nat)
    requires Located(lines, hunks, ms) && k <= |ms|
    ensures Growth(ms[k..]) == NetGrowth(hunks[k..])
    decreases |ms| - k
  {
    if k < |ms| {
      GrowthOfLocated(lines, hunks, ms, k + 1);
      assert ms[k..][1..] == ms[k + 1..] && hunks[k..][1..] == hunks[k + 1..];
    }
  }

  /** The result is the simultaneous replacement iff the hunks at line 0 allow it. */
  ghost predicate FaithfulAtTop<T(!new)>(lines: seq<T>, hunks: seq<Hunk<T>>)
    requires Applicable(lines, hunks)
  {
    TiesAgree(lines, Places(lines, hunks))
  }

  /** Hunks that all carry context never meet the exception. */
  lemma ContextIsEnough<T(!new)>(lines: seq<T>, hunks: seq<Hunk<T>>)
    requires Applicable(lines, hunks) && AllContextual(hunks)
    ensures FaithfulAtTop(lines, hunks)
  {
    var ms: seq<Match<T>> :| Located(lines, hunks, ms) && Chain(SortAscending(ms), 0, |lines|);
    PlacesAre(lines, hunks, ms);
    FirstIsWide(lines, hunks, ms);
    NoInsertionNoTie(lines, SortAscending(ms));
  }

  lemma FirstIsWide<T>(lines: seq<T>, hunks: seq<Hunk<T>>, ms: seq<Match<T>>)
    requires Located(lines, hunks, ms) && AllContextual(hunks)
    ensures var r := SortAscending(ms); r != [] ==> r[0].start < r[0].end <= |lines|
  {
    hide SortAscending, Ascending;
    SortAscendingSorts(ms);
    var r := SortAscending(ms);
    if r != [] {
      assert r[0] in multiset(r);
      assert r[0] in ms;
    }
  }

  lemma NoInsertionNoTie<T>(lines: seq<T>, ms: seq<Match<T>>)
    requires ms != [] ==> ms[0].start < ms[0].end <= |lines|
    ensures TiesAgree(lines, ms)
  {}

  /**
   The line-level core of `apply_update_hunks`.  It succeeds exactly when every hunk has one
   place and no two overlap, and then yields the simultaneous replacement exactly when the
   hunks at line 0 do not get in each other's way.
   */
  method ApplyUpdateHunks<T(==, !new)>(lines: seq<T>, hunks: seq<Hunk<T>>) returns (r: Result<T>)
    ensures r.Updated? <==> Applicable(lines, hunks)
    ensures r.Updated? ==> r.lines == Spliced(lines, hunks)
    ensures r.Updated? ==>
              (r.lines == Simultaneous(lines, Places(lines, hunks), 0) <==> FaithfulAtTop(lines, hunks))
    ensures r.Updated? && AllContextual(hunks) ==>
              && r.lines == Simultaneous(lines, Places(lines, hunks), 0)
              && |r.lines| == |lines| + NetGrowth(hunks)
    ensures !r.Updated? ==> Refuses(lines, hunks, r)
  {
    hide Chain, Located, SortAscending, SortDescending, Simultaneous, TiesAgree, SpliceAll, Applicable, AllLocatable, Places;
    var located := Locate(lines, hunks);
    if located.Stopped? {
      NotLocatable(lines, hunks, located.why.hunk);
      return located.why;
    }
    var ms := located.ms;
    var sorted := SortAscending(ms);
    var clash := FirstOverlap(sorted);
    LocatedInside(lines, hunks, ms);
    LocatedIsLocatable(lines, hunks, ms);
    if clash < |sorted| {
      OverlapStops(lines, hunks, ms, clash);
      ClashIsOverlap(lines, hunks, ms, clash);
      return HunksOverlap(sorted[clash - 1].hunk, sorted[clash].hunk);
    }
    var updated := SpliceBackToFront(lines, sorted);
    PlacesAre(lines, hunks, ms);
    SpliceMeetsReference(lines, sorted);
    if AllContextual(hunks) {
      ContextIsEnough(lines, hunks);
      LengthOfUpdate(lines, hunks, ms);
    }
    r := Updated(updated);
  }

  /** A refusal names the first hunk without one place, or two hunks whose places overlap. */
  ghost predicate Refuses<T(!new)>(lines: seq<T>, hunks: seq<Hunk<T>>, r: Result<T>) {
    match r
    case Updated(_) => false
    case ContextNotFound(k) =>
      k < |hunks| && AllLocatable(lines, hunks[..k]) && hunks[k].before != [] && forall i :: !Occurs(lines, hunks[k].before, i)
    case ContextAmbiguous(k) =>
      && k < |hunks| && AllLocatable(lines, hunks[..k])
      && exists i, j :: i < j && Occurs(lines, hunks[k].before, i) && Occurs(lines, hunks[k].before, j)
    case HunksOverlap(first, second) => AllLocatable(lines, hunks) && Overlap(lines, hunks, first, second)
  }

  /** What the code's splices make of the lines. */
  ghost function Spliced<T(!new)>(lines: seq<T>, hunks: seq<Hunk<T>>): seq<T>
    requires Applicable(lines, hunks)
  {
    SpliceAll(lines, SortDescending(Places(lines, hunks)))
  }

  datatype Location<T> = Placed(ms: seq<Match<T>>) | Stopped(why: Result<T>)

  method Locate<T(==)>(lines: seq<T>, hunks: seq<Hunk<T>>) returns (r: Location<T>)
    ensures r.Placed? ==> Located(lines, hunks, r.ms)
    ensures r.Stopped? ==>
              && (r.why.ContextNotFound? || r.why.ContextAmbiguous?)
              && r.why.hunk < |hunks| && AllLocatable(lines, hunks[..r.why.hunk])
              && !Locatable(lines, hunks[r.why.hunk])
    ensures r.Stopped? && r.why.ContextNotFound? ==>
              && hunks[r.why.hunk].before != []
              && forall i :: !Occurs(lines, hunks[r.why.hunk].before, i)
    ensures r.Stopped? && r.why.ContextAmbiguous? ==>
              exists i, j :: i < j && Occurs(lines, hunks[r.why.hunk].before, i) &&
                             Occurs(lines, hunks[r.why.hunk].before, j)
  {
    var ms: seq<Match<T>> := [];
    for k := 0 to |hunks|
      invariant Located(lines, hunks[..k], ms)
    {
      LocatedIsLocatable(lines, hunks[..k], ms);
      var found := FindSubsequenceAll(lines, hunks[k].before);
      if found == [] { return Stopped(ContextNotFound(k)); }
      if |found| > 1 {
        assert found[0] in found && found[1] in found && found[0] < found[1];
        return Stopped(ContextAmbiguous(k));
      }
      assert found == [found[0]] && found[0] in found;
      ms := ms + [Match(k, found[0], found[0] + |hunks[k].before|, hunks[k].after)];
    }
    assert hunks[..|hunks|] == hunks;
    r := Placed(ms);
  }

  /** The first position whose match begins inside the one before it. */
  method FirstOverlap<T>(sorted: seq<Match<T>>) returns (k: nat)
    ensures 0 < k < |sorted| ==> sorted[k - 1].end > sorted[k].start
    ensures k == 0 ==> |sorted| == 0
    ensures k <= |sorted|
    ensures forall i :: 0 <= i < k - 1 ==> sorted[i].end <= sorted[i + 1].start
  {
    if sorted == [] { return 0; }
    k := 1;
    while k < |sorted|
      invariant 1 <= k <= |sorted|
      invariant forall i :: 0 <= i < k - 1 ==> sorted[i].end <= sorted[i + 1].start
    {
      if sorted[k - 1].end > sorted[k].start { return; }
      k := k + 1;
    }
  }

  method SpliceBackToFront<T>(lines: seq<T>, sorted: seq<Match<T>>) returns (updated: seq<T>)
    ensures updated == SpliceAll(lines, SortDescending(sorted))
  {
    updated := lines;
    var descending := SortDescending(sorted);
    for k := 0 to |descending|
      invariant SpliceAll(updated, descending[k..]) == SpliceAll(lines, descending)
    {
      assert descending[k..][1..] == descending[k + 1..];
      updated := Splice(updated, descending[k]);
    }
  }

  lemma NotLocatable<T(!new)>(lines: seq<T>, hunks: seq<Hunk<T>>, k: nat)
    requires k < |hunks| && !Locatable(lines, hunks[k])
    ensures !Applicable(lines, hunks)
  {}

  lemma ApplicableIsLocatable<T(!new)>(lines: seq<T>, hunks: seq<Hunk<T>>)
    requires Applicable(lines, hunks)
    ensures AllLocatable(lines, hunks)
  {}

  lemma LocatedIsLocatable<T>(lines: seq<T>, hunks: seq<Hunk<T>>, ms: seq<Match<T>>)
    requires Located(lines, hunks, ms)
    ensures AllLocatable(lines, hunks)
  {}

  lemma LocatedInside<T>(lines: seq<T>, hunks: seq<Hunk<T>>, ms: seq<Match<T>>)
    requires Located(lines, hunks, ms)
    ensures var r := SortAscending(ms);
            && (forall k :: 0 <= k < |r| ==> 0 <= r[k].start <= r[k].end <= |lines|)
            && ((forall i :: 0 <= i < |r| - 1 ==> r[i].end <= r[i + 1].start) <==> Chain(r, 0, |lines|))
  {
    hide SortAscending, Ascending;
    SortAscendingSorts(ms);
    var r := SortAscending(ms);
    forall k | 0 <= k < |r| ensures 0 <= r[k].start <= r[k].end <= |lines| {
      assert r[k] in multiset(r);
      assert r[k] in ms;
    }
  }

  lemma OverlapStops<T(!new)>(lines: seq<T>, hunks: seq<Hunk<T>>, ms: seq<Match<T>>, clash: nat)
    requires Located(lines, hunks, ms)
    requires 0 < clash < |SortAscending(ms)| && SortAscending(ms)[clash - 1].end > SortAscending(ms)[clash].start
    ensures !Applicable(lines, hunks)
  {
    forall other: seq<Match<T>> | Located(lines, hunks, other) ensures !Chain(SortAscending(other), 0, |lines|) {
      LocatedIsUnique(lines, hunks, ms, other);
    }
  }

  /** The two hunks have one place each, and the second begins inside the first. */
  ghost predicate Overlap<T>(lines: seq<T>, hunks: seq<Hunk<T>>, first: nat, second: nat) {
    && first < |hunks| && second < |hunks| && first != second
    && exists i: nat, j: nat ::
         UniquelyAt(lines, hunks[first], i) && UniquelyAt(lines, hunks[second], j) && i <= j < i + |hunks[first].before|
  }

  lemma ClashIsOverlap<T>(lines: seq<T>, hunks: seq<Hunk<T>>, ms: seq<Match<T>>, clash: nat)
    requires Located(lines, hunks, ms) && 0 < clash < |SortAscending(ms)|
    requires SortAscending(ms)[clash - 1].end > SortAscending(ms)[clash].start
    ensures Overlap(lines, hunks, SortAscending(ms)[clash - 1].hunk, SortAscending(ms)[clash].hunk)
  {
    hide SortAscending;
    var sorted := SortAscending(ms);
    SortAscendingSorts(ms);
    var a, b := sorted[clash - 1], sorted[clash];
    assert a in multiset(sorted) && b in multiset(sorted);
    assert a in ms && b in ms;
    assert UniquelyAt(lines, hunks[a.hunk], a.start) && UniquelyAt(lines, hunks[b.hunk], b.start);
    if a.hunk == b.hunk {
      TwiceInARow(sorted, clash);
      OnceEach(ms, 0, a);
    }
  }

  lemma TwiceInARow<X>(xs: seq<X>, k: nat)
    requires 0 < k < |xs| && xs[k - 1] == xs[k]
    ensures multiset(xs)[xs[k]] >= 2
  {
    assert xs == xs[..k - 1] + [xs[k]] + [xs[k]] + xs[k + 1..];
  }

  lemma {:induction false} OnceEach<T>(ms: seq<Match<T>>, from: nat, m: Match<T>)
    requires forall k :: 0 <= k < |ms| ==> ms[k].hunk == from + k
    ensures multiset(ms)[m] <= 1
    decreases |ms|
  {
    if ms != [] {
      OnceEach(ms[1..], from + 1, m);
      assert ms == [ms[0]] + ms[1..];
      assert ms[0] !in ms[1..];
    }
  }

  lemma PlacesAre<T(!new)>(lines: seq<T>, hunks: seq<Hunk<T>>, ms: seq<Match<T>>)
    requires Located(lines, hunks, ms) && Chain(SortAscending(ms), 0, |lines|)
    ensures Applicable(lines, hunks) && Places(lines, hunks) == SortAscending(ms)
    ensures OnlyZeroInsertions(SortAscending(ms))
  {
    SortedZeroInsertions(lines, hunks, ms);
    var other :| Located(lines, hunks, other) && Places(lines, hunks) == SortAscending(other);
    LocatedIsUnique(lines, hunks, ms, other);
  }

  lemma LengthOfUpdate<T>(lines: seq<T>, hunks: seq<Hunk<T>>, ms: seq<Match<T>>)
    requires Located(lines, hunks, ms) && Chain(SortAscending(ms), 0, |lines|)
    ensures |Simultaneous(lines, SortAscending(ms), 0)| == |lines| + NetGrowth(hunks)
  {
    SimultaneousLength(lines, SortAscending(ms), 0);
    GrowthOfSort(ms);
    GrowthOfLocated(lines, hunks, ms, 0);
    assert ms[0..] == ms && hunks[0..] == hunks;
  }

  // ----- the listing order of hunks -----

  /** The replacement a hunk stands for, without its place in the listing. */
  ghost function EditOf<T>(lines: seq<T>, h: Hunk<T>): Match<T> {
    if at: nat :| UniquelyAt(lines, h, at) then Match(0, at, at + |h.before|, h.after)
    else Match(0, 0, 0, [])
  }

  ghost function Edits<T>(lines: seq<T>, hunks: seq<Hunk<T>>): (r: seq<Match<T>>)
    ensures |r| == |hunks|
    ensures forall k :: 0 <= k < |r| ==> r[k] == EditOf(lines, hunks[k])
  {
    if hunks == [] then [] else [EditOf(lines, hunks[0])] + Edits(lines, hunks[1..])
  }

  function Unlabel<T>(ms: seq<Match<T>>): (r: seq<Match<T>>)
    ensures |r| == |ms|
    ensures forall k :: 0 <= k < |r| ==> r[k] == ms[k].(hunk := 0)
  {
    if ms == [] then [] else [ms[0].(hunk := 0)] + Unlabel(ms[1..])
  }

  lemma LocatedEdits<T>(lines: seq<T>, hunks: seq<Hunk<T>>, ms: seq<Match<T>>)
    requires Located(lines, hunks, ms)
    ensures Unlabel(ms) == Edits(lines, hunks)
  {
    forall k | 0 <= k < |ms| ensures ms[k].(hunk := 0) == EditOf(lines, hunks[k]) {
      assert UniquelyAt(lines, hunks[k], ms[k].start);
    }
  }

  lemma {:induction false} InsertUnlabelled<T>(m: Match<T>, ms: seq<Match<T>>)
    ensures Unlabel(InsertAscending(m, ms)) == InsertAscending(m.(hunk := 0), Unlabel(ms))
  {
    if !(ms == [] || m.start <= ms[0].start) {
      InsertUnlabelled(m, ms[1..]);
      assert Unlabel(ms)[1..] == Unlabel(ms[1..]);
      var r := InsertAscending(m, ms[1..]);
      assert ([ms[0]] + r)[1..] == r;
    } else {
      assert ([m] + ms)[1..] == ms;
    }
  }

  lemma {:induction false} SortUnlabelled<T>(ms: seq<Match<T>>)
    ensures Unlabel(SortAscending(ms)) == SortAscending(Unlabel(ms))
  {
    if ms != [] {
      SortUnlabelled(ms[1..]);
      InsertUnlabelled(ms[0], SortAscending(ms[1..]));
    }
  }

  lemma {:induction false} SimultaneousUnlabelled<T>(s: seq<T>, ms: seq<Match<T>>, from: nat)
    requires Chain(ms, from, |s|) && from <= |s|
    ensures Chain(Unlabel(ms), from, |s|)
    ensures Simultaneous(s, Unlabel(ms), from) == Simultaneous(s, ms, from)
    decreases |ms|
  {
    if ms != [] {
      ChainTail(ms, from, |s|);
      SimultaneousUnlabelled(s, ms[1..], ms[0].end);
      ChainTail(Unlabel(ms), from, |s|);
      assert Unlabel(ms)[1..] == Unlabel(ms[1..]);
    }
  }

  function Without<X>(xs: seq<X>, j: nat): seq<X>
    requires j < |xs|
  {
    xs[..j] + xs[j + 1..]
  }

  lemma TakeOut<X>(xs: seq<X>, j: nat)
    requires j < |xs|
    ensures multiset(xs) == multiset(Without(xs, j)) + multiset{xs[j]}
  {
    assert xs == xs[..j] + [xs[j]] + xs[j + 1..];
  }

  /** Permutations stay permutations when the same element is taken out of both. */
  lemma TakeOutBoth<X>(a: seq<X>, i: nat, b: seq<X>, j: nat)
    requires i < |a| && j < |b| && a[i] == b[j]
    ensures multiset(a) == multiset(b) <==> multiset(Without(a, i)) == multiset(Without(b, j))
  {
    TakeOut(a, i);
    TakeOut(b, j);
    var x, y, z := multiset(Without(a, i)), multiset(Without(b, j)), multiset{a[i]};
    if x + z == y + z {
      assert x == (x + z) - z == (y + z) - z == y;
    }
  }

  lemma FindIn<X>(x: X, xs: seq<X>) returns (j: nat)
    requires x in multiset(xs)
    ensures j < |xs| && xs[j] == x
  {
    assert x in xs;
    j :| 0 <= j < |xs| && xs[j] == x;
  }

  lemma {:induction false} EditsOfPermutation<T>(lines: seq<T>, a: seq<Hunk<T>>, b: seq<Hunk<T>>)
    requires multiset(a) == multiset(b)
    ensures multiset(Edits(lines, a)) == multiset(Edits(lines, b))
    decreases |a|
  {
    assert |multiset(a)| == |a| && |multiset(b)| == |b|;
    if a != [] {
      assert a[0] in multiset(a);
      var j := FindIn(a[0], b);
      TakeOutBoth(a, 0, b, j);
      EditsOfPermutation(lines, Without(a, 0), Without(b, j));
      EditsWithout(lines, a, 0);
      EditsWithout(lines, b, j);
      TakeOutBoth(Edits(lines, a), 0, Edits(lines, b), j);
    }
  }

  lemma EditsWithout<T>(lines: seq<T>, hunks: seq<Hunk<T>>, j: nat)
    requires j < |hunks|
    ensures Without(Edits(lines, hunks), j) == Edits(lines, Without(hunks, j))
  {}

  lemma {:induction false} SortedIsUnique<T>(a: seq<Match<T>>, b: seq<Match<T>>)
    requires StrictlyAscending(a) && Ascending(b) && multiset(a) == multiset(b)
    ensures a == b
    decreases |a|
  {
    hide StrictlyAscending, Ascending, Without;
    assert |multiset(a)| == |a| && |multiset(b)| == |b|;
    if a != [] {
      SameFirst(a, b);
      TakeOutBoth(a, 0, b, 0);
      WithoutFirst(a);
      WithoutFirst(b);
      TailsAscend(a, b);
      SortedIsUnique(a[1..], b[1..]);
      assert a == [a[0]] + a[1..] && b == [b[0]] + b[1..];
    }
  }

  lemma WithoutFirst<X>(xs: seq<X>)
    requires xs != []
    ensures Without(xs, 0) == xs[1..]
  {}

  lemma TailsAscend<T>(a: seq<Match<T>>, b: seq<Match<T>>)
    requires StrictlyAscending(a) && Ascending(b) && a != [] && b != []
    ensures StrictlyAscending(a[1..]) && Ascending(b[1..])
  {}

  lemma SameFirst<T>(a: seq<Match<T>>, b: seq<Match<T>>)
    requires StrictlyAscending(a) && Ascending(b) && multiset(a) == multiset(b) && a != [] && b != []
    ensures a[0] == b[0]
  {
    assert a[0] in multiset(a) && b[0] in multiset(b);
    var i := FindIn(b[0], a);
    var j := FindIn(a[0], b);
  }

  /** Neither success nor result depends on the order in which hunks are listed. */
  lemma OrderOfHunks<T(!new)>(lines: seq<T>, hunks: seq<Hunk<T>>, hunks': seq<Hunk<T>>)
    requires multiset(hunks) == multiset(hunks') && AllContextual(hunks)
    ensures AllContextual(hunks') && (Applicable(lines, hunks) <==> Applicable(lines, hunks'))
    ensures Applicable(lines, hunks) ==>
              Simultaneous(lines, Places(lines, hunks'), 0) == Simultaneous(lines, Places(lines, hunks), 0)
    ensures Apply(lines, hunks) == Apply(lines, hunks')
  {
    hide Chain, Simultaneous, Applicable, Places, Apply, Spliced;
    StillContextual(hunks, hunks');
    ApplyMeans(lines, hunks);
    ApplyMeans(lines, hunks');
    if Applicable(lines, hunks) || Applicable(lines, hunks') {
      if Applicable(lines, hunks) { SameUpdate(lines, hunks, hunks'); } else { SameUpdate(lines, hunks', hunks); }
      SplicedInContext(lines, hunks);
      SplicedInContext(lines, hunks');
    }
  }

  lemma StillContextual<T(!new)>(hunks: seq<Hunk<T>>, hunks': seq<Hunk<T>>)
    requires multiset(hunks) == multiset(hunks') && AllContextual(hunks)
    ensures AllContextual(hunks')
  {
    forall k | 0 <= k < |hunks'| ensures hunks'[k].before != [] {
      assert hunks'[k] in multiset(hunks');
      assert hunks'[k] in multiset(hunks);
    }
  }

  lemma SplicedInContext<T(!new)>(lines: seq<T>, hunks: seq<Hunk<T>>)
    requires Applicable(lines, hunks) && AllContextual(hunks)
    ensures Spliced(lines, hunks) == Simultaneous(lines, Places(lines, hunks), 0)
  {
    hide Chain, Simultaneous, Applicable, Places, TiesAgree, SpliceAll, SortDescending;
    ContextIsEnough(lines, hunks);
    SpliceMeetsReference(lines, Places(lines, hunks));
  }

  lemma SameUpdate<T(!new)>(lines: seq<T>, hunks: seq<Hunk<T>>, hunks': seq<Hunk<T>>)
    requires multiset(hunks) == multiset(hunks') && AllContextual(hunks)
    requires Applicable(lines, hunks)
    ensures AllContextual(hunks') && Applicable(lines, hunks')
    ensures Simultaneous(lines, Places(lines, hunks'), 0) == Simultaneous(lines, Places(lines, hunks), 0)
  {
    hide Chain, Simultaneous, SortAscending, Applicable, Places, Located, Ascending, StrictlyAscending, Edits;
    var ms := SomeLocation(lines, hunks);
    PermutedHunks(lines, hunks, hunks');
    ApplicableIsLocatable(lines, hunks);
    var ms' := LocationOf(lines, hunks');
    PlacesAre(lines, hunks, ms);
    LocatedEdits(lines, hunks, ms);
    LocatedEdits(lines, hunks', ms');
    EditsOfPermutation(lines, hunks, hunks');
    SortUnlabelled(ms);
    SortUnlabelled(ms');
    SortAscendingSorts(Edits(lines, hunks));
    SortAscendingSorts(Edits(lines, hunks'));
    SimultaneousUnlabelled(lines, SortAscending(ms), 0);
    WideEdits(lines, hunks, ms);
    ChainAscends(Unlabel(SortAscending(ms)), 0, |lines|);
    SortedIsUnique(Unlabel(SortAscending(ms)), Unlabel(SortAscending(ms')));
    ChainUnlabelled(SortAscending(ms'), |lines|);
    PlacesAre(lines, hunks', ms');
    SimultaneousUnlabelled(lines, SortAscending(ms'), 0);
  }

  lemma SomeLocation<T(!new)>(lines: seq<T>, hunks: seq<Hunk<T>>) returns (ms: seq<Match<T>>)
    requires Applicable(lines, hunks)
    ensures Located(lines, hunks, ms) && Chain(SortAscending(ms), 0, |lines|)
  {
    ms :| Located(lines, hunks, ms) && Chain(SortAscending(ms), 0, |lines|);
  }

  lemma PermutedHunks<T(!new)>(lines: seq<T>, hunks: seq<Hunk<T>>, hunks': seq<Hunk<T>>)
    requires multiset(hunks) == multiset(hunks') && AllContextual(hunks) && Applicable(lines, hunks)
    ensures AllContextual(hunks') && AllLocatable(lines, hunks')
  {
    ApplicableIsLocatable(lines, hunks);
    forall k | 0 <= k < |hunks'| ensures hunks'[k].before != [] && Locatable(lines, hunks'[k]) {
      assert hunks'[k] in multiset(hunks');
      assert hunks'[k] in multiset(hunks);
    }
  }

  lemma LocationOf<T>(lines: seq<T>, hunks: seq<Hunk<T>>) returns (ms: seq<Match<T>>)
    requires AllLocatable(lines, hunks)
    ensures Located(lines, hunks, ms)
  {
    ms := [];
    for k := 0 to |hunks|
      invariant Located(lines, hunks[..k], ms)
    {
      assert Locatable(lines, hunks[k]);
      var at: nat :| UniquelyAt(lines, hunks[k], at);
      ms := ms + [Match(k, at, at + |hunks[k].before|, hunks[k].after)];
    }
    assert hunks[..|hunks|] == hunks;
  }

  lemma WideEdits<T>(lines: seq<T>, hunks: seq<Hunk<T>>, ms: seq<Match<T>>)
    requires Located(lines, hunks, ms) && AllContextual(hunks)
    ensures var r := Unlabel(SortAscending(ms)); forall k :: 0 <= k < |r| ==> r[k].start < r[k].end
  {
    hide SortAscending, Ascending;
    SortAscendingSorts(ms);
    var r := SortAscending(ms);
    forall k | 0 <= k < |r| ensures r[k].start < r[k].end {
      assert r[k] in multiset(r);
      assert r[k] in ms;
    }
  }

  lemma ChainUnlabelled<T>(ms: seq<Match<T>>, n: nat)
    requires Chain(Unlabel(ms), 0, n)
    ensures Chain(ms, 0, n)
  {}

  /** An insertion listed before a replacement of line 0: the inserted line is lost and line 0 stays. */
  lemma TieWitness()
    ensures var lines := ['a'];
            var hunks := [Hunk([], ['x']), Hunk(['a'], ['b'])];
            && Applicable(lines, hunks)
            && !FaithfulAtTop(lines, hunks)
            && SpliceAll(lines, SortDescending(Places(lines, hunks))) == ['b', 'a']
            && Simultaneous(lines, Places(lines, hunks), 0) == ['x', 'b']
  {
    var lines := ['a'];
    var hunks := [Hunk([], ['x']), Hunk(['a'], ['b'])];
    var first, second := Match(0, 0, 0, ['x']), Match(1, 0, 1, ['b']);
    var ms := [first, second];
    hide Applicable, Places, TiesAgree, Simultaneous, SpliceAll, SortAscending, SortDescending;
    assert Occurs(lines, ['a'], 0) && forall i :: Occurs(lines, ['a'], i) ==> i == 0;
    assert Located(lines, hunks, ms);
    TieSorts(first, second);
    PlacesAre(lines, hunks, ms);
    TieSplices(lines, first, second);
    SpliceMeetsReference(lines, ms);
  }

  lemma TieSorts(first: Match<char>, second: Match<char>)
    requires first.start == first.end == second.start == 0 && second.end == 1
    ensures SortAscending([first, second]) == [first, second] && SortDescending([first, second]) == [first, second]
    ensures Chain([first, second], 0, 1)
  {
    hide Chain;
    TieChain(first, second);
    SortSingle(second);
    assert [first, second][1..] == [second];
    assert SortAscending([first, second]) == InsertAscending(first, [second]);
    assert SortDescending([first, second]) == InsertDescending(first, [second]);
    assert InsertDescending(first, [second]) == [first] + [second];
  }

  lemma TieChain(first: Match<char>, second: Match<char>)
    requires first.start == first.end == second.start == 0 && second.end == 1
    ensures Chain([first, second], 0, 1)
  {}

  lemma SortSingle<T>(m: Match<T>)
    ensures SortAscending([m]) == [m] && SortDescending([m]) == [m]
  {
    assert [m][1..] == [];
    assert SortAscending<T>([]) == [] && SortDescending<T>([]) == [];
  }

  lemma TieSplices(lines: seq<char>, first: Match<char>, second: Match<char>)
    requires lines == ['a'] && first == Match(0, 0, 0, ['x']) && second == Match(1, 0, 1, ['b'])
    requires Chain([first, second], 0, 1)
    ensures SpliceAll(lines, [first, second]) == ['b', 'a']
    ensures Simultaneous(lines, [first, second], 0) == ['x', 'b']
  {
    assert [first, second][1..] == [second] && [second][1..] == [];
    assert Splice(lines, first) == ['x', 'a'] && Splice(['x', 'a'], second) == ['b', 'a'];
    assert SpliceAll(['x', 'a'], [second]) == SpliceAll(['b', 'a'], []) == ['b', 'a'];
    assert Simultaneous(lines, [second], 0) == ['b'] by {
      assert lines[0..0] == [] && Simultaneous(lines, [], 1) == [];
    }
    assert Simultaneous(lines, [first, second], 0) == lines[0..0] + ['x'] + ['b'] == ['x', 'b'];
  }

  // ----- undoing -----

  /** The matches that take the updated lines back: what was replaced, at its place in the result. */
  function Inverse<T>(s: seq<T>, ms: seq<Match<T>>, from: nat, at: nat): seq<Match<T>>
    requires Chain(ms, from, |s|)
    decreases |ms|
  {
    if ms == [] then []
    else
      ChainTail(ms, from, |s|);
      var m := ms[0];
      var start := at + (m.start - from);
      [Match(m.hunk, start, start + |m.after|, s[m.start..m.end])] + Inverse(s, ms[1..], m.end, start + |m.after|)
  }

  lemma ConsChain<T>(m: Match<T>, ms: seq<Match<T>>, from: nat, n: nat)
    requires Chain(ms, m.end, n) && from <= m.start <= m.end <= n
    ensures Chain([m] + ms, from, n)
  {}

  lemma {:induction false} InverseUndoes<T>(s: seq<T>, ms: seq<Match<T>>, from: nat, head: seq<T>)
    requires from <= |s| && Chain(ms, from, |s|)
    ensures var r := head + Simultaneous(s, ms, from);
            var back := Inverse(s, ms, from, |head|);
            Chain(back, |head|, |r|) && Simultaneous(r, back, |head|) == s[from..]
    decreases |ms|
  {
    hide Chain, Simultaneous, Inverse;
    if ms == [] {
      NoMatches(s, from, head);
    } else {
      var m := ms[0];
      FirstMatch(s, ms, from, |head|);
      var head' := head + s[from..m.start] + m.after;
      var rest := Simultaneous(s, ms[1..], m.end);
      InverseUndoes(s, ms[1..], m.end, head');
      var back := Inverse(s, ms[1..], m.end, |head'|);
      UndoOne(s, m, from, head, rest, back);
    }
  }

  lemma NoMatches<T>(s: seq<T>, from: nat, head: seq<T>)
    requires from <= |s|
    ensures Chain<T>([], from, |s|)
    ensures var r := head + Simultaneous(s, [], from);
            Inverse(s, [], from, |head|) == [] && Chain<T>([], |head|, |r|) && Simultaneous(r, [], |head|) == s[from..]
  {}

  lemma FirstMatch<T>(s: seq<T>, ms: seq<Match<T>>, from: nat, at: nat)
    requires from <= |s| && Chain(ms, from, |s|) && ms != []
    ensures var m := ms[0];
            && from <= m.start <= m.end <= |s| && Chain(ms[1..], m.end, |s|)
            && Simultaneous(s, ms, from) == s[from..m.start] + m.after + Simultaneous(s, ms[1..], m.end)
            && var start := at + (m.start - from);
            Inverse(s, ms, from, at) ==
            [Match(m.hunk, start, start + |m.after|, s[m.start..m.end])] + Inverse(s, ms[1..], m.end, start + |m.after|)
  {
    ChainTail(ms, from, |s|);
    ChainFirst(ms, from, |s|);
    hide Chain;
  }

  lemma UndoOne<T>(s: seq<T>, m: Match<T>, from: nat, head: seq<T>, rest: seq<T>, back: seq<Match<T>>)
    requires from <= m.start <= m.end <= |s|
    requires var r := head + s[from..m.start] + m.after + rest;
             var at := |head| + (m.start - from) + |m.after|;
             Chain(back, at, |r|) && Simultaneous(r, back, at) == s[m.end..]
    ensures var r := head + (s[from..m.start] + m.after + rest);
            var start := |head| + (m.start - from);
            var undo := Match(m.hunk, start, start + |m.after|, s[m.start..m.end]);
            Chain([undo] + back, |head|, |r|) && Simultaneous(r, [undo] + back, |head|) == s[from..]
  {
    hide Chain, Simultaneous;
    var r := head + s[from..m.start] + m.after + rest;
    assert r == head + (s[from..m.start] + m.after + rest);
    var start := |head| + (m.start - from);
    var undo := Match(m.hunk, start, start + |m.after|, s[m.start..m.end]);
    ConsChain(undo, back, |head|, |r|);
    FirstMatch(r, [undo] + back, |head|, 0);
    assert ([undo] + back)[1..] == back;
    assert r[|head|..start] == s[from..m.start];
    assert s[from..m.start] + s[m.start..m.end] + s[m.end..] == s[from..];
  }

  /** An applied patch can be undone: putting the replaced lines back gives the original. */
  lemma UpdateCanBeUndone<T(!new)>(lines: seq<T>, hunks: seq<Hunk<T>>)
    requires Applicable(lines, hunks)
    ensures var ms := Places(lines, hunks);
            var r := Simultaneous(lines, ms, 0);
            Chain(Inverse(lines, ms, 0, 0), 0, |r|) && Simultaneous(r, Inverse(lines, ms, 0, 0), 0) == lines
  {
    hide Chain, Applicable, Places;
    var ms := Places(lines, hunks);
    InverseUndoes(lines, ms, 0, []);
    assert [] + Simultaneous(lines, ms, 0) == Simultaneous(lines, ms, 0);
    assert lines[0..] == lines;
  }

  // ----- as a function -----

  function Place<T(==)>(lines: seq<T>, h: Hunk<T>): (r: Option<nat>)
    ensures forall at: nat :: UniquelyAt(lines, h, at) <==> r == Some(at)
  {
    var found := FindSubsequenceAll(lines, h.before);
    assert |found| > 1 ==> found[0] in found && found[1] in found && found[0] < found[1];
    assert |found| == 1 ==> found == [found[0]];
    assert |found| > 0 ==> found[0] in found;
    if |found| == 1 then Some(found[0]) else None
  }

  function LocateAll<T(==)>(lines: seq<T>, hunks: seq<Hunk<T>>): Option<seq<Match<T>>> {
    if hunks == [] then Some([])
    else
      var k := |hunks| - 1;
      var init, at := LocateAll(lines, hunks[..k]), Place(lines, hunks[k]);
      if init.None? || at.None? then None
      else Some(init.value + [Match(k, at.value, at.value + |hunks[k].before|, hunks[k].after)])
  }

  predicate NoOverlap<T>(sorted: seq<Match<T>>) {
    forall i :: 0 <= i < |sorted| - 1 ==> sorted[i].end <= sorted[i + 1].start
  }

  /** The whole update as one function of the lines. */
  function Apply<T(==)>(lines: seq<T>, hunks: seq<Hunk<T>>): Option<seq<T>> {
    var ms := LocateAll(lines, hunks);
    if ms.None? || !NoOverlap(SortAscending(ms.value)) then None
    else Some(SpliceAll(lines, SortDescending(SortAscending(ms.value))))
  }

  lemma {:induction false} LocateAllLocates<T>(lines: seq<T>, hunks: seq<Hunk<T>>)
    ensures LocateAll(lines, hunks).Some? ==> Located(lines, hunks, LocateAll(lines, hunks).value)
    ensures LocateAll(lines, hunks).None? ==> !AllLocatable(lines, hunks)
    decreases |hunks|
  {
    if hunks != [] {
      var k := |hunks| - 1;
      LocateAllLocates(lines, hunks[..k]);
      var at := Place(lines, hunks[k]);
      if at.None? {
        assert !Locatable(lines, hunks[k]);
      } else {
        assert UniquelyAt(lines, hunks[k], at.value);
      }
      if LocateAll(lines, hunks[..k]).None? {
        var i :| 0 <= i < k && !Locatable(lines, hunks[..k][i]);
        assert !Locatable(lines, hunks[i]);
      }
    }
  }

  lemma ApplyMeans<T(!new)>(lines: seq<T>, hunks: seq<Hunk<T>>)
    ensures Apply(lines, hunks).Some? <==> Applicable(lines, hunks)
    ensures Apply(lines, hunks).Some? ==> Apply(lines, hunks).value == Spliced(lines, hunks)
  {
    hide LocateAll, SortAscending, SortDescending, SpliceAll, Chain, Applicable, AllLocatable, Places;
    LocateAllLocates(lines, hunks);
    if LocateAll(lines, hunks).None? {
      if Applicable(lines, hunks) { ApplicableIsLocatable(lines, hunks); }
    } else {
      var ms := LocateAll(lines, hunks).value;
      LocatedInside(lines, hunks, ms);
      if NoOverlap(SortAscending(ms)) {
        PlacesAre(lines, hunks, ms);
      } else {
        var k :| 0 <= k < |SortAscending(ms)| - 1 && SortAscending(ms)[k].end > SortAscending(ms)[k + 1].start;
        OverlapStops(lines, hunks, ms, k + 1);
      }
    }
  }
}
