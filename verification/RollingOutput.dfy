/**
 One output stream of a command: a rolling buffer with absolute offsets, a cursor that
 snapshots advance, and paging by offset.
 */
module RollingOutput {
  import opened Prelude

  const SESSION_BUFFER_BYTES := 524_288

  datatype Buffer = Buffer(retained: Bytes, start: int, cursor: nat, total: nat, dropped: nat)

  const EMPTY := Buffer([], 0, 0, 0, 0)

  /** `append_stdout` followed by `_trim_buffer`. */
  function Append(b: Buffer, chunk: Bytes, limit: nat): Buffer {
    var all := b.retained + chunk;
    var grown := b.(retained := all, total := b.total + |chunk|);
    if |all| <= limit then grown
    else
      var overflow := |all| - limit;
      grown.(retained := all[overflow..], start := grown.total - (|all| - overflow), dropped := b.dropped + overflow)
  }

  /** What one snapshot hands out: `omitted` dropped bytes from offset `from`, then `taken`. */
  datatype Report = Report(from: nat, omitted: nat, taken: Bytes) {
    function To(): nat {
      from + omitted + |taken|
    }
  }

  function SnapshotReport(b: Buffer): Report {
    var skip := if b.cursor > b.start then b.cursor - b.start else 0;
    Report(b.cursor, if b.start > b.cursor then b.start - b.cursor else 0,
           if skip <= |b.retained| then b.retained[skip..] else [])
  }

  function Advance(b: Buffer): Buffer {
    b.(cursor := b.total)
  }

  /** The buffer is the end of everything the process ever wrote. */
  ghost predicate Follows(b: Buffer, stream: Bytes, limit: nat) {
    && b.total == |stream| && 0 <= b.start <= b.total
    && b.retained == stream[b.start..]
    && b.dropped == b.start
    && |b.retained| <= limit
    && b.cursor <= b.total
  }

  lemma AppendFollows(b: Buffer, stream: Bytes, chunk: Bytes, limit: nat)
    requires Follows(b, stream, limit)
    ensures Follows(Append(b, chunk, limit), stream + chunk, limit)
    ensures Append(b, chunk, limit).cursor == b.cursor
    ensures Append(b, chunk, limit).start >= b.start
  {}

  /** How much of the output from offset `from` on was dropped by a buffer that starts at `start`. */
  function Missed(from: nat, start: int): nat {
    if start > from then start - from else 0
  }

  lemma SnapshotCovers(b: Buffer, stream: Bytes, limit: nat)
    requires Follows(b, stream, limit)
    ensures var r := SnapshotReport(b);
            && r.To() == b.total && r.from == b.cursor
            && r.taken == stream[r.from + r.omitted..]
            // only what has been dropped is left out
            && r.omitted == Missed(b.cursor, b.start)
    ensures Follows(Advance(b), stream, limit)
  {}

  // ----- every interleaving of appends and snapshots -----

  datatype Event = Wrote(chunk: Bytes) | Polled

  /** With each report goes the offset at which the buffer started when it was made. */
  datatype History = History(buffer: Buffer, stream: Bytes, reports: seq<Report>, starts: seq<int>)

  function Happen(h: History, e: Event, limit: nat): History {
    match e
    case Wrote(chunk) => History(Append(h.buffer, chunk, limit), h.stream + chunk, h.reports, h.starts)
    case Polled => History(Advance(h.buffer), h.stream, h.reports + [SnapshotReport(h.buffer)], h.starts + [h.buffer.start])
  }

  function Play(events: seq<Event>, limit: nat): History {
    if events == [] then History(EMPTY, [], [], [])
    else Happen(Play(events[..|events| - 1], limit), events[|events| - 1], limit)
  }

  /** The reports tile the stream from 0 up to the cursor. */
  ghost predicate Tiled(h: History) {
    && (h.reports == [] ==> h.buffer.cursor == 0)
    && (h.reports != [] ==> h.reports[0].from == 0 && h.reports[|h.reports| - 1].To() == h.buffer.cursor)
    && (forall k :: 0 <= k < |h.reports| - 1 ==> h.reports[k].To() == h.reports[k + 1].from)
    && (forall k :: 0 <= k < |h.reports| ==> Genuine(h, h.reports[k]))
    && |h.starts| == |h.reports|
    && (forall k :: 0 <= k < |h.reports| ==> h.reports[k].omitted == Missed(h.reports[k].from, h.starts[k]))
  }

  ghost predicate Genuine(h: History, r: Report) {
    r.To() <= |h.stream| && r.taken == h.stream[r.from + r.omitted..r.To()]
  }

  lemma {:induction false} PlayHolds(events: seq<Event>, limit: nat)
    ensures var h := Play(events, limit); Follows(h.buffer, h.stream, limit) && Tiled(h)
    decreases |events|
  {
    if events != [] {
      PlayHolds(events[..|events| - 1], limit);
      HappenHolds(Play(events[..|events| - 1], limit), events[|events| - 1], limit);
    }
  }

  lemma HappenHolds(h: History, e: Event, limit: nat)
    requires Follows(h.buffer, h.stream, limit) && Tiled(h)
    ensures var h' := Happen(h, e, limit); Follows(h'.buffer, h'.stream, limit) && Tiled(h')
  {
    hide Follows, Tiled, Append, SnapshotReport;
    match e
    case Wrote(chunk) =>
      AppendFollows(h.buffer, h.stream, chunk, limit);
      WroteTiles(h, chunk, limit);
    case Polled =>
      SnapshotCovers(h.buffer, h.stream, limit);
      PolledTiles(h, limit);
  }

  lemma WroteTiles(h: History, chunk: Bytes, limit: nat)
    requires Follows(h.buffer, h.stream, limit) && Tiled(h)
    ensures Tiled(Happen(h, Wrote(chunk), limit))
  {
    AppendFollows(h.buffer, h.stream, chunk, limit);
    hide Follows, Append;
    var h' := Happen(h, Wrote(chunk), limit);
    forall k | 0 <= k < |h'.reports| ensures Genuine(h', h'.reports[k]) {
      var r := h.reports[k];
      assert Genuine(h, r);
      assert h'.stream[r.from + r.omitted..r.To()] == h.stream[r.from + r.omitted..r.To()];
    }
  }

  lemma PolledTiles(h: History, limit: nat)
    requires Follows(h.buffer, h.stream, limit) && Tiled(h)
    ensures Tiled(Happen(h, Polled, limit))
  {
    hide Follows, SnapshotReport, Missed, Tiled;
    SnapshotCovers(h.buffer, h.stream, limit);
    FollowsTotal(h.buffer, h.stream, limit);
    OneMoreReport(h, SnapshotReport(h.buffer));
  }

  lemma OneMoreReport(h: History, r: Report)
    requires Tiled(h) && h.buffer.total == |h.stream|
    requires r.from == h.buffer.cursor && r.To() == h.buffer.total && r.taken == h.stream[r.from + r.omitted..]
    requires r.omitted == Missed(r.from, h.buffer.start)
    ensures Tiled(History(Advance(h.buffer), h.stream, h.reports + [r], h.starts + [h.buffer.start]))
  {
    hide Missed;
    var h' := History(Advance(h.buffer), h.stream, h.reports + [r], h.starts + [h.buffer.start]);
    assert h.stream[r.from + r.omitted..] == h.stream[r.from + r.omitted..r.To()];
    forall k | 0 <= k < |h'.reports| ensures Genuine(h', h'.reports[k]) {
      if k < |h.reports| { assert Genuine(h, h.reports[k]); }
    }
  }

  ghost predicate CoveredBy(h: History, i: nat, k: nat) {
    k < |h.reports| && h.reports[k].from <= i < h.reports[k].To()
  }

  /** Byte `i` was handed out by report `k`: counted if it had been dropped by then, and as itself if not. */
  ghost predicate AccountedBy(h: History, i: nat, k: nat) {
    && CoveredBy(h, i, k) && i < |h.stream| && k < |h.starts|
    && var r := h.reports[k];
    if i < h.starts[k] then i < r.from + r.omitted
    else i >= r.from + r.omitted && r.taken[i - r.from - r.omitted] == h.stream[i]
  }

  /** Every byte is returned by exactly one snapshot, or counted omitted by exactly one, or unread. */
  lemma EveryByteOnce(events: seq<Event>, limit: nat, i: nat)
    requires i < |Play(events, limit).stream|
    ensures var h := Play(events, limit);
            if i >= h.buffer.cursor then forall k: nat :: !CoveredBy(h, i, k)
            else exists k: nat :: AccountedBy(h, i, k) && forall j: nat :: CoveredBy(h, i, j) ==> j == k
  {
    hide Play, Follows, Tiled, CoveredBy, AccountedBy;
    var h := Play(events, limit);
    PlayHolds(events, limit);
    if i < h.buffer.cursor {
      var k := FindReport(h, i);
      forall j: nat | CoveredBy(h, i, j) ensures j == k { OneReport(h, i, j, k); }
    } else {
      forall k: nat ensures !CoveredBy(h, i, k) { ReportsEndAtCursor(h, i, k); }
    }
  }

  lemma OneReport(h: History, i: nat, j: nat, k: nat)
    requires Tiled(h) && CoveredBy(h, i, j) && CoveredBy(h, i, k)
    ensures j == k
  {
    hide Tiled;
    if j < k { ReportsInOrder(h, j, k); }
    if k < j { ReportsInOrder(h, k, j); }
  }

  lemma ReportsEndAtCursor(h: History, i: nat, k: nat)
    requires Tiled(h) && h.buffer.cursor <= i
    ensures !CoveredBy(h, i, k)
  {
    if k < |h.reports| - 1 { ReportsInOrder(h, k, |h.reports| - 1); }
  }

  lemma FindReport(h: History, i: nat) returns (k: nat)
    requires Tiled(h) && i < h.buffer.cursor
    ensures AccountedBy(h, i, k)
  {
    k := FindReportUpTo(h, i, |h.reports| - 1);
    assert Genuine(h, h.reports[k]);
  }

  lemma {:induction false} ReportsInOrder(h: History, j: nat, k: nat)
    requires Tiled(h) && j < k < |h.reports|
    ensures h.reports[j].To() <= h.reports[k].from
    decreases k - j
  {
    assert h.reports[j].To() == h.reports[j + 1].from;
    if j + 1 < k { ReportsInOrder(h, j + 1, k); }
  }

  lemma {:induction false} FindReportUpTo(h: History, i: nat, last: nat) returns (k: nat)
    requires Tiled(h) && last < |h.reports| && i < h.reports[last].To()
    ensures CoveredBy(h, i, k)
    decreases last
  {
    if h.reports[last].from <= i {
      k := last;
    } else {
      assert h.reports[last - 1].To() == h.reports[last].from;
      k := FindReportUpTo(h, i, last - 1);
    }
  }

  // ----- the new-output test -----

  /** `len(stdout) > stdout_cursor`. */
  predicate LooksNew(b: Buffer) {
    |b.retained| > b.cursor
  }

  /** A buffer that has dropped anything is full. */
  ghost predicate FullOnceDropped(b: Buffer, limit: nat) {
    b.dropped > 0 ==> |b.retained| == limit
  }

  lemma {:induction false} PlayFills(events: seq<Event>, limit: nat)
    ensures FullOnceDropped(Play(events, limit).buffer, limit)
    decreases |events|
  {
    if events != [] {
      var init, last := events[..|events| - 1], events[|events| - 1];
      PlayFills(init, limit);
      PlayHolds(init, limit);
      HappenFills(Play(init, limit), last, limit);
    }
  }

  lemma HappenFills(h: History, e: Event, limit: nat)
    requires Follows(h.buffer, h.stream, limit) && FullOnceDropped(h.buffer, limit)
    ensures FullOnceDropped(Happen(h, e, limit).buffer, limit)
  {}

  /**
   In every run the test says whether there is unread output exactly if nothing was dropped, less
   than a buffer's worth was read, or there is none.
   */
  lemma NewOutputTest(events: seq<Event>, limit: nat)
    ensures var b := Play(events, limit).buffer;
            LooksNew(b) == (b.total > b.cursor) <==> b.dropped == 0 || b.cursor < limit || b.cursor == b.total
  {
    hide Play;
    PlayHolds(events, limit);
    PlayFills(events, limit);
  }

  /** After a buffer's worth was read, any further output is there and the test does not see it. */
  lemma UnseenOutput(events: seq<Event>, more: Bytes, limit: nat)
    requires Play(events, limit).buffer.cursor >= limit && more != []
    ensures var b := Play(events + [Wrote(more)], limit).buffer; b.total > b.cursor && !LooksNew(b)
  {
    hide Play, Append, LooksNew, Tiled;
    TestGoesBlind(events, [Wrote(more)], limit);
    PlayLast(events, Wrote(more), limit);
    PlayHolds(events, limit);
    var h := Play(events, limit);
    AppendFollows(h.buffer, h.stream, more, limit);
  }

  /** Such runs there are, for every size of buffer. */
  lemma ReadFull(chunk: Bytes)
    ensures Play([Wrote(chunk)] + [Polled], |chunk|).buffer.cursor == |chunk|
  {
    hide Play, Append;
    var limit := |chunk|;
    NothingPlayed(limit);
    assert [] + [Wrote(chunk)] == [Wrote(chunk)] && [] + chunk == chunk;
    PlayLast([], Wrote(chunk), limit);
    PlayLast([Wrote(chunk)], Polled, limit);
    AppendFollows(EMPTY, [], chunk, limit);
  }

  lemma NothingPlayed(limit: nat)
    ensures Play([], limit) == History(EMPTY, [], [], [])
  {}

  /** Once a snapshot was taken with at least `limit` bytes written, the test never fires again. */
  lemma {:induction false} TestGoesBlind(events: seq<Event>, more: seq<Event>, limit: nat)
    requires Play(events, limit).buffer.cursor >= limit
    ensures Play(events + more, limit).buffer.cursor >= limit && !LooksNew(Play(events + more, limit).buffer)
    decreases |more|
  {
    hide Play, Follows, Tiled;
    PlayHolds(events + more, limit);
    if more == [] {
      assert events + more == events;
      StaysBlind(Play(events, limit), limit);
    } else {
      var init, last := more[..|more| - 1], more[|more| - 1];
      TestGoesBlind(events, init, limit);
      assert events + more == events + init + [last];
      PlayHolds(events + init, limit);
      PlayLast(events + init, last, limit);
      CursorNeverFalls(Play(events + init, limit), last, limit);
      StaysBlind(Play(events + more, limit), limit);
    }
  }

  lemma PlayLast(events: seq<Event>, e: Event, limit: nat)
    ensures Play(events + [e], limit) == Happen(Play(events, limit), e, limit)
  {}

  lemma CursorNeverFalls(h: History, e: Event, limit: nat)
    requires Follows(h.buffer, h.stream, limit)
    ensures Happen(h, e, limit).buffer.cursor >= h.buffer.cursor
  {}

  lemma StaysBlind(h: History, limit: nat)
    requires Follows(h.buffer, h.stream, limit) && h.buffer.cursor >= limit
    ensures !LooksNew(h.buffer)
  {}

  // ----- paging -----

  datatype Page = Page(at: nat, chunk: Bytes, next: Option<nat>, omitted: nat) {
    function End(): nat {
      at + |chunk|
    }
  }

  function ClampLimit(limit: int): nat {
    if limit < 1 then 1 else if limit > SESSION_BUFFER_BYTES then SESSION_BUFFER_BYTES else limit
  }

  /** `read_output` at an offset. */
  function ReadOutput(b: Buffer, offset: int, limit: int): Page {
    var requested := if offset < 0 then 0 else offset;
    var at := if requested > b.start then requested else b.start;
    var first := at - b.start;
    var rest := if first <= |b.retained| then b.retained[first..] else [];
    var chunk := if |rest| <= ClampLimit(limit) then rest else rest[..ClampLimit(limit)];
    Page(at, chunk, if at + |chunk| < b.total then Some(at + |chunk|) else None,
         if b.start > requested then b.start - requested else 0)
  }

  lemma PageIsStream(b: Buffer, stream: Bytes, limit: nat, offset: int, max: int)
    requires Follows(b, stream, limit)
    ensures var p := ReadOutput(b, offset, max);
            && (p.at <= b.total ==> p.End() <= b.total && p.chunk == stream[p.at..p.End()])
            && (p.next.Some? ==> p.next.value == p.End() > p.at && p.next.value > offset && p.End() < b.total)
            && (p.next.None? ==> p.End() >= b.total)
            && var from := if offset < 0 then 0 else offset;
            p.omitted == Missed(from, b.start) && p.at == from + p.omitted
            && |p.chunk| <= SESSION_BUFFER_BYTES
  {
    hide ReadOutput, Follows;
    PageShape(b, stream, limit, offset, max);
    FollowsTotal(b, stream, limit);
    if ReadOutput(b, offset, max).at <= b.total { PageBytes(b, stream, limit, offset, max); }
  }

  /** Where a page starts and ends, and what comes next. */
  lemma PageShape(b: Buffer, stream: Bytes, limit: nat, offset: int, max: int)
    requires Follows(b, stream, limit)
    ensures var p := ReadOutput(b, offset, max);
            && (p.at <= b.total ==> p.End() <= b.total)
            && (p.next.Some? ==> p.next.value == p.End() > p.at && p.next.value > offset && p.End() < b.total)
            && (p.next.None? ==> p.End() >= b.total)
            && var from := if offset < 0 then 0 else offset;
            p.omitted == Missed(from, b.start) && p.at == from + p.omitted
            && |p.chunk| <= SESSION_BUFFER_BYTES
  {}

  /** A page holds as much as was asked for, within the clamp, or all there is. */
  lemma PageLength(b: Buffer, stream: Bytes, limit: nat, offset: int, max: int)
    requires Follows(b, stream, limit)
    ensures var p := ReadOutput(b, offset, max);
            var asked := if max < 1 then 1 else if max > 524_288 then 524_288 else max;
            var left := if p.at < b.total then b.total - p.at else 0;
            |p.chunk| == if asked < left then asked else left
  {}

  lemma PageBytes(b: Buffer, stream: Bytes, limit: nat, offset: int, max: int)
    requires Follows(b, stream, limit) && ReadOutput(b, offset, max).at <= b.total
    ensures var p := ReadOutput(b, offset, max); p.End() <= |stream| && p.chunk == stream[p.at..p.End()]
  {
    hide ReadOutput, Missed;
    PageShape(b, stream, limit, offset, max);
    PageChunk(b, stream, limit, offset, max);
    var p := ReadOutput(b, offset, max);
    TailOf(stream, b.start, p.at);
    HeadOf(stream, p.at, |p.chunk|);
  }

  lemma PageChunk(b: Buffer, stream: Bytes, limit: nat, offset: int, max: int)
    requires Follows(b, stream, limit) && ReadOutput(b, offset, max).at <= b.total
    ensures var p := ReadOutput(b, offset, max);
            0 <= p.at - b.start <= |b.retained| && p.chunk <= b.retained[p.at - b.start..]
  {}

  lemma TailOf(stream: Bytes, i: nat, j: nat)
    requires i <= j <= |stream|
    ensures stream[i..][j - i..] == stream[j..]
  {}

  lemma HeadOf(stream: Bytes, i: nat, n: nat)
    requires i + n <= |stream|
    ensures stream[i..][..n] == stream[i..i + n]
  {}

  /** Following `next_offset` on a stream that no longer grows. */
  ghost function FollowAll(b: Buffer, stream: Bytes, limit: nat, offset: nat, max: int): Bytes
    requires Follows(b, stream, limit)
    decreases b.total - offset
  {
    var p := ReadOutput(b, offset, max);
    PageIsStream(b, stream, limit, offset, max);
    if p.next.None? then p.chunk else p.chunk + FollowAll(b, stream, limit, p.next.value, max)
  }

  /** It ends, and what was read is exactly the retained output from the offset on. */
  lemma {:induction false} FollowingReadsEverything(b: Buffer, stream: Bytes, limit: nat, offset: nat, max: int)
    requires Follows(b, stream, limit) && offset <= b.total
    ensures FollowAll(b, stream, limit, offset, max) == stream[if offset > b.start then offset else b.start..]
    decreases b.total - offset
  {
    hide ReadOutput, Follows;
    var p := ReadOutput(b, offset, max);
    PageIsStream(b, stream, limit, offset, max);
    PageShape(b, stream, limit, offset, max);
    PageStaysInside(b, stream, limit, offset, max);
    FollowsTotal(b, stream, limit);
    if p.next.Some? {
      FollowingReadsEverything(b, stream, limit, p.next.value, max);
      assert stream[p.at..] == stream[p.at..p.End()] + stream[p.End()..];
    } else {
      assert stream[p.at..p.End()] == stream[p.at..];
    }
  }

  /** Following while the process keeps writing: before each page come the chunks of `batches`. */
  ghost function FollowLive(h: History, limit: nat, offset: nat, max: int, batches: seq<seq<Event>>): seq<Page>
    decreases |batches|
  {
    if batches == [] then []
    else
      var h' := PlayOn(h, batches[0], limit);
      var p := ReadOutput(h'.buffer, offset, max);
      if p.next.None? then [p] else [p] + FollowLive(h', limit, p.next.value, max, batches[1..])
  }

  function PlayOn(h: History, events: seq<Event>, limit: nat): History
    decreases |events|
  {
    if events == [] then h else PlayOn(Happen(h, events[0], limit), events[1..], limit)
  }

  lemma {:induction false} PlayOnFollows(h: History, events: seq<Event>, limit: nat)
    requires Follows(h.buffer, h.stream, limit)
    ensures var h' := PlayOn(h, events, limit);
            Follows(h'.buffer, h'.stream, limit) && h.stream <= h'.stream && h'.buffer.start >= h.buffer.start
    decreases |events|
  {
    if events != [] {
      match events[0] {
        case Wrote(chunk) => AppendFollows(h.buffer, h.stream, chunk, limit);
        case Polled => SnapshotCovers(h.buffer, h.stream, limit);
      }
      PlayOnFollows(Happen(h, events[0], limit), events[1..], limit);
    }
  }

  /** The final stream of such a reading. */
  ghost function LiveStream(h: History, limit: nat, offset: nat, max: int, batches: seq<seq<Event>>): Bytes
    decreases |batches|
  {
    if batches == [] then h.stream
    else
      var h' := PlayOn(h, batches[0], limit);
      var p := ReadOutput(h'.buffer, offset, max);
      if p.next.None? then h'.stream else LiveStream(h', limit, p.next.value, max, batches[1..])
  }

  /** Pages and the dropped bytes between them form one contiguous range, and every page is genuine. */
  lemma {:induction false} LivePagesAreContiguous(h: History, limit: nat, offset: nat, max: int, batches: seq<seq<Event>>)
    requires Follows(h.buffer, h.stream, limit) && offset <= h.buffer.total
    ensures var pages := FollowLive(h, limit, offset, max, batches);
            var stream := LiveStream(h, limit, offset, max, batches);
            && h.stream <= stream
            && (pages != [] ==> pages[0].at == offset + pages[0].omitted)
            && (forall k :: 0 <= k < |pages| - 1 ==> pages[k + 1].at == pages[k].End() + pages[k + 1].omitted)
            && (forall k :: 0 <= k < |pages| ==> pages[k].End() <= |stream| && pages[k].chunk == stream[pages[k].at..pages[k].End()])
    decreases |batches|
  {
    hide Follows, PlayOn, ReadOutput;
    if batches != [] {
      PlayOnFollows(h, batches[0], limit);
      var h' := PlayOn(h, batches[0], limit);
      var p := ReadOutput(h'.buffer, offset, max);
      FollowsTotal(h.buffer, h.stream, limit);
      FollowsTotal(h'.buffer, h'.stream, limit);
      PageIsStream(h'.buffer, h'.stream, limit, offset, max);
      PageStaysInside(h'.buffer, h'.stream, limit, offset, max);
      if p.next.Some? {
        LivePagesAreContiguous(h', limit, p.next.value, max, batches[1..]);
        var stream := LiveStream(h', limit, p.next.value, max, batches[1..]);
        assert stream[p.at..p.End()] == h'.stream[p.at..p.End()];
      }
    }
  }

  lemma FollowsTotal(b: Buffer, stream: Bytes, limit: nat)
    requires Follows(b, stream, limit)
    ensures b.total == |stream| && 0 <= b.start <= b.total
  {}

  lemma PageStaysInside(b: Buffer, stream: Bytes, limit: nat, offset: nat, max: int)
    requires Follows(b, stream, limit) && offset <= b.total
    ensures ReadOutput(b, offset, max).at <= b.total
  {}

  // ----- the class -----

  class OutputStream {
    var retained: Bytes
    var startOffset: nat
    var cursor: nat
    var totalBytes: nat
    var droppedBytes: nat
    const limit: nat
    ghost var stream: Bytes

    ghost predicate Valid()
      reads this
    {
      Follows(View(), stream, limit)
    }

    function View(): Buffer
      reads this
    {
      Buffer(retained, startOffset, cursor, totalBytes, droppedBytes)
    }

    constructor (limit: nat)
      ensures Valid() && View() == EMPTY && stream == [] && this.limit == limit
    {
      retained, startOffset, cursor, totalBytes, droppedBytes, stream := [], 0, 0, 0, 0, [];
      this.limit := limit;
    }

    method AppendChunk(chunk: Bytes)
      requires Valid()
      modifies this
      ensures Valid() && stream == old(stream) + chunk && View() == Append(old(View()), chunk, limit)
    {
      AppendFollows(View(), stream, chunk, limit);
      retained := retained + chunk;
      totalBytes := totalBytes + |chunk|;
      stream := stream + chunk;
      var overflow := |retained| - limit;
      if overflow > 0 {
        retained := retained[overflow..];
        startOffset := totalBytes - |retained|;
        droppedBytes := droppedBytes + overflow;
      }
    }

    method SnapshotSinceCursor() returns (r: Report)
      requires Valid()
      modifies this
      ensures Valid() && stream == old(stream) && View() == Advance(old(View())) && r == SnapshotReport(old(View()))
    {
      SnapshotCovers(View(), stream, limit);
      var omitted := if startOffset > cursor then startOffset - cursor else 0;
      var skip := if cursor > startOffset then cursor - startOffset else 0;
      r := Report(cursor, omitted, if skip <= |retained| then retained[skip..] else []);
      cursor := totalBytes;
    }
  }
}
