/** Cutting a parsed document into overlapping chunks: the loops that do it, and that nothing is lost. */
module Chunking {
  import opened Options
  import opened Text

  datatype Page = Page(number: int, text: string)
  datatype Chunk = Chunk(page: int, ordinal: nat, content: string, hash: string)
  datatype Failure = OCR_REQUIRED

  // ----- one page -----

  datatype Window = Window(start: nat, end: nat)

  /** `str.rfind(" ", from, limit)`. */
  function LastSpace(text: string, from: nat, limit: nat): (r: Option<nat>)
    requires limit <= |text|
    ensures r.Some? ==> from <= r.value < limit && text[r.value] == ' '
    ensures forall i | from <= i < limit && text[i] == ' ' :: r.Some? && i <= r.value
    decreases limit
  {
    if from >= limit then None
    else if text[limit - 1] == ' ' then Some(limit - 1)
    else LastSpace(text, from, limit - 1)
  }

  /** A window ends at the last space of its second half, or else after `size` characters. */
  function WindowEnd(text: string, size: nat, start: nat): (end: nat)
    requires start < |text|
    ensures start <= end <= |text| && end <= start + size
    ensures size >= 1 ==> start < end
    ensures end < |text| ==> start + size / 2 <= end
  {
    if start + size >= |text| then |text|
    else
      var space := LastSpace(text, start + size / 2, start + size);
      if space.Some? && space.value > start then space.value else start + size
  }

  function NextStart(text: string, size: nat, overlap: nat, start: nat): (next: nat)
    requires start < |text|
    ensures start < next
  {
    var end := WindowEnd(text, size, start);
    if end - overlap > start + 1 then end - overlap else start + 1
  }

  function Windows(text: string, size: nat, overlap: nat, start: nat): seq<Window>
    decreases if start < |text| then |text| - start else 0
  {
    if start >= |text| then []
    else
      var end := WindowEnd(text, size, start);
      [Window(start, end)] +
      if end >= |text| then []
      else Windows(text, size, overlap, NextStart(text, size, overlap, start))
  }

  /** Consecutive windows leave no gap and go on to the end of the text. */
  lemma {:induction false} WindowsCover(text: string, size: nat, overlap: nat, start: nat)
    requires 1 <= size && start < |text|
    decreases |text| - start
    ensures var w := Windows(text, size, overlap, start);
      && w != [] && w[0].start == start && w[|w| - 1].end == |text|
      && (forall k :: 0 <= k < |w| ==> w[k].start < w[k].end <= w[k].start + size && w[k].end <= |text|)
      && (forall k :: 0 <= k < |w| - 1 ==> w[k].start < w[k + 1].start <= w[k].end)
  {
    var end := WindowEnd(text, size, start);
    if end < |text| {
      var next := NextStart(text, size, overlap, start);
      WindowsCover(text, size, overlap, next);
      var w := Windows(text, size, overlap, start);
      var rest := Windows(text, size, overlap, next);
      assert w == [Window(start, end)] + rest;
      assert forall k :: 1 <= k < |w| ==> w[k] == rest[k - 1];
    }
  }

  /** A space in the second half of the window that begins at `start`, and after its first character. */
  predicate Break(text: string, size: nat, start: nat, i: int) {
    start + size / 2 <= i < start + size && start < i < |text| && text[i] == ' '
  }

  /** Where a window has to end: with the text, else at its last break, else after `size` characters. */
  predicate EndsRight(text: string, size: nat, w: Window) {
    if w.start + size >= |text| then w.end == |text|
    else if exists i | w.start <= i < w.start + size :: Break(text, size, w.start, i) then
      Break(text, size, w.start, w.end) &&
      forall i | w.end < i < w.start + size :: !Break(text, size, w.start, i)
    else w.end == w.start + size
  }

  /** The next window begins `overlap` characters before the end of this one, but after its start. */
  predicate StartsRight(overlap: nat, w: Window, next: Window) {
    next.start >= w.start + 1 && next.start >= w.end - overlap &&
    (next.start == w.start + 1 || next.start == w.end - overlap)
  }

  /** The windows of a page, completely: where each begins and ends, and when there are no more. */
  predicate Segments(text: string, size: nat, overlap: nat, start: nat, ws: seq<Window>) {
    (ws == [] <==> start >= |text|) && (ws != [] ==> ws[0].start == start) &&
    (forall k | 0 <= k < |ws| :: ws[k].start < |text| && EndsRight(text, size, ws[k])) &&
    (forall k | 0 <= k < |ws| - 1 :: ws[k].end < |text| && StartsRight(overlap, ws[k], ws[k + 1])) &&
    (ws != [] ==>
       var last := ws[|ws| - 1];
       last.end >= |text| || (last.start + 1 >= |text| && last.end - overlap < |text|))
  }

  lemma EndIsRight(text: string, size: nat, start: nat)
    requires start < |text|
    ensures EndsRight(text, size, Window(start, WindowEnd(text, size, start)))
  {
    if start + size < |text| {
      var space := LastSpace(text, start + size / 2, start + size);
      if i :| start <= i < start + size && Break(text, size, start, i) {
        assert space.Some? && i <= space.value;
      }
    }
  }

  lemma {:induction false} WindowsSegment(text: string, size: nat, overlap: nat, start: nat)
    ensures Segments(text, size, overlap, start, Windows(text, size, overlap, start))
    decreases if start < |text| then |text| - start else 0
  {
    if start < |text| {
      EndIsRight(text, size, start);
      var end := WindowEnd(text, size, start);
      if end < |text| {
        var next := NextStart(text, size, overlap, start);
        WindowsSegment(text, size, overlap, next);
        SegmentsMore(text, size, overlap, Window(start, end), next, Windows(text, size, overlap, next));
      }
    }
  }

  lemma SegmentsMore(text: string, size: nat, overlap: nat, w: Window, next: nat, rest: seq<Window>)
    requires w.start < |text| && EndsRight(text, size, w) && w.end < |text|
    requires Segments(text, size, overlap, next, rest)
    requires StartsRight(overlap, w, Window(next, next))
    ensures Segments(text, size, overlap, w.start, [w] + rest)
  {
    var ws := [w] + rest;
    assert forall k :: 1 <= k < |ws| ==> ws[k] == rest[k - 1];
  }

  function Stride(size: nat, overlap: nat): nat {
    if size / 2 > overlap + 1 then size / 2 - overlap else 1
  }

  lemma NextStride(text: string, size: nat, overlap: nat, start: nat)
    requires start < |text| && WindowEnd(text, size, start) < |text|
    ensures NextStart(text, size, overlap, start) >= start + Stride(size, overlap)
  {
  }

  lemma OneMore(n: nat, d: nat)
    ensures (n + 1) * d == n * d + d
  {
  }

  /** The start moves on by at least one stride from window to window. */
  lemma {:induction false} WindowsStride(text: string, size: nat, overlap: nat, start: nat)
    requires start < |text|
    decreases |text| - start
    ensures var n := |Windows(text, size, overlap, start)|;
      n >= 1 && (n - 1) * Stride(size, overlap) <= |text| - 1 - start
  {
    var end := WindowEnd(text, size, start);
    var next := NextStart(text, size, overlap, start);
    var d := Stride(size, overlap);
    var n := |Windows(text, size, overlap, start)|;
    if end < |text| && next < |text| {
      WindowsStride(text, size, overlap, next);
      NextStride(text, size, overlap, start);
      OneMore(n - 2, d);
    } else if end < |text| {
      assert Windows(text, size, overlap, next) == [];
    }
  }

  /** How many windows a page of a given length takes at most. */
  lemma WindowsBounded(text: string, size: nat, overlap: nat)
    requires text != ""
    ensures |Windows(text, size, overlap, 0)| <= 1 + (|text| - 1) / Stride(size, overlap)
  {
    WindowsStride(text, size, overlap, 0);
    DivisionBound(|Windows(text, size, overlap, 0)| - 1, |text| - 1, Stride(size, overlap));
  }

  lemma DivisionBound(n: nat, m: nat, d: nat)
    requires 1 <= d && n * d <= m
    ensures n <= m / d
  {
    var q := m / d;
    assert m < (q + 1) * d;
    assert n >= q + 1 ==> n * d >= (q + 1) * d;
  }

  // ----- the spans that become chunks -----

  /** Characters `from` to `to` of the page at a given index. */
  datatype Span = Span(page: nat, from: nat, to: nat)

  function Trimmed(p: nat, text: string, start: nat, end: nat): (s: Span)
    requires start <= end <= |text|
    ensures start <= s.from <= s.to <= end
    ensures Strip(text[start..end]) == text[s.from..s.to]
  {
    var s := text[start..end];
    var a := Lead(s, 0);
    var b := Trail(s, a, |s|);
    assert forall k | a <= k < b :: s[k] == text[start + k];
    assert s[a..b] == text[start + a..start + b];
    Span(p, start + a, start + Trail(s, a, |s|))
  }

  function NotBlank(s: Span): seq<Span> { if s.from < s.to then [s] else [] }

  /** The spans of one page from a position on: its windows, trimmed, without the blank ones. */
  function SpansFrom(p: nat, text: string, size: nat, overlap: nat, start: nat): seq<Span>
    decreases if start < |text| then |text| - start else 0
  {
    if start >= |text| then []
    else
      var end := WindowEnd(text, size, start);
      var span := Trimmed(p, text, start, end);
      NotBlank(span) +
      if end >= |text| then []
      else SpansFrom(p, text, size, overlap, NextStart(text, size, overlap, start))
  }

  predicate Within(text: string, ws: seq<Window>) {
    forall k | 0 <= k < |ws| :: ws[k].start <= ws[k].end <= |text|
  }

  /** The spans that a list of windows leaves: each trimmed, without the blank ones. */
  function TrimmedAll(p: nat, text: string, ws: seq<Window>): seq<Span>
    requires Within(text, ws)
  {
    if ws == [] then []
    else
      var n := |ws| - 1;
      TrimmedAll(p, text, ws[..n]) + NotBlank(Trimmed(p, text, ws[n].start, ws[n].end))
  }

  lemma TrimmedLast(p: nat, text: string, ws: seq<Window>, w: Window)
    requires Within(text, ws) && w.start <= w.end <= |text|
    ensures Within(text, ws + [w])
    ensures TrimmedAll(p, text, ws + [w])
              == TrimmedAll(p, text, ws) + NotBlank(Trimmed(p, text, w.start, w.end))
  {
    assert (ws + [w])[..|ws|] == ws && (ws + [w])[|ws|] == w;
  }

  lemma {:induction false} WindowsWithin(text: string, size: nat, overlap: nat, start: nat)
    ensures Within(text, Windows(text, size, overlap, start))
    decreases if start < |text| then |text| - start else 0
  {
    if start < |text| && WindowEnd(text, size, start) < |text| {
      var next := NextStart(text, size, overlap, start);
      WindowsWithin(text, size, overlap, next);
      var ws, rest := Windows(text, size, overlap, start), Windows(text, size, overlap, next);
      assert forall k :: 1 <= k < |ws| ==> ws[k] == rest[k - 1];
    }
  }

  lemma Regroup<T>(a: seq<T>, b: seq<T>, c: seq<T>)
    ensures a + (b + c) == a + b + c
  {
  }

  lemma WindowFirst(text: string, size: nat, overlap: nat, start: nat)
    requires start < |text|
    ensures var end := WindowEnd(text, size, start);
      Windows(text, size, overlap, start) == [Window(start, end)] +
        if end >= |text| then []
        else Windows(text, size, overlap, NextStart(text, size, overlap, start))
  {
  }

  lemma SpanFirst(p: nat, text: string, size: nat, overlap: nat, start: nat)
    requires start < |text|
    ensures var end := WindowEnd(text, size, start);
      SpansFrom(p, text, size, overlap, start) == NotBlank(Trimmed(p, text, start, end)) +
        if end >= |text| then []
        else SpansFrom(p, text, size, overlap, NextStart(text, size, overlap, start))
  {
  }

  /** One window and its span, and the same of the rest. */
  lemma FollowOne(p: nat, text: string, done: seq<Window>, w: Window, ws: seq<Window>,
                  spans: seq<Span>)
    requires Within(text, done) && w.start <= w.end <= |text|
    requires Within(text, done + [w]) && Within(text, done + [w] + ws)
    requires TrimmedAll(p, text, done + [w]) + spans == TrimmedAll(p, text, done + [w] + ws)
    ensures Within(text, done + ([w] + ws))
    ensures TrimmedAll(p, text, done) + (NotBlank(Trimmed(p, text, w.start, w.end)) + spans)
              == TrimmedAll(p, text, done + ([w] + ws))
  {
    TrimmedLast(p, text, done, w);
    Regroup(done, [w], ws);
    Regroup(TrimmedAll(p, text, done), NotBlank(Trimmed(p, text, w.start, w.end)), spans);
  }

  lemma {:induction false} SpansFollowWindows(p: nat, text: string, size: nat, overlap: nat,
                                              start: nat, done: seq<Window>)
    requires Within(text, done)
    ensures Within(text, done + Windows(text, size, overlap, start))
    ensures TrimmedAll(p, text, done) + SpansFrom(p, text, size, overlap, start)
              == TrimmedAll(p, text, done + Windows(text, size, overlap, start))
    decreases if start < |text| then |text| - start else 0
  {
    if start >= |text| {
      assert done + [] == done;
    } else {
      var end := WindowEnd(text, size, start);
      var w := Window(start, end);
      WindowFirst(text, size, overlap, start);
      SpanFirst(p, text, size, overlap, start);
      var ws: seq<Window>, spans: seq<Span> := [], [];
      if end < |text| {
        var next := NextStart(text, size, overlap, start);
        TrimmedLast(p, text, done, w);
        SpansFollowWindows(p, text, size, overlap, next, done + [w]);
        ws, spans := Windows(text, size, overlap, next), SpansFrom(p, text, size, overlap, next);
      } else {
        TrimmedLast(p, text, done, w);
        assert done + [w] + ws == done + [w];
      }
      FollowOne(p, text, done, w, ws, spans);
    }
  }

  /** The spans of a page are its windows, trimmed. */
  lemma SpansAreWindows(p: nat, text: string, size: nat, overlap: nat, start: nat)
    ensures Within(text, Windows(text, size, overlap, start))
    ensures SpansFrom(p, text, size, overlap, start)
              == TrimmedAll(p, text, Windows(text, size, overlap, start))
  {
    var ws, spans := Windows(text, size, overlap, start), SpansFrom(p, text, size, overlap, start);
    SpansFollowWindows(p, text, size, overlap, start, []);
    assert [] + ws == ws && [] + spans == spans;
  }

  function Concat(parts: seq<seq<Span>>, n: nat): seq<Span>
    requires n <= |parts|
  {
    if n == 0 then [] else Concat(parts, n - 1) + parts[n - 1]
  }

  function PerPage(pages: seq<Page>, size: nat, overlap: nat): seq<seq<Span>> {
    seq(|pages|, p requires 0 <= p < |pages| => SpansFrom(p, pages[p].text, size, overlap, 0))
  }

  /** The spans of the first n pages, and of all of them. */
  function SpansTo(pages: seq<Page>, size: nat, overlap: nat, n: nat): seq<Span>
    requires n <= |pages|
  {
    Concat(PerPage(pages, size, overlap), n)
  }

  function Spans(pages: seq<Page>, size: nat, overlap: nat): seq<Span> {
    SpansTo(pages, size, overlap, |pages|)
  }

  predicate SpanIn(text: string, size: nat, s: Span) {
    s.from < s.to <= |text| && s.to - s.from <= size &&
    !IsSpace(text[s.from]) && !IsSpace(text[s.to - 1])
  }

  predicate SpanOk(pages: seq<Page>, size: nat, s: Span) {
    s.page < |pages| && SpanIn(pages[s.page].text, size, s)
  }

  /** Chunk k is exactly span k: of one page, with its number and text, and counted from 0. */
  predicate Holds(pages: seq<Page>, hash: string -> string, s: Span, k: nat, chunk: Chunk) {
    s.page < |pages| && s.from < s.to <= |pages[s.page].text| &&
    chunk.page == pages[s.page].number && chunk.ordinal == k &&
    chunk.content == pages[s.page].text[s.from..s.to] && chunk.hash == hash(chunk.content)
  }

  predicate Cuts(pages: seq<Page>, hash: string -> string, spans: seq<Span>, chunks: seq<Chunk>) {
    |chunks| == |spans| && forall k | 0 <= k < |spans| :: Holds(pages, hash, spans[k], k, chunks[k])
  }

  // ----- what the spans are -----

  lemma TrimmedOk(p: nat, text: string, start: nat, end: nat)
    requires start <= end <= |text|
    ensures var s := Trimmed(p, text, start, end);
      && (s.from < s.to ==> SpanIn(text, end - start, s))
      && (forall i :: start <= i < end && !IsSpace(text[i]) ==> s.from <= i < s.to)
  {
    var s := text[start..end];
    assert forall i :: start <= i < end ==> text[i] == s[i - start];
  }

  predicate SpanFrom(p: nat, text: string, size: nat, start: nat, s: Span) {
    SpanIn(text, size, s) && s.page == p && start <= s.from
  }

  lemma {:induction false} PageSpansOk(p: nat, text: string, size: nat, overlap: nat, start: nat)
    ensures forall s :: s in SpansFrom(p, text, size, overlap, start) ==>
      SpanFrom(p, text, size, start, s)
    decreases if start < |text| then |text| - start else 0
  {
    if start < |text| {
      var end := WindowEnd(text, size, start);
      TrimmedOk(p, text, start, end);
      var first := Trimmed(p, text, start, end);
      assert first.from < first.to ==> SpanFrom(p, text, size, start, first);
      if end < |text| {
        var next := NextStart(text, size, overlap, start);
        PageSpansOk(p, text, size, overlap, next);
        forall s | s in SpansFrom(p, text, size, overlap, next) ensures SpanFrom(p, text, size, start, s) {
          assert SpanFrom(p, text, size, next, s);
        }
      }
    }
  }

  /** Each part holds spans of its own page only. */
  predicate ByPage(parts: seq<seq<Span>>) {
    forall p | 0 <= p < |parts| :: forall s | s in parts[p] :: s.page == p
  }

  lemma {:induction false} ConcatFrom(parts: seq<seq<Span>>, n: nat)
    requires n <= |parts| && ByPage(parts)
    ensures forall s :: s in Concat(parts, n) ==> s.page < n && s in parts[s.page]
  {
    if n > 0 { ConcatFrom(parts, n - 1); }
  }

  lemma PerPageOk(pages: seq<Page>, size: nat, overlap: nat, p: nat)
    requires p < |pages|
    ensures forall s :: s in PerPage(pages, size, overlap)[p] ==> SpanOk(pages, size, s) && s.page == p
  {
    PageSpansOk(p, pages[p].text, size, overlap, 0);
    forall s | s in PerPage(pages, size, overlap)[p] ensures SpanOk(pages, size, s) && s.page == p {
      assert SpanFrom(p, pages[p].text, size, 0, s);
    }
  }

  /** Every span is a trimmed stretch of its own page, not empty and at most `size` long. */
  lemma SpansOk(pages: seq<Page>, size: nat, overlap: nat)
    ensures ByPage(PerPage(pages, size, overlap))
    ensures forall s :: s in Spans(pages, size, overlap) ==> SpanOk(pages, size, s)
  {
    var parts := PerPage(pages, size, overlap);
    forall p: nat | p < |parts| ensures forall s :: s in parts[p] ==> SpanOk(pages, size, s) && s.page == p {
      PerPageOk(pages, size, overlap, p);
    }
    assert ByPage(parts);
    ConcatFrom(parts, |pages|);
  }

  predicate Before(s: Span, t: Span) { s.page < t.page || (s.page == t.page && s.from <= t.from) }

  predicate InOrder(spans: seq<Span>) {
    forall j, k | 0 <= j < k < |spans| :: Before(spans[j], spans[k])
  }

  lemma InOrderConcat(a: seq<Span>, b: seq<Span>)
    requires InOrder(a) && InOrder(b) && forall s, t :: s in a && t in b ==> Before(s, t)
    ensures InOrder(a + b)
  {
  }

  /** Later windows begin later, also after trimming. */
  lemma {:induction false} PageSpansInOrder(p: nat, text: string, size: nat, overlap: nat, start: nat)
    ensures InOrder(SpansFrom(p, text, size, overlap, start))
    decreases if start < |text| then |text| - start else 0
  {
    if start < |text| && WindowEnd(text, size, start) < |text| {
      var end := WindowEnd(text, size, start);
      var next := NextStart(text, size, overlap, start);
      PageSpansInOrder(p, text, size, overlap, next);
      PageSpansOk(p, text, size, overlap, next);
      TrimmedOk(p, text, start, end);
      var first := Trimmed(p, text, start, end);
      var rest := SpansFrom(p, text, size, overlap, next);
      forall s | s in rest ensures first.from <= s.from || first.from == first.to {
        assert SpanFrom(p, text, size, next, s);
      }
      InOrderConcat(NotBlank(first), rest);
    }
  }

  lemma {:induction false} ConcatInOrder(parts: seq<seq<Span>>, n: nat)
    requires n <= |parts| && ByPage(parts) && forall p :: 0 <= p < |parts| ==> InOrder(parts[p])
    ensures InOrder(Concat(parts, n))
  {
    if n > 0 {
      ConcatInOrder(parts, n - 1);
      ConcatFrom(parts, n - 1);
      InOrderConcat(Concat(parts, n - 1), parts[n - 1]);
    }
  }

  /** Spans come in the order of the pages, and within a page in the order of their positions. */
  lemma SpansInOrder(pages: seq<Page>, size: nat, overlap: nat)
    ensures InOrder(Spans(pages, size, overlap))
  {
    var parts := PerPage(pages, size, overlap);
    forall p: nat | p < |parts| ensures InOrder(parts[p]) {
      PageSpansInOrder(p, pages[p].text, size, overlap, 0);
    }
    SpansOk(pages, size, overlap);
    ConcatInOrder(parts, |pages|);
  }

  // ----- nothing is lost -----

  predicate Inside(s: Span, p: nat, i: int) { s.page == p && s.from <= i < s.to }

  predicate Kept(spans: seq<Span>, p: nat, i: int) {
    exists k | 0 <= k < |spans| :: Inside(spans[k], p, i)
  }

  lemma {:induction false} PageKeeps(p: nat, text: string, size: nat, overlap: nat, start: nat, i: nat)
    requires 1 <= size && start <= i < |text| && !IsSpace(text[i])
    ensures Kept(SpansFrom(p, text, size, overlap, start), p, i)
    decreases |text| - start
  {
    var end := WindowEnd(text, size, start);
    var spans := SpansFrom(p, text, size, overlap, start);
    var first := Trimmed(p, text, start, end);
    if i < end {
      TrimmedOk(p, text, start, end);
      assert Inside(first, p, i) && spans[0] == first;
    } else {
      var next := NextStart(text, size, overlap, start);
      PageKeeps(p, text, size, overlap, next, i);
      var rest := SpansFrom(p, text, size, overlap, next);
      var k :| 0 <= k < |rest| && Inside(rest[k], p, i);
      assert spans[|spans| - |rest| + k] == rest[k];
    }
  }

  lemma KeptConcat(a: seq<Span>, b: seq<Span>, p: nat, i: int)
    requires Kept(a, p, i) || Kept(b, p, i)
    ensures Kept(a + b, p, i)
  {
    if Kept(a, p, i) {
      var k :| 0 <= k < |a| && Inside(a[k], p, i);
      assert (a + b)[k] == a[k];
    } else {
      var k :| 0 <= k < |b| && Inside(b[k], p, i);
      assert (a + b)[|a| + k] == b[k];
    }
  }

  lemma {:induction false} ConcatKeeps(parts: seq<seq<Span>>, n: nat, p: nat, i: int)
    requires p < n <= |parts| && Kept(parts[p], p, i)
    ensures Kept(Concat(parts, n), p, i)
  {
    if p < n - 1 { ConcatKeeps(parts, n - 1, p, i); }
    KeptConcat(Concat(parts, n - 1), parts[n - 1], p, i);
  }

  lemma SpansKeep(pages: seq<Page>, size: nat, overlap: nat, p: nat, i: nat)
    requires 1 <= size && p < |pages| && i < |pages[p].text| && !IsSpace(pages[p].text[i])
    ensures Kept(Spans(pages, size, overlap), p, i)
  {
    PageKeeps(p, pages[p].text, size, overlap, 0, i);
    ConcatKeeps(PerPage(pages, size, overlap), |pages|, p, i);
  }

  ghost predicate LosesNothing(pages: seq<Page>, spans: seq<Span>) {
    forall p: nat, i: nat | p < |pages| && i < |pages[p].text| && !IsSpace(pages[p].text[i]) ::
      Kept(spans, p, i)
  }

  /** Every character that is not whitespace is in some chunk of its page, exactly when windows are
      not empty (or there is no such character). */
  lemma LosesNothingIff(pages: seq<Page>, size: nat, overlap: nat)
    ensures LosesNothing(pages, Spans(pages, size, overlap)) <==>
            1 <= size || forall p :: 0 <= p < |pages| ==> Blank(pages[p].text)
  {
    if 1 <= size {
      forall p: nat, i: nat | p < |pages| && i < |pages[p].text| && !IsSpace(pages[p].text[i])
        ensures Kept(Spans(pages, size, overlap), p, i)
      {
        SpansKeep(pages, size, overlap, p, i);
      }
    } else {
      SpansOk(pages, size, overlap);
      assert forall s :: s in Spans(pages, size, overlap) ==> SpanOk(pages, size, s);
      var spans := Spans(pages, size, overlap);
      assert forall k :: 0 <= k < |spans| ==> spans[k] in spans;
      assert forall p, i :: !Kept(spans, p, i);
    }
  }

  /** A document needs OCR exactly when it has no text at all. */
  lemma OcrRequiredIff(pages: seq<Page>, size: nat, overlap: nat)
    requires 1 <= size
    ensures Spans(pages, size, overlap) == [] <==> forall p :: 0 <= p < |pages| ==> Blank(pages[p].text)
  {
    var spans := Spans(pages, size, overlap);
    if spans != [] {
      SpansOk(pages, size, overlap);
      assert SpanOk(pages, size, spans[0]);
    } else {
      forall p | 0 <= p < |pages| ensures Blank(pages[p].text) {
        forall i | 0 <= i < |pages[p].text| ensures IsSpace(pages[p].text[i]) {
          if !IsSpace(pages[p].text[i]) {
            SpansKeep(pages, size, overlap, p, i);
            assert false;
          }
        }
      }
    }
  }

  // ----- the loops -----

  lemma CutsMore(pages: seq<Page>, hash: string -> string, spans: seq<Span>, chunks: seq<Chunk>,
                 s: Span, chunk: Chunk)
    requires Cuts(pages, hash, spans, chunks) && Holds(pages, hash, s, |chunks|, chunk)
    ensures Cuts(pages, hash, spans + [s], chunks + [chunk])
  {
  }

  /** One window: where it ends and its text, trimmed. */
  method Cut(text: string, size: nat, start: nat) returns (end: nat, content: string)
    requires start < |text|
    ensures end == WindowEnd(text, size, start) && content == Strip(text[start..end])
  {
    var proposed := if start + size < |text| then start + size else |text|;
    end := proposed;
    if proposed < |text| {
      var at := LastSpace(text, start + size / 2, proposed);
      if at.Some? && at.value > start {
        end := at.value;
      }
    }
    content := text[start..end];
    content := Strip(content);
  }

  lemma SpansNext(pages: seq<Page>, size: nat, overlap: nat, p: nat)
    requires p < |pages|
    ensures SpansTo(pages, size, overlap, p + 1)
              == SpansTo(pages, size, overlap, p) + SpansFrom(p, pages[p].text, size, overlap, 0)
  {
  }

  /** One turn of the inner loop moves one window over to the windows done. */
  lemma Advance(text: string, size: nat, overlap: nat, start: nat, done: seq<Window>,
                goal: seq<Window>)
    requires start < |text| && done + Windows(text, size, overlap, start) == goal
    ensures var end := WindowEnd(text, size, start);
      var more := done + [Window(start, end)];
      if end >= |text| then more == goal
      else more + Windows(text, size, overlap, NextStart(text, size, overlap, start)) == goal
  {
  }

  /** The chunk, if any, that one more window adds. */
  lemma AddWindow(pages: seq<Page>, p: nat, hash: string -> string, before: seq<Span>,
                  done: seq<Window>, w: Window, chunks: seq<Chunk>)
    requires p < |pages| && w.start <= w.end <= |pages[p].text| && Within(pages[p].text, done)
    requires Cuts(pages, hash, before + TrimmedAll(p, pages[p].text, done), chunks)
    ensures Within(pages[p].text, done + [w])
    ensures var content := Strip(pages[p].text[w.start..w.end]);
      Cuts(pages, hash, before + TrimmedAll(p, pages[p].text, done + [w]),
           if content == "" then chunks
           else chunks + [Chunk(pages[p].number, |chunks|, content, hash(content))])
  {
    var text := pages[p].text;
    var span := Trimmed(p, text, w.start, w.end);
    var was := TrimmedAll(p, text, done);
    TrimmedLast(p, text, done, w);
    assert before + (was + NotBlank(span)) == before + was + NotBlank(span);
    if span.from < span.to {
      var content := Strip(text[w.start..w.end]);
      CutsMore(pages, hash, before + was, chunks, span,
               Chunk(pages[p].number, |chunks|, content, hash(content)));
    } else {
      assert before + was + [] == before + was;
    }
  }

  /** What all the windows of a page are. */
  predicate PageWindows(text: string, size: nat, overlap: nat, ws: seq<Window>) {
    ws == Windows(text, size, overlap, 0) && Segments(text, size, overlap, 0, ws) &&
    (text != "" ==> |ws| <= 1 + (|text| - 1) / Stride(size, overlap))
  }

  lemma PageDone(pages: seq<Page>, p: nat, size: nat, overlap: nat, ws: seq<Window>)
    requires p < |pages| && ws == Windows(pages[p].text, size, overlap, 0)
    ensures PageWindows(pages[p].text, size, overlap, ws) && Within(pages[p].text, ws)
    ensures SpansTo(pages, size, overlap, p + 1)
              == SpansTo(pages, size, overlap, p) + TrimmedAll(p, pages[p].text, ws)
  {
    var text := pages[p].text;
    WindowsSegment(text, size, overlap, 0);
    SpansAreWindows(p, text, size, overlap, 0);
    SpansNext(pages, size, overlap, p);
    if text != "" { WindowsBounded(text, size, overlap); }
  }

  /** The chunks of one page, after those of the pages before it; `windows` has one entry for each
      turn of the loop. */
  method CutPage(pages: seq<Page>, p: nat, size: nat, overlap: nat, hash: string -> string,
                 earlier: seq<Chunk>) returns (chunks: seq<Chunk>, ghost windows: seq<Window>)
    requires p < |pages| && Cuts(pages, hash, SpansTo(pages, size, overlap, p), earlier)
    ensures Cuts(pages, hash, SpansTo(pages, size, overlap, p + 1), chunks)
    ensures PageWindows(pages[p].text, size, overlap, windows)
  {
    var text := pages[p].text;
    chunks := earlier;
    windows := [];
    ghost var before := SpansTo(pages, size, overlap, p);
    ghost var all := Windows(text, size, overlap, 0);
    assert before + TrimmedAll(p, text, []) == before;
    var start: nat := 0;
    while start < |text|
      invariant Within(text, windows)
      invariant Cuts(pages, hash, before + TrimmedAll(p, text, windows), chunks)
      invariant windows + Windows(text, size, overlap, start) == all
      decreases |text| - start
    {
      var end, content := Cut(text, size, start);
      Advance(text, size, overlap, start, windows, all);
      AddWindow(pages, p, hash, before, windows, Window(start, end), chunks);
      if content != "" {
        chunks := chunks + [Chunk(pages[p].number, |chunks|, content, hash(content))];
      }
      windows := windows + [Window(start, end)];
      if end >= |text| { break; }
      ghost var next := NextStart(text, size, overlap, start);
      start := if end - overlap > start + 1 then end - overlap else start + 1;
      assert start == next;
    }
    assert windows == all;
    PageDone(pages, p, size, overlap, windows);
  }

  /** `build_chunks`. */
  method BuildChunks(pages: seq<Page>, size: nat, overlap: nat, hash: string -> string)
      returns (r: Result<seq<Chunk>, Failure>)
    ensures r.Err? <==> Spans(pages, size, overlap) == []
    ensures r.Ok? ==> Cuts(pages, hash, Spans(pages, size, overlap), r.value)
  {
    var chunks: seq<Chunk> := [];
    for p := 0 to |pages|
      invariant Cuts(pages, hash, SpansTo(pages, size, overlap, p), chunks)
    {
      ghost var windows;
      chunks, windows := CutPage(pages, p, size, overlap, hash, chunks);
    }
    if chunks == [] { return Err(OCR_REQUIRED); }
    return Ok(chunks);
  }
}
