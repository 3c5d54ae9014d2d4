/** Server-sent events: the printer on the server, the incremental reader in the browser, and that the
    reader gives back what was printed however the text is cut into chunks. */
module EventStream {
  import opened Options
  import opened Text

  const LIMIT := 1_000_000

  datatype Event = Event(name: string, data: string)

  // ----- the reader -----

  /** `buffer.replace(/\r\n/g, "\n")`. */
  function Norm(s: string): string {
    if |s| < 2 then s
    else if s[0] == '\r' && s[1] == '\n' then "\n" + Norm(s[2..])
    else [s[0]] + Norm(s[1..])
  }

  predicate IsBoundary(s: string, i: int) { 0 <= i < |s| - 1 && s[i] == '\n' && s[i + 1] == '\n' }

  /** `buffer.indexOf("\n\n")` from a position on. */
  function Boundary(s: string, from: nat): (r: Option<nat>)
    requires from <= |s|
    ensures r.Some? ==> from <= r.value && IsBoundary(s, r.value)
    ensures forall i | from <= i && IsBoundary(s, i) :: r.Some? && r.value <= i
    decreases |s| - from
  {
    if from == |s| then None
    else if IsBoundary(s, from) then Some(from)
    else Boundary(s, from + 1)
  }

  function LineEnd(s: string, from: nat): (r: nat)
    requires from <= |s|
    ensures from <= r <= |s| && '\n' !in s[from..r] && (r < |s| ==> s[r] == '\n')
    decreases |s| - from
  {
    if from == |s| || s[from] == '\n' then from else LineEnd(s, from + 1)
  }

  /** `split("\n")`. */
  function Lines(s: string): seq<string>
    decreases |s|
  {
    var end := LineEnd(s, 0);
    if end == |s| then [s] else [s[..end]] + Lines(s[end + 1..])
  }

  /** What `String.prototype.trim` removes. */
  predicate TrimSpace(c: char) {
    var n := c as int;
    9 <= n <= 13 || n == 32 || n == 0xA0 || n == 0x1680 || 0x2000 <= n <= 0x200A ||
    n == 0x2028 || n == 0x2029 || n == 0x202F || n == 0x205F || n == 0x3000 || n == 0xFEFF
  }

  function TrimStart(s: string): string {
    if s != "" && TrimSpace(s[0]) then TrimStart(s[1..]) else s
  }

  function TrimEnd(s: string): string {
    if s != "" && TrimSpace(s[|s| - 1]) then TrimEnd(s[..|s| - 1]) else s
  }

  predicate StartsWith(s: string, prefix: string) { prefix <= s }

  function FirstName(lines: seq<string>): Option<string> {
    if lines == [] then None
    else if StartsWith(lines[0], "event:") then Some(TrimEnd(TrimStart(lines[0][6..])))
    else FirstName(lines[1..])
  }

  function DataLines(lines: seq<string>): seq<string> {
    if lines == [] then []
    else (if StartsWith(lines[0], "data:") then [TrimStart(lines[0][5..])] else []) + DataLines(lines[1..])
  }

  /** The callback for one block, if any. */
  function Parse(block: string): seq<Event> {
    var lines := Lines(block);
    var name, data := FirstName(lines), Join(DataLines(lines), "\n");
    if name.Some? && name.value != "" && data != "" then [Event(name.value, data)] else []
  }

  function ParseAll(blocks: seq<string>): seq<Event> {
    if blocks == [] then [] else ParseAll(blocks[..|blocks| - 1]) + Parse(blocks[|blocks| - 1])
  }

  /** The inner loop: every complete block is cut off the front. */
  datatype Drained = Drained(blocks: seq<string>, rest: string)

  function Drain(buffer: string): Drained
    decreases |buffer|
  {
    var at := Boundary(buffer, 0);
    if at.None? then Drained([], buffer)
    else
      var d := Drain(buffer[at.value + 2..]);
      Drained([buffer[..at.value]] + d.blocks, d.rest)
  }

  /** The blocks cut, and whether the reader came to the end without "Event too large". */
  datatype Received = Received(blocks: seq<string>, ok: bool)

  function Receive(buffer: string, chunks: seq<string>): Received
    decreases |chunks|
  {
    if chunks == [] then Received([], true)
    else
      var filled := Norm(buffer + chunks[0]);
      if |filled| > LIMIT then Received([], false)
      else
        var d := Drain(filled);
        var later := Receive(d.rest, chunks[1..]);
        Received(d.blocks + later.blocks, later.ok)
  }

  lemma DrainMore(buffer: string)
    requires Boundary(buffer, 0).Some?
    ensures var i := Boundary(buffer, 0).value;
      Drain(buffer) == Drained([buffer[..i]] + Drain(buffer[i + 2..]).blocks, Drain(buffer[i + 2..]).rest)
  {
  }

  lemma Regroup<T>(a: seq<T>, b: seq<T>, c: seq<T>)
    ensures a + (b + c) == (a + b) + c
  {
  }

  lemma ParseNext(blocks: seq<string>, block: string)
    ensures ParseAll(blocks + [block]) == ParseAll(blocks) + Parse(block)
  {
    assert (blocks + [block])[..|blocks|] == blocks;
  }

  /** The inner loop of the reader. */
  method CutBlocks(text: string) returns (events: seq<Event>, buffer: string, ghost blocks: seq<string>)
    ensures Drained(blocks, buffer) == Drain(text) && events == ParseAll(blocks)
  {
    buffer, events, blocks := text, [], [];
    var boundary := Boundary(buffer, 0);
    while boundary.Some?
      invariant boundary == Boundary(buffer, 0) && events == ParseAll(blocks)
      invariant Drain(text).blocks == blocks + Drain(buffer).blocks
      invariant Drain(text).rest == Drain(buffer).rest
      decreases |buffer|
    {
      DrainMore(buffer);
      var block := buffer[..boundary.value];
      buffer := buffer[boundary.value + 2..];
      ParseNext(blocks, block);
      Regroup(blocks, [block], Drain(buffer).blocks);
      events := events + Parse(block);
      blocks := blocks + [block];
      boundary := Boundary(buffer, 0);
    }
  }

  lemma ReceiveStep(buffer: string, all: seq<string>, i: nat)
    requires i < |all|
    ensures var filled := Norm(buffer + all[i]);
      Receive(buffer, all[i..]) ==
        if |filled| > LIMIT then Received([], false)
        else
          var d := Drain(filled);
          var later := Receive(d.rest, all[i + 1..]);
          Received(d.blocks + later.blocks, later.ok)
  {
    assert all[i..][1..] == all[i + 1..];
  }

  lemma {:induction false} ParseConcat(a: seq<string>, b: seq<string>)
    ensures ParseAll(a + b) == ParseAll(a) + ParseAll(b)
  {
    if b == [] {
      assert a + b == a;
    } else {
      assert (a + b)[..|a + b| - 1] == a + b[..|b| - 1];
      ParseConcat(a, b[..|b| - 1]);
    }
  }

  /** `readEvents` over the decoded chunks; the last read brings no more text. */
  method ReadEvents(chunks: seq<string>) returns (events: seq<Event>, ok: bool)
    ensures events == ParseAll(Receive("", chunks + [""]).blocks)
    ensures ok == Receive("", chunks + [""]).ok
  {
    var all := chunks + [""];
    var buffer := "";
    events := [];
    ghost var blocks: seq<string> := [];
    var i := 0;
    assert all[0..] == all;
    while i < |all|
      invariant 0 <= i <= |all| && events == ParseAll(blocks)
      invariant Receive("", all).blocks == blocks + Receive(buffer, all[i..]).blocks
      invariant Receive("", all).ok == Receive(buffer, all[i..]).ok
    {
      ReceiveStep(buffer, all, i);
      buffer := buffer + all[i];
      buffer := Norm(buffer);
      if |buffer| > LIMIT {
        assert blocks + [] == blocks;
        return events, false;
      }
      ghost var cut;
      var called;
      called, buffer, cut := CutBlocks(buffer);
      ParseConcat(blocks, cut);
      Regroup(blocks, cut, Receive(buffer, all[i + 1..]).blocks);
      events, blocks := events + called, blocks + cut;
      i := i + 1;
    }
    assert all[i..] == [] && blocks + [] == blocks;
    return events, true;
  }

  function Flat(parts: seq<string>): string {
    if parts == [] then "" else parts[0] + Flat(parts[1..])
  }

  // ----- line endings -----

  predicate Mixed(s: string, i: int) {
    0 <= i < |s| - 2 && s[i] == '\r' && s[i + 1] == '\r' && s[i + 2] == '\n'
  }

  predicate CleanReturns(s: string) { forall i | 0 <= i < |s| - 2 :: !Mixed(s, i) }

  predicate NoPair(s: string) { forall i | 0 <= i < |s| - 1 :: !(s[i] == '\r' && s[i + 1] == '\n') }

  predicate Joins(a: string, b: string) { a != "" && b != "" && a[|a| - 1] == '\r' && b[0] == '\n' }

  lemma NormHead(c: char, b: string)
    requires !Joins([c], b)
    ensures Norm([c] + b) == [c] + Norm(b)
  {
    assert ([c] + b)[1..] == b;
  }

  lemma NormPair(b: string)
    ensures Norm("\r\n" + b) == "\n" + Norm(b)
  {
    assert ("\r\n" + b)[2..] == b;
  }

  lemma {:induction false} NormConcat(a: string, b: string)
    requires !Joins(a, b)
    ensures Norm(a + b) == Norm(a) + Norm(b)
    decreases |a|
  {
    if a == "" {
      assert a + b == b;
    } else if |a| >= 2 && a[0] == '\r' && a[1] == '\n' {
      var t := a[2..];
      assert a == "\r\n" + t;
      NormConcat(t, b);
      Regroup("\r\n", t, b);
      NormPair(t + b);
      Regroup("\n", Norm(t), Norm(b));
    } else {
      var t := a[1..];
      assert a == [a[0]] + t;
      NormConcat(t, b);
      Regroup([a[0]], t, b);
      NormHead(a[0], t + b);
      NormHead(a[0], t);
      Regroup([a[0]], Norm(t), Norm(b));
    }
  }

  lemma {:induction false} NormFixed(s: string)
    requires NoPair(s)
    ensures Norm(s) == s
  {
    if |s| >= 2 {
      assert NoPair(s[1..]) by {
        forall i | 0 <= i < |s[1..]| - 1 ensures !(s[1..][i] == '\r' && s[1..][i + 1] == '\n') {
          assert s[1..][i] == s[i + 1] && s[1..][i + 1] == s[i + 2];
        }
      }
      NormFixed(s[1..]);
    }
  }

  lemma CleanPart(a: string, b: string)
    requires CleanReturns(a + b)
    ensures CleanReturns(a) && CleanReturns(b)
  {
    forall i | 0 <= i < |a| - 2 ensures !Mixed(a, i) { assert !Mixed(a + b, i); }
    forall i | 0 <= i < |b| - 2 ensures !Mixed(b, i) { assert !Mixed(a + b, |a| + i); }
  }

  /** What normalising leaves. */
  lemma {:induction false} NormLeaves(s: string)
    requires CleanReturns(s)
    ensures NoPair(Norm(s))
    ensures s != "" ==> Norm(s) != "" && Norm(s)[|Norm(s)| - 1] == s[|s| - 1]
    ensures s != "" && s[0] != '\r' ==> Norm(s)[0] == s[0]
    ensures |s| >= 2 && s[0] == '\r' && s[1] == '\r' ==> Norm(s)[0] == '\r'
    ensures |s| >= 1 && s[0] == '\r' && (|s| == 1 || s[1] != '\n') ==> Norm(s)[0] == '\r'
    decreases |s|
  {
    if |s| >= 2 {
      var k := if s[0] == '\r' && s[1] == '\n' then 2 else 1;
      assert s == s[..k] + s[k..];
      CleanPart(s[..k], s[k..]);
      NormLeaves(s[k..]);
      if k == 1 && s[0] == '\r' {
        assert s[1] != '\n';
        if |s| >= 3 { assert !Mixed(s, 0); }
      }
    }
  }

  /** A pair cut between its two characters. */
  lemma NormCut(q: string, d: string)
    requires CleanReturns(q + ("\r\n" + d))
    ensures Norm(Norm(q + "\r") + ("\n" + d)) == Norm(q + ("\r\n" + d))
  {
    var n, tail := Norm(q), "\r\n" + d;
    NormCleanEnd(q, tail);
    NormConcat(q, "\r");
    NormConcat(q, tail);
    assert "\r" + ("\n" + d) == tail;
    Regroup(n, "\r", "\n" + d);
    NormConcat(n, tail);
  }

  lemma NormCleanEnd(q: string, tail: string)
    requires CleanReturns(q + tail) && |tail| >= 2 && tail[0] == '\r' && tail[1] == '\n'
    ensures Norm(Norm(q)) == Norm(q) && !Joins(q, "\r") && !Joins(q, tail) && !Joins(Norm(q), tail)
  {
    CleanPart(q, tail);
    NormLeaves(q);
    NormFixed(Norm(q));
  }

  /** Normalising what was normalised so far together with the next chunk is normalising it all. */
  lemma NormResume(p: string, c: string)
    requires CleanReturns(p + c)
    ensures Norm(Norm(p) + c) == Norm(p + c)
  {
    if !Joins(p, c) {
      CleanPart(p, c);
      NormLeaves(p);
      NormFixed(Norm(p));
      NormConcat(p, c);
      NormConcat(Norm(p), c);
    } else {
      var q, d := p[..|p| - 1], c[1..];
      assert p == q + "\r" && c == "\n" + d;
      assert p + c == q + ("\r\n" + d);
      NormCut(q, d);
    }
  }

  // ----- independence from the chunking -----

  /** A first block whose end is the first boundary. */
  predicate Block(b: string) { forall j | 0 <= j < |b| :: !IsBoundary(b + "\n\n", j) }

  lemma BoundaryAfter(b: string, t: string)
    requires Block(b)
    ensures Boundary(b + "\n\n" + t, 0) == Some(|b|)
  {
    var s := b + "\n\n" + t;
    assert IsBoundary(s, |b|);
    forall j | 0 <= j < |b| ensures !IsBoundary(s, j) { assert !IsBoundary(b + "\n\n", j); }
  }

  lemma DrainBlock(s: string, b: string, t: string)
    requires Block(b) && s == b + "\n\n" + t
    ensures Drain(s) == Drained([b] + Drain(t).blocks, Drain(t).rest)
  {
    BoundaryAfter(b, t);
    assert s[..|b|] == b && s[|b| + 2..] == t;
    DrainMore(s);
  }

  lemma FirstBlock(s: string) returns (b: string, t: string)
    requires Boundary(s, 0).Some?
    ensures Block(b) && s == b + "\n\n" + t && |t| < |s|
  {
    var i := Boundary(s, 0).value;
    b, t := s[..i], s[i + 2..];
    forall j | 0 <= j < |b| ensures !IsBoundary(b + "\n\n", j) { assert !IsBoundary(s, j); }
  }

  /** The complete blocks at the front of a text. */
  lemma {:induction false} DrainCut(s: string) returns (u: string)
    ensures s == u + Drain(s).rest && Drain(u) == Drained(Drain(s).blocks, "")
    ensures u != "" ==> u[|u| - 1] == '\n'
    decreases |s|
  {
    if Boundary(s, 0).None? {
      u := "";
    } else {
      var b, t := FirstBlock(s);
      DrainBlock(s, b, t);
      var v := DrainCut(t);
      u := b + "\n\n" + v;
      DrainBlock(u, b, v);
      Regroup(b + "\n\n", v, Drain(t).rest);
    }
  }

  /** What follows complete blocks is drained on its own. */
  lemma {:induction false} DrainConcat(u: string, x: string)
    requires Drain(u).rest == ""
    ensures Drain(u + x) == Drained(Drain(u).blocks + Drain(x).blocks, Drain(x).rest)
    decreases |u|
  {
    if Boundary(u, 0).None? {
      assert u + x == x;
    } else {
      var b, t := FirstBlock(u);
      DrainBlock(u, b, t);
      DrainConcat(t, x);
      Regroup(b + "\n\n", t, x);
      DrainBlock(u + x, b, t + x);
      Regroup([b], Drain(t).blocks, Drain(x).blocks);
    }
  }

  /** The unfinished block at the end of the text received so far. */
  function Tail(p: string): string { Drain(Norm(p)).rest }

  lemma NormAfter(u: string, rest: string, c: string)
    requires NoPair(u + rest) && (u != "" ==> u[|u| - 1] == '\n')
    ensures Norm((u + rest) + c) == u + Norm(rest + c)
  {
    NoPairPart(u, rest);
    NormFixed(u);
    NormConcat(u, rest + c);
    Regroup(u, rest, c);
  }

  lemma NoPairPart(a: string, b: string)
    requires NoPair(a + b)
    ensures NoPair(a)
  {
    forall i | 0 <= i < |a| - 1 ensures !(a[i] == '\r' && a[i + 1] == '\n') {
      assert (a + b)[i] == a[i] && (a + b)[i + 1] == a[i + 1];
    }
  }

  lemma BufferStep(p: string, c: string)
    requires CleanReturns(p + c)
    ensures var d := Drain(Norm(Tail(p) + c));
      Drain(Norm(p + c)) == Drained(Drain(Norm(p)).blocks + d.blocks, d.rest)
  {
    CleanPart(p, c);
    NormLeaves(p);
    NormResume(p, c);
    var u := DrainCut(Norm(p));
    NormAfter(u, Tail(p), c);
    DrainConcat(u, Norm(Tail(p) + c));
  }

  /** The guard of "Event too large" at each chunk: the unfinished block before it, and the chunk. */
  predicate Fits(p: string, chunks: seq<string>)
    decreases |chunks|
  {
    chunks == [] ||
    (|Norm(Tail(p) + chunks[0])| <= LIMIT && Fits(p + chunks[0], chunks[1..]))
  }

  lemma {:induction false} ReceiveIs(p: string, chunks: seq<string>)
    requires CleanReturns(p + Flat(chunks))
    ensures var r := Receive(Tail(p), chunks);
      var (was, all) := (Drain(Norm(p)).blocks, Drain(Norm(p + Flat(chunks))).blocks);
      && (r.ok <==> Fits(p, chunks))
      && was + r.blocks <= all
      && (r.ok ==> was + r.blocks == all)
    decreases |chunks|
  {
    if chunks == [] {
      assert p + Flat(chunks) == p;
    } else {
      var c, later := chunks[0], chunks[1..];
      var whole := p + Flat(chunks);
      assert whole == (p + c) + Flat(later) == p + Flat(chunks);
      CleanPart(p + c, Flat(later));
      BufferStep(p, c);
      BufferStep(p, Flat(chunks));
      ReceiveIs(p + c, later);
      ReceiveMore(p, chunks);
    }
  }

  lemma ReceiveMore(p: string, chunks: seq<string>)
    requires chunks != [] && CleanReturns(p + chunks[0])
    ensures var r, later := Receive(Tail(p), chunks), Receive(Tail(p + chunks[0]), chunks[1..]);
      var (was, now) := (Drain(Norm(p)).blocks, Drain(Norm(p + chunks[0])).blocks);
      if |Norm(Tail(p) + chunks[0])| > LIMIT then r == Received([], false)
      else r.ok == later.ok && was + r.blocks == now + later.blocks
  {
    BufferStep(p, chunks[0]);
    var d := Drain(Norm(Tail(p) + chunks[0]));
    var later := Receive(d.rest, chunks[1..]);
    Regroup(Drain(Norm(p)).blocks, d.blocks, later.blocks);
  }

  /** The callbacks that a whole text stands for. */
  function EventsOf(text: string): seq<Event> { ParseAll(Drain(Norm(text)).blocks) }

  /** For a text without a doubled carriage return before a line feed, the reader makes the callbacks
      of the whole text, in order, exactly when every chunk fits; otherwise a first part of them. */
  lemma ReadsWhole(chunks: seq<string>)
    requires CleanReturns(Flat(chunks))
    ensures var r := Receive("", chunks + [""]);
      && (r.ok <==> Fits("", chunks + [""]))
      && ParseAll(r.blocks) <= EventsOf(Flat(chunks))
      && (r.ok ==> ParseAll(r.blocks) == EventsOf(Flat(chunks)))
  {
    FlatEnd(chunks);
    assert "" + Flat(chunks + [""]) == Flat(chunks);
    ReceiveFromStart(chunks + [""]);
    ParsePrefix(Receive("", chunks + [""]).blocks, Drain(Norm(Flat(chunks))).blocks);
  }

  lemma ReceiveFromStart(chunks: seq<string>)
    requires CleanReturns("" + Flat(chunks))
    ensures var (r, all) := (Receive("", chunks), Drain(Norm("" + Flat(chunks))).blocks);
      (r.ok <==> Fits("", chunks)) && r.blocks <= all && (r.ok ==> r.blocks == all)
  {
    ReceiveIs("", chunks);
    assert Drain(Norm("")) == Drained([], "");
    var r := Receive("", chunks).blocks;
    assert [] + r == r;
  }

  lemma ParsePrefix(a: seq<string>, b: seq<string>)
    requires a <= b
    ensures ParseAll(a) <= ParseAll(b)
  {
    assert a + b[|a|..] == b;
    ParseConcat(a, b[|a|..]);
  }

  lemma {:induction false} FlatEnd(chunks: seq<string>)
    ensures Flat(chunks + [""]) == Flat(chunks)
  {
    if chunks == [] {
      assert ([] + [""]) == [""] && [""][1..] == [];
    } else {
      assert (chunks + [""])[1..] == chunks[1..] + [""];
      FlatEnd(chunks[1..]);
    }
  }

  // ----- the printer -----

  datatype Item = Heartbeat | Sent(name: string, id: string, data: string)

  /** A line without its end. */
  function Body(item: Item): string {
    match item
    case Heartbeat => ": heartbeat"
    case Sent(name, id, data) =>
      "event: " + name + "\n" + ("id: " + id + ":" + name + "\n" + ("data: " + data))
  }

  /** `_event`, and the heartbeat comment. */
  function Print(item: Item): string { Body(item) + "\n\n" }

  function Printed(items: seq<Item>): string {
    if items == [] then "" else Print(items[0]) + Printed(items[1..])
  }

  function Called(item: Item): seq<Event> {
    if item.Sent? then [Event(item.name, item.data)] else []
  }

  function Events(items: seq<Item>): seq<Event> {
    if items == [] then [] else Called(items[0]) + Events(items[1..])
  }

  predicate Plain(s: string) { '\n' !in s && '\r' !in s }

  /** Names are not empty and not padded; payloads are one line that starts with its first brace. */
  predicate Printable(item: Item) {
    item.Sent? ==>
      Plain(item.name) && Plain(item.id) && Plain(item.data) &&
      item.name != "" && !TrimSpace(item.name[0]) && !TrimSpace(item.name[|item.name| - 1]) &&
      item.data != "" && !TrimSpace(item.data[0])
  }

  lemma LineEndIs(a: string, r: string, from: nat)
    requires '\n' !in a && from <= |a|
    ensures LineEnd(a + "\n" + r, from) == |a|
    decreases |a| - from
  {
    var s := a + "\n" + r;
    if from < |a| {
      assert s[from] == a[from];
      LineEndIs(a, r, from + 1);
    }
  }

  lemma LinesCons(a: string, r: string)
    requires '\n' !in a
    ensures Lines(a + "\n" + r) == [a] + Lines(r)
  {
    var s := a + "\n" + r;
    LineEndIs(a, r, 0);
    assert s[..|a|] == a && s[|a| + 1..] == r;
  }

  lemma LinesOne(a: string)
    requires '\n' !in a
    ensures Lines(a) == [a]
  {
    var end := LineEnd(a, 0);
    assert forall i :: 0 <= i < |a| ==> a[i] != '\n';
  }

  lemma TrimPadded(s: string)
    requires s != "" && !TrimSpace(s[0])
    ensures TrimStart(" " + s) == s
    ensures !TrimSpace(s[|s| - 1]) ==> TrimEnd(s) == s
  {
    assert (" " + s)[1..] == s && TrimStart(s) == s;
  }

  lemma SentLines(item: Item)
    requires item.Sent? && Printable(item)
    ensures Lines(Body(item)) ==
      ["event: " + item.name, "id: " + item.id + ":" + item.name, "data: " + item.data]
  {
    var a := "event: " + item.name;
    var b := "id: " + item.id + ":" + item.name;
    var c := "data: " + item.data;
    LinesCons(a, b + "\n" + c);
    LinesCons(b, c);
    LinesOne(c);
    assert Body(item) == a + "\n" + (b + "\n" + c);
  }

  lemma SentName(name: string, rest: seq<string>)
    requires name != "" && !TrimSpace(name[0]) && !TrimSpace(name[|name| - 1])
    ensures FirstName(["event: " + name] + rest) == Some(name)
  {
    TrimPadded(name);
    assert ("event: " + name)[6..] == " " + name;
  }

  lemma SentData(a: string, b: string, data: string)
    requires a != "" && a[0] != 'd' && b != "" && b[0] != 'd'
    requires data != "" && !TrimSpace(data[0])
    ensures DataLines([a, b, "data: " + data]) == [data]
  {
    TrimPadded(data);
    var c := "data: " + data;
    assert c[5..] == " " + data;
    var all: seq<string>, two: seq<string>, one: seq<string> := [a, b, c], [b, c], [c];
    assert all[1..] == two && two[1..] == one && one[1..] == [];
    assert DataLines(one) == [data];
    assert !StartsWith(a, "data:") && !StartsWith(b, "data:");
  }

  lemma ParseIs(block: string, lines: seq<string>, name: string, data: string)
    requires Lines(block) == lines && name != "" && data != ""
    requires FirstName(lines) == Some(name) && DataLines(lines) == [data]
    ensures Parse(block) == [Event(name, data)]
  {
  }

  lemma ParseSent(item: Item)
    requires item.Sent? && Printable(item)
    ensures Parse(Body(item)) == [Event(item.name, item.data)]
  {
    var a := "event: " + item.name;
    var b := "id: " + item.id + ":" + item.name;
    var c := "data: " + item.data;
    SentLines(item);
    SentName(item.name, [b, c]);
    assert [a] + [b, c] == [a, b, c];
    SentData(a, b, item.data);
    ParseIs(Body(item), [a, b, c], item.name, item.data);
  }

  lemma ParseHeartbeat()
    ensures Parse(Body(Heartbeat)) == []
  {
    var b := ": heartbeat";
    LinesOne(b);
    assert b[0] == ':';
    assert !StartsWith(b, "event:") && !StartsWith(b, "data:");
    var one: seq<string> := [b];
    assert one[1..] == [];
    assert FirstName(one) == None && DataLines(one) == [];
  }

  // ----- the round trip -----

  lemma NoBoundaryIn(lines: string, last: string)
    requires last != "" && '\n' !in last && Block(lines)
    requires lines != "" && lines[|lines| - 1] != '\n'
    ensures Block(lines + "\n" + last)
  {
    var s := lines + "\n" + last;
    forall j | 0 <= j < |s| ensures !IsBoundary(s + "\n\n", j) {
      if j < |lines| - 1 {
        assert !IsBoundary(lines + "\n\n", j);
      } else if j > |lines| {
        assert (s + "\n\n")[j] == last[j - |lines| - 1];
      } else if j == |lines| {
        assert (s + "\n\n")[j + 1] == last[0];
      } else {
        assert (s + "\n\n")[j] == lines[j];
      }
    }
  }

  lemma OneLineBlock(line: string)
    requires '\n' !in line
    ensures Block(line)
  {
    forall j | 0 <= j < |line| ensures !IsBoundary(line + "\n\n", j) {
      assert (line + "\n\n")[j] == line[j];
    }
  }

  /** A frame has no empty line before its end. */
  lemma BodyIsBlock(item: Item)
    requires Printable(item)
    ensures Block(Body(item))
  {
    if item.Heartbeat? {
      OneLineBlock(Body(item));
    } else {
      var a := "event: " + item.name;
      var b := "id: " + item.id + ":" + item.name;
      var c := "data: " + item.data;
      OneLineBlock(a);
      NoBoundaryIn(a, b);
      NoBoundaryIn(a + "\n" + b, c);
      assert Body(item) == (a + "\n" + b) + "\n" + c;
    }
  }

  function Bodies(items: seq<Item>): seq<string> {
    if items == [] then [] else [Body(items[0])] + Bodies(items[1..])
  }

  lemma {:induction false} DrainPrinted(items: seq<Item>)
    requires forall k :: 0 <= k < |items| ==> Printable(items[k])
    ensures Drain(Printed(items)) == Drained(Bodies(items), "")
  {
    if items != [] {
      BodyIsBlock(items[0]);
      DrainBlock(Printed(items), Body(items[0]), Printed(items[1..]));
      DrainPrinted(items[1..]);
    }
  }

  lemma {:induction false} ParseBodies(items: seq<Item>)
    requires forall k :: 0 <= k < |items| ==> Printable(items[k])
    ensures ParseAll(Bodies(items)) == Events(items)
  {
    if items != [] {
      ParseBodies(items[1..]);
      ParseConcat([Body(items[0])], Bodies(items[1..]));
      ParseItem(items[0]);
    }
  }

  lemma ParseItem(item: Item)
    requires Printable(item)
    ensures ParseAll([Body(item)]) == Called(item)
  {
    var b := Body(item);
    ParseNext([], b);
    assert [] + [b] == [b];
    if item.Sent? { ParseSent(item); } else { ParseHeartbeat(); }
  }

  predicate NoReturn(s: string) { forall i | 0 <= i < |s| :: s[i] != '\r' }

  lemma PrintNoReturn(item: Item)
    requires Printable(item)
    ensures NoReturn(Print(item))
  {
    if item.Sent? {
      var a := "event: " + item.name;
      var b := "id: " + item.id + ":" + item.name;
      var c := "data: " + item.data;
      assert NoReturn(a) && NoReturn(b) && NoReturn(c);
      assert Print(item) == a + "\n" + (b + "\n" + c) + "\n\n";
    }
  }

  lemma {:induction false} PrintedNoReturn(items: seq<Item>)
    requires forall k :: 0 <= k < |items| ==> Printable(items[k])
    ensures NoReturn(Printed(items))
  {
    if items != [] {
      PrintedNoReturn(items[1..]);
      PrintNoReturn(items[0]);
      assert NoReturn(Print(items[0]) + Printed(items[1..]));
    }
  }

  lemma NoReturnFixed(s: string)
    requires NoReturn(s)
    ensures Norm(s) == s && CleanReturns(s)
  {
    NormFixed(s);
  }

  /** However the printed text is cut, the reader calls back exactly the names and payloads that were
      printed, in order, if and only if every chunk fits; otherwise a first part of them, and then
      "Event too large". */
  lemma RoundTrip(items: seq<Item>, chunks: seq<string>)
    requires forall k :: 0 <= k < |items| ==> Printable(items[k])
    requires Flat(chunks) == Printed(items)
    ensures var r := Receive("", chunks + [""]);
      && (r.ok <==> Fits("", chunks + [""]))
      && ParseAll(r.blocks) <= Events(items)
      && (r.ok ==> ParseAll(r.blocks) == Events(items))
  {
    PrintedNoReturn(items);
    NoReturnFixed(Printed(items));
    DrainPrinted(items);
    ParseBodies(items);
    ReadsWhole(chunks);
  }

  // ----- when chunks fit -----

  lemma {:induction false} TailShort(items: seq<Item>, p: string, frame: nat)
    requires forall k :: 0 <= k < |items| ==> Printable(items[k]) && |Print(items[k])| <= frame
    requires p <= Printed(items)
    ensures |Drain(p).rest| <= frame
    decreases |items|
  {
    if items == [] { return; }
    var first := Print(items[0]);
    if |p| < |first| {
      var u := DrainCut(p);
    } else {
      var rest := p[|first|..];
      assert Printed(items)[|first|..] == Printed(items[1..]) && p[..|first|] == first;
      BodyIsBlock(items[0]);
      DrainBlock(p, Body(items[0]), rest);
      TailShort(items[1..], rest, frame);
    }
  }

  lemma {:induction false} SmallChunksFit(items: seq<Item>, p: string, chunks: seq<string>, frame: nat)
    requires forall k :: 0 <= k < |items| ==> Printable(items[k]) && |Print(items[k])| <= frame
    requires p + Flat(chunks) == Printed(items)
    requires forall k :: 0 <= k < |chunks| ==> |chunks[k]| + frame <= LIMIT
    ensures Fits(p, chunks)
    decreases |chunks|
  {
    if chunks == [] { return; }
    var c := chunks[0];
    Regroup(p, c, Flat(chunks[1..]));
    ChunkFits(items, p, c, Flat(chunks[1..]), frame);
    SmallChunksFit(items, p + c, chunks[1..], frame);
  }

  lemma ChunkFits(items: seq<Item>, p: string, c: string, later: string, frame: nat)
    requires forall k :: 0 <= k < |items| ==> Printable(items[k]) && |Print(items[k])| <= frame
    requires p + c + later == Printed(items)
    ensures |Norm(Tail(p) + c)| <= |c| + frame
  {
    PrintedNoReturn(items);
    NoReturnPart(p, c, later);
    NoReturnFixed(p);
    TailShort(items, p, frame);
    var u := DrainCut(p);
    NoReturnPart(u, Tail(p), "");
    assert u + Tail(p) + "" == p;
    NoReturnFixed(Tail(p) + c);
  }

  lemma NoReturnPart(a: string, b: string, d: string)
    requires NoReturn(a + b + d)
    ensures NoReturn(a) && NoReturn(b) && NoReturn(d)
  {
    var s := a + b + d;
    assert forall i :: 0 <= i < |a| ==> a[i] == s[i];
    assert forall i :: 0 <= i < |b| ==> b[i] == s[|a| + i];
    assert forall i :: 0 <= i < |d| ==> d[i] == s[|a| + |b| + i];
  }

  /** Chunks that leave room for the longest frame always bring everything through. */
  lemma SmallChunksRead(items: seq<Item>, chunks: seq<string>, frame: nat)
    requires forall k :: 0 <= k < |items| ==> Printable(items[k]) && |Print(items[k])| <= frame
    requires Flat(chunks) == Printed(items) && frame <= LIMIT
    requires forall k :: 0 <= k < |chunks| ==> |chunks[k]| + frame <= LIMIT
    ensures var r := Receive("", chunks + [""]);
      r.ok && ParseAll(r.blocks) == Events(items)
  {
    FlatEnd(chunks);
    assert "" + Flat(chunks + [""]) == Printed(items);
    SmallChunksFit(items, "", chunks + [""], frame);
    RoundTrip(items, chunks);
  }

  // ----- the exact condition on line ends -----

  lemma {:induction false} NormShrinks(s: string)
    ensures |Norm(s)| <= |s|
    decreases |s|
  {
    if |s| >= 2 {
      NormShrinks(s[1..]);
      NormShrinks(s[2..]);
    }
  }

  /** A pair that normalising has just made is normalised once more with the next chunk. */
  lemma MixedResumes(q: string, c: string)
    ensures Norm(Norm(q + "\r\r\n") + c) != Norm(q + "\r\r\n" + c)
  {
    var n, p := Norm(q), q + "\r\r\n";
    NormConcat(q, "\r\r\n");
    NormHead('\r', "\r\n");
    NormPair("");
    assert "\r" + "\r\n" == "\r\r\n" && "\r\n" + "" == "\r\n";
    assert Norm(p) == n + "\r\n";
    NormConcat(p, c);
    NormConcat(n + "\r\n", c);
    NormConcat(n, "\r\n");
    NormShrinks(n);
  }

  lemma MixedAt(t: string, i: int) returns (q: string, c: string)
    requires Mixed(t, i)
    ensures t == q + "\r\r\n" + c
  {
    q, c := t[..i], t[i + 3..];
  }

  /** Normalising chunk by chunk is normalising the whole, for every cut of a text, exactly when no
      carriage return is doubled before a line feed in it. */
  lemma ResumesIff(t: string)
    ensures (forall p, c :: p + c == t ==> Norm(Norm(p) + c) == Norm(t)) <==> CleanReturns(t)
  {
    if CleanReturns(t) {
      forall p, c | p + c == t ensures Norm(Norm(p) + c) == Norm(t) {
        NormResume(p, c);
      }
    } else {
      var i :| 0 <= i < |t| - 2 && Mixed(t, i);
      var q, c := MixedAt(t, i);
      MixedResumes(q, c);
    }
  }

  /** Normalising a line, a doubled return and another line: at once, up to the first line feed after
      the returns, and from there. */
  lemma NormMixed(a: string, e: string)
    requires Plain(a) && Plain(e)
    ensures Norm(a + "\n\r\r\n") == a + "\n\r\n"
    ensures Norm(a + "\n\r\r\n" + (e + "\n\n")) == a + "\n\r\n" + (e + "\n\n")
    ensures Norm(a + "\n\r\n" + (e + "\n\n")) == a + "\n\n" + (e + "\n\n")
  {
    NoReturnFixed(a);
    NoReturnFixed(e + "\n\n");
    NormConcat(a, "\n\r\r\n");
    NormConcat(a, "\n\r\n");
    NormEnds();
    NormConcat(a + "\n\r\r\n", e + "\n\n");
    NormConcat(a + "\n\r\n", e + "\n\n");
  }

  lemma NormEnds()
    ensures Norm("\n\r\r\n") == "\n\r\n" && Norm("\n\r\n") == "\n\n"
  {
    NormPair("");
    NormHead('\r', "\r\n");
    NormHead('\n', "\r\r\n");
    NormHead('\n', "\r\n");
    assert "\r\n" + "" == "\r\n" && ['\r'] + "\r\n" == "\r\r\n";
    assert ['\n'] + "\r\r\n" == "\n\r\r\n" && ['\n'] + "\r\n" == "\n\r\n";
  }

  lemma DrainMixed(a: string, e: string)
    requires Plain(a) && Plain(e) && a != "" && e != ""
    ensures Drain(a + "\n\r\n") == Drained([], a + "\n\r\n")
    ensures Drain(a + "\n\r\n" + (e + "\n\n")) == Drained([a + "\n" + "\r" + "\n" + e], "")
    ensures Drain(a + "\n\n" + (e + "\n\n")) == Drained([a, e], "")
  {
    assert forall j :: !IsBoundary(a + "\n\r\n", j);
    OneLineBlock(a);
    OneLineBlock(e);
    NoBoundaryIn(a, "\r");
    NoBoundaryIn(a + "\n" + "\r", e);
    var b := a + "\n" + "\r" + "\n" + e;
    assert a + "\n\r\n" + (e + "\n\n") == b + "\n\n" + "";
    DrainBlock(b + "\n\n" + "", b, "");
    assert e + "\n\n" + "" == e + "\n\n";
    DrainBlock(e + "\n\n", e, "");
    DrainBlock(a + "\n\n" + (e + "\n\n"), a, e + "\n\n");
  }

  lemma FirstLater(first: string, lines: seq<string>)
    requires first != "" && first[0] != 'e'
    ensures FirstName([first] + lines) == FirstName(lines)
  {
    assert ([first] + lines)[1..] == lines && !StartsWith(first, "event:");
  }

  lemma DataLater(first: string, lines: seq<string>)
    ensures first != "" && first[0] != 'd' ==> DataLines([first] + lines) == DataLines(lines)
    ensures StartsWith(first, "data:") ==>
      DataLines([first] + lines) == [TrimStart(first[5..])] + DataLines(lines)
  {
    assert ([first] + lines)[1..] == lines;
  }

  lemma LinesStep(s: string, a: string, r: string, later: seq<string>)
    requires '\n' !in a && s == a + "\n" + r && Lines(r) == later
    ensures Lines(s) == [a] + later
  {
    LinesCons(a, r);
  }

  lemma LinesMixed(a: string, e: string)
    requires Plain(a) && Plain(e)
    ensures Lines(a + "\n" + "\r" + "\n" + e) == [a] + (["\r"] + [e])
  {
    LinesOne(e);
    LinesStep("\r" + "\n" + e, "\r", e, [e]);
    assert a + "\n" + "\r" + "\n" + e == a + "\n" + ("\r" + "\n" + e);
    LinesStep(a + "\n" + "\r" + "\n" + e, a, "\r" + "\n" + e, ["\r"] + [e]);
  }

  /** Data, a lone return and a name make an event. */
  lemma ParseTogether(name: string, data: string)
    requires Printable(Sent(name, "", data))
    ensures Parse("data: " + data + "\n" + "\r" + "\n" + ("event: " + name)) == [Event(name, data)]
  {
    var a, e := "data: " + data, "event: " + name;
    LinesMixed(a, e);
    assert [e] + [] == [e] && a[5..] == " " + data;
    SentName(name, []);
    FirstLater("\r", [e]);
    FirstLater(a, ["\r"] + [e]);
    TrimPadded(data);
    DataLater(e, []);
    DataLater("\r", [e]);
    DataLater(a, ["\r"] + [e]);
    ParseIs(a + "\n" + "\r" + "\n" + e, [a] + (["\r"] + [e]), name, data);
  }

  /** Data alone and a name alone make none. */
  lemma ParseApart(name: string, data: string)
    requires Printable(Sent(name, "", data))
    ensures Parse("data: " + data) == [] && Parse("event: " + name) == []
  {
    var a, e := "data: " + data, "event: " + name;
    LinesOne(a);
    LinesOne(e);
    assert [a] + [] == [a] && [e] + [] == [e];
    FirstLater(a, []);
    DataLater(e, []);
  }

  lemma ReceiveFirst(buffer: string, c: string, later: seq<string>, n: string, d: Drained)
    requires |buffer| + |c| <= LIMIT && Norm(buffer + c) == n && Drain(n) == d
    ensures Receive(buffer, [c] + later).blocks == d.blocks + Receive(d.rest, later).blocks
  {
    assert ([c] + later)[1..] == later;
    NormShrinks(buffer + c);
  }

  lemma ReceiveEnd()
    ensures Receive("", [""]).blocks == []
  {
    var last: seq<string> := [""];
    assert last[1..] == [] && "" + "" == "";
  }

  lemma CutFirst(x: string, held: string, later: seq<string>)
    requires |x| <= LIMIT && Norm(x) == held && Drain(held) == Drained([], held)
    ensures Receive("", [x] + later).blocks == Receive(held, later).blocks
  {
    assert "" + x == x;
    ReceiveFirst("", x, later, held, Drained([], held));
  }

  lemma CutSecond(held: string, y: string, n: string, blocks: seq<string>)
    requires |held| + |y| <= LIMIT && Norm(held + y) == n && Drain(n) == Drained(blocks, "")
    ensures Receive(held, [y] + [""]).blocks == blocks
  {
    ReceiveEnd();
    ReceiveFirst(held, y, [""], n, Drained(blocks, ""));
    assert blocks + [] == blocks;
  }

  lemma BlocksWhole(a: string, e: string)
    requires Plain(a) && Plain(e) && a != "" && e != "" && |a| + |e| + 6 <= LIMIT
    ensures Receive("", [a + "\n\r\r\n" + (e + "\n\n")] + [""]).blocks == [a + "\n" + "\r" + "\n" + e]
  {
    var text := a + "\n\r\r\n" + (e + "\n\n");
    NormMixed(a, e);
    DrainMixed(a, e);
    assert "" + text == text;
    CutSecond("", text, a + "\n\r\n" + (e + "\n\n"), [a + "\n" + "\r" + "\n" + e]);
  }

  lemma BlocksCut(a: string, e: string)
    requires Plain(a) && Plain(e) && a != "" && e != "" && |a| + |e| + 6 <= LIMIT
    ensures Receive("", [a + "\n\r\r\n", e + "\n\n"] + [""]).blocks == [a, e]
  {
    var x, y, held := a + "\n\r\r\n", e + "\n\n", a + "\n\r\n";
    NormMixed(a, e);
    DrainMixed(a, e);
    CutFirst(x, held, [y] + [""]);
    CutSecond(held, y, a + "\n\n" + y, [a, e]);
    assert [x] + ([y] + [""]) == [x, y] + [""];
  }

  lemma ParseOne(b: string)
    ensures ParseAll([b]) == Parse(b)
  {
    ParseNext([], b);
    assert [] + [b] == [b];
  }

  lemma ParseTwo(a: string, b: string)
    ensures ParseAll([a, b]) == Parse(a) + Parse(b)
  {
    ParseOne(a);
    ParseNext([a], b);
    assert [a] + [b] == [a, b];
  }

  /** With a doubled carriage return before a line feed the callbacks do depend on the cut: the same
      text is one event when it arrives whole, and none when it is cut after that line feed. */
  lemma MixedReturnsDepend(name: string, data: string)
    requires Printable(Sent(name, "", data)) && |name| + |data| + 20 <= LIMIT
    ensures var (x, y) := ("data: " + data + "\n\r\r\n", "event: " + name + "\n\n");
      && ParseAll(Receive("", [x + y] + [""]).blocks) == [Event(name, data)]
      && ParseAll(Receive("", [x, y] + [""]).blocks) == []
  {
    var a, e := "data: " + data, "event: " + name;
    BlocksWhole(a, e);
    BlocksCut(a, e);
    ParseTogether(name, data);
    ParseApart(name, data);
    ParseOne(a + "\n" + "\r" + "\n" + e);
    ParseTwo(a, e);
  }

  // ----- the limit -----

  /** A printed text longer than the limit is refused when it arrives in one chunk. */
  lemma TooMuchAtOnce(items: seq<Item>)
    requires forall k :: 0 <= k < |items| ==> Printable(items[k])
    requires |Printed(items)| > LIMIT
    ensures Receive("", [Printed(items)] + [""]) == Received([], false)
  {
    var text := Printed(items);
    PrintedNoReturn(items);
    NoReturnFixed(text);
    assert "" + text == text && ([text] + [""])[0] == text;
  }

  function Heartbeats(n: nat): seq<Item> { seq(n, _ => Heartbeat) }

  lemma {:induction false} HeartbeatsLength(n: nat)
    ensures |Printed(Heartbeats(n))| == 13 * n
  {
    if n > 0 {
      assert Heartbeats(n)[1..] == Heartbeats(n - 1);
      HeartbeatsLength(n - 1);
    }
  }

  /** So frames of 13 characters can be refused, when enough of them arrive together. */
  lemma FrameLimitNotEnough(n: nat)
    requires 13 * n > LIMIT
    ensures forall k :: 0 <= k < n ==> |Print(Heartbeats(n)[k])| == 13
    ensures Receive("", [Printed(Heartbeats(n))] + [""]) == Received([], false)
  {
    HeartbeatsLength(n);
    TooMuchAtOnce(Heartbeats(n));
  }
}
