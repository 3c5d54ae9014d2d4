/** What the reader of server-sent events makes of a text, said without its loops: where the blocks of
    a stream are, which line of a block gives the name and which give the data, and line ends. */
module EventBlocks {
  import opened Options
  import opened Text
  import opened EventStream

  // ----- the blocks -----

  function Framed(blocks: seq<string>): string {
    if blocks == [] then "" else blocks[0] + "\n\n" + Framed(blocks[1..])
  }

  predicate NoBoundary(s: string) { forall i | 0 <= i < |s| - 1 :: !(s[i] == '\n' && s[i + 1] == '\n') }

  /** A buffer is its complete blocks, each with the first empty line after it, and a rest without one. */
  lemma {:induction false} DrainMeans(buffer: string)
    ensures var d := Drain(buffer);
      && Framed(d.blocks) + d.rest == buffer && NoBoundary(d.rest)
      && forall k :: 0 <= k < |d.blocks| ==> NoBoundary(d.blocks[k] + "\n")
    decreases |buffer|
  {
    var d := Drain(buffer);
    var at := Boundary(buffer, 0);
    if at.None? {
      assert forall i :: 0 <= i && IsBoundary(buffer, i) ==> false;
      forall i | 0 <= i < |buffer| - 1 ensures !(buffer[i] == '\n' && buffer[i + 1] == '\n') {
        assert !IsBoundary(buffer, i);
      }
    } else {
      var i := at.value;
      var later := Drain(buffer[i + 2..]);
      DrainMore(buffer);
      DrainMeans(buffer[i + 2..]);
      BlockEnds(buffer, i);
      assert d.blocks[1..] == later.blocks;
      FrameFirst(buffer, i, later.blocks, later.rest);
    }
  }

  lemma BlockEnds(s: string, i: nat)
    requires IsBoundary(s, i) && forall j :: 0 <= j < i ==> !IsBoundary(s, j)
    ensures NoBoundary(s[..i] + "\n")
  {
    var b := s[..i] + "\n";
    assert forall k :: 0 <= k < |b| ==> b[k] == s[k];
    forall k | 0 <= k < |b| - 1 ensures !(b[k] == '\n' && b[k + 1] == '\n') {
      assert !IsBoundary(s, k);
    }
  }

  lemma FrameFirst(s: string, i: nat, blocks: seq<string>, rest: string)
    requires IsBoundary(s, i) && Framed(blocks) + rest == s[i + 2..]
    ensures Framed([s[..i]] + blocks) + rest == s
  {
    assert ([s[..i]] + blocks)[1..] == blocks;
    assert s == s[..i] + "\n\n" + s[i + 2..];
  }

  // ----- the lines of a block -----

  predicate OneLine(s: string) { '\n' !in s }

  lemma {:induction false} LinesOfJoin(lines: seq<string>)
    requires lines != [] && forall k :: 0 <= k < |lines| ==> OneLine(lines[k])
    ensures Lines(Join(lines, "\n")) == lines
  {
    if |lines| == 1 {
      LinesOne(lines[0]);
    } else {
      LinesOfJoin(lines[1..]);
      LinesCons(lines[0], Join(lines[1..], "\n"));
      assert lines == [lines[0]] + lines[1..];
    }
  }

  /** The positions, in order, of exactly the lines from some line on that begin with a prefix. */
  predicate Picks(lines: seq<string>, prefix: string, from: nat, at: seq<nat>) {
    (forall i | 0 <= i < |at| :: from <= at[i] < |lines| && prefix <= lines[at[i]]) &&
    (forall i, j | 0 <= i < j < |at| :: at[i] < at[j]) &&
    forall k | from <= k < |lines| && prefix <= lines[k] :: k in at
  }

  lemma PicksSkip(lines: seq<string>, prefix: string, from: nat, at: seq<nat>)
    requires Picks(lines, prefix, from, at) && from < |lines| && !(prefix <= lines[from])
    ensures Picks(lines, prefix, from + 1, at)
  {
    forall i | 0 <= i < |at| ensures from + 1 <= at[i] {
      assert prefix <= lines[at[i]];
    }
  }

  lemma PicksTake(lines: seq<string>, prefix: string, from: nat, at: seq<nat>)
    requires Picks(lines, prefix, from, at) && from < |lines| && prefix <= lines[from]
    ensures at != [] && at[0] == from && Picks(lines, prefix, from + 1, at[1..])
  {
    assert from in at;
    var z :| 0 <= z < |at| && at[z] == from;
    forall i | 0 < i < |at| ensures at[i] > from { assert at[0] < at[i]; }
    forall k | from + 1 <= k < |lines| && prefix <= lines[k] ensures k in at[1..] {
      var y :| 0 <= y < |at| && at[y] == k;
      assert at[1..][y - 1] == k;
    }
  }

  lemma {:induction false} FirstNameMeans(lines: seq<string>, from: nat, at: seq<nat>)
    requires from <= |lines| && Picks(lines, "event:", from, at)
    ensures FirstName(lines[from..]) ==
      if at == [] then None else Some(TrimEnd(TrimStart(lines[at[0]][6..])))
    decreases |lines| - from
  {
    if from < |lines| {
      assert lines[from..][1..] == lines[from + 1..];
      if StartsWith(lines[from], "event:") {
        PicksTake(lines, "event:", from, at);
      } else {
        PicksSkip(lines, "event:", from, at);
        FirstNameMeans(lines, from + 1, at);
      }
    }
  }

  function DataAt(lines: seq<string>, at: seq<nat>): seq<string>
    requires forall i :: 0 <= i < |at| ==> at[i] < |lines| && "data:" <= lines[at[i]]
  {
    seq(|at|, i requires 0 <= i < |at| => TrimStart(lines[at[i]][5..]))
  }

  lemma DataAtFirst(lines: seq<string>, at: seq<nat>)
    requires at != [] && forall i :: 0 <= i < |at| ==> at[i] < |lines| && "data:" <= lines[at[i]]
    ensures DataAt(lines, at) == [TrimStart(lines[at[0]][5..])] + DataAt(lines, at[1..])
  {
  }

  lemma {:induction false} DataLinesMean(lines: seq<string>, from: nat, at: seq<nat>)
    requires from <= |lines| && Picks(lines, "data:", from, at)
    ensures DataLines(lines[from..]) == DataAt(lines, at)
    decreases |lines| - from
  {
    if from < |lines| {
      assert lines[from..][1..] == lines[from + 1..];
      if StartsWith(lines[from], "data:") {
        PicksTake(lines, "data:", from, at);
        DataLinesMean(lines, from + 1, at[1..]);
        DataAtFirst(lines, at);
      } else {
        PicksSkip(lines, "data:", from, at);
        DataLinesMean(lines, from + 1, at);
      }
    }
  }

  /** The callback of a block: the first `event:` line names it and all `data:` lines, joined, are its
      payload; without a name or a payload there is none. */
  lemma ParseMeans(lines: seq<string>, names: seq<nat>, data: seq<nat>)
    requires lines != [] && forall k :: 0 <= k < |lines| ==> OneLine(lines[k])
    requires Picks(lines, "event:", 0, names) && Picks(lines, "data:", 0, data)
    ensures var payload := Join(DataAt(lines, data), "\n");
      Parse(Join(lines, "\n")) ==
      if names == [] || payload == "" then []
      else
        var name := TrimEnd(TrimStart(lines[names[0]][6..]));
        if name == "" then [] else [Event(name, payload)]
  {
    LinesOfJoin(lines);
    assert lines[0..] == lines;
    FirstNameMeans(lines, 0, names);
    DataLinesMean(lines, 0, data);
  }

  predicate AllTrimmed(s: string) { forall i | 0 <= i < |s| :: TrimSpace(s[i]) }

  /** Trimming takes all the whitespace of one side and nothing else. */
  lemma {:induction false} TrimStartMeans(s: string)
    ensures exists pad :: AllTrimmed(pad) && s == pad + TrimStart(s)
    ensures TrimStart(s) == "" || !TrimSpace(TrimStart(s)[0])
  {
    if s != "" && TrimSpace(s[0]) {
      TrimStartMeans(s[1..]);
      var pad :| AllTrimmed(pad) && s[1..] == pad + TrimStart(s[1..]);
      assert AllTrimmed([s[0]] + pad) && s == [s[0]] + pad + TrimStart(s);
    } else {
      assert AllTrimmed("") && s == "" + TrimStart(s);
    }
  }

  lemma {:induction false} TrimEndMeans(s: string)
    ensures exists pad :: AllTrimmed(pad) && s == TrimEnd(s) + pad
    ensures TrimEnd(s) == "" || !TrimSpace(TrimEnd(s)[|TrimEnd(s)| - 1])
  {
    if s != "" && TrimSpace(s[|s| - 1]) {
      var init := s[..|s| - 1];
      TrimEndMeans(init);
      var pad :| AllTrimmed(pad) && init == TrimEnd(init) + pad;
      assert AllTrimmed(pad + [s[|s| - 1]]) && s == TrimEnd(s) + (pad + [s[|s| - 1]]);
    } else {
      assert AllTrimmed("") && s == TrimEnd(s) + "";
    }
  }

  // ----- line ends -----

  /** The same text with its lines ended as on other systems. */
  function Crlf(s: string): string {
    if s == "" then ""
    else (if s[0] == '\n' then "\r\n" else [s[0]]) + Crlf(s[1..])
  }

  lemma {:induction false} CrlfNorm(s: string)
    requires NoReturn(s)
    ensures Norm(Crlf(s)) == s && CleanReturns(Crlf(s))
    ensures s != "" ==> Crlf(s) != "" && Crlf(s)[0] == if s[0] == '\n' then '\r' else s[0]
    ensures Crlf(s) != "" ==> Crlf(s)[0] != '\n'
  {
    if s != "" {
      var rest := Crlf(s[1..]);
      CrlfNorm(s[1..]);
      assert s == [s[0]] + s[1..];
      if s[0] == '\n' {
        NormPair(rest);
        CleanMore("\r\n", rest);
      } else {
        NormHead(s[0], rest);
        CleanMore([s[0]], rest);
      }
    }
  }

  lemma CleanMore(a: string, b: string)
    requires CleanReturns(b) && (a == "\r\n" || (|a| == 1 && a[0] != '\r'))
    ensures CleanReturns(a + b)
  {
    var s := a + b;
    forall i | 0 <= i < |s| - 2 ensures !Mixed(s, i) {
      if i >= |a| {
        assert !Mixed(b, i - |a|) && s[i] == b[i - |a|] && s[i + 1] == b[i + 1 - |a|];
      }
    }
  }

  /** A stream whose lines end in pairs makes the callbacks of the same stream with plain line ends,
      however it is cut, as long as every chunk fits. */
  lemma CrlfReads(text: string, chunks: seq<string>)
    requires NoReturn(text) && Flat(chunks) == Crlf(text)
    ensures var r := Receive("", chunks + [""]);
      && (r.ok <==> Fits("", chunks + [""]))
      && ParseAll(r.blocks) <= EventsOf(text)
      && (r.ok ==> ParseAll(r.blocks) == EventsOf(text))
  {
    CrlfNorm(text);
    NoReturnFixed(text);
    ReadsWhole(chunks);
  }
}
