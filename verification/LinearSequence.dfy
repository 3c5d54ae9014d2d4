/** Recognising a diagram that is one chain of steps. The walk is sound and complete: it answers
    exactly when the edges are the links of a single path through all nodes. */
module LinearSequence {
  import opened Options
  import opened TutorContract

  datatype Step = Step(caption: string, edgeCaption: string)

  // ----- the filters -----

  /** The positions of the edges that leave a node, and of those that enter it. */
  function Outgoing(edges: seq<Edge>, id: string, from: nat): (r: seq<nat>)
    requires from <= |edges|
    ensures forall a | 0 <= a < |r| :: from <= r[a] < |edges| && edges[r[a]].source == id
    ensures forall j | from <= j < |edges| && edges[j].source == id :: j in r
    ensures forall a, b | 0 <= a < b < |r| :: r[a] < r[b]
    decreases |edges| - from
  {
    if from == |edges| then []
    else (if edges[from].source == id then [from] else []) + Outgoing(edges, id, from + 1)
  }

  function Incoming(edges: seq<Edge>, id: string, from: nat): (r: seq<nat>)
    requires from <= |edges|
    ensures forall a | 0 <= a < |r| :: from <= r[a] < |edges| && edges[r[a]].target == id
    ensures forall j | from <= j < |edges| && edges[j].target == id :: j in r
    ensures forall a, b | 0 <= a < b < |r| :: r[a] < r[b]
    decreases |edges| - from
  {
    if from == |edges| then []
    else (if edges[from].target == id then [from] else []) + Incoming(edges, id, from + 1)
  }

  predicate IsStart(edges: seq<Edge>, n: Node) { Incoming(edges, n.id, 0) == [] }

  /** The positions of the nodes that no edge enters. */
  function Starts(nodes: seq<Node>, edges: seq<Edge>, from: nat): (r: seq<nat>)
    requires from <= |nodes|
    ensures forall a | 0 <= a < |r| :: from <= r[a] < |nodes| && IsStart(edges, nodes[r[a]])
    ensures forall i | from <= i < |nodes| && IsStart(edges, nodes[i]) :: i in r
    ensures forall a, b | 0 <= a < b < |r| :: r[a] < r[b]
    decreases |nodes| - from
  {
    if from == |nodes| then []
    else (if IsStart(edges, nodes[from]) then [from] else []) + Starts(nodes, edges, from + 1)
  }

  function Find(nodes: seq<Node>, id: string): (r: Option<Node>)
    ensures r.Some? ==> r.value in nodes && r.value.id == id
    ensures r.None? ==> forall n :: n in nodes ==> n.id != id
  {
    if nodes == [] then None else if nodes[0].id == id then Some(nodes[0]) else Find(nodes[1..], id)
  }

  // ----- what a linear sequence is -----

  /** What the diagram contract promises: distinct identifiers, and edges between them. */
  predicate Simple(nodes: seq<Node>, edges: seq<Edge>) {
    Distinct(NodeIds(nodes)) &&
    forall e | e in edges :: e.source in NodeIds(nodes) && e.target in NodeIds(nodes)
  }

  /** Some of the nodes, each once, and for each of them but the last the position of its edge to the
      next. */
  predicate IsWalk(nodes: seq<Node>, edges: seq<Edge>, p: seq<Node>, links: seq<nat>) {
    |p| == |links| + 1 && (forall n | n in p :: n in nodes) &&
    (forall i, j | 0 <= i < j < |p| :: p[i].id != p[j].id) &&
    forall i | 0 <= i < |links| :: LinkAt(edges, p, links, i)
  }

  predicate LinkAt(edges: seq<Edge>, p: seq<Node>, links: seq<nat>, i: int) {
    0 <= i < |links| && i + 1 < |p| && links[i] < |edges| &&
    edges[links[i]].source == p[i].id && edges[links[i]].target == p[i + 1].id
  }

  /** The edges are exactly the links of one path through all nodes. */
  predicate IsPath(nodes: seq<Node>, edges: seq<Edge>, p: seq<Node>, links: seq<nat>) {
    IsWalk(nodes, edges, p, links) && |p| == |nodes| && |links| == |edges|
  }

  function StepAt(edges: seq<Edge>, p: seq<Node>, links: seq<nat>, i: nat): Step
    requires i < |p|
  {
    Step(p[i].caption, if i < |links| && links[i] < |edges| then edges[links[i]].caption else "")
  }

  function StepsOf(edges: seq<Edge>, p: seq<Node>, links: seq<nat>): seq<Step> {
    seq(|p|, i requires 0 <= i < |p| => StepAt(edges, p, links, i))
  }

  // ----- counting -----

  function Elements<T>(s: seq<T>): set<T> { set x | x in s }

  lemma {:induction false} DistinctCount<T>(s: seq<T>)
    ensures |Elements(s)| <= |s|
    ensures (forall i, j :: 0 <= i < j < |s| ==> s[i] != s[j]) ==> |Elements(s)| == |s|
  {
    if s != [] {
      var init, last := s[..|s| - 1], s[|s| - 1];
      DistinctCount(init);
      assert Elements(s) == Elements(init) + {last};
      assert forall x :: x in init ==> exists i :: 0 <= i < |s| - 1 && s[i] == x;
    }
  }

  function Below(n: nat): (r: set<nat>)
    ensures |r| == n && forall x: nat :: x in r <==> x < n
  {
    if n == 0 then {} else Below(n - 1) + {n - 1}
  }

  /** n different positions below n are all of them. */
  lemma AllPositions(s: seq<nat>, j: nat)
    requires forall i, k :: 0 <= i < k < |s| ==> s[i] != s[k]
    requires forall i :: 0 <= i < |s| ==> s[i] < |s|
    requires j < |s|
    ensures j in s
  {
    DistinctCount(s);
    var below := Below(|s|);
    assert Elements(s) <= below;
    if j !in s {
      assert Elements(s) <= below - {j};
      SubsetCount(Elements(s), below - {j});
    }
  }

  lemma {:induction false} SubsetCount<T>(a: set<T>, b: set<T>)
    requires a <= b
    ensures |a| <= |b|
  {
    if a != {} {
      var x :| x in a;
      SubsetCount(a - {x}, b - {x});
    }
  }

  // ----- what a path implies -----

  /** Every edge of a path is one of its links. */
  lemma EveryEdgeLinks(nodes: seq<Node>, edges: seq<Edge>, p: seq<Node>, links: seq<nat>, j: nat)
    requires IsPath(nodes, edges, p, links) && j < |edges|
    ensures exists i :: LinkAt(edges, p, links, i) && links[i] == j
  {
    forall i, k | 0 <= i < k < |links| ensures links[i] != links[k] {
      assert LinkAt(edges, p, links, i) && LinkAt(edges, p, links, k);
    }
    forall i | 0 <= i < |links| ensures links[i] < |links| { assert LinkAt(edges, p, links, i); }
    AllPositions(links, j);
    var i :| 0 <= i < |links| && links[i] == j;
    assert LinkAt(edges, p, links, i);
  }

  /** Degrees along a path: one edge leaves each node but the last, one enters each but the first. */
  lemma PathDegrees(nodes: seq<Node>, edges: seq<Edge>, p: seq<Node>, links: seq<nat>, i: nat)
    requires IsPath(nodes, edges, p, links) && i < |p|
    ensures Outgoing(edges, p[i].id, 0) == if i < |links| then [links[i]] else []
    ensures Incoming(edges, p[i].id, 0) == if i > 0 then [links[i - 1]] else []
  {
    var out, into := Outgoing(edges, p[i].id, 0), Incoming(edges, p[i].id, 0);
    forall j | j in out ensures i < |links| && j == links[i] {
      EveryEdgeLinks(nodes, edges, p, links, j);
      var k :| LinkAt(edges, p, links, k) && links[k] == j;
      assert p[k].id == p[i].id && k == i;
    }
    forall j | j in into ensures i > 0 && j == links[i - 1] {
      EveryEdgeLinks(nodes, edges, p, links, j);
      var k :| LinkAt(edges, p, links, k) && links[k] == j;
      assert p[k + 1].id == p[i].id && k + 1 == i;
    }
    if i < |links| { assert LinkAt(edges, p, links, i); }
    if i > 0 { assert LinkAt(edges, p, links, i - 1); }
    OnlyOne(out, if i < |links| then Some(links[i]) else None);
    OnlyOne(into, if i > 0 then Some(links[i - 1]) else None);
  }

  lemma OnlyOne(s: seq<nat>, x: Option<nat>)
    requires forall a, b :: 0 <= a < b < |s| ==> s[a] < s[b]
    requires forall y :: y in s <==> x == Some(y)
    ensures s == if x.Some? then [x.value] else []
  {
    DistinctCount(s);
    var only: set<nat> := if x.Some? then {x.value} else {};
    assert Elements(s) == only;
    assert |s| == |only|;
  }

  /** A path visits every node. */
  lemma VisitsAll(nodes: seq<Node>, edges: seq<Edge>, p: seq<Node>, links: seq<nat>, n: Node)
    requires IsPath(nodes, edges, p, links) && n in nodes
    ensures n in p
  {
    DistinctCount(p);
    DistinctCount(nodes);
    assert forall i, j :: 0 <= i < j < |p| ==> p[i] != p[j];
    assert Elements(p) <= Elements(nodes);
    if n !in p {
      assert Elements(p) <= Elements(nodes) - {n};
      SubsetCount(Elements(p), Elements(nodes) - {n});
    }
  }

  lemma SameNode(nodes: seq<Node>, a: Node, b: Node)
    requires Distinct(NodeIds(nodes)) && a in nodes && b in nodes && a.id == b.id
    ensures a == b
  {
    var i :| 0 <= i < |nodes| && nodes[i] == a;
    var j :| 0 <= j < |nodes| && nodes[j] == b;
    assert NodeIds(nodes)[i] == NodeIds(nodes)[j];
  }

  lemma OnePosition(nodes: seq<Node>, i: nat, j: nat)
    requires Distinct(NodeIds(nodes)) && i < |nodes| && j < |nodes| && nodes[i] == nodes[j]
    ensures i == j
  {
    assert NodeIds(nodes)[i] == NodeIds(nodes)[j];
  }

  predicate Begins(nodes: seq<Node>, edges: seq<Edge>, n: Node) {
    |Starts(nodes, edges, 0)| == 1 && nodes[Starts(nodes, edges, 0)[0]] == n
  }

  lemma StartIsFirst(nodes: seq<Node>, edges: seq<Edge>, p: seq<Node>, links: seq<nat>, n: Node)
    requires IsPath(nodes, edges, p, links) && n in nodes && IsStart(edges, n)
    ensures n == p[0]
  {
    VisitsAll(nodes, edges, p, links, n);
    var i :| 0 <= i < |p| && p[i] == n;
    PathDegrees(nodes, edges, p, links, i);
  }

  /** The only start is the first node of the path. */
  lemma PathStart(nodes: seq<Node>, edges: seq<Edge>, p: seq<Node>, links: seq<nat>)
    requires Simple(nodes, edges) && IsPath(nodes, edges, p, links)
    ensures Begins(nodes, edges, p[0])
  {
    var starts := Starts(nodes, edges, 0);
    assert p[0] in p;
    var first :| 0 <= first < |nodes| && nodes[first] == p[0];
    PathDegrees(nodes, edges, p, links, 0);
    forall k: nat | k in starts ensures k == first {
      var a :| 0 <= a < |starts| && starts[a] == k;
      StartIsFirst(nodes, edges, p, links, nodes[k]);
      OnePosition(nodes, k, first);
    }
    assert IsStart(edges, nodes[first]);
    OnlyOne(starts, Some(first));
  }

  /** A walk from the start of a path cannot leave it. */
  lemma {:induction false} WalkFollows(nodes: seq<Node>, edges: seq<Edge>, p: seq<Node>,
                                       links: seq<nat>, q: seq<Node>, walked: seq<nat>, i: nat)
    requires Simple(nodes, edges) && IsPath(nodes, edges, p, links)
    requires IsWalk(nodes, edges, q, walked) && q[0] == p[0] && i < |q|
    ensures i < |p| && q[i] == p[i] && (i > 0 ==> walked[i - 1] == links[i - 1])
  {
    if i > 0 {
      WalkFollows(nodes, edges, p, links, q, walked, i - 1);
      assert LinkAt(edges, q, walked, i - 1);
      OnlyWayOut(nodes, edges, p, links, i - 1, walked[i - 1]);
      assert q[i] in q && p[i] in p;
      SameNode(nodes, q[i], p[i]);
    }
  }

  lemma OnlyWayOut(nodes: seq<Node>, edges: seq<Edge>, p: seq<Node>, links: seq<nat>, i: nat, j: nat)
    requires IsPath(nodes, edges, p, links) && i < |p| && j < |edges| && edges[j].source == p[i].id
    ensures i + 1 < |p| && j == links[i] && edges[j].target == p[i + 1].id
  {
    PathDegrees(nodes, edges, p, links, i);
    assert j in Outgoing(edges, p[i].id, 0);
    assert LinkAt(edges, p, links, i);
  }

  /** Where the walk stands, no path can go on: two ways out, a node entered twice, or the end too
      early. */
  predicate DeadEnd(nodes: seq<Node>, edges: seq<Edge>, q: seq<Node>)
    requires q != []
  {
    var out := Outgoing(edges, q[|q| - 1].id, 0);
    |out| > 1 || (out == [] && |q| != |nodes|) ||
    (|out| == 1 && |Incoming(edges, edges[out[0]].target, 0)| != 1)
  }

  lemma NoDeadEnd(nodes: seq<Node>, edges: seq<Edge>, q: seq<Node>, walked: seq<nat>,
                  p: seq<Node>, links: seq<nat>)
    requires Simple(nodes, edges) && IsWalk(nodes, edges, q, walked) && Begins(nodes, edges, q[0])
    requires IsPath(nodes, edges, p, links)
    ensures !DeadEnd(nodes, edges, q)
  {
    PathStart(nodes, edges, p, links);
    var i := |q| - 1;
    WalkFollows(nodes, edges, p, links, q, walked, i);
    PathDegrees(nodes, edges, p, links, i);
    if i < |links| {
      PathDegrees(nodes, edges, p, links, i + 1);
      assert LinkAt(edges, p, links, i);
    }
  }

  /** There is only one path. */
  lemma PathUnique(nodes: seq<Node>, edges: seq<Edge>, p: seq<Node>, links: seq<nat>,
                   q: seq<Node>, walked: seq<nat>)
    requires Simple(nodes, edges) && IsPath(nodes, edges, p, links) && IsPath(nodes, edges, q, walked)
    ensures p == q && links == walked
  {
    PathStart(nodes, edges, p, links);
    PathStart(nodes, edges, q, walked);
    forall i: nat | i < |q| ensures q[i] == p[i] {
      WalkFollows(nodes, edges, p, links, q, walked, i);
    }
    forall i: nat | i < |links| ensures walked[i] == links[i] {
      WalkFollows(nodes, edges, p, links, q, walked, i + 1);
    }
  }

  // ----- the walk -----

  function IdsOf(q: seq<Node>): set<string> { set n | n in q :: n.id }

  lemma {:induction false} IdsCount(q: seq<Node>)
    requires forall i, j :: 0 <= i < j < |q| ==> q[i].id != q[j].id
    ensures |IdsOf(q)| == |q|
  {
    if q != [] {
      var init, last := q[..|q| - 1], q[|q| - 1];
      IdsCount(init);
      assert IdsOf(q) == IdsOf(init) + {last.id};
      assert forall n :: n in init ==> exists i :: 0 <= i < |q| - 1 && q[i] == n;
    }
  }

  /** Where the walk is: at the last node of `q`, with all earlier ones visited and none of them
      entered or left by another edge. */
  ghost predicate Walking(nodes: seq<Node>, edges: seq<Edge>, q: seq<Node>, walked: seq<nat>) {
    IsWalk(nodes, edges, q, walked) && Begins(nodes, edges, q[0]) &&
    forall i | 0 <= i < |walked| :: EnteredBy(edges, q, walked, i)
  }

  predicate EnteredBy(edges: seq<Edge>, q: seq<Node>, walked: seq<nat>, i: int) {
    0 <= i < |walked| && i + 1 < |q| && Incoming(edges, q[i + 1].id, 0) == [walked[i]]
  }

  lemma NotYetVisited(nodes: seq<Node>, edges: seq<Edge>, q: seq<Node>, walked: seq<nat>, j: nat, i: nat)
    requires Walking(nodes, edges, q, walked) && i < |q|
    requires j < |edges| && edges[j].source == q[|q| - 1].id
    ensures q[i].id != edges[j].target
  {
    if i > 0 {
      assert LinkAt(edges, q, walked, i - 1) && EnteredBy(edges, q, walked, i - 1);
      assert walked[i - 1] != j;
    } else {
      assert IsStart(edges, q[0]);
    }
    assert j !in Incoming(edges, q[i].id, 0);
  }

  lemma WalkMore(nodes: seq<Node>, edges: seq<Edge>, q: seq<Node>, walked: seq<nat>, j: nat, next: Node)
    requires IsWalk(nodes, edges, q, walked) && j < |edges| && next in nodes
    requires edges[j].source == q[|q| - 1].id && next.id == edges[j].target
    requires forall i :: 0 <= i < |q| ==> q[i].id != next.id
    ensures IsWalk(nodes, edges, q + [next], walked + [j])
  {
    var r, links := q + [next], walked + [j];
    forall i | 0 <= i < |links| ensures LinkAt(edges, r, links, i) {
      if i < |walked| { assert LinkAt(edges, q, walked, i); }
    }
  }

  /** One step further along the only edge, when it is the only edge into its target: the walk has
      not been there before. */
  lemma StepOn(nodes: seq<Node>, edges: seq<Edge>, q: seq<Node>, walked: seq<nat>, j: nat, next: Node)
    requires Walking(nodes, edges, q, walked) && j < |edges| && next in nodes
    requires edges[j].source == q[|q| - 1].id && next.id == edges[j].target
    requires Incoming(edges, next.id, 0) == [j]
    ensures Walking(nodes, edges, q + [next], walked + [j])
  {
    var r, links := q + [next], walked + [j];
    forall i | 0 <= i < |q| ensures q[i].id != next.id {
      NotYetVisited(nodes, edges, q, walked, j, i);
    }
    WalkMore(nodes, edges, q, walked, j, next);
    forall i | 0 <= i < |links| ensures EnteredBy(edges, r, links, i) {
      if i < |walked| { assert EnteredBy(edges, q, walked, i); }
    }
    assert r[0] == q[0];
  }

  lemma OnlyEdge(edges: seq<Edge>, source: string, target: string, j: nat)
    requires Outgoing(edges, source, 0) == [j] && j < |edges| && edges[j].target == target
    requires |Incoming(edges, target, 0)| == 1
    ensures edges[j].source == source && Incoming(edges, target, 0) == [j]
  {
    var out, into := Outgoing(edges, source, 0), Incoming(edges, target, 0);
    assert out[0] == j && j in into;
  }

  ghost predicate NoPath(nodes: seq<Node>, edges: seq<Edge>) {
    forall p, links :: !IsPath(nodes, edges, p, links)
  }

  lemma NoStart(nodes: seq<Node>, edges: seq<Edge>)
    requires Simple(nodes, edges) && |Starts(nodes, edges, 0)| != 1
    ensures NoPath(nodes, edges)
  {
    forall p, links ensures !IsPath(nodes, edges, p, links) {
      if IsPath(nodes, edges, p, links) {
        PathStart(nodes, edges, p, links);
        assert false;
      }
    }
  }

  lemma NoPathFrom(nodes: seq<Node>, edges: seq<Edge>, q: seq<Node>, walked: seq<nat>)
    requires Simple(nodes, edges) && Walking(nodes, edges, q, walked) && DeadEnd(nodes, edges, q)
    ensures NoPath(nodes, edges)
  {
    forall p, links ensures !IsPath(nodes, edges, p, links) {
      if IsPath(nodes, edges, p, links) {
        NoDeadEnd(nodes, edges, q, walked, p, links);
        assert false;
      }
    }
  }

  /** The state of the loop for a diagram within its contract. */
  ghost predicate Underway(nodes: seq<Node>, edges: seq<Edge>, q: seq<Node>, walked: seq<nat>,
                           visited: set<string>, steps: seq<Step>) {
    Walking(nodes, edges, q, walked) && visited == IdsOf(q[..|q| - 1]) &&
    steps == StepsOf(edges, q, walked)[..|q| - 1]
  }

  lemma Unvisited(nodes: seq<Node>, edges: seq<Edge>, q: seq<Node>, walked: seq<nat>)
    requires IsWalk(nodes, edges, q, walked)
    ensures q[|q| - 1].id !in IdsOf(q[..|q| - 1])
    ensures IdsOf(q[..|q| - 1]) + {q[|q| - 1].id} == IdsOf(q)
    ensures |IdsOf(q)| == |q|
  {
    IdsCount(q);
    var init, last := q[..|q| - 1], q[|q| - 1];
    assert q == init + [last];
  }

  lemma StepsMore(edges: seq<Edge>, q: seq<Node>, walked: seq<nat>, j: nat, next: Node)
    requires |q| == |walked| + 1 && j < |edges|
    ensures StepsOf(edges, q + [next], walked + [j])[..|q|]
              == StepsOf(edges, q, walked)[..|q| - 1] + [Step(q[|q| - 1].caption, edges[j].caption)]
  {
  }

  lemma WalkOn(nodes: seq<Node>, edges: seq<Edge>, q: seq<Node>, walked: seq<nat>,
               visited: set<string>, steps: seq<Step>, j: nat, next: Node)
    requires Underway(nodes, edges, q, walked, visited, steps)
    requires Outgoing(edges, q[|q| - 1].id, 0) == [j] && j < |edges| && next in nodes
    requires next.id == edges[j].target && |Incoming(edges, next.id, 0)| == 1
    ensures Underway(nodes, edges, q + [next], walked + [j], visited + {q[|q| - 1].id},
                     steps + [Step(q[|q| - 1].caption, edges[j].caption)])
  {
    OnlyEdge(edges, q[|q| - 1].id, next.id, j);
    StepOn(nodes, edges, q, walked, j, next);
    Unvisited(nodes, edges, q, walked);
    StepsMore(edges, q, walked, j, next);
    assert (q + [next])[..|q|] == q;
  }

  lemma StepsLast(edges: seq<Edge>, q: seq<Node>, walked: seq<nat>)
    requires |q| == |walked| + 1
    ensures StepsOf(edges, q, walked) == StepsOf(edges, q, walked)[..|q| - 1] + [Step(q[|q| - 1].caption, "")]
  {
  }

  /** The end of the walk: a path if it has seen every node, and no path otherwise. */
  lemma WalkEnds(nodes: seq<Node>, edges: seq<Edge>, q: seq<Node>, walked: seq<nat>,
                 visited: set<string>, steps: seq<Step>)
    requires Simple(nodes, edges) && Underway(nodes, edges, q, walked, visited, steps)
    requires |edges| == |nodes| - 1 && Outgoing(edges, q[|q| - 1].id, 0) == []
    ensures var (seen, all) := (visited + {q[|q| - 1].id}, steps + [Step(q[|q| - 1].caption, "")]);
      if |seen| == |nodes| then IsPath(nodes, edges, q, walked) && all == StepsOf(edges, q, walked)
      else NoPath(nodes, edges)
  {
    Unvisited(nodes, edges, q, walked);
    if |q| == |nodes| {
      StepsLast(edges, q, walked);
    } else {
      NoPathFrom(nodes, edges, q, walked);
    }
  }

  /** The answer is the steps of the path when the edges are the links of one, and nothing otherwise. */
  ghost predicate Answers(nodes: seq<Node>, edges: seq<Edge>, r: Option<seq<Step>>) {
    if r.None? then NoPath(nodes, edges)
    else exists p, links :: IsPath(nodes, edges, p, links) && r.value == StepsOf(edges, p, links)
  }

  // ----- the loop -----

  function Finish(nodes: seq<Node>, visited: set<string>, steps: seq<Step>): Option<seq<Step>> {
    if |visited| == |nodes| then Some(steps) else None
  }

  function CaptionOf(edges: seq<Edge>, outgoing: seq<nat>): string {
    if outgoing != [] && outgoing[0] < |edges| then edges[outgoing[0]].caption else ""
  }

  /** What the loop still does, from any state of it. */
  function WalkFrom(nodes: seq<Node>, edges: seq<Edge>, current: Option<Node>, visited: set<string>,
                    steps: seq<Step>): Option<seq<Step>>
    requires current.Some? ==> current.value in nodes
    decreases |IdsOf(nodes) - visited|
  {
    if current.None? || current.value.id in visited then Finish(nodes, visited, steps)
    else
      var seen := visited + {current.value.id};
      var outgoing := Outgoing(edges, current.value.id, 0);
      var more := steps + [Step(current.value.caption, CaptionOf(edges, outgoing))];
      if |outgoing| > 1 then None
      else if outgoing == [] then Finish(nodes, seen, more)
      else if |Incoming(edges, edges[outgoing[0]].target, 0)| != 1 then None
      else
        Shrinks(IdsOf(nodes), visited, current.value.id);
        WalkFrom(nodes, edges, Find(nodes, edges[outgoing[0]].target), seen, more)
  }

  lemma Shrinks(all: set<string>, visited: set<string>, id: string)
    requires id in all && id !in visited
    ensures |all - (visited + {id})| < |all - visited|
  {
    assert all - (visited + {id}) == (all - visited) - {id};
  }

  /** `linearSequence` as the loop specifies it. */
  function Recognised(nodes: seq<Node>, edges: seq<Edge>): Option<seq<Step>> {
    var starts := Starts(nodes, edges, 0);
    if |edges| != |nodes| - 1 || |starts| != 1 then None
    else WalkFrom(nodes, edges, Some(nodes[starts[0]]), {}, [])
  }

  /** `linearSequence`. */
  method LinearSequence(nodes: seq<Node>, edges: seq<Edge>) returns (r: Option<seq<Step>>)
    ensures r == Recognised(nodes, edges)
  {
    if |edges| != |nodes| - 1 { return None; }
    var starts := Starts(nodes, edges, 0);
    if |starts| != 1 { return None; }
    var steps: seq<Step> := [];
    var visited: set<string> := {};
    var current := Some(nodes[starts[0]]);
    while current.Some? && current.value.id !in visited
      invariant current.Some? ==> current.value in nodes
      invariant Recognised(nodes, edges) == WalkFrom(nodes, edges, current, visited, steps)
      decreases |IdsOf(nodes) - visited|
    {
      Shrinks(IdsOf(nodes), visited, current.value.id);
      visited := visited + {current.value.id};
      var outgoing := Outgoing(edges, current.value.id, 0);
      if |outgoing| > 1 { return None; }
      steps := steps + [Step(current.value.caption, CaptionOf(edges, outgoing))];
      if outgoing == [] { break; }
      var next := edges[outgoing[0]];
      if |Incoming(edges, next.target, 0)| != 1 { return None; }
      current := Find(nodes, next.target);
    }
    if |visited| == |nodes| { return Some(steps); }
    return None;
  }

  lemma FindTarget(nodes: seq<Node>, edges: seq<Edge>, j: nat)
    requires Simple(nodes, edges) && j < |edges|
    ensures Find(nodes, edges[j].target).Some?
  {
    assert edges[j] in edges;
    FindNode(nodes, edges[j].target);
  }

  lemma WalkUnfolds(nodes: seq<Node>, edges: seq<Edge>, last: Node, visited: set<string>,
                    steps: seq<Step>, outgoing: seq<nat>, next: Option<Node>)
    requires last in nodes && last.id !in visited && outgoing == Outgoing(edges, last.id, 0)
    requires |outgoing| == 1 && |Incoming(edges, edges[outgoing[0]].target, 0)| == 1
    requires next == Find(nodes, edges[outgoing[0]].target)
    ensures WalkFrom(nodes, edges, Some(last), visited, steps) ==
      WalkFrom(nodes, edges, next, visited + {last.id},
               steps + [Step(last.caption, CaptionOf(edges, outgoing))])
  {
  }

  /** One turn of the loop that goes on. */
  lemma WalkMoves(nodes: seq<Node>, edges: seq<Edge>, last: Node, visited: set<string>,
                  steps: seq<Step>, j: nat) returns (next: Node)
    requires Simple(nodes, edges) && last in nodes && last.id !in visited && j < |edges|
    requires Outgoing(edges, last.id, 0) == [j] && |Incoming(edges, edges[j].target, 0)| == 1
    ensures next in nodes && next.id == edges[j].target
    ensures |IdsOf(nodes) - (visited + {last.id})| < |IdsOf(nodes) - visited|
    ensures WalkFrom(nodes, edges, Some(last), visited, steps) ==
      WalkFrom(nodes, edges, Some(next), visited + {last.id},
               steps + [Step(last.caption, edges[j].caption)])
  {
    Shrinks(IdsOf(nodes), visited, last.id);
    FindTarget(nodes, edges, j);
    next := Find(nodes, edges[j].target).value;
    WalkUnfolds(nodes, edges, last, visited, steps, [j], Some(next));
  }

  lemma {:induction false} WalkAnswers(nodes: seq<Node>, edges: seq<Edge>, q: seq<Node>,
                                       walked: seq<nat>, visited: set<string>, steps: seq<Step>)
    requires Simple(nodes, edges) && Underway(nodes, edges, q, walked, visited, steps)
    requires |edges| == |nodes| - 1 && q[|q| - 1] in nodes
    ensures Answers(nodes, edges, WalkFrom(nodes, edges, Some(q[|q| - 1]), visited, steps))
    decreases |IdsOf(nodes) - visited|
  {
    Unvisited(nodes, edges, q, walked);
    var last := q[|q| - 1];
    var outgoing := Outgoing(edges, last.id, 0);
    if |outgoing| > 1 {
      NoPathFrom(nodes, edges, q, walked);
    } else if outgoing == [] {
      WalkEnds(nodes, edges, q, walked, visited, steps);
    } else {
      var j := outgoing[0];
      assert outgoing == [j];
      if |Incoming(edges, edges[j].target, 0)| != 1 {
        NoPathFrom(nodes, edges, q, walked);
      } else {
        var next := WalkMoves(nodes, edges, last, visited, steps, j);
        WalkOn(nodes, edges, q, walked, visited, steps, j, next);
        WalkAnswers(nodes, edges, q + [next], walked + [j], visited + {last.id},
                    steps + [Step(last.caption, edges[j].caption)]);
      }
    }
  }

  /** For a diagram within its contract the answer is the steps of the path when the edges are the
      links of one, and nothing when they are not. */
  lemma RecognisedAnswers(nodes: seq<Node>, edges: seq<Edge>)
    requires Simple(nodes, edges)
    ensures Answers(nodes, edges, Recognised(nodes, edges))
  {
    var starts := Starts(nodes, edges, 0);
    if |edges| == |nodes| - 1 {
      if |starts| != 1 {
        NoStart(nodes, edges);
      } else {
        var q: seq<Node> := [nodes[starts[0]]];
        assert StepsOf(edges, q, [])[..0] == [] && IdsOf(q[..0]) == {};
        WalkAnswers(nodes, edges, q, [], {}, []);
      }
    }
  }

  lemma FindNode(nodes: seq<Node>, id: string)
    requires id in NodeIds(nodes)
    ensures Find(nodes, id).Some?
  {
    var i :| 0 <= i < |nodes| && NodeIds(nodes)[i] == id;
    assert nodes[i] in nodes;
  }

  /** Sound and complete: when there is a path, the answer is its steps. */
  lemma RecognisedIsThePath(nodes: seq<Node>, edges: seq<Edge>, p: seq<Node>, links: seq<nat>)
    requires Simple(nodes, edges) && IsPath(nodes, edges, p, links)
    ensures Recognised(nodes, edges) == Some(StepsOf(edges, p, links))
  {
    RecognisedAnswers(nodes, edges);
    var r := Recognised(nodes, edges);
    if r.Some? {
      var q, walked :| IsPath(nodes, edges, q, walked) && r.value == StepsOf(edges, q, walked);
      PathUnique(nodes, edges, p, links, q, walked);
    }
  }
}
