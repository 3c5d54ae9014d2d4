/** The tutor intervention contract: one structured model output, the checks it must pass and the
    fields the application derives from it. */
module TutorContract {
  import opened Text

  type Id = nat

  datatype Situation = Ambiguous | Entry | UnsupportedClaim | Partial | ContrastableError
                     | MissingConcept | Blocked | WellGrounded | InsufficientEvidence

  datatype Node = Node(id: string, caption: string)
  datatype Edge = Edge(source: string, target: string, caption: string)
  datatype Choice = Choice(id: string, text: string)

  datatype Block =
    | Question(text: string)
    | Hint(level: int, text: string)
    | Explanation(title: string, text: string)
    | Diagram(sequence: bool, title: string, nodes: seq<Node>, edges: seq<Edge>)
    | Activity(question: string, options: seq<Choice>, correct: string, hint: string, explanation: string)
    | Sources(indexes: seq<int>)

  datatype Citation = Citation(chunk: Id, quote: string)

  datatype Version = V1 | V2

  datatype Intervention = Intervention(
    version: Version, situation: Situation, blocks: seq<Block>, citations: seq<Citation>,
    grounded: bool)

  datatype Mode = HintMode | GuidedQuestion | ExplanationMode | Abstain | Clarify

  // ----- the shape of each field -----

  predicate Sized(s: string, low: nat, high: nat) { low <= |s| <= high }

  predicate Identifier(s: string) {
    1 <= |s| <= 24 && 'a' <= s[0] <= 'z' &&
    forall i | 0 <= i < |s| :: 'a' <= s[i] <= 'z' || '0' <= s[i] <= '9' || s[i] == '_'
  }

  predicate Distinct<T(==)>(s: seq<T>) { forall i, j | 0 <= i < j < |s| :: s[i] != s[j] }

  function NodeIds(nodes: seq<Node>): seq<string> {
    seq(|nodes|, i requires 0 <= i < |nodes| => nodes[i].id)
  }

  function ChoiceIds(options: seq<Choice>): seq<string> {
    seq(|options|, i requires 0 <= i < |options| => options[i].id)
  }

  function ChoiceTexts(options: seq<Choice>): seq<string> {
    seq(|options|, i requires 0 <= i < |options| => options[i].text)
  }

  function Chunks(cs: seq<Citation>): seq<Id> {
    seq(|cs|, i requires 0 <= i < |cs| => cs[i].chunk)
  }

  predicate BlockOk(b: Block) {
    match b
    case Question(text) => Sized(text, 1, 600)
    case Hint(level, text) => 1 <= level <= 3 && Sized(text, 1, 600)
    case Explanation(title, text) => Sized(title, 1, 120) && Sized(text, 1, 1500)
    case Diagram(_, title, nodes, edges) =>
      Sized(title, 1, 120) && 2 <= |nodes| <= 12 && 1 <= |edges| <= 20 &&
      (forall n | n in nodes :: Identifier(n.id) && Sized(n.caption, 1, 80)) &&
      (forall e | e in edges :: |e.caption| <= 80) &&
      Distinct(NodeIds(nodes)) &&
      (forall e | e in edges :: e.source in NodeIds(nodes) && e.target in NodeIds(nodes))
    case Activity(question, options, correct, hint, explanation) =>
      Sized(question, 1, 600) && 2 <= |options| <= 4 &&
      (forall o | o in options :: Identifier(o.id) && Sized(o.text, 1, 600)) &&
      Sized(hint, 1, 600) && Sized(explanation, 1, 1500) &&
      Distinct(ChoiceIds(options)) && Distinct(ChoiceTexts(options)) && correct in ChoiceIds(options)
    case Sources(indexes) => 1 <= |indexes| <= 5
  }

  predicate CitationOk(c: Citation) { Sized(c.quote, 10, 1600) }

  predicate IsPrimary(b: Block) { b.Question? || b.Activity? }

  /** One primary question per turn; sources only point at citations that exist; an abstention and
      a clarification carry no evidence; everything else is grounded and cited. Negative indexes
      pass, as they do in the code. */
  predicate Coherent(i: Intervention) {
    && (i.version.V1? ==> forall b | b in i.blocks :: !b.Activity?)
    && (forall x, y | 0 <= x < y < |i.blocks| :: !(IsPrimary(i.blocks[x]) && IsPrimary(i.blocks[y])))
    && (forall b | b in i.blocks && b.Sources? :: forall n | n in b.indexes :: n < |i.citations|)
    && (match i.situation
        case InsufficientEvidence =>
          !i.grounded && i.citations == [] && forall b | b in i.blocks :: b.Question? || b.Explanation?
        case Ambiguous =>
          !i.grounded && i.citations == [] && |i.blocks| == 1 && i.blocks[0].Question?
        case _ => i.grounded && i.citations != [])
  }

  predicate InterventionOk(i: Intervention) {
    1 <= |i.blocks| <= 5 && |i.citations| <= 5 &&
    (forall b | b in i.blocks :: BlockOk(b)) &&
    (forall c | c in i.citations :: CitationOk(c)) &&
    Coherent(i)
  }

  // ----- derived fields -----

  function LabelOf(nodes: seq<Node>, id: string): string {
    if nodes == [] then ""
    else if nodes[|nodes| - 1].id == id then nodes[|nodes| - 1].caption
    else LabelOf(nodes[..|nodes| - 1], id)
  }

  function EdgeText(nodes: seq<Node>, e: Edge): string {
    LabelOf(nodes, e.source) + " → " + LabelOf(nodes, e.target) +
    if e.caption != "" then " (" + e.caption + ")" else ""
  }

  function BlockText(b: Block): string {
    match b
    case Question(text) => text
    case Hint(level, text) => "Pista " + Decimal(level) + ": " + text
    case Explanation(title, text) => title + ". " + text
    case Diagram(sequence, title, nodes, edges) =>
      (if sequence then "Secuencia" else "Relaciones") + ": " + title + ". " +
      Join(seq(|edges|, i requires 0 <= i < |edges| => EdgeText(nodes, edges[i])), "; ") + "."
    case Activity(question, options, _, _, _) =>
      "Ahora te toca razonar: " + question + "\n" +
      Join(seq(|options|, i requires 0 <= i < |options| => OptionText(i, options[i])), "\n")
    case Sources(indexes) =>
      "Fuentes: " +
      Join(seq(|indexes|, i requires 0 <= i < |indexes| => "[" + Decimal(indexes[i] + 1) + "]"), " ") + "."
  }

  /** Options are lettered from A; there are at most four. */
  function OptionText(i: nat, o: Choice): string {
    (match i case 0 => "A" case 1 => "B" case 2 => "C" case _ => "D") + ". " + o.text
  }

  function EquivalentText(i: Intervention): string {
    Join(seq(|i.blocks|, n requires 0 <= n < |i.blocks| => BlockText(i.blocks[n])), "\n\n")
  }

  function ModeOfBlocks(blocks: seq<Block>): Mode {
    if blocks == [] then ExplanationMode
    else if blocks[0].Hint? then HintMode
    else if IsPrimary(blocks[0]) then GuidedQuestion
    else ModeOfBlocks(blocks[1..])
  }

  function ModeFor(i: Intervention): Mode {
    if i.situation.InsufficientEvidence? then Abstain
    else if i.situation.Ambiguous? then Clarify
    else ModeOfBlocks(i.blocks)
  }

  /** The highest hint level delivered, 0 when there is none. */
  function HelpLevel(blocks: seq<Block>): int {
    if blocks == [] then 0
    else
      var rest := HelpLevel(blocks[1..]);
      if blocks[0].Hint? && blocks[0].level > rest then blocks[0].level else rest
  }

  // ----- what they mean -----

  /** `equivalent_text` as the code builds it, part by part. */
  method Render(i: Intervention) returns (text: string)
    ensures text == EquivalentText(i)
  {
    var parts: seq<string> := [];
    for k := 0 to |i.blocks|
      invariant |parts| == k && forall n | 0 <= n < k :: parts[n] == BlockText(i.blocks[n])
    {
      parts := parts + [BlockText(i.blocks[k])];
    }
    assert parts == seq(|i.blocks|, n requires 0 <= n < |i.blocks| => BlockText(i.blocks[n]));
    return Join(parts, "\n\n");
  }

  /** The help level is the highest level of a delivered hint, 0 exactly when there is none. */
  lemma {:induction false} HelpLevelIsMax(blocks: seq<Block>)
    requires forall b :: b in blocks ==> BlockOk(b)
    ensures 0 <= HelpLevel(blocks) <= 3
    ensures HelpLevel(blocks) == 0 <==> forall b :: b in blocks ==> !b.Hint?
    ensures HelpLevel(blocks) > 0 ==> exists b :: b in blocks && b.Hint? && b.level == HelpLevel(blocks)
    ensures forall b :: b in blocks && b.Hint? ==> b.level <= HelpLevel(blocks)
  {
    if blocks != [] {
      HelpLevelIsMax(blocks[1..]);
      assert blocks == [blocks[0]] + blocks[1..];
      assert BlockOk(blocks[0]);
    }
  }

  /** The block that decides the mode of a factual turn: the first hint or primary question. */
  predicate Decides(blocks: seq<Block>, k: int) {
    0 <= k < |blocks| && (blocks[k].Hint? || IsPrimary(blocks[k])) &&
    forall j | 0 <= j < k :: !blocks[j].Hint? && !IsPrimary(blocks[j])
  }

  lemma {:induction false} ModeIsFirst(blocks: seq<Block>)
    ensures ModeOfBlocks(blocks).HintMode? <==> exists k :: Decides(blocks, k) && blocks[k].Hint?
    ensures ModeOfBlocks(blocks).GuidedQuestion? <==>
      exists k :: Decides(blocks, k) && IsPrimary(blocks[k])
    ensures ModeOfBlocks(blocks).ExplanationMode? <==>
      forall b :: b in blocks ==> !b.Hint? && !IsPrimary(b)
    ensures !ModeOfBlocks(blocks).Abstain? && !ModeOfBlocks(blocks).Clarify?
  {
    if blocks != [] {
      var rest := blocks[1..];
      ModeIsFirst(rest);
      assert blocks == [blocks[0]] + rest;
      if blocks[0].Hint? || IsPrimary(blocks[0]) {
        assert Decides(blocks, 0);
        assert forall k :: Decides(blocks, k) ==> k == 0;
      } else {
        assert forall k :: Decides(blocks, k + 1) <==> Decides(rest, k);
        assert forall k :: Decides(blocks, k) ==> k > 0 && Decides(rest, k - 1);
      }
    }
  }

  /** The mode, in all five cases: the two situations without evidence decide it, and otherwise the
      first block that is a hint or a primary question, if there is one. */
  lemma ModeMeans(i: Intervention)
    ensures ModeFor(i).Abstain? <==> i.situation.InsufficientEvidence?
    ensures ModeFor(i).Clarify? <==> i.situation.Ambiguous?
    ensures ModeFor(i).HintMode? <==>
      !i.situation.InsufficientEvidence? && !i.situation.Ambiguous? &&
      exists k :: Decides(i.blocks, k) && i.blocks[k].Hint?
    ensures ModeFor(i).GuidedQuestion? <==>
      !i.situation.InsufficientEvidence? && !i.situation.Ambiguous? &&
      exists k :: Decides(i.blocks, k) && IsPrimary(i.blocks[k])
    ensures ModeFor(i).ExplanationMode? <==>
      !i.situation.InsufficientEvidence? && !i.situation.Ambiguous? &&
      forall b :: b in i.blocks ==> !b.Hint? && !IsPrimary(b)
  {
    ModeIsFirst(i.blocks);
  }

  // ----- the equivalent text says what the blocks show, in their order -----

  /** The parts occur in the text one after another, without overlapping. */
  predicate InOrder(text: string, parts: seq<string>)
    decreases |parts|
  {
    parts == [] ||
    exists i | 0 <= i <= |text| ::
      OccursAt(text, parts[0], i) && InOrder(text[i + |parts[0]|..], parts[1..])
  }

  lemma {:induction false} InOrderConcat(s: string, p: seq<string>, t: string, q: seq<string>)
    requires InOrder(s, p) && InOrder(t, q)
    ensures InOrder(s + t, p + q)
    decreases |p|, |q|
  {
    if p != [] {
      var i :| 0 <= i <= |s| && OccursAt(s, p[0], i) && InOrder(s[i + |p[0]|..], p[1..]);
      var n := i + |p[0]|;
      InOrderConcat(s[n..], p[1..], t, q);
      assert (s + t)[n..] == s[n..] + t && (p + q)[1..] == p[1..] + q;
      assert (s + t)[i..n] == s[i..n];
      assert OccursAt(s + t, (p + q)[0], i);
    } else {
      assert p + q == q;
      if q != [] {
        var i :| 0 <= i <= |t| && OccursAt(t, q[0], i) && InOrder(t[i + |q[0]|..], q[1..]);
        var n := i + |q[0]|;
        assert (s + t)[|s| + n..] == t[n..] && (s + t)[|s| + i..|s| + n] == t[i..n];
        assert OccursAt(s + t, q[0], |s| + i);
      }
    }
  }

  lemma InOrderOne(part: string)
    ensures InOrder(part, [part])
  {
    var parts := [part];
    assert part[0..0 + |part|] == part && parts[1..] == [];
    assert OccursAt(part, parts[0], 0);
    assert InOrder(part[0 + |parts[0]|..], parts[1..]);
  }

  /** One more part after some glue. */
  lemma InOrderMore(s: string, p: seq<string>, glue: string, part: string)
    requires InOrder(s, p)
    ensures InOrder(s + glue + part, p + [part])
  {
    InOrderConcat(s, p, glue, []);
    assert p + [] == p;
    InOrderOne(part);
    InOrderConcat(s + glue, p, part, [part]);
  }

  /** Text after the last part. */
  lemma InOrderPadded(s: string, p: seq<string>, glue: string)
    requires InOrder(s, p)
    ensures InOrder(s + glue, p)
  {
    InOrderConcat(s, p, glue, []);
    assert p + [] == p;
  }

  function Flat(groups: seq<seq<string>>): seq<string> {
    if groups == [] then [] else groups[0] + Flat(groups[1..])
  }

  lemma {:induction false} InOrderJoin(texts: seq<string>, groups: seq<seq<string>>, separator: string)
    requires |texts| == |groups| && forall k :: 0 <= k < |texts| ==> InOrder(texts[k], groups[k])
    ensures InOrder(Join(texts, separator), Flat(groups))
  {
    if |texts| == 1 {
      assert groups[0] + Flat(groups[1..]) == groups[0];
    } else if |texts| > 1 {
      InOrderJoin(texts[1..], groups[1..], separator);
      var rest := Join(texts[1..], separator);
      InOrderConcat(separator, [], rest, Flat(groups[1..]));
      assert [] + Flat(groups[1..]) == Flat(groups[1..]);
      InOrderConcat(texts[0], groups[0], separator + rest, Flat(groups[1..]));
      assert texts[0] + (separator + rest) == texts[0] + separator + rest;
    }
  }

  function EdgeParts(nodes: seq<Node>, e: Edge): seq<string> {
    [LabelOf(nodes, e.source), LabelOf(nodes, e.target), e.caption]
  }

  /** What a block shows, in reading order. */
  function BlockParts(b: Block): seq<string> {
    match b
    case Question(text) => [text]
    case Hint(level, text) => [Decimal(level), text]
    case Explanation(title, text) => [title, text]
    case Diagram(_, title, nodes, edges) =>
      [title] + Flat(seq(|edges|, i requires 0 <= i < |edges| => EdgeParts(nodes, edges[i])))
    case Activity(question, options, _, _, _) =>
      [question] + Flat(seq(|options|, i requires 0 <= i < |options| => [options[i].text]))
    case Sources(indexes) =>
      Flat(seq(|indexes|, i requires 0 <= i < |indexes| => [Decimal(indexes[i] + 1)]))
  }

  lemma EdgeInOrder(nodes: seq<Node>, e: Edge)
    ensures InOrder(EdgeText(nodes, e), EdgeParts(nodes, e))
  {
    var source, target := LabelOf(nodes, e.source), LabelOf(nodes, e.target);
    InOrderOne(source);
    InOrderMore(source, [source], " → ", target);
    CaptionInOrder(source + " → " + target, [source] + [target], e.caption);
    assert [source] + [target] + [e.caption] == EdgeParts(nodes, e);
  }

  lemma CaptionInOrder(s: string, p: seq<string>, caption: string)
    requires InOrder(s, p)
    ensures InOrder(s + if caption != "" then " (" + caption + ")" else "", p + [caption])
  {
    if caption != "" {
      InOrderMore(" (", [], "", caption);
      Regroup(" (", caption);
      InOrderPadded(" (" + caption, [caption], ")");
      InOrderConcat(s, p, " (" + caption + ")", [caption]);
    } else {
      InOrderOne("");
      InOrderConcat(s, p, "", [""]);
    }
  }

  lemma Regroup(s: string, part: string)
    ensures s + "" == s && [] + [part] == [part]
  {
  }

  lemma OptionInOrder(k: nat, o: Choice)
    ensures InOrder(OptionText(k, o), [o.text])
  {
    var letter := OptionText(k, o)[..1];
    InOrderMore(letter, [], ". ", o.text);
    assert [] + [o.text] == [o.text];
    assert letter + ". " + o.text == OptionText(k, o);
  }

  lemma DiagramInOrder(b: Block)
    requires b.Diagram?
    ensures InOrder(BlockText(b), BlockParts(b))
  {
    var texts := seq(|b.edges|, i requires 0 <= i < |b.edges| => EdgeText(b.nodes, b.edges[i]));
    var groups := seq(|b.edges|, i requires 0 <= i < |b.edges| => EdgeParts(b.nodes, b.edges[i]));
    forall k | 0 <= k < |texts| ensures InOrder(texts[k], groups[k]) {
      EdgeInOrder(b.nodes, b.edges[k]);
    }
    InOrderJoin(texts, groups, "; ");
    var kind := if b.sequence then "Secuencia" else "Relaciones";
    Heading(kind, ": ", b.title, ". ", Join(texts, "; "), Flat(groups));
    InOrderPadded(kind + ": " + b.title + ". " + Join(texts, "; "), [b.title] + Flat(groups), ".");
  }

  /** A heading, a part, and a body. */
  lemma Heading(heading: string, glue: string, part: string, glue': string, body: string, parts: seq<string>)
    requires InOrder(body, parts)
    ensures InOrder(heading + glue + part + glue' + body, [part] + parts)
  {
    InOrderMore(heading, [], glue, part);
    assert [] + [part] == [part];
    InOrderPadded(heading + glue + part, [part], glue');
    InOrderConcat(heading + glue + part + glue', [part], body, parts);
  }

  lemma ActivityInOrder(b: Block)
    requires b.Activity?
    ensures InOrder(BlockText(b), BlockParts(b))
  {
    var texts := seq(|b.options|, i requires 0 <= i < |b.options| => OptionText(i, b.options[i]));
    var groups := seq(|b.options|, i requires 0 <= i < |b.options| => [b.options[i].text]);
    forall k | 0 <= k < |texts| ensures InOrder(texts[k], groups[k]) {
      OptionInOrder(k, b.options[k]);
    }
    InOrderJoin(texts, groups, "\n");
    Heading("Ahora te toca razonar: ", "", b.question, "\n", Join(texts, "\n"), Flat(groups));
    assert "Ahora te toca razonar: " + "" == "Ahora te toca razonar: ";
  }

  lemma SourcesInOrder(b: Block)
    requires b.Sources?
    ensures InOrder(BlockText(b), BlockParts(b))
  {
    var texts := seq(|b.indexes|, i requires 0 <= i < |b.indexes| => "[" + Decimal(b.indexes[i] + 1) + "]");
    var groups := seq(|b.indexes|, i requires 0 <= i < |b.indexes| => [Decimal(b.indexes[i] + 1)]);
    forall k | 0 <= k < |texts| ensures InOrder(texts[k], groups[k]) {
      var number := Decimal(b.indexes[k] + 1);
      InOrderMore("[", [], "", number);
      assert [] + [number] == groups[k] && "[" + "" == "[";
      InOrderPadded("[" + number, groups[k], "]");
    }
    InOrderJoin(texts, groups, " ");
    InOrderConcat("Fuentes: ", [], Join(texts, " "), Flat(groups));
    assert [] + Flat(groups) == Flat(groups);
    InOrderPadded("Fuentes: " + Join(texts, " "), Flat(groups), ".");
  }

  lemma BlockInOrder(b: Block)
    ensures InOrder(BlockText(b), BlockParts(b))
  {
    match b
    case Question(text) => InOrderOne(text);
    case Hint(level, text) =>
      InOrderMore("Pista ", [], "", Decimal(level));
      assert [] + [Decimal(level)] == [Decimal(level)] && "Pista " + "" == "Pista ";
      InOrderMore("Pista " + Decimal(level), [Decimal(level)], ": ", text);
      assert [Decimal(level)] + [text] == BlockParts(b);
    case Explanation(title, text) =>
      InOrderOne(title);
      InOrderMore(title, [title], ". ", text);
      assert [title] + [text] == BlockParts(b);
    case Diagram(_, _, _, _) => DiagramInOrder(b);
    case Activity(_, _, _, _, _) => ActivityInOrder(b);
    case Sources(_) => SourcesInOrder(b);
  }

  /** Nothing shown is lost and nothing changes places: the text holds every part of every block, in
      reading order and without overlaps. */
  lemma RenderLosesNothing(i: Intervention)
    ensures InOrder(EquivalentText(i),
                    Flat(seq(|i.blocks|, n requires 0 <= n < |i.blocks| => BlockParts(i.blocks[n]))))
  {
    var texts := seq(|i.blocks|, n requires 0 <= n < |i.blocks| => BlockText(i.blocks[n]));
    var groups := seq(|i.blocks|, n requires 0 <= n < |i.blocks| => BlockParts(i.blocks[n]));
    forall k | 0 <= k < |texts| ensures InOrder(texts[k], groups[k]) {
      BlockInOrder(i.blocks[k]);
    }
    InOrderJoin(texts, groups, "\n\n");
  }

  /** In a diagram the endpoint of an edge is shown as the caption of the one node it names. */
  lemma {:induction false} LabelIsCaption(nodes: seq<Node>, k: nat)
    requires k < |nodes| && Distinct(NodeIds(nodes))
    ensures LabelOf(nodes, nodes[k].id) == nodes[k].caption
  {
    var n := |nodes| - 1;
    assert NodeIds(nodes)[n] == nodes[n].id && NodeIds(nodes)[k] == nodes[k].id;
    if k < n {
      assert NodeIds(nodes[..n]) == NodeIds(nodes)[..n];
      LabelIsCaption(nodes[..n], k);
    }
  }

  /** The text does not give the answer of an activity away: it is the same whatever option is correct
      and whatever the hint and the explanation say. */
  lemma AnswerWithheld(i: Intervention, k: nat, correct: string, hint: string, explanation: string)
    requires k < |i.blocks| && i.blocks[k].Activity?
    ensures
      var told := i.blocks[k].(correct := correct, hint := hint, explanation := explanation);
      EquivalentText(i.(blocks := i.blocks[k := told])) == EquivalentText(i)
  {
    var told := i.blocks[k].(correct := correct, hint := hint, explanation := explanation);
    var other := i.(blocks := i.blocks[k := told]);
    assert BlockText(told) == BlockText(i.blocks[k]);
    var texts := seq(|i.blocks|, n requires 0 <= n < |i.blocks| => BlockText(i.blocks[n]));
    var others := seq(|other.blocks|, n requires 0 <= n < |other.blocks| => BlockText(other.blocks[n]));
    assert texts == others;
  }
}
