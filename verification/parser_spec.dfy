/** The parser's state transformers, as functions on values.
 *
 *  `State` is the parser state with the node arena replaced by what determines it: a parent
 *  vector and a label per node.  The class `ParserState` (parser.dfy) keeps the linked arena and
 *  is proved to follow these functions step by step.
 */
module ParserSpec {
  import opened Markup

  /** An attribute and the node it was attached to. */
  datatype Owned = Owned(owner: nat, attr: Attribute)

  datatype State = State(
    par: seq<int>, labels: seq<Label>, attrs: seq<Owned>,
    crumbs: seq<nat>, widths: seq<int>, skip: seq<nat>, isOpen: seq<bool>, stack: seq<Byte>,
    maxDepth: nat, last: nat, tagNodes: nat, textNodes: nat, textLen: int,
    warnedNodes: bool, warnedAttributes: bool, warnedDepth: bool, warns: seq<Warning>)

  const ROOT := Label(RootNode, 0, Span(0, 0), Range(0, 0))

  function Start(): (s: State)
    ensures Shape(s)
  {
    State([-1], [ROOT], [], [0], [0], seq(256, i => 0), seq(256, i => false), [],
          1, 0, 0, 0, 0, false, false, false, [])
  }

  /** The stacks are in step, and every index points into the arena. */
  ghost predicate Shape(s: State) {
    && 0 < |s.labels| == |s.par|
    && |s.skip| == 256 && |s.isOpen| == 256
    && |s.crumbs| == |s.widths| == |s.stack| + 1
    && (forall k :: 0 <= k < |s.crumbs| ==> s.crumbs[k] < |s.par|)
    && s.last < |s.par|
    && (forall i :: 0 <= i < |s.attrs| ==> s.attrs[i].owner < |s.par|)
  }

  function Top(s: State): nat
    requires |s.crumbs| > 0
  {
    s.crumbs[|s.crumbs| - 1]
  }

  function PeekStack(s: State): Byte {
    if s.stack == [] then 0 else s.stack[|s.stack| - 1]
  }

  function AddWidth(s: State, w: int): State
    requires |s.widths| > 0
  {
    var k := |s.widths| - 1;
    s.(widths := s.widths[k := s.widths[k] + w])
  }

  function Log(s: State, w: Warning): State {
    s.(warns := s.warns + [w])
  }

  predicate NodesFull(lim: Limits, s: State) {
    lim.maxNodes > 0 && |s.par| >= lim.maxNodes
  }

  function WarnNodes(s: State, pos: int): State {
    if s.warnedNodes then s else Log(s.(warnedNodes := true), Warn(MaxNodesExceeded, pos))
  }

  function WarnAttributes(s: State, pos: int): State {
    if s.warnedAttributes then s else Log(s.(warnedAttributes := true), Warn(MaxAttributesExceeded, pos))
  }

  function WarnDepth(s: State, pos: int): State {
    if s.warnedDepth then s else Log(s.(warnedDepth := true), Warn(MaxParseDepthExceeded, pos))
  }

  function AppendNode(s: State, parent: nat, l: Label): State {
    s.(par := s.par + [parent], labels := s.labels + [l])
  }

  function TextLabel(span: Span): Label {
    Label(TextNode, 0, span, Range(0, 0))
  }

  function TagLabel(tok: Token): Label {
    Label(TagNode, tok.trigger, Span(tok.pos, tok.pos + tok.width), Range(0, 0))
  }

  function ProcessText(lim: Limits, s: State, tok: Token): (r: State)
    requires Shape(s)
    ensures Shape(r)
  {
    var s1 :=
      if NodesFull(lim, s) then WarnNodes(s, tok.pos)
      else AppendNode(s, Top(s), TextLabel(tok.payload)).(last := |s.par|);
    AddWidth(s1, tok.width)
  }

  function ProcessAttribute(lim: Limits, s: State, tok: Token): (r: State)
    requires Shape(s)
    ensures Shape(r)
  {
    if lim.maxAttributes > 0 && |s.attrs| >= lim.maxAttributes then WarnAttributes(s, tok.pos)
    else
      var l := s.labels[s.last];
      var r := Range(if l.attrs.len == 0 then |s.attrs| else l.attrs.start, l.attrs.len + 1);
      s.(attrs := s.attrs + [Owned(s.last, Attribute(tok.attrKey, tok.payload, tok.typ == AttributeFlag))],
         labels := s.labels[s.last := l.(attrs := r)])
  }

  function AppendGreedy(lim: Limits, s: State, tok: Token): (r: State)
    requires Shape(s)
    ensures Shape(r)
  {
    if NodesFull(lim, s) then AddWidth(WarnNodes(s, tok.pos), tok.width)
    else
      var s1 := AppendNode(s, Top(s), TagLabel(tok));
      var s2 :=
        if NodesFull(lim, s1) then WarnNodes(s1, tok.payload.start).(last := |s.par|)
        else AppendNode(s1, |s.par|, TextLabel(tok.payload)).(last := |s1.par|);
      AddWidth(s2, tok.width)
  }

  function CloseTag(s: State, tok: Token): (r: State)
    requires Shape(s) && |s.stack| > 0
    ensures Shape(r)
  {
    var idx, k := Top(s), |s.widths| - 1;
    var total := s.widths[k] + tok.width;
    var l := s.labels[idx];
    s.(crumbs := s.crumbs[..k], last := idx,
       widths := s.widths[..k][k - 1 := s.widths[k - 1] + total],
       labels := s.labels[idx := l.(span := Span(l.span.start, l.span.start + total))],
       stack := s.stack[..|s.stack| - 1],
       isOpen := s.isOpen[PeekStack(s) := false])
  }

  /** An opening tag left out for a limit still counts its width and silences its closer. */
  function OmitOpening(d: Dictionary, s: State, tok: Token): (r: State)
    requires Shape(s) && |d.tags| == 256
    ensures Shape(r)
  {
    var c := d.tags[tok.trigger].closeID;
    var s1 := AddWidth(s, tok.width);
    if c != 0 then s1.(skip := s1.skip[c := s1.skip[c] + 1]) else s1
  }

  function ProcessOpening(d: Dictionary, s: State, tok: Token): (r: State)
    requires Shape(s) && |d.tags| == 256
    ensures Shape(r)
  {
    var c := d.tags[tok.trigger].closeID;
    if s.isOpen[tok.trigger] then
      Log(s, Warning(DuplicateNestedTag, tok.pos, tok.trigger, 0, 0, 0)).(skip := s.skip[c := s.skip[c] + 1])
    else if d.limits.maxParseDepth > 0 && |s.stack| >= d.limits.maxParseDepth then
      OmitOpening(d, WarnDepth(s, tok.pos), tok)
    else if NodesFull(d.limits, s) then
      OmitOpening(d, WarnNodes(s, tok.pos), tok)
    else
      var stack := s.stack + [tok.trigger];
      AppendNode(s, Top(s), TagLabel(tok)).(
        crumbs := s.crumbs + [|s.par|], stack := stack, widths := s.widths + [tok.width],
        maxDepth := if |stack| > s.maxDepth then |stack| else s.maxDepth,
        last := |s.par|, isOpen := s.isOpen[tok.trigger := true], tagNodes := s.tagNodes + 1)
  }

  function ProcessClosing(d: Dictionary, s: State, tok: Token): (r: State)
    requires Shape(s) && |d.tags| == 256
    ensures Shape(r)
  {
    var stacked, tag := PeekStack(s), d.tags[tok.trigger];
    if stacked == 0 then
      Log(s, Warning(MisplacedClosingTag, tok.pos, tok.trigger, 0, tag.openID, 0))
    else if d.tags[stacked].closeID != tok.trigger && tag.openID != stacked then
      var s1 := Log(s, Warning(OpenCloseTagMismatch, tok.pos, tok.trigger, 0, stacked, 0));
      ProcessText(d.limits, s1.(textLen := s1.textLen + tok.width, textNodes := s1.textNodes + 1), DemotedToText(tok))
    else CloseTag(s, tok)
  }

  function DemotedToText(tok: Token): Token {
    tok.(typ := TextToken, payload := Span(tok.pos, tok.pos + tok.width))
  }

  function ProcessUniversal(d: Dictionary, s: State, tok: Token): (r: State)
    requires Shape(s) && |d.tags| == 256 && tok.trigger != 0
    ensures Shape(r)
  {
    if s.isOpen[tok.trigger] && PeekStack(s) == tok.trigger then CloseTag(s, tok)
    else ProcessOpening(d, s, tok)
  }

  function ProcessTag(d: Dictionary, s: State, tok: Token): (r: State)
    requires Shape(s) && |d.tags| == 256 && tok.trigger != 0
    ensures Shape(r)
  {
    var tag := d.tags[tok.trigger];
    if s.skip[tok.trigger] > 0 then s.(skip := s.skip[tok.trigger := s.skip[tok.trigger] - 1])
    else if tag.greed != NonGreedy then AppendGreedy(d.limits, s, tok)
    else if tag.IsUniversal() then ProcessUniversal(d, s, tok)
    else if tag.IsOpening() then ProcessOpening(d, s, tok)
    else if tag.IsClosing() then ProcessClosing(d, s, tok)
    else s
  }

  /** Tokens the tokenizer can emit for this dictionary. */
  ghost predicate TokenOk(d: Dictionary, tok: Token)
    requires |d.tags| == 256
  {
    tok.typ == TagToken ==> tok.trigger != 0 && Registered(d, tok.trigger)
  }

  ghost predicate TokensOk(d: Dictionary, toks: seq<Token>)
    requires |d.tags| == 256
  {
    forall i :: 0 <= i < |toks| ==> TokenOk(d, toks[i])
  }

  function Step(d: Dictionary, s: State, tok: Token): (r: State)
    requires Shape(s) && |d.tags| == 256 && TokenOk(d, tok)
    ensures Shape(r)
  {
    match tok.typ
    case TextToken => ProcessText(d.limits, s, tok)
    case TagToken => ProcessTag(d, s, tok)
    case _ => ProcessAttribute(d.limits, s, tok)
  }

  /** The dispatch loop. */
  function Run(d: Dictionary, s: State, toks: seq<Token>): (r: State)
    requires Shape(s) && |d.tags| == 256 && TokensOk(d, toks)
    ensures Shape(r)
  {
    if toks == [] then s
    else
      var n := |toks| - 1;
      Step(d, Run(d, s, toks[..n]), toks[n])
  }

  /** Force-closing one open tag at the end of the input. */
  function ForceCloseOne(d: Dictionary, s: State): (r: State)
    requires Shape(s) && |d.tags| == 256 && |s.stack| > 0
    ensures Shape(r) && |r.stack| == |s.stack| - 1
  {
    var id, start := PeekStack(s), s.labels[Top(s)].span.start;
    var closed := CloseTag(s, Token(TagToken, 0, 0, 0, Span(0, 0), Span(0, 0)));
    Log(closed.(last := s.last), Warning(UnclosedTag, start, id, d.tags[id].closeID, 0, 0))
  }

  function ForceClose(d: Dictionary, s: State): (r: State)
    requires Shape(s) && |d.tags| == 256
    ensures Shape(r) && r.stack == []
    decreases |s.stack|
  {
    if s.stack == [] then s else ForceClose(d, ForceCloseOne(d, s))
  }

  /** The state at the end of a parse: everything closed, the root's span set. */
  function Finish(d: Dictionary, s: State): (r: State)
    requires Shape(s) && |d.tags| == 256
    ensures Shape(r) && r.stack == []
  {
    var c := ForceClose(d, s);
    var root := c.labels[0];
    c.(labels := c.labels[0 := root.(span := Span(root.span.start, c.widths[0]))])
  }

  function Parsed(d: Dictionary, toks: seq<Token>): (r: State)
    requires |d.tags| == 256 && TokensOk(d, toks)
    ensures Shape(r) && r.stack == []
  {
    Finish(d, Run(d, Start(), toks))
  }

  lemma {:induction false} RunNothing(d: Dictionary, s: State)
    requires |d.tags| == 256 && Shape(s)
    ensures Run(d, s, []) == s
  {
  }

  lemma {:induction false} RunAppend(d: Dictionary, s: State, a: seq<Token>, b: seq<Token>)
    requires Shape(s) && |d.tags| == 256 && TokensOk(d, a) && TokensOk(d, b)
    ensures TokensOk(d, a + b)
    ensures Run(d, s, a + b) == Run(d, Run(d, s, a), b)
    decreases |b|
  {
    hide Step;
    if b == [] {
      assert a + b == a;
    } else {
      var n := |b| - 1;
      RunAppend(d, s, a, b[..n]);
      assert (a + b)[..|a + b| - 1] == a + b[..n];
    }
  }

  lemma {:induction false} RunSnoc(d: Dictionary, s: State, toks: seq<Token>, tok: Token)
    requires Shape(s) && |d.tags| == 256 && TokensOk(d, toks) && TokenOk(d, tok)
    ensures TokensOk(d, toks + [tok]) && Run(d, s, toks + [tok]) == Step(d, Run(d, s, toks), tok)
  {
    hide Step;
    assert (toks + [tok])[..|toks|] == toks;
  }

  lemma {:induction false} RunOne(d: Dictionary, s: State, tok: Token)
    requires Shape(s) && |d.tags| == 256 && TokenOk(d, tok)
    ensures TokensOk(d, [tok]) && Run(d, s, [tok]) == Step(d, s, tok)
  {
    assert [tok][..0] == [];
    assert Run(d, s, []) == s;
  }
}
