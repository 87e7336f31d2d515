/** The text of a parse: the linear scan of the arena against the tree, and its byte count. */
module TextAccounting {
  import opened Markup
  import opened Forests
  import opened ParserSpec
  import opened Nesting

  function Slice(input: seq<Byte>, span: Span): seq<Byte> {
    if 0 <= span.start <= span.end <= |input| then input[span.start..span.end] else []
  }

  function NodeText(input: seq<Byte>, l: Label): seq<Byte> {
    if l.typ == TextNode then Slice(input, l.span) else []
  }

  /** Text of the arena in index order. */
  function LinearText(input: seq<Byte>, labels: seq<Label>): seq<Byte> {
    if labels == [] then []
    else LinearText(input, labels[..|labels| - 1]) + NodeText(input, labels[|labels| - 1])
  }

  /** Text of the tree: each node's own text, then its children's. */
  function TreeText(input: seq<Byte>, f: Forest<Label>): seq<Byte> {
    match f
    case Empty => []
    case Snoc(front, value, kids) => TreeText(input, front) + NodeText(input, value) + TreeText(input, kids)
  }

  ghost function ListedText(input: seq<Byte>, items: seq<(nat, Label)>): seq<Byte> {
    if items == [] then []
    else ListedText(input, items[..|items| - 1]) + NodeText(input, items[|items| - 1].1)
  }

  lemma {:induction false} ListedTextConcat(input: seq<Byte>, a: seq<(nat, Label)>, b: seq<(nat, Label)>)
    ensures ListedText(input, a + b) == ListedText(input, a) + ListedText(input, b)
    decreases |b|
  {
    if b == [] {
      assert a + b == a;
    } else {
      var n := |b| - 1;
      ListedTextConcat(input, a, b[..n]);
      assert (a + b)[..|a + b| - 1] == a + b[..n];
      Associate(ListedText(input, a), ListedText(input, b[..n]), NodeText(input, b[n].1));
    }
  }

  lemma {:induction false} Associate(a: seq<Byte>, b: seq<Byte>, c: seq<Byte>)
    ensures a + b + c == a + (b + c)
  {
  }

  lemma {:induction false} ListedTextOne(input: seq<Byte>, item: (nat, Label))
    ensures ListedText(input, [item]) == NodeText(input, item.1)
  {
    assert [item][..0] == [];
    assert ListedText(input, []) == [];
  }

  lemma {:induction false} TreeTextIsListed(input: seq<Byte>, f: Forest<Label>, d: nat)
    ensures TreeText(input, f) == ListedText(input, Flatten(f, d))
  {
    match f
    case Empty =>
    case Snoc(front, value, kids) =>
      TreeTextIsListed(input, front, d);
      TreeTextIsListed(input, kids, d + 1);
      ListedTextConcat(input, Flatten(front, d) + [(d, value)], Flatten(kids, d + 1));
      ListedTextConcat(input, Flatten(front, d), [(d, value)]);
      ListedTextOne(input, (d, value));
  }

  lemma {:induction false} LinearTextIsListed(input: seq<Byte>, labels: seq<Label>, items: seq<(nat, Label)>)
    requires |items| == |labels| && forall i :: 0 <= i < |items| ==> items[i].1 == labels[i]
    ensures ListedText(input, items) == LinearText(input, labels)
  {
    if items != [] {
      LinearTextIsListed(input, labels[..|labels| - 1], items[..|items| - 1]);
    }
  }

  /** The linear scan over the arena of any parse reads the text in tree order. */
  lemma {:induction false} LinearScanIsTreeText(d: Dictionary, toks: seq<Token>, input: seq<Byte>)
    requires |d.tags| == 256 && TokensOk(d, toks)
    ensures var s := Parsed(d, toks);
      Valid(s.par) && LinearText(input, s.labels) == TreeText(input, Below(s.par, s.labels, -1))
  {
    hide Parsed, StackInv, NoNestedTwins;
    ParsedTree(d, toks);
    var s := Parsed(d, toks);
    TreeTextIsListed(input, Below(s.par, s.labels, -1), 0);
    LinearTextIsListed(input, s.labels, Listing(s.par, s.labels));
  }

  // ---- byte counts ----

  function SpanLen(span: Span): int {
    span.end - span.start
  }

  /** Bytes in the text nodes. */
  function TextLen(labels: seq<Label>): int {
    if labels == [] then 0
    else
      var l := labels[|labels| - 1];
      TextLen(labels[..|labels| - 1]) + (if l.typ == TextNode then SpanLen(l.span) else 0)
  }

  /** What the tokenizer adds to its text count for a token: text, and payloads of greedy tags. */
  function TokenText(d: Dictionary, tok: Token): int
    requires |d.tags| == 256
  {
    match tok.typ
    case TextToken => SpanLen(tok.payload)
    case TagToken => if d.tags[tok.trigger].greed != NonGreedy then SpanLen(tok.payload) else 0
    case _ => 0
  }

  function TokensText(d: Dictionary, toks: seq<Token>): int
    requires |d.tags| == 256
  {
    if toks == [] then 0 else TokensText(d, toks[..|toks| - 1]) + TokenText(d, toks[|toks| - 1])
  }

  /** No non-greedy tag is closed by the ID of a greedy one. */
  ghost predicate NoGreedyClosers(d: Dictionary)
    requires |d.tags| == 256
  {
    forall b: Byte :: d.tags[b].greed == NonGreedy ==> d.tags[d.tags[b].closeID].greed == NonGreedy
  }

  ghost predicate SkipsNonGreedy(d: Dictionary, s: State)
    requires |d.tags| == 256 && Shape(s)
  {
    forall b: Byte :: s.skip[b] > 0 ==> d.tags[b].greed == NonGreedy
  }

  lemma {:induction false} TextLenAppend(labels: seq<Label>, l: Label)
    ensures TextLen(labels + [l]) == TextLen(labels) + (if l.typ == TextNode then SpanLen(l.span) else 0)
  {
    assert (labels + [l])[..|labels|] == labels;
  }

  /** Changing a node that is not text, or not its span, keeps the count. */
  lemma {:induction false} TextLenUpdate(labels: seq<Label>, i: nat, l: Label)
    requires i < |labels| && l.typ == labels[i].typ && (l.typ == TextNode ==> l.span == labels[i].span)
    ensures TextLen(labels[i := l]) == TextLen(labels)
  {
    var n := |labels| - 1;
    if i == n {
      assert labels[i := l][..n] == labels[..n];
    } else {
      TextLenUpdate(labels[..n], i, l);
      assert labels[i := l][..n] == labels[..n][i := l];
    }
  }

  ghost predicate Adds(s: State, r: State, n: int) {
    TextLen(r.labels) - r.textLen == TextLen(s.labels) - s.textLen + n
  }

  /** A greedy tag finds no room for its payload node. */
  predicate NoRoomForPayload(lim: Limits, s: State) {
    lim.maxNodes > 0 && |s.par| + 1 >= lim.maxNodes
  }

  /** A closer that fits the innermost tag in neither direction, and so becomes text. */
  predicate Demoted(d: Dictionary, s: State, tok: Token)
    requires |d.tags| == 256
  {
    var tag, stacked := d.tags[tok.trigger], PeekStack(s);
    && tag.greed == NonGreedy && !tag.IsUniversal() && !tag.IsOpening() && tag.IsClosing()
    && stacked != 0 && d.tags[stacked].closeID != tok.trigger && tag.openID != stacked
  }

  /** The bytes of a token that are counted as text and reach no text node: the node limit leaves the
   *  node out, or a greedy tag is swallowed in place of a closer. */
  function Unplaced(d: Dictionary, s: State, tok: Token): int
    requires Shape(s) && |d.tags| == 256
  {
    match tok.typ
    case TextToken => if NodesFull(d.limits, s) then SpanLen(tok.payload) else 0
    case TagToken =>
      if s.skip[tok.trigger] > 0 then TokenText(d, tok)
      else if d.tags[tok.trigger].greed != NonGreedy then
        if NoRoomForPayload(d.limits, s) then SpanLen(tok.payload) else 0
      else if Demoted(d, s, tok) && NodesFull(d.limits, s) then tok.width
      else 0
    case _ => 0
  }

  /** All such bytes of a parse. */
  function UnplacedText(d: Dictionary, toks: seq<Token>): int
    requires |d.tags| == 256 && TokensOk(d, toks)
  {
    if toks == [] then 0
    else
      var n := |toks| - 1;
      UnplacedText(d, toks[..n]) + Unplaced(d, Run(d, Start(), toks[..n]), toks[n])
  }

  lemma {:induction false} TextAdds(d: Dictionary, s: State, tok: Token)
    requires Shape(s)
    ensures Adds(s, ProcessText(d.limits, s, tok), if NodesFull(d.limits, s) then 0 else SpanLen(tok.payload))
  {
    hide TextLen;
    TextLenAppend(s.labels, TextLabel(tok.payload));
  }

  lemma {:induction false} GreedyAdds(d: Dictionary, s: State, tok: Token)
    requires Shape(s)
    ensures Adds(s, AppendGreedy(d.limits, s, tok), if NoRoomForPayload(d.limits, s) then 0 else SpanLen(tok.payload))
  {
    hide TextLen;
    TextLenAppend(s.labels, TagLabel(tok));
    TextLenAppend(s.labels + [TagLabel(tok)], TextLabel(tok.payload));
  }

  lemma {:induction false} OpeningAdds(d: Dictionary, s: State, tok: Token)
    requires Shape(s) && |d.tags| == 256
    ensures Adds(s, ProcessOpening(d, s, tok), 0)
  {
    hide TextLen, Shape;
    TextLenAppend(s.labels, TagLabel(tok));
  }

  lemma {:induction false} CloseAdds(d: Dictionary, s: State, tok: Token)
    requires |d.tags| == 256 && Shape(s) && StackInv(d, s) && s.stack != []
    ensures Adds(s, CloseTag(s, tok), 0)
  {
    hide TextLen;
    var r := CloseTag(s, tok);
    assert OpenNode(s, |s.crumbs| - 1);
    TextLenUpdate(s.labels, Top(s), r.labels[Top(s)]);
  }

  lemma {:induction false} ClosingAdds(d: Dictionary, s: State, tok: Token)
    requires |d.tags| == 256 && Shape(s) && StackInv(d, s)
    requires d.tags[tok.trigger].greed == NonGreedy && d.tags[tok.trigger].IsClosing()
    requires !d.tags[tok.trigger].IsUniversal() && !d.tags[tok.trigger].IsOpening()
    ensures Adds(s, ProcessClosing(d, s, tok), if Demoted(d, s, tok) && NodesFull(d.limits, s) then -tok.width else 0)
  {
    hide TextLen, CloseTag, ProcessText, StackInv;
    if s.stack != [] { CloseAdds(d, s, tok); }
    var s1 := Log(s, Warning(OpenCloseTagMismatch, tok.pos, tok.trigger, 0, PeekStack(s), 0));
    TextAdds(d, s1.(textLen := s1.textLen + tok.width, textNodes := s1.textNodes + 1), DemotedToText(tok));
  }

  lemma {:induction false} TagAdds(d: Dictionary, s: State, tok: Token)
    requires |d.tags| == 256 && Inv(d, s) && tok.typ == TagToken && tok.trigger != 0
    ensures Adds(s, ProcessTag(d, s, tok), TokenText(d, tok) - Unplaced(d, s, tok))
  {
    hide TextLen, AppendGreedy, ProcessOpening, ProcessClosing, CloseTag, StackInv, TreeInv, NoNestedTwins, Demoted,
         NoRoomForPayload, NodesFull;
    GreedyAdds(d, s, tok);
    OpeningAdds(d, s, tok);
    var tag := d.tags[tok.trigger];
    NeverDemoted(d, s, tok);
    if tag.greed == NonGreedy && !tag.IsUniversal() && !tag.IsOpening() && tag.IsClosing() { ClosingAdds(d, s, tok); }
    if s.stack != [] { CloseAdds(d, s, tok); }
  }

  lemma {:induction false} NeverDemoted(d: Dictionary, s: State, tok: Token)
    requires |d.tags| == 256
    ensures var tag := d.tags[tok.trigger]; tag.IsUniversal() || tag.IsOpening() || !tag.IsClosing() ==> !Demoted(d, s, tok)
  {
  }

  lemma {:induction false} StepAdds(d: Dictionary, s: State, tok: Token)
    requires |d.tags| == 256 && Inv(d, s) && TokenOk(d, tok)
    ensures Adds(s, Step(d, s, tok), TokenText(d, tok) - Unplaced(d, s, tok))
  {
    hide TextLen, ProcessTag, ProcessText, StackInv, TreeInv, NoNestedTwins, Demoted, NoRoomForPayload;
    match tok.typ
    case TextToken => TextAdds(d, s, tok);
    case TagToken => TagAdds(d, s, tok);
    case _ =>
      TextLenUpdate(s.labels, s.last, Step(d, s, tok).labels[s.last]);
  }

  lemma {:induction false} StepSkips(d: Dictionary, s: State, tok: Token)
    requires |d.tags| == 256 && Shape(s) && TokenOk(d, tok) && NoGreedyClosers(d) && SkipsNonGreedy(d, s)
    ensures SkipsNonGreedy(d, Step(d, s, tok))
  {
    hide AppendGreedy, ProcessOpening, ProcessClosing, CloseTag, ProcessText;
    if tok.typ == TagToken {
      if d.tags[tok.trigger].greed == NonGreedy { OpeningSkips(d, s, tok); }
      OtherSkips(d, s, tok);
    } else if tok.typ == TextToken {
      OtherSkips(d, s, tok);
    }
  }

  lemma {:induction false} OpeningSkips(d: Dictionary, s: State, tok: Token)
    requires |d.tags| == 256 && Shape(s) && NoGreedyClosers(d) && SkipsNonGreedy(d, s)
    requires d.tags[tok.trigger].greed == NonGreedy
    ensures SkipsNonGreedy(d, ProcessOpening(d, s, tok))
  {
  }

  lemma {:induction false} OtherSkips(d: Dictionary, s: State, tok: Token)
    requires |d.tags| == 256 && Shape(s)
    ensures AppendGreedy(d.limits, s, tok).skip == s.skip && ProcessText(d.limits, s, tok).skip == s.skip
    ensures ProcessClosing(d, s, tok).skip == s.skip
    ensures s.stack != [] ==> CloseTag(s, tok).skip == s.skip
  {
    hide ProcessClosing;
    ClosingSkips(d, s, tok);
  }

  lemma {:induction false} ClosingSkips(d: Dictionary, s: State, tok: Token)
    requires |d.tags| == 256 && Shape(s)
    ensures ProcessClosing(d, s, tok).skip == s.skip
  {
  }

  lemma {:induction false} RunAdds(d: Dictionary, toks: seq<Token>)
    requires |d.tags| == 256 && TokensOk(d, toks)
    ensures var s := Run(d, Start(), toks);
      TextLen(s.labels) == s.textLen + TokensText(d, toks) - UnplacedText(d, toks)
  {
    hide Step, Unplaced, TokenText;
    if toks == [] {
      StartAdds(d);
    } else {
      var n := |toks| - 1;
      RunAdds(d, toks[..n]);
      RunInv(d, toks[..n]);
      StepAdds(d, Run(d, Start(), toks[..n]), toks[n]);
    }
  }

  /** Where every counted byte is placed. */
  lemma {:induction false} RunPlaces(d: Dictionary, toks: seq<Token>)
    requires |d.tags| == 256 && TokensOk(d, toks) && d.limits.maxNodes == 0 && NoGreedyClosers(d)
    ensures UnplacedText(d, toks) == 0 && SkipsNonGreedy(d, Run(d, Start(), toks))
  {
    hide Step, SkipsNonGreedy;
    if toks == [] {
      StartAdds(d);
    } else {
      var n := |toks| - 1;
      var s := Run(d, Start(), toks[..n]);
      RunPlaces(d, toks[..n]);
      SkipZero(d, s, toks[n]);
      StepSkips(d, s, toks[n]);
    }
  }

  lemma {:induction false} SkipZero(d: Dictionary, s: State, tok: Token)
    requires |d.tags| == 256 && Shape(s) && SkipsNonGreedy(d, s)
    ensures d.tags[tok.trigger].greed != NonGreedy ==> s.skip[tok.trigger] == 0
  {
  }

  lemma {:induction false} StartAdds(d: Dictionary)
    requires |d.tags| == 256
    ensures TextLen(Start().labels) == 0 && SkipsNonGreedy(d, Start())
  {
    assert [ROOT][..0] == [];
    assert TextLen([]) == 0;
  }

  lemma {:induction false} ForceCloseAdds(d: Dictionary, s: State)
    requires |d.tags| == 256 && Inv(d, s)
    ensures Adds(s, ForceClose(d, s), 0)
    decreases |s.stack|
  {
    hide TreeInv, StackInv, NoNestedTwins, TextLen;
    if s.stack != [] {
      CloseAdds(d, s, Token(TagToken, 0, 0, 0, Span(0, 0), Span(0, 0)));
      ForceCloseOneInv(d, s);
      ForceCloseAdds(d, ForceCloseOne(d, s));
    }
  }

  /** The text nodes of a parse hold exactly the bytes the parse reports (those the tokenizer counted
   *  and those of closing tags demoted to text) less those that reach no text node. */
  lemma {:induction false} TextByteLenIsExact(d: Dictionary, toks: seq<Token>)
    requires |d.tags| == 256 && TokensOk(d, toks)
    ensures var s := Parsed(d, toks);
      TextLen(s.labels) == s.textLen + TokensText(d, toks) - UnplacedText(d, toks)
  {
    hide Run, TreeInv, NoNestedTwins, TextLen, UnplacedText;
    var s := Run(d, Start(), toks);
    RunAdds(d, toks);
    RunInv(d, toks);
    ForceCloseAdds(d, s);
    ForceCloseInv(d, s);
    var c := ForceClose(d, s);
    TextLenUpdate(c.labels, 0, Parsed(d, toks).labels[0]);
  }

  /** Token i is counted as text and not placed. */
  ghost predicate IsUnplaced(d: Dictionary, toks: seq<Token>, i: nat)
    requires |d.tags| == 256 && TokensOk(d, toks) && i < |toks|
  {
    Unplaced(d, Run(d, Start(), toks[..i]), toks[i]) > 0
  }

  /** Nothing is counted twice, so the counts agree exactly when every token's text is placed. */
  lemma {:induction false} AllPlacedIff(d: Dictionary, toks: seq<Token>)
    requires |d.tags| == 256 && TokensOk(d, toks)
    requires forall i :: 0 <= i < |toks| ==> toks[i].width >= 0 && toks[i].payload.start <= toks[i].payload.end
    ensures UnplacedText(d, toks) >= 0
    ensures UnplacedText(d, toks) == 0 <==> forall i :: 0 <= i < |toks| ==> !IsUnplaced(d, toks, i)
  {
    hide Run, Unplaced;
    if toks != [] {
      var n := |toks| - 1;
      AllPlacedIff(d, toks[..n]);
      UnplacedNat(d, Run(d, Start(), toks[..n]), toks[n]);
      forall i | 0 <= i < n ensures IsUnplaced(d, toks[..n], i) <==> IsUnplaced(d, toks, i) {
        assert toks[..n][..i] == toks[..i];
      }
      assert IsUnplaced(d, toks, n) <==> Unplaced(d, Run(d, Start(), toks[..n]), toks[n]) > 0;
    }
  }

  lemma {:induction false} UnplacedNat(d: Dictionary, s: State, tok: Token)
    requires |d.tags| == 256 && Shape(s) && tok.width >= 0 && tok.payload.start <= tok.payload.end
    ensures Unplaced(d, s, tok) >= 0
  {
  }

  /** The bytes `LinearText` returns are as many as the text nodes' spans say. */
  lemma {:induction false} LinearTextLen(input: seq<Byte>, labels: seq<Label>)
    requires forall i :: 0 <= i < |labels| ==> 0 <= labels[i].span.start <= labels[i].span.end <= |input|
    ensures |LinearText(input, labels)| == TextLen(labels)
  {
    if labels != [] {
      LinearTextLen(input, labels[..|labels| - 1]);
    }
  }
}
