/** Documents as token trees, their linearisation, and what the parser makes of it.
 *
 *  A document is printed to the token stream a tokenizer would emit for it.  Parsing that stream
 *  gives back exactly the document's tree; tags repeated along a path are spliced out, their
 *  content staying in place.
 */
module RoundTrip {
  import opened Markup
  import opened Forests
  import opened ParserSpec
  import opened Nesting

  /** A sequence of pieces of markup, last piece outermost.  Each piece carries its own tokens and
   *  the attribute tokens written directly behind it. */
  datatype Docs =
    | End
    | Text(front: Docs, tok: Token, attrs: seq<Token>)     // text, or a closer that closes nothing here
    | Leaf(front: Docs, tok: Token, attrs: seq<Token>)     // a greedy tag with its payload
    | Element(front: Docs, start: Token, kids: Docs, close: Token, attrs: seq<Token>)

  function Print(docs: Docs): seq<Token> {
    match docs
    case End => []
    case Text(front, tok, attrs) => Print(front) + ([tok] + attrs)
    case Leaf(front, tok, attrs) => Print(front) + ([tok] + attrs)
    case Element(front, start, kids, close, attrs) =>
      Print(front) + ([start] + (Print(kids) + ([close] + attrs)))
  }

  ghost predicate AttributeTokens(toks: seq<Token>) {
    forall i :: 0 <= i < |toks| ==> toks[i].typ == AttributeKV || toks[i].typ == AttributeFlag
  }

  /** `start` opens a level that `close` closes: one universal tag, or an opening tag and its closer. */
  ghost predicate Brackets(d: Dictionary, start: Token, close: Token)
    requires |d.tags| == 256
  {
    && start.typ == TagToken && close.typ == TagToken
    && CanOpen(d, start.trigger) && Registered(d, close.trigger) && close.trigger != 0
    && close.trigger == d.tags[start.trigger].closeID
    && (d.tags[start.trigger].IsUniversal() || IsCloser(d, close.trigger))
  }

  ghost predicate IsCloser(d: Dictionary, b: Byte)
    requires |d.tags| == 256
  {
    d.tags[b].IsClosing() && d.tags[b].greed == NonGreedy
  }

  /** The token of a tag that can only close. */
  ghost predicate IsClosingTag(d: Dictionary, tok: Token)
    requires |d.tags| == 256
  {
    && tok.typ == TagToken && tok.trigger != 0 && Registered(d, tok.trigger) && IsCloser(d, tok.trigger)
    && !d.tags[tok.trigger].IsUniversal() && !d.tags[tok.trigger].IsOpening()
  }

  /** Such a token fits the innermost open tag, `top`, in neither direction. */
  predicate IsStray(d: Dictionary, top: Byte, tok: Token)
    requires |d.tags| == 256
  {
    top != 0 && d.tags[top].closeID != tok.trigger && d.tags[tok.trigger].openID != top
  }

  /** Every closer among the texts is stray where it stands, in a document without repetitions. */
  ghost predicate StraysFit(d: Dictionary, top: Byte, docs: Docs)
    requires |d.tags| == 256
    decreases docs
  {
    match docs
    case End => true
    case Text(front, tok, _) => StraysFit(d, top, front) && (tok.typ != TextToken ==> IsStray(d, top, tok))
    case Leaf(front, _, _) => StraysFit(d, top, front)
    case Element(front, start, kids, _, _) => StraysFit(d, top, front) && StraysFit(d, start.trigger, kids)
  }

  /** The tags of such closers. */
  ghost function Strays(docs: Docs): set<Byte> {
    match docs
    case End => {}
    case Text(front, tok, _) => Strays(front) + (if tok.typ == TextToken then {} else {tok.trigger})
    case Leaf(front, _, _) => Strays(front)
    case Element(front, _, kids, _, _) => Strays(front) + Strays(kids)
  }

  ghost predicate WfDocs(d: Dictionary, docs: Docs)
    requires |d.tags| == 256
  {
    match docs
    case End => true
    case Text(front, tok, attrs) => WfDocs(d, front) && (tok.typ == TextToken || IsClosingTag(d, tok)) && AttributeTokens(attrs)
    case Leaf(front, tok, attrs) =>
      && WfDocs(d, front) && tok.typ == TagToken && AttributeTokens(attrs)
      && tok.trigger != 0 && Registered(d, tok.trigger) && d.tags[tok.trigger].greed != NonGreedy
    case Element(front, start, kids, close, attrs) =>
      WfDocs(d, front) && Brackets(d, start, close) && WfDocs(d, kids) && AttributeTokens(attrs)
  }

  /** No tag of `on` is opened, and none twice along a path. */
  ghost predicate NoRepeats(on: set<Byte>, docs: Docs)
    decreases docs
  {
    match docs
    case End => true
    case Text(front, _, _) => NoRepeats(on, front)
    case Leaf(front, _, _) => NoRepeats(on, front)
    case Element(front, start, kids, _, _) =>
      NoRepeats(on, front) && start.trigger !in on && NoRepeats(on + {start.trigger}, kids)
  }

  /** The tags of the document's elements. */
  ghost function Openers(docs: Docs): set<Byte> {
    match docs
    case End => {}
    case Text(front, _, _) => Openers(front)
    case Leaf(front, _, _) => Openers(front)
    case Element(front, start, kids, _, _) => Openers(front) + {start.trigger} + Openers(kids)
  }

  /** Repetitions the parser can splice out, among open tags `on` with `top` the innermost. A universal
   *  tag that is repeated must not stand directly in itself, where it would close, nor occur again in its
   *  own content, where its opener would pass for its closer. Attributes of a repetition need a node
   *  before them that they can go to. Closers among the texts are stray where they stand, and are not
   *  the closers of a repetition around them, which would be taken for it. */
  ghost predicate CanSplice(d: Dictionary, on: set<Byte>, top: Byte, docs: Docs)
    requires |d.tags| == 256
    decreases docs
  {
    match docs
    case End => true
    case Text(front, tok, _) => CanSplice(d, on, top, front) && (tok.typ != TextToken ==> IsStray(d, top, tok))
    case Leaf(front, _, _) => CanSplice(d, on, top, front)
    case Element(front, start, kids, _, attrs) =>
      && CanSplice(d, on, top, front)
      && (if start.trigger in on then
            && (d.tags[start.trigger].IsUniversal() ==> start.trigger != top && start.trigger !in Openers(kids))
            && (attrs == [] || Spliced(on, front) != End || Spliced(on, kids) != End)
            && d.tags[start.trigger].closeID !in Strays(kids)
            && CanSplice(d, on, top, kids)
          else CanSplice(d, on + {start.trigger}, start.trigger, kids))
  }

  function Join(a: Docs, b: Docs): Docs {
    match b
    case End => a
    case Text(front, tok, attrs) => Text(Join(a, front), tok, attrs)
    case Leaf(front, tok, attrs) => Leaf(Join(a, front), tok, attrs)
    case Element(front, start, kids, close, attrs) => Element(Join(a, front), start, kids, close, attrs)
  }

  /** More attributes behind the last piece. */
  function WithAttrs(docs: Docs, more: seq<Token>): Docs {
    match docs
    case End => End
    case Text(front, tok, attrs) => Text(front, tok, attrs + more)
    case Leaf(front, tok, attrs) => Leaf(front, tok, attrs + more)
    case Element(front, start, kids, close, attrs) => Element(front, start, kids, close, attrs + more)
  }

  /** The document with every repeated tag replaced by its content; attributes written behind a
   *  repetition go to the piece before them. */
  ghost function Spliced(on: set<Byte>, docs: Docs): Docs
    decreases docs
  {
    match docs
    case End => End
    case Text(front, tok, attrs) => Text(Spliced(on, front), tok, attrs)
    case Leaf(front, tok, attrs) => Leaf(Spliced(on, front), tok, attrs)
    case Element(front, start, kids, close, attrs) =>
      var inner := Spliced(on + {start.trigger}, kids);
      if start.trigger in on then WithAttrs(Join(Spliced(on, front), inner), attrs)
      else Element(Spliced(on, front), start, inner, close, attrs)
  }

  function Mismatch(top: Byte, tok: Token): Warning {
    Warning(OpenCloseTagMismatch, tok.pos, tok.trigger, 0, top, 0)
  }

  /** One warning per spliced tag and per stray closer, in the order of their tokens; a stray closer's
   *  names the innermost tag open. */
  ghost function ParseWarnings(on: set<Byte>, top: Byte, docs: Docs): seq<Warning>
    decreases docs
  {
    match docs
    case End => []
    case Text(front, tok, _) => ParseWarnings(on, top, front) + (if tok.typ == TextToken then [] else [Mismatch(top, tok)])
    case Leaf(front, _, _) => ParseWarnings(on, top, front)
    case Element(front, start, kids, _, _) =>
      ParseWarnings(on, top, front)
      + (if start.trigger in on then
           [Warning(DuplicateNestedTag, start.pos, start.trigger, 0, 0, 0)] + ParseWarnings(on + {start.trigger}, top, kids)
         else ParseWarnings(on + {start.trigger}, start.trigger, kids))
  }

  // ---- the tree a document denotes ----

  function Nodes(docs: Docs): nat {
    match docs
    case End => 0
    case Text(front, _, _) => Nodes(front) + 1
    case Leaf(front, _, _) => Nodes(front) + 2
    case Element(front, _, kids, _, _) => Nodes(front) + 1 + Nodes(kids)
  }

  function AttrCount(docs: Docs): nat {
    match docs
    case End => 0
    case Text(front, _, attrs) => AttrCount(front) + |attrs|
    case Leaf(front, _, attrs) => AttrCount(front) + |attrs|
    case Element(front, _, kids, _, attrs) => AttrCount(front) + AttrCount(kids) + |attrs|
  }

  /** Bytes of the document that are not attributes. */
  function NetWidth(docs: Docs): int {
    match docs
    case End => 0
    case Text(front, tok, _) => NetWidth(front) + tok.width
    case Leaf(front, tok, _) => NetWidth(front) + tok.width
    case Element(front, start, kids, close, _) => NetWidth(front) + (start.width + NetWidth(kids) + close.width)
  }

  /** Stray closers, and the bytes they add to the text. */
  function StrayCount(docs: Docs): nat {
    match docs
    case End => 0
    case Text(front, tok, _) => StrayCount(front) + (if tok.typ == TextToken then 0 else 1)
    case Leaf(front, _, _) => StrayCount(front)
    case Element(front, _, kids, _, _) => StrayCount(front) + StrayCount(kids)
  }

  function StrayBytes(docs: Docs): int {
    match docs
    case End => 0
    case Text(front, tok, _) => StrayBytes(front) + (if tok.typ == TextToken then 0 else tok.width)
    case Leaf(front, _, _) => StrayBytes(front)
    case Element(front, _, kids, _, _) => StrayBytes(front) + StrayBytes(kids)
  }

  function Height(docs: Docs): nat {
    match docs
    case End => 0
    case Text(front, _, _) => Height(front)
    case Leaf(front, _, _) => Height(front)
    case Element(front, _, kids, _, _) => if Height(front) > 1 + Height(kids) then Height(front) else 1 + Height(kids)
  }

  function Elements(docs: Docs): nat {
    match docs
    case End => 0
    case Text(front, _, _) => Elements(front)
    case Leaf(front, _, _) => Elements(front)
    case Element(front, _, kids, _, _) => Elements(front) + 1 + Elements(kids)
  }

  function AttrRange(start: nat, n: nat): Range {
    if n == 0 then Range(0, 0) else Range(start, n)
  }

  /** What a text node shows: text as it is, a stray closer its own bytes. */
  function Shown(tok: Token): Span {
    if tok.typ == TextToken then tok.payload else Span(tok.pos, tok.pos + tok.width)
  }

  /** The rose forest of a document whose first attribute gets arena index `ab`. */
  function Tree(docs: Docs, ab: nat): Forest<Label> {
    match docs
    case End => Empty
    case Text(front, tok, attrs) =>
      Snoc(Tree(front, ab), TextLabel(Shown(tok)).(attrs := AttrRange(ab + AttrCount(front), |attrs|)), Empty)
    case Leaf(front, tok, attrs) =>
      Snoc(Tree(front, ab), TagLabel(tok),
           Snoc(Empty, TextLabel(tok.payload).(attrs := AttrRange(ab + AttrCount(front), |attrs|)), Empty))
    case Element(front, start, kids, close, attrs) =>
      var inner := ab + AttrCount(front);
      Snoc(Tree(front, ab), ElementLabel(start, kids, close, AttrRange(inner + AttrCount(kids), |attrs|)), Tree(kids, inner))
  }

  function ElementLabel(start: Token, kids: Docs, close: Token, attrs: Range): Label {
    Label(TagNode, start.trigger, Span(start.pos, start.pos + (start.width + NetWidth(kids) + close.width)), attrs)
  }

  function AttrOf(tok: Token): Attribute {
    Attribute(tok.attrKey, tok.payload, tok.typ == AttributeFlag)
  }

  function Own(owner: nat, toks: seq<Token>): (os: seq<Owned>)
    ensures |os| == |toks|
  {
    if toks == [] then []
    else Own(owner, toks[..|toks| - 1]) + [Owned(owner, AttrOf(toks[|toks| - 1]))]
  }

  /** The attributes of the document with their owners, when its first node gets index `base`. */
  function AttrLog(docs: Docs, base: nat): (os: seq<Owned>)
    ensures |os| == AttrCount(docs)
  {
    match docs
    case End => []
    case Text(front, _, attrs) => AttrLog(front, base) + Own(base + Nodes(front), attrs)
    case Leaf(front, _, attrs) => AttrLog(front, base) + Own(base + Nodes(front) + 1, attrs)
    case Element(front, _, kids, _, attrs) =>
      var n := base + Nodes(front);
      AttrLog(front, base) + (AttrLog(kids, n + 1) + Own(n, attrs))
  }

  /** The node the parser created or closed last. */
  function LastNode(docs: Docs, base: nat, last: nat): nat {
    match docs
    case End => last
    case Text(front, _, _) => base + Nodes(front)
    case Leaf(front, _, _) => base + Nodes(front) + 1
    case Element(front, _, _, _, _) => base + Nodes(front)
  }

  function Max(a: nat, b: nat): nat {
    if a > b then a else b
  }

  /** The state with the document's tree laid out below the innermost open node. */
  ghost function Built(s: State, docs: Docs): State
    requires Shape(s)
  {
    var f, k := Tree(docs, |s.attrs|), |s.widths| - 1;
    s.(par := s.par + LayParents(f, Top(s), |s.par|),
       labels := s.labels + LayValues(f),
       attrs := s.attrs + AttrLog(docs, |s.par|),
       widths := s.widths[k := s.widths[k] + NetWidth(docs)],
       maxDepth := if Height(docs) == 0 then s.maxDepth else Max(s.maxDepth, |s.stack| + Height(docs)),
       last := LastNode(docs, |s.par|, s.last),
       tagNodes := s.tagNodes + Elements(docs),
       textNodes := s.textNodes + StrayCount(docs), textLen := s.textLen + StrayBytes(docs))
  }

  lemma {:induction false} TreeSize(docs: Docs, ab: nat)
    ensures Size(Tree(docs, ab)) == Nodes(docs)
  {
    assert Size<Label>(Empty) == 0;
    match docs
    case End =>
    case Text(front, _, _) => TreeSize(front, ab);
    case Leaf(front, _, _) =>
      TreeSize(front, ab);
      assert Size(Tree(docs, ab).kids) == 1;
    case Element(front, _, kids, _, _) =>
      TreeSize(front, ab);
      TreeSize(kids, ab + AttrCount(front));
  }

  ghost predicate OwnersBelow(os: seq<Owned>, n: nat) {
    forall i :: 0 <= i < |os| ==> os[i].owner < n
  }

  lemma {:induction false} OwnersInside(docs: Docs, base: nat)
    ensures OwnersBelow(AttrLog(docs, base), base + Nodes(docs))
  {
    hide OwnersBelow, Own;
    var n := base + Nodes(docs);
    match docs
    case End => NoOwners(n);
    case Text(front, _, attrs) =>
      OwnersInside(front, base);
      OwnOwner(n - 1, attrs, n);
      ConcatOwners(AttrLog(front, base), Own(n - 1, attrs), n - 1, n);
    case Leaf(front, _, attrs) =>
      OwnersInside(front, base);
      OwnOwner(n - 1, attrs, n);
      ConcatOwners(AttrLog(front, base), Own(n - 1, attrs), n - 2, n);
    case Element(front, _, kids, _, attrs) =>
      var m := base + Nodes(front);
      OwnersInside(front, base);
      OwnersInside(kids, m + 1);
      OwnOwner(m, attrs, n);
      ConcatOwners(AttrLog(kids, m + 1), Own(m, attrs), n, n);
      ConcatOwners(AttrLog(front, base), AttrLog(kids, m + 1) + Own(m, attrs), m, n);
  }

  lemma {:induction false} NoOwners(n: nat)
    ensures OwnersBelow([], n)
  {
  }

  lemma {:induction false} ConcatOwners(a: seq<Owned>, b: seq<Owned>, m: nat, n: nat)
    requires OwnersBelow(a, m) && OwnersBelow(b, n) && m <= n
    ensures OwnersBelow(a + b, n)
  {
  }

  lemma {:induction false} OwnOwner(owner: nat, toks: seq<Token>, n: nat)
    requires owner < n
    ensures OwnersBelow(Own(owner, toks), n)
  {
    if toks != [] {
      OwnOwner(owner, toks[..|toks| - 1], n);
    }
  }

  lemma {:induction false} BuiltShape(s: State, docs: Docs)
    requires Shape(s)
    ensures Shape(Built(s, docs)) && |Built(s, docs).par| == |s.par| + Nodes(docs)
  {
    TreeSize(docs, |s.attrs|);
    OwnersInside(docs, |s.par|);
    var r := Built(s, docs);
    forall i | 0 <= i < |r.attrs| ensures r.attrs[i].owner < |r.par| {
      if i >= |s.attrs| {
        var log := AttrLog(docs, |s.par|);
        assert r.attrs[i] == log[i - |s.attrs|];
      }
    }
    assert docs == End || Nodes(docs) > 0;
  }

  // ---- adding one piece ----

  /** A stray closer counts as text. */
  function Counted(s: State, tok: Token): State {
    if tok.typ == TextToken then s else s.(textNodes := s.textNodes + 1, textLen := s.textLen + tok.width)
  }

  function AddText(s: State, tok: Token, attrs: seq<Token>): State
    requires Shape(s)
  {
    AddWidth(Counted(s, tok), tok.width).(
      par := s.par + [Top(s)],
      labels := s.labels + [TextLabel(Shown(tok)).(attrs := AttrRange(|s.attrs|, |attrs|))],
      attrs := s.attrs + Own(|s.par|, attrs), last := |s.par|)
  }

  function AddLeaf(s: State, tok: Token, attrs: seq<Token>): State
    requires Shape(s)
  {
    var n := |s.par|;
    AddWidth(s, tok.width).(
      par := s.par + [Top(s), n],
      labels := s.labels + [TagLabel(tok), TextLabel(tok.payload).(attrs := AttrRange(|s.attrs|, |attrs|))],
      attrs := s.attrs + Own(n + 1, attrs), last := n + 1)
  }

  ghost function AddElement(s: State, start: Token, kids: Docs, close: Token, attrs: seq<Token>): State
    requires Shape(s)
  {
    var n, inner := |s.par|, |s.attrs|;
    AddWidth(s, start.width + NetWidth(kids) + close.width).(
      par := s.par + ([Top(s)] + LayParents(Tree(kids, inner), n, n + 1)),
      labels := s.labels + ([ElementLabel(start, kids, close, AttrRange(inner + AttrCount(kids), |attrs|))]
                            + LayValues(Tree(kids, inner))),
      attrs := s.attrs + (AttrLog(kids, n + 1) + Own(n, attrs)),
      maxDepth := Max(s.maxDepth, |s.stack| + 1 + Height(kids)),
      last := n, tagNodes := s.tagNodes + 1 + Elements(kids),
      textNodes := s.textNodes + StrayCount(kids), textLen := s.textLen + StrayBytes(kids))
  }

  lemma {:induction false} BuiltText(s: State, docs: Docs)
    requires Shape(s) && docs.Text?
    ensures Shape(Built(s, docs.front)) && Built(s, docs) == AddText(Built(s, docs.front), docs.tok, docs.attrs)
  {
    hide Tree, LayParents, LayValues, TextLabel, Own, Shown;
    BuiltShape(s, docs.front);
    TextLaid(s, docs);
    var b := Built(s, docs.front);
    assert s.attrs + AttrLog(docs, |s.par|) == b.attrs + Own(|b.par|, docs.attrs);
  }

  lemma {:induction false} TextLaid(s: State, docs: Docs)
    requires Shape(s) && docs.Text?
    ensures var f, g, p, n := Tree(docs, |s.attrs|), Tree(docs.front, |s.attrs|), Top(s), |s.par|;
      && s.par + LayParents(f, p, n) == s.par + LayParents(g, p, n) + [p]
      && s.labels + LayValues(f) == s.labels + LayValues(g)
           + [TextLabel(Shown(docs.tok)).(attrs := AttrRange(|s.attrs| + AttrCount(docs.front), |docs.attrs|))]
  {
    hide LayParents, LayValues, TextLabel, Shown;
    LayOne(s, docs, TextLabel(Shown(docs.tok)).(attrs := AttrRange(|s.attrs| + AttrCount(docs.front), |docs.attrs|)));
  }

  /** Laying out a forest whose last tree is a single node. */
  lemma {:induction false} LayOne(s: State, docs: Docs, l: Label)
    requires Shape(s) && !docs.End?
    requires Tree(docs, |s.attrs|) == Snoc(Tree(docs.front, |s.attrs|), l, Empty)
    ensures var f, g, p, n := Tree(docs, |s.attrs|), Tree(docs.front, |s.attrs|), Top(s), |s.par|;
      && s.par + LayParents(f, p, n) == s.par + LayParents(g, p, n) + [p]
      && s.labels + LayValues(f) == s.labels + LayValues(g) + [l]
  {
    var f, p, n := Tree(docs, |s.attrs|), Top(s), |s.par|;
    LaySplit(s.par, s.labels, f, p);
    assert LayParents<Label>(Empty, n + Size(f.front), n + Size(f.front) + 1) == [] && LayValues<Label>(Empty) == [];
  }

  lemma {:induction false} BuiltLeaf(s: State, docs: Docs)
    requires Shape(s) && docs.Leaf?
    ensures Shape(Built(s, docs.front)) && Built(s, docs) == AddLeaf(Built(s, docs.front), docs.tok, docs.attrs)
  {
    hide LayParents, LayValues, TextLabel, TagLabel, Own;
    BuiltShape(s, docs.front);
    TreeSize(docs.front, |s.attrs|);
    var b := Built(s, docs.front);
    var f, n := Tree(docs, |s.attrs|), |s.par| + Nodes(docs.front);
    var l := TextLabel(docs.tok.payload).(attrs := AttrRange(|b.attrs|, |docs.attrs|));
    LaySplit(s.par, s.labels, f, Top(s));
    OneLaid(l, n, n + 1);
    Pair(s.par + LayParents(f.front, Top(s), |s.par|), Top(s), n);
    Pair(s.labels + LayValues(f.front), TagLabel(docs.tok), l);
    Shift(s.attrs, AttrLog(docs.front, |s.par|), Own(|b.par| + 1, docs.attrs));
  }

  lemma {:induction false} OneLaid(l: Label, parent: nat, base: nat)
    ensures LayParents(Snoc(Empty, l, Empty), parent, base) == [parent] && LayValues(Snoc(Empty, l, Empty)) == [l]
  {
    assert LayParents<Label>(Empty, parent, base) == [] && LayParents<Label>(Empty, base, base + 1) == [];
    assert LayValues<Label>(Empty) == [];
  }

  lemma {:induction false} Pair<T>(a: seq<T>, x: T, y: T)
    ensures a + [x] + [y] == a + [x, y]
  {
  }

  lemma {:induction false} ElementParents(s: State, docs: Docs)
    requires Shape(s) && docs.Element?
    ensures var n, t := |s.par| + Nodes(docs.front), Tree(docs.kids, |s.attrs| + AttrCount(docs.front));
      s.par + LayParents(Tree(docs, |s.attrs|), Top(s), |s.par|)
      == s.par + LayParents(Tree(docs.front, |s.attrs|), Top(s), |s.par|) + ([Top(s)] + LayParents(t, n, n + 1))
  {
    hide LayParents, LayValues, TextLabel, TagLabel;
    TreeSize(docs.front, |s.attrs|);
    var f, n := Tree(docs, |s.attrs|), |s.par| + Nodes(docs.front);
    LaySplit(s.par, s.labels, f, Top(s));
    Pull(s.par + LayParents(f.front, Top(s), |s.par|), Top(s), LayParents(f.kids, n, n + 1));
  }

  lemma {:induction false} ElementValues(s: State, docs: Docs)
    requires Shape(s) && docs.Element?
    ensures var inner := |s.attrs| + AttrCount(docs.front);
      s.labels + LayValues(Tree(docs, |s.attrs|))
      == s.labels + LayValues(Tree(docs.front, |s.attrs|))
         + ([ElementLabel(docs.start, docs.kids, docs.close, AttrRange(inner + AttrCount(docs.kids), |docs.attrs|))]
            + LayValues(Tree(docs.kids, inner)))
  {
    hide LayParents, LayValues, TextLabel, TagLabel, ElementLabel;
    var f := Tree(docs, |s.attrs|);
    LaySplit(s.par, s.labels, f, Top(s));
    Pull(s.labels + LayValues(f.front), f.value, LayValues(f.kids));
  }

  lemma {:induction false} ElementAttrs(s: State, docs: Docs)
    requires docs.Element?
    ensures var n := |s.par| + Nodes(docs.front);
      s.attrs + AttrLog(docs, |s.par|)
      == s.attrs + AttrLog(docs.front, |s.par|) + (AttrLog(docs.kids, n + 1) + Own(n, docs.attrs))
  {
    var n := |s.par| + Nodes(docs.front);
    Shift(s.attrs, AttrLog(docs.front, |s.par|), AttrLog(docs.kids, n + 1) + Own(n, docs.attrs));
  }

  lemma {:induction false} Pull<T>(a: seq<T>, x: T, b: seq<T>)
    ensures a + [x] + b == a + ([x] + b)
  {
  }

  lemma {:induction false} Shift<T>(a: seq<T>, b: seq<T>, c: seq<T>)
    ensures a + (b + c) == a + b + c
  {
  }

  lemma {:induction false} BuiltElement(s: State, docs: Docs)
    requires Shape(s) && docs.Element?
    ensures Shape(Built(s, docs.front))
    ensures Built(s, docs) == AddElement(Built(s, docs.front), docs.start, docs.kids, docs.close, docs.attrs)
  {
    hide Tree, LayParents, LayValues, AttrLog, Own;
    BuiltShape(s, docs.front);
    ElementParents(s, docs);
    ElementValues(s, docs);
    ElementAttrs(s, docs);
  }

  lemma {:induction false} BuiltJoin(s: State, a: Docs, b: Docs)
    requires Shape(s)
    ensures Shape(Built(s, a)) && Built(s, Join(a, b)) == Built(Built(s, a), b)
    decreases b
  {
    hide Built;
    BuiltShape(s, a);
    var j := Join(a, b);
    match b
    case End => BuiltNothing(Built(s, a));
    case Text(front, tok, attrs) =>
      BuiltJoin(s, a, front); BuiltText(s, j); BuiltText(Built(s, a), b);
    case Leaf(front, tok, attrs) =>
      BuiltJoin(s, a, front); BuiltLeaf(s, j); BuiltLeaf(Built(s, a), b);
    case Element(front, start, kids, close, attrs) =>
      BuiltJoin(s, a, front); BuiltElement(s, j); BuiltElement(Built(s, a), b);
  }

  lemma {:induction false} BuiltNothing(s: State)
    requires Shape(s)
    ensures Built(s, End) == s
  {
    var p, n := Top(s), |s.par|;
    assert LayParents<Label>(Empty, p, n) == [] && LayValues<Label>(Empty) == [];
    assert s.par + [] == s.par && s.labels + [] == s.labels && s.attrs + [] == s.attrs;
  }

  // ---- running one piece ----

  /** Attribute tokens go to the last node. */
  lemma {:induction false} RunAttributes(d: Dictionary, s: State, toks: seq<Token>)
    requires |d.tags| == 256 && Shape(s) && AttributeTokens(toks) && d.limits.maxAttributes == 0
    requires s.labels[s.last].attrs == Range(0, 0)
    ensures TokensOk(d, toks)
    ensures Run(d, s, toks) == s.(attrs := s.attrs + Own(s.last, toks),
      labels := s.labels[s.last := s.labels[s.last].(attrs := AttrRange(|s.attrs|, |toks|))])
  {
    if toks == [] {
      assert s.attrs + [] == s.attrs;
      assert s.labels[s.last := s.labels[s.last]] == s.labels;
    } else {
      var n := |toks| - 1;
      hide Run, Step, Shape, ProcessAttribute, Own;
      RunAttributes(d, s, toks[..n]);
      assert toks[..n] + [toks[n]] == toks;
      RunSnoc(d, s, toks[..n], toks[n]);
      OneMoreAttribute(d, s, Run(d, s, toks[..n]), toks);
    }
  }

  lemma {:induction false} OneMoreAttribute(d: Dictionary, s: State, r: State, toks: seq<Token>)
    requires |d.tags| == 256 && Shape(s) && Shape(r) && toks != [] && AttributeTokens(toks) && d.limits.maxAttributes == 0
    requires s.labels[s.last].attrs == Range(0, 0)
    requires var n := |toks| - 1;
      r == s.(attrs := s.attrs + Own(s.last, toks[..n]),
              labels := s.labels[s.last := s.labels[s.last].(attrs := AttrRange(|s.attrs|, n))])
    ensures Step(d, r, toks[|toks| - 1]) == s.(attrs := s.attrs + Own(s.last, toks),
      labels := s.labels[s.last := s.labels[s.last].(attrs := AttrRange(|s.attrs|, |toks|))])
  {
    var n := |toks| - 1;
    assert |r.attrs| == |s.attrs| + n;
    assert r.attrs + [Owned(s.last, AttrOf(toks[n]))] == s.attrs + Own(s.last, toks);
  }

  ghost predicate NoLimits(d: Dictionary) {
    d.limits.maxNodes == 0 && d.limits.maxAttributes == 0 && d.limits.maxParseDepth == 0
  }

  lemma {:induction false} UpdateLast<T>(a: seq<T>, x: T, y: T)
    ensures (a + [x])[|a| := y] == a + [y]
  {
  }

  lemma {:induction false} RunText(d: Dictionary, s: State, tok: Token, attrs: seq<Token>)
    requires |d.tags| == 256 && NoLimits(d) && Shape(s) && tok.typ == TextToken && AttributeTokens(attrs)
    ensures TokensOk(d, [tok] + attrs) && Run(d, s, [tok] + attrs) == AddText(s, tok, attrs)
  {
    hide Run;
    RunOne(d, s, tok);
    var r := ProcessText(d.limits, s, tok);
    RunAttributes(d, r, attrs);
    RunAppend(d, s, [tok], attrs);
    UpdateLast(s.labels, TextLabel(tok.payload), TextLabel(tok.payload).(attrs := AttrRange(|s.attrs|, |attrs|)));
  }

  /** A text node for a stray closer is one for its bytes. */
  lemma {:induction false} StrayAsText(s: State, tok: Token, attrs: seq<Token>)
    requires Shape(s) && tok.typ == TagToken
    ensures Shape(Counted(s, tok)) && AddText(s, tok, attrs) == AddText(Counted(s, tok), DemotedToText(tok), attrs)
  {
  }

  lemma {:induction false} StrayStep(d: Dictionary, s: State, tok: Token)
    requires |d.tags| == 256 && Shape(s) && IsClosingTag(d, tok) && IsStray(d, PeekStack(s), tok) && s.skip[tok.trigger] == 0
    ensures Shape(Noted(Counted(s, tok), [Mismatch(PeekStack(s), tok)]))
    ensures Step(d, s, tok) == Step(d, Noted(Counted(s, tok), [Mismatch(PeekStack(s), tok)]), DemotedToText(tok))
  {
    hide ProcessText;
  }

  /** A stray closer becomes text in place, with one warning. */
  lemma {:induction false} RunStray(d: Dictionary, s: State, tok: Token, attrs: seq<Token>)
    requires |d.tags| == 256 && NoLimits(d) && Shape(s) && AttributeTokens(attrs)
    requires IsClosingTag(d, tok) && IsStray(d, PeekStack(s), tok) && s.skip[tok.trigger] == 0
    ensures TokensOk(d, [tok] + attrs)
    ensures Run(d, s, [tok] + attrs) == Noted(AddText(s, tok, attrs), [Mismatch(PeekStack(s), tok)])
  {
    hide Run, Step, AddText;
    var w, plain := [Mismatch(PeekStack(s), tok)], DemotedToText(tok);
    StrayStep(d, s, tok);
    var c := Noted(Counted(s, tok), w);
    RunOne(d, s, tok);
    RunOne(d, c, plain);
    AttributesOk(d, attrs);
    RunAppend(d, s, [tok], attrs);
    RunAppend(d, c, [plain], attrs);
    RunText(d, c, plain, attrs);
    StrayAsText(s, tok, attrs);
    AddTextNoted(Counted(s, tok), plain, attrs, w);
  }

  lemma {:induction false} RunLeaf(d: Dictionary, s: State, tok: Token, attrs: seq<Token>)
    requires |d.tags| == 256 && NoLimits(d) && Shape(s) && AttributeTokens(attrs)
    requires tok.typ == TagToken && tok.trigger != 0 && Registered(d, tok.trigger)
    requires d.tags[tok.trigger].greed != NonGreedy && s.skip[tok.trigger] == 0
    ensures TokensOk(d, [tok] + attrs) && Run(d, s, [tok] + attrs) == AddLeaf(s, tok, attrs)
  {
    hide Run;
    RunOne(d, s, tok);
    var r := AppendGreedy(d.limits, s, tok);
    RunAttributes(d, r, attrs);
    RunAppend(d, s, [tok], attrs);
    var l, l' := TextLabel(tok.payload), TextLabel(tok.payload).(attrs := AttrRange(|s.attrs|, |attrs|));
    UpdateLast(s.labels + [TagLabel(tok)], l, l');
    Pair(s.labels, TagLabel(tok), l');
    Pair(s.par, Top(s), |s.par|);
  }

  /** The state just after an opening tag. */
  ghost function Entered(s: State, start: Token): State
    requires Shape(s)
  {
    AppendNode(s, Top(s), TagLabel(start)).(
      crumbs := s.crumbs + [|s.par|], stack := s.stack + [start.trigger], widths := s.widths + [start.width],
      maxDepth := Max(s.maxDepth, |s.stack| + 1), last := |s.par|,
      isOpen := s.isOpen[start.trigger := true], tagNodes := s.tagNodes + 1)
  }

  lemma {:induction false} RunStart(d: Dictionary, s: State, start: Token)
    requires |d.tags| == 256 && NoLimits(d) && Shape(s)
    requires start.typ == TagToken && CanOpen(d, start.trigger)
    requires s.skip[start.trigger] == 0 && !s.isOpen[start.trigger]
    ensures TokensOk(d, [start]) && Shape(Entered(s, start)) && Run(d, s, [start]) == Entered(s, start)
  {
    hide Run;
    RunOne(d, s, start);
  }

  /** The matching closer, met with the element's children built, closes the element. */
  lemma {:induction false} RunClose(d: Dictionary, s: State, start: Token, kids: Docs, close: Token)
    requires WfTags(d) && Shape(s) && Brackets(d, start, close) && s.skip[close.trigger] == 0
    requires !s.isOpen[start.trigger]
    ensures Shape(Entered(s, start)) && Shape(Built(Entered(s, start), kids)) && TokensOk(d, [close])
    ensures Run(d, Built(Entered(s, start), kids), [close]) == AddElement(s, start, kids, close, [])
  {
    hide Run;
    var e := Entered(s, start);
    BuiltShape(e, kids);
    var b := Built(e, kids);
    RunOne(d, b, close);
    CloserCloses(d, b, start.trigger, close);
    CloseBuilt(s, start, kids, close);
  }

  lemma {:induction false} CloserCloses(d: Dictionary, b: State, open: Byte, close: Token)
    requires WfTags(d) && Shape(b) && close.typ == TagToken && CanOpen(d, open)
    requires Registered(d, close.trigger) && close.trigger != 0 && close.trigger == d.tags[open].closeID
    requires d.tags[open].IsUniversal() || IsCloser(d, close.trigger)
    requires b.stack != [] && PeekStack(b) == open && b.isOpen[open] && b.skip[close.trigger] == 0
    ensures Step(d, b, close) == CloseTag(b, close)
  {
    hide Shape, CloseTag, ProcessText, ProcessOpening;
    assert WfTag(d.tags[open], open) && WfTag(d.tags[close.trigger], close.trigger);
  }

  lemma {:induction false} CloseBuilt(s: State, start: Token, kids: Docs, close: Token)
    requires Shape(s) && !s.isOpen[start.trigger]
    ensures Shape(Entered(s, start)) && Shape(Built(Entered(s, start), kids))
    ensures CloseTag(Built(Entered(s, start), kids), close) == AddElement(s, start, kids, close, [])
  {
    hide Tree, LayParents, LayValues, AttrLog, Own, Nodes, AttrCount, Elements;
    var e := Entered(s, start);
    BuiltShape(e, kids);
    var b := Built(e, kids);
    var c, a := CloseTag(b, close), AddElement(s, start, kids, close, []);
    var f, n := Tree(kids, |s.attrs|), |s.par|;
    assert b.labels == s.labels + [TagLabel(start)] + LayValues(f);
    UpdateMiddle(s.labels, TagLabel(start), a.labels[n], LayValues(f));
    Pull(s.par, Top(s), LayParents(f, n, n + 1));
    assert Own(n, []) == [] && AttrLog(kids, n + 1) + [] == AttrLog(kids, n + 1) by { NoOwn(n); }
    assert c.crumbs == s.crumbs && c.stack == s.stack && c.isOpen == s.isOpen;
    assert c.widths == a.widths;
  }

  lemma {:induction false} NoOwn(n: nat)
    ensures Own(n, []) == []
  {
  }

  lemma {:induction false} UpdateMiddle<T>(a: seq<T>, x: T, y: T, b: seq<T>)
    ensures (a + [x] + b)[|a| := y] == a + ([y] + b)
  {
  }

  /** Attributes written behind the closer. */
  lemma {:induction false} RunElementAttributes(d: Dictionary, s: State, start: Token, kids: Docs, close: Token, attrs: seq<Token>)
    requires |d.tags| == 256 && NoLimits(d) && Shape(s) && AttributeTokens(attrs)
    ensures Shape(AddElement(s, start, kids, close, [])) && TokensOk(d, attrs)
    ensures Run(d, AddElement(s, start, kids, close, []), attrs) == AddElement(s, start, kids, close, attrs)
  {
    hide Run;
    var a, n := AddElement(s, start, kids, close, []), |s.par|;
    ElementShape(s, start, kids, close);
    RunAttributes(d, a, attrs);
    var l := a.labels[n];
    UpdateMiddle(s.labels, l, l.(attrs := AttrRange(|a.attrs|, |attrs|)), LayValues(Tree(kids, |s.attrs|)));
    Pull(s.labels, l, LayValues(Tree(kids, |s.attrs|)));
    assert AttrLog(kids, n + 1) + Own(n, []) == AttrLog(kids, n + 1);
    Shift(s.attrs, AttrLog(kids, n + 1), Own(n, attrs));
  }

  lemma {:induction false} ElementShape(s: State, start: Token, kids: Docs, close: Token)
    requires Shape(s)
    ensures Shape(AddElement(s, start, kids, close, []))
  {
    var a, n := AddElement(s, start, kids, close, []), |s.par|;
    var log := AttrLog(kids, n + 1);
    assert log + Own(n, []) == log;
    OwnersInside(kids, n + 1);
    TreeSize(kids, |s.attrs|);
    forall i | 0 <= i < |a.attrs| ensures a.attrs[i].owner < |a.par| {
      if i >= |s.attrs| {
        assert a.attrs[i] == log[i - |s.attrs|];
      }
    }
  }

  // ---- the main theorem ----

  ghost function OpenSet(s: State): set<Byte>
    requires |s.isOpen| == 256
  {
    set b: Byte | 0 <= b < 256 && s.isOpen[b]
  }

  ghost predicate IsBracket(d: Dictionary, b: Byte)
    requires |d.tags| == 256
  {
    CanOpen(d, b) && d.tags[b].IsOpening()
  }

  /** Two brackets with one closer. */
  ghost predicate ShareCloser(d: Dictionary, a: Byte, b: Byte)
    requires |d.tags| == 256
  {
    a != b && IsBracket(d, a) && IsBracket(d, b) && d.tags[a].closeID == d.tags[b].closeID && IsCloser(d, d.tags[a].closeID)
  }

  /** Each closer is the closer of a single bracket. */
  ghost predicate ClosersAreInjective(d: Dictionary)
    requires |d.tags| == 256
  {
    forall a: Byte, b: Byte :: !ShareCloser(d, a, b)
  }

  /** The tag is the closer of an open bracket, or an open universal tag. */
  ghost predicate Awaited(d: Dictionary, s: State, b: Byte)
    requires |d.tags| == 256 && Shape(s)
  {
    || (IsCloser(d, b) && exists a: Byte :: s.isOpen[a] && IsBracket(d, a) && d.tags[a].closeID == b)
    || (CanOpen(d, b) && d.tags[b].IsUniversal() && s.isOpen[b])
  }

  /** Only such tags are waiting to be skipped. */
  ghost predicate SkipOk(d: Dictionary, s: State)
    requires |d.tags| == 256 && Shape(s)
  {
    forall b: Byte :: s.skip[b] > 0 ==> Awaited(d, s, b)
  }

  /** None of the document's own openers and stray closers is. */
  ghost predicate Clear(s: State, docs: Docs)
    requires |s.skip| == 256
  {
    forall b: Byte :: b in Openers(docs) || b in Strays(docs) ==> s.skip[b] == 0
  }

  ghost predicate Ready(d: Dictionary, s: State, on: set<Byte>) {
    WfTags(d) && NoLimits(d) && Shape(s) && on == OpenSet(s) && SkipOk(d, s)
  }

  ghost predicate Unskipped(s: State) {
    forall i :: 0 <= i < |s.skip| ==> s.skip[i] == 0
  }

  function Noted(s: State, ws: seq<Warning>): State {
    s.(warns := s.warns + ws)
  }

  /** What running `docs` from s is claimed to do. */
  ghost predicate RunsTo(d: Dictionary, s: State, on: set<Byte>, docs: Docs)
    requires |d.tags| == 256 && Shape(s)
  {
    && TokensOk(d, Print(docs)) && Shape(Built(s, Spliced(on, docs)))
    && Run(d, s, Print(docs)) == Noted(Built(s, Spliced(on, docs)), ParseWarnings(on, PeekStack(s), docs))
  }

  lemma {:induction false} NothingSkipped(d: Dictionary, s: State, on: set<Byte>, b: Byte)
    requires Ready(d, s, on) && (IsBracket(d, b) || d.tags[b].greed != NonGreedy)
    ensures s.skip[b] == 0
  {
    assert !Awaited(d, s, b);
  }

  lemma {:induction false} CloserNotSkipped(d: Dictionary, s: State, on: set<Byte>, start: Token, close: Token)
    requires Ready(d, s, on) && Brackets(d, start, close) && start.trigger !in on && s.skip[start.trigger] == 0
    requires ClosersAreInjective(d) || Unskipped(s)
    ensures s.skip[close.trigger] == 0
  {
    if Unskipped(s) {
    } else if d.tags[start.trigger].IsUniversal() {
      assert WfTag(d.tags[start.trigger], start.trigger);
    } else {
      assert IsBracket(d, start.trigger) && !s.isOpen[start.trigger];
      forall a: Byte | IsBracket(d, a) && d.tags[a].closeID == close.trigger ensures a == start.trigger {
        assert !ShareCloser(d, a, start.trigger);
      }
      assert !Awaited(d, s, close.trigger) by { assert WfTag(d.tags[close.trigger], close.trigger); }
    }
  }

  /** Building changes neither the stack tables nor the skip counters, and warnings do not matter to it. */
  lemma {:induction false} BuiltReady(d: Dictionary, s: State, on: set<Byte>, docs: Docs, ws: seq<Warning>)
    requires Ready(d, s, on)
    ensures Ready(d, Noted(Built(s, docs), ws), on)
  {
    hide Tree, LayParents, LayValues, AttrLog;
    BuiltShape(s, docs);
  }

  lemma {:induction false} EnteredReady(d: Dictionary, s: State, on: set<Byte>, start: Token)
    requires Ready(d, s, on) && start.trigger !in on
    ensures Ready(d, Entered(s, start), on + {start.trigger})
  {
    var e := Entered(s, start);
    forall b: Byte | e.skip[b] > 0 ensures Awaited(d, e, b) {
      StaysAwaited(d, s, e, b);
    }
    assert OpenSet(e) == on + {start.trigger};
  }

  /** A repeated opener: a warning, and its closer will be skipped. */
  ghost function Repeated(d: Dictionary, s: State, start: Token): State
    requires |d.tags| == 256 && |s.skip| == 256
  {
    var c := d.tags[start.trigger].closeID;
    Noted(s, [Warning(DuplicateNestedTag, start.pos, start.trigger, 0, 0, 0)]).(skip := s.skip[c := s.skip[c] + 1])
  }

  /** A tag stays awaited as long as no tag closes. */
  lemma {:induction false} StaysAwaited(d: Dictionary, s: State, e: State, b: Byte)
    requires |d.tags| == 256 && Shape(s) && Shape(e) && Awaited(d, s, b) && forall a: Byte :: s.isOpen[a] ==> e.isOpen[a]
    ensures Awaited(d, e, b)
  {
    if IsCloser(d, b) && exists a: Byte :: s.isOpen[a] && IsBracket(d, a) && d.tags[a].closeID == b {
      var a: Byte :| s.isOpen[a] && IsBracket(d, a) && d.tags[a].closeID == b;
      assert e.isOpen[a];
    }
  }

  lemma {:induction false} RepeatedTop(d: Dictionary, s: State, start: Token)
    requires |d.tags| == 256 && Shape(s)
    ensures PeekStack(Repeated(d, s, start)) == PeekStack(s)
  {
  }

  lemma {:induction false} RepeatedReady(d: Dictionary, s: State, on: set<Byte>, start: Token, close: Token)
    requires Ready(d, s, on) && start.trigger in on && Brackets(d, start, close)
    ensures Ready(d, Repeated(d, s, start), on)
  {
    var e := Repeated(d, s, start);
    forall b: Byte | e.skip[b] > 0 ensures Awaited(d, e, b) {
      if b == close.trigger {
        assert WfTag(d.tags[start.trigger], start.trigger);
        assert e.isOpen[start.trigger];
      } else {
        StaysAwaited(d, s, e, b);
      }
    }
    assert OpenSet(e) == on;
  }

  /** Inside a repetition its content's openers are still clear. */
  lemma {:induction false} RepeatedClear(d: Dictionary, s: State, start: Token, close: Token, kids: Docs)
    requires WfTags(d) && Shape(s) && Brackets(d, start, close) && WfDocs(d, kids) && Clear(s, kids)
    requires d.tags[start.trigger].IsUniversal() ==> start.trigger !in Openers(kids)
    requires d.tags[start.trigger].closeID !in Strays(kids)
    ensures Clear(Repeated(d, s, start), kids)
  {
    OpenersOpen(d, kids);
    assert WfTag(d.tags[start.trigger], start.trigger) && WfTag(d.tags[close.trigger], close.trigger);
    assert close.trigger !in Openers(kids);
  }

  lemma {:induction false} OpenersOpen(d: Dictionary, docs: Docs)
    requires |d.tags| == 256 && WfDocs(d, docs)
    ensures forall b: Byte :: b in Openers(docs) ==> CanOpen(d, b)
  {
    match docs
    case End =>
    case Text(front, _, _) => OpenersOpen(d, front);
    case Leaf(front, _, _) => OpenersOpen(d, front);
    case Element(front, start, kids, _, _) =>
      OpenersOpen(d, front);
      OpenersOpen(d, kids);
  }

  lemma {:induction false} AddTextNoted(s: State, tok: Token, attrs: seq<Token>, ws: seq<Warning>)
    requires Shape(s)
    ensures AddText(Noted(s, ws), tok, attrs) == Noted(AddText(s, tok, attrs), ws)
  {
    hide Own, AttrRange, Shown, TextLabel, Shape;
    assert |s.widths| > 0 && |s.crumbs| > 0 by { HasFrames(s); }
  }

  lemma {:induction false} AddLeafNoted(s: State, tok: Token, attrs: seq<Token>, ws: seq<Warning>)
    requires Shape(s)
    ensures AddLeaf(Noted(s, ws), tok, attrs) == Noted(AddLeaf(s, tok, attrs), ws)
  {
    hide Own, AttrRange, TextLabel, TagLabel, Shape;
    assert |s.widths| > 0 && |s.crumbs| > 0 by { HasFrames(s); }
  }

  lemma {:induction false} HasFrames(s: State)
    requires Shape(s)
    ensures |s.widths| > 0 && |s.crumbs| > 0
  {
  }

  lemma {:induction false} TextRuns(d: Dictionary, s: State, on: set<Byte>, docs: Docs)
    requires Ready(d, s, on) && docs.Text? && WfDocs(d, docs) && RunsTo(d, s, on, docs.front)
    requires docs.tok.typ != TextToken ==> IsStray(d, PeekStack(s), docs.tok) && s.skip[docs.tok.trigger] == 0
    ensures RunsTo(d, s, on, docs)
  {
    hide Run, Built, Shape, AddText, AddLeaf;
    var f, ws := Spliced(on, docs.front), ParseWarnings(on, PeekStack(s), docs.front);
    var s1 := Noted(Built(s, f), ws);
    BuiltReady(d, s, on, f, ws);
    BuiltKeepsStack(s, f, ws);
    AddTextNoted(Built(s, f), docs.tok, docs.attrs, ws);
    if docs.tok.typ == TextToken {
      RunText(d, s1, docs.tok, docs.attrs);
      assert ws + [] == ws;
    } else {
      RunStray(d, s1, docs.tok, docs.attrs);
      NotedTwice(AddText(Built(s, f), docs.tok, docs.attrs), ws, [Mismatch(PeekStack(s), docs.tok)]);
    }
    RunAppend(d, s, Print(docs.front), [docs.tok] + docs.attrs);
    BuiltText(s, Spliced(on, docs));
    BuiltShape(s, Spliced(on, docs));
  }

  lemma {:induction false} LeafRuns(d: Dictionary, s: State, on: set<Byte>, docs: Docs)
    requires Ready(d, s, on) && docs.Leaf? && WfDocs(d, docs) && RunsTo(d, s, on, docs.front)
    ensures RunsTo(d, s, on, docs)
  {
    hide Run, Built, Shape, AddText, AddLeaf;
    var f := Spliced(on, docs.front);
    var s1 := Noted(Built(s, f), ParseWarnings(on, PeekStack(s), docs.front));
    BuiltReady(d, s, on, f, ParseWarnings(on, PeekStack(s), docs.front));
    NothingSkipped(d, s1, on, docs.tok.trigger);
    RunLeaf(d, s1, docs.tok, docs.attrs);
    RunAppend(d, s, Print(docs.front), [docs.tok] + docs.attrs);
    BuiltLeaf(s, Spliced(on, docs));
    BuiltShape(s, Spliced(on, docs));
    AddLeafNoted(Built(s, f), docs.tok, docs.attrs, ParseWarnings(on, PeekStack(s), docs.front));
  }

  /** Four runs in a row. */
  lemma {:induction false} RunFour(d: Dictionary, s: State, a: seq<Token>, x: Token, b: seq<Token>, y: Token, c: seq<Token>)
    requires |d.tags| == 256 && Shape(s) && TokensOk(d, a) && TokenOk(d, x) && TokensOk(d, b) && TokenOk(d, y) && TokensOk(d, c)
    ensures TokensOk(d, [x]) && TokensOk(d, [y]) && TokensOk(d, a + ([x] + (b + ([y] + c))))
    ensures Run(d, s, a + ([x] + (b + ([y] + c)))) == Run(d, Run(d, Run(d, Run(d, Run(d, s, a), [x]), b), [y]), c)
  {
    hide Run, Shape;
    RunAppend(d, s, a, [x] + (b + ([y] + c)));
    var s1 := Run(d, s, a);
    RunAppend(d, s1, [x], b + ([y] + c));
    var s2 := Run(d, s1, [x]);
    RunAppend(d, s2, b, [y] + c);
    RunAppend(d, Run(d, s2, b), [y], c);
  }

  /** Warnings noted before building can be noted after it. */
  lemma {:induction false} NotedBuilt(s: State, docs: Docs, ws: seq<Warning>)
    requires Shape(s)
    ensures Built(Noted(s, ws), docs) == Noted(Built(s, docs), ws)
  {
    hide Tree, LayParents, LayValues, AttrLog;
  }

  /** A tag that is not open yet: the element is built around the built children. */
  lemma {:induction false} ElementRuns(d: Dictionary, s: State, on: set<Byte>, docs: Docs)
    requires Ready(d, s, on) && docs.Element? && docs.start.trigger !in on && WfDocs(d, docs) && s.skip[docs.start.trigger] == 0
    requires ClosersAreInjective(d) || Unskipped(s)
    requires RunsTo(d, s, on, docs.front)
    requires var s1 := Noted(Built(s, Spliced(on, docs.front)), ParseWarnings(on, PeekStack(s), docs.front));
      Shape(s1) && Shape(Entered(s1, docs.start))
      && RunsTo(d, Entered(s1, docs.start), on + {docs.start.trigger}, docs.kids)
    ensures RunsTo(d, s, on, docs)
  {
    hide Run, Built, Shape, LayParents, LayValues, Entered, AddElement, Tree, AttrLog;
    var f, inner := Spliced(on, docs.front), Spliced(on + {docs.start.trigger}, docs.kids);
    var ws, ws' := ParseWarnings(on, PeekStack(s), docs.front), ParseWarnings(on + {docs.start.trigger}, docs.start.trigger, docs.kids);
    var s1 := Noted(Built(s, f), ws);
    BuiltReady(d, s, on, f, ws);
    BuiltUnskipped(s, f, ws);
    RunStart(d, s1, docs.start);
    EnteredTop(s1, docs.start);
    // the children's warnings, noted at the start instead
    var s2 := Noted(s1, ws');
    NotedTwice(Built(s, f), ws, ws');
    BuiltReady(d, s, on, f, ws + ws');
    EnteredNoted(s1, docs.start, ws');
    NotedBuilt(Entered(s1, docs.start), inner, ws');
    BuiltUnskipped(s, f, ws + ws');
    CloserNotSkipped(d, s2, on, docs.start, docs.close);
    RunClose(d, s2, docs.start, inner, docs.close);
    RunElementAttributes(d, s2, docs.start, inner, docs.close, docs.attrs);
    RunFour(d, s, Print(docs.front), docs.start, Print(docs.kids), docs.close, docs.attrs);
    BuiltElement(s, Spliced(on, docs));
    BuiltShape(s, Spliced(on, docs));
    AddElementNoted(Built(s, f), docs.start, inner, docs.close, docs.attrs, ws + ws');
    assert [] + ws' == ws';
  }

  lemma {:induction false} NotedTwice(s: State, ws: seq<Warning>, ws': seq<Warning>)
    ensures Noted(Noted(s, ws), ws') == Noted(s, ws + ws')
  {
    Shift(s.warns, ws, ws');
  }

  lemma {:induction false} EnteredTop(s: State, start: Token)
    requires Shape(s)
    ensures PeekStack(Entered(s, start)) == start.trigger && Entered(s, start).skip == s.skip
  {
  }

  lemma {:induction false} EnteredNoted(s: State, start: Token, ws: seq<Warning>)
    requires Shape(s)
    ensures Entered(Noted(s, ws), start) == Noted(Entered(s, start), ws)
  {
  }

  lemma {:induction false} AddElementNoted(s: State, start: Token, kids: Docs, close: Token, attrs: seq<Token>, ws: seq<Warning>)
    requires Shape(s)
    ensures AddElement(Noted(s, ws), start, kids, close, attrs) == Noted(AddElement(s, start, kids, close, attrs), ws)
  {
    hide Tree, LayParents, LayValues, AttrLog, Own;
  }

  lemma {:induction false} BuiltRepeated(d: Dictionary, s: State, start: Token, docs: Docs)
    requires |d.tags| == 256 && Shape(s) && Shape(Repeated(d, s, start))
    ensures Shape(Built(s, docs))
    ensures Built(Repeated(d, s, start), docs) == Repeated(d, Built(s, docs), start)
  {
    BuiltShape(s, docs);
    hide Tree, LayParents, LayValues, AttrLog;
  }

  /** The closer of a repeated opener only takes back the skip. */
  lemma {:induction false} RepeatedCloses(d: Dictionary, b: State, start: Token, close: Token, ws: seq<Warning>)
    requires |d.tags| == 256 && Shape(b) && close.typ == TagToken && Registered(d, close.trigger) && close.trigger != 0
    requires close.trigger == d.tags[start.trigger].closeID
    ensures Shape(Noted(Repeated(d, b, start), ws)) && TokensOk(d, [close])
    ensures Run(d, Noted(Repeated(d, b, start), ws), [close])
         == Noted(b, [Warning(DuplicateNestedTag, start.pos, start.trigger, 0, 0, 0)] + ws)
  {
    hide AppendGreedy, ProcessUniversal, ProcessOpening, ProcessClosing, Run;
    RunOne(d, Noted(Repeated(d, b, start), ws), close);
    var r, c := Noted(Repeated(d, b, start), ws), close.trigger;
    assert r.skip[c := r.skip[c] - 1] == b.skip;
    Shift(b.warns, [Warning(DuplicateNestedTag, start.pos, start.trigger, 0, 0, 0)], ws);
  }

  lemma {:induction false} RunRepeated(d: Dictionary, s: State, on: set<Byte>, start: Token)
    requires Ready(d, s, on) && start.typ == TagToken && start.trigger in on && CanOpen(d, start.trigger)
    requires s.skip[start.trigger] == 0 && (d.tags[start.trigger].IsUniversal() ==> start.trigger != PeekStack(s))
    ensures TokensOk(d, [start]) && Run(d, s, [start]) == Repeated(d, s, start)
  {
    hide Run;
    RunOne(d, s, start);
  }

  lemma {:induction false} MoreOnText(d: Dictionary, b: State, tok: Token, attrs: seq<Token>, more: seq<Token>)
    requires |d.tags| == 256 && NoLimits(d) && Shape(b) && AttributeTokens(attrs) && AttributeTokens(more)
    requires tok.typ == TextToken || tok.typ == TagToken
    ensures TokensOk(d, more) && Shape(AddText(b, tok, attrs)) && Run(d, AddText(b, tok, attrs), more) == AddText(b, tok, attrs + more)
  {
    hide Run, Shape, AddText;
    if tok.typ == TagToken {
      StrayAsText(b, tok, attrs);
      StrayAsText(b, tok, attrs + more);
    }
    var c, plain := Counted(b, tok), if tok.typ == TextToken then tok else DemotedToText(tok);
    RunText(d, c, plain, attrs);
    RunText(d, c, plain, attrs + more);
    RunAppend(d, c, [plain] + attrs, more);
    assert [plain] + attrs + more == [plain] + (attrs + more);
  }

  /** More attributes go to the last piece. */
  lemma {:induction false} RunMore(d: Dictionary, s: State, on: set<Byte>, docs: Docs, more: seq<Token>)
    requires Ready(d, s, on) && WfDocs(d, docs) && AttributeTokens(more) && (docs != End || more == [])
    ensures TokensOk(d, more) && Shape(Built(s, docs)) && Run(d, Built(s, docs), more) == Built(s, WithAttrs(docs, more))
  {
    hide Run, Built, Shape, AddText, AddLeaf, AddElement, SkipOk;
    BuiltShape(s, docs);
    match docs
    case End => RunNothing(d, Built(s, docs));
    case Text(front, tok, attrs) =>
      var b := Built(s, front);
      BuiltText(s, docs);
      BuiltText(s, WithAttrs(docs, more));
      MoreOnText(d, b, tok, attrs, more);
    case Leaf(front, tok, attrs) =>
      var b := Built(s, front);
      BuiltLeaf(s, docs);
      BuiltLeaf(s, WithAttrs(docs, more));
      NothingSkipped(d, s, on, tok.trigger);
      BuiltUnskipped(s, front, []);
      RunLeaf(d, b, tok, attrs);
      RunLeaf(d, b, tok, attrs + more);
      RunAppend(d, b, [tok] + attrs, more);
      assert [tok] + attrs + more == [tok] + (attrs + more);
    case Element(front, start, kids, close, attrs) =>
      var b := Built(s, front);
      BuiltElement(s, docs);
      BuiltElement(s, WithAttrs(docs, more));
      RunElementAttributes(d, b, start, kids, close, attrs);
      RunElementAttributes(d, b, start, kids, close, attrs + more);
      RunAppend(d, AddElement(b, start, kids, close, []), attrs, more);
  }

  lemma {:induction false} JoinWf(d: Dictionary, a: Docs, b: Docs)
    requires |d.tags| == 256 && WfDocs(d, a) && WfDocs(d, b)
    ensures WfDocs(d, Join(a, b))
    decreases b
  {
    match b
    case End =>
    case Text(front, _, _) => JoinWf(d, a, front);
    case Leaf(front, _, _) => JoinWf(d, a, front);
    case Element(front, _, _, _, _) => JoinWf(d, a, front);
  }

  lemma {:induction false} SplicedWf(d: Dictionary, on: set<Byte>, docs: Docs)
    requires |d.tags| == 256 && WfDocs(d, docs)
    ensures WfDocs(d, Spliced(on, docs))
    decreases docs
  {
    match docs
    case End =>
    case Text(front, _, _) => SplicedWf(d, on, front);
    case Leaf(front, _, _) => SplicedWf(d, on, front);
    case Element(front, start, kids, _, _) =>
      SplicedWf(d, on, front);
      SplicedWf(d, on + {start.trigger}, kids);
      if start.trigger in on {
        JoinWf(d, Spliced(on, front), Spliced(on + {start.trigger}, kids));
      }
  }

  lemma {:induction false} JoinEnds(a: Docs, b: Docs)
    ensures Join(a, b) == End <==> a == End && b == End
  {
  }

  /** Up to the closer of a repeated tag its content is built in place, with one warning more. */
  lemma {:induction false} RepeatedCore(d: Dictionary, s: State, on: set<Byte>, docs: Docs)
    requires Ready(d, s, on) && docs.Element? && docs.start.trigger in on && WfDocs(d, docs)
    requires d.tags[docs.start.trigger].IsUniversal() ==> docs.start.trigger != PeekStack(s)
    requires s.skip[docs.start.trigger] == 0 && RunsTo(d, s, on, docs.front)
    requires var s1 := Noted(Built(s, Spliced(on, docs.front)), ParseWarnings(on, PeekStack(s), docs.front));
      Shape(s1) && Shape(Repeated(d, s1, docs.start)) && RunsTo(d, Repeated(d, s1, docs.start), on, docs.kids)
    ensures on + {docs.start.trigger} == on && TokensOk(d, Print(docs))
    ensures var j := Join(Spliced(on, docs.front), Spliced(on, docs.kids));
      var b := Noted(Built(s, j), ParseWarnings(on, PeekStack(s), docs));
      TokensOk(d, docs.attrs) && Shape(b) && Run(d, s, Print(docs)) == Run(d, b, docs.attrs)
  {
    hide Run, Built, Shape, Repeated;
    assert on + {docs.start.trigger} == on;
    var f, inner := Spliced(on, docs.front), Spliced(on, docs.kids);
    var ws, ws' := ParseWarnings(on, PeekStack(s), docs.front), ParseWarnings(on, PeekStack(s), docs.kids);
    var w := Warning(DuplicateNestedTag, docs.start.pos, docs.start.trigger, 0, 0, 0);
    var s1 := Noted(Built(s, f), ws);
    BuiltReady(d, s, on, f, ws);
    BuiltKeepsStack(s, f, ws);
    RepeatedTop(d, s1, docs.start);
    RunRepeated(d, s1, on, docs.start);
    BuiltRepeated(d, s1, docs.start, inner);
    RepeatedCloses(d, Built(s1, inner), docs.start, docs.close, ws');
    AttributesOk(d, docs.attrs);
    RunFour(d, s, Print(docs.front), docs.start, Print(docs.kids), docs.close, docs.attrs);
    BuiltShape(s, f);
    NotedBuilt(Built(s, f), inner, ws);
    BuiltJoin(s, f, inner);
    NotedTwice(Built(s, Join(f, inner)), ws, [w] + ws');
    BuiltShape(s, Join(f, inner));
  }

  lemma {:induction false} BuiltKeepsStack(s: State, docs: Docs, ws: seq<Warning>)
    requires Shape(s)
    ensures var r := Noted(Built(s, docs), ws); r.skip == s.skip && r.stack == s.stack
  {
  }

  lemma {:induction false} AttributesOk(d: Dictionary, toks: seq<Token>)
    requires |d.tags| == 256 && AttributeTokens(toks)
    ensures TokensOk(d, toks)
  {
  }

  /** A tag that is open already: its content is built in place, and its attributes go to what stands
   *  before them. */
  lemma {:induction false} RepeatedRuns(d: Dictionary, s: State, on: set<Byte>, docs: Docs)
    requires Ready(d, s, on) && docs.Element? && docs.start.trigger in on && WfDocs(d, docs)
    requires CanSplice(d, on, PeekStack(s), docs) && s.skip[docs.start.trigger] == 0 && RunsTo(d, s, on, docs.front)
    requires var s1 := Noted(Built(s, Spliced(on, docs.front)), ParseWarnings(on, PeekStack(s), docs.front));
      Shape(s1) && Shape(Repeated(d, s1, docs.start)) && RunsTo(d, Repeated(d, s1, docs.start), on, docs.kids)
    ensures RunsTo(d, s, on, docs)
  {
    hide Run, Built, Shape, Repeated, Print, ParseWarnings;
    RepeatedCore(d, s, on, docs);
    var f, inner, ws := Spliced(on, docs.front), Spliced(on, docs.kids), ParseWarnings(on, PeekStack(s), docs);
    var j := Join(f, inner);
    SplicedWf(d, on, docs.front);
    SplicedWf(d, on, docs.kids);
    JoinWf(d, f, inner);
    JoinEnds(f, inner);
    var n := Noted(s, ws);
    NotedReady(d, s, on, ws);
    NotedBuilt(s, j, ws);
    NotedBuilt(s, WithAttrs(j, docs.attrs), ws);
    RunMore(d, n, on, j, docs.attrs);
    BuiltShape(s, Spliced(on, docs));
  }

  lemma {:induction false} NotedReady(d: Dictionary, s: State, on: set<Byte>, ws: seq<Warning>)
    requires Ready(d, s, on)
    ensures Ready(d, Noted(s, ws), on)
  {
    var n := Noted(s, ws);
    forall b: Byte | n.skip[b] > 0 ensures Awaited(d, n, b) {
      StaysAwaited(d, s, n, b);
    }
    assert OpenSet(n) == OpenSet(s);
  }

  /** Printing a document and running the dispatch loop over it builds the spliced document's tree
   *  below the innermost open node, and leaves stacks and skip counters as they were. */
  lemma {:induction false} RunDocs(d: Dictionary, s: State, on: set<Byte>, docs: Docs)
    requires Ready(d, s, on) && WfDocs(d, docs) && CanSplice(d, on, PeekStack(s), docs) && Clear(s, docs)
    requires ClosersAreInjective(d) || (Unskipped(s) && NoRepeats(on, docs))
    ensures RunsTo(d, s, on, docs)
    decreases docs, 1
  {
    hide RunsTo, Built, SkipOk;
    match docs
    case End => EndRuns(d, s, on);
    case Text(front, tok, attrs) =>
      RunDocs(d, s, on, front);
      TextRuns(d, s, on, docs);
    case Leaf(front, tok, attrs) =>
      RunDocs(d, s, on, front);
      LeafRuns(d, s, on, docs);
    case Element(front, start, kids, close, attrs) =>
      RunDocs(d, s, on, front);
      RunElement(d, s, on, docs);
  }

  lemma {:induction false} RunElement(d: Dictionary, s: State, on: set<Byte>, docs: Docs)
    requires docs.Element? && Ready(d, s, on) && WfDocs(d, docs) && CanSplice(d, on, PeekStack(s), docs) && Clear(s, docs)
    requires ClosersAreInjective(d) || (Unskipped(s) && NoRepeats(on, docs))
    requires RunsTo(d, s, on, docs.front)
    ensures RunsTo(d, s, on, docs)
    decreases docs, 0
  {
    hide RunsTo, Built, SkipOk, ParseWarnings, Spliced;
    var start, kids := docs.start, docs.kids;
    var f, ws := Spliced(on, docs.front), ParseWarnings(on, PeekStack(s), docs.front);
    BuiltReady(d, s, on, f, ws);
    BuiltKeepsStack(s, f, ws);
    var s1 := Noted(Built(s, f), ws);
    if start.trigger in on {
      assert on + {start.trigger} == on;
      RepeatedReady(d, s1, on, start, docs.close);
      RepeatedClear(d, s1, start, docs.close, kids);
      RepeatedTop(d, s1, start);
      RunDocs(d, Repeated(d, s1, start), on, kids);
      RepeatedRuns(d, s, on, docs);
    } else {
      EnteredReady(d, s1, on, start);
      EnteredTop(s1, start);
      RunDocs(d, Entered(s1, start), on + {start.trigger}, kids);
      ElementRuns(d, s, on, docs);
    }
  }

  lemma {:induction false} BuiltUnskipped(s: State, docs: Docs, ws: seq<Warning>)
    requires Shape(s)
    ensures Noted(Built(s, docs), ws).skip == s.skip
  {
  }

  lemma {:induction false} EndRuns(d: Dictionary, s: State, on: set<Byte>)
    requires Ready(d, s, on)
    ensures RunsTo(d, s, on, End)
  {
    BuiltNothing(s);
    assert Noted(s, []) == s;
  }

  // ---- whole parses ----

  /** What a parse of the document `t` (one without repeats) must deliver. */
  ghost predicate ParseIs(s: State, t: Docs, ws: seq<Warning>)
    requires Shape(s)
  {
    && Valid(s.par)
    && Below(s.par, s.labels, -1) == Snoc(Empty, ROOT.(span := Span(0, NetWidth(t))), Tree(t, 0))
    && s.attrs == AttrLog(t, 1)
    && s.tagNodes == Elements(t) && s.maxDepth == Max(1, Height(t))
    && s.textNodes == StrayCount(t) && s.textLen == StrayBytes(t)
    && s.warns == ws
    && s.stack == [] && s.crumbs == [0] && Unskipped(s) && (forall b: Byte :: !s.isOpen[b])
  }

  /** Duplicate elision: if each closer closes a single opener, parsing the printed form of a
   *  document gives the tree of the document with every repeated tag replaced by its content, with
   *  one warning per repeat; with no repeats, the document's own tree, exactly. */
  lemma {:induction false} ParsePrinted(d: Dictionary, docs: Docs)
    requires WfTags(d) && NoLimits(d) && WfDocs(d, docs) && CanSplice(d, {}, 0, docs)
    requires ClosersAreInjective(d) || NoRepeats({}, docs)
    ensures TokensOk(d, Print(docs))
    ensures ParseIs(Parsed(d, Print(docs)), Spliced({}, docs), ParseWarnings({}, 0, docs))
  {
    hide Run, Tree, AttrLog, NetWidth, Height, Elements;
    var s, t, ws := Start(), Spliced({}, docs), ParseWarnings({}, 0, docs);
    assert OpenSet(s) == {};
    RunDocs(d, s, {}, docs);
    var b := Noted(Built(s, t), ws);
    BuiltShape(s, t);
    FinishBuilt(d, t, ws);
  }

  lemma {:induction false} FinishBuilt(d: Dictionary, t: Docs, ws: seq<Warning>)
    requires |d.tags| == 256 && Shape(Built(Start(), t))
    ensures ParseIs(Finish(d, Noted(Built(Start(), t), ws)), t, ws)
  {
    hide Tree, AttrLog, NetWidth, Elements, LayParents, LayValues, Below;
    var b := Noted(Built(Start(), t), ws);
    var r, f := Finish(d, b), Tree(t, 0);
    var root := ROOT.(span := Span(0, NetWidth(t)));
    assert ForceClose(d, b) == b;
    assert r.par == [-1] + LayParents(f, 0, 1);
    assert b.labels == [ROOT] + LayValues(f);
    assert r.labels == [root] + LayValues(f);
    RootedLayout(root, f);
    LayRoundTrip(Snoc(Empty, root, f));
    assert [] + AttrLog(t, 1) == AttrLog(t, 1);
    assert [] + ws == ws;
  }

  lemma {:induction false} RootedLayout(root: Label, f: Forest<Label>)
    ensures LayParents(Snoc(Empty, root, f), -1, 0) == [-1] + LayParents(f, 0, 1)
    ensures LayValues(Snoc(Empty, root, f)) == [root] + LayValues(f)
  {
    assert LayParents<Label>(Empty, -1, 0) == [] && LayValues<Label>(Empty) == [] && Size<Label>(Empty) == 0;
  }

  lemma {:induction false} NothingToSplice(on: set<Byte>, docs: Docs)
    requires NoRepeats(on, docs)
    ensures Spliced(on, docs) == docs
    decreases docs
  {
    match docs
    case End =>
    case Text(front, _, _) => NothingToSplice(on, front);
    case Leaf(front, _, _) => NothingToSplice(on, front);
    case Element(front, start, kids, _, _) =>
      NothingToSplice(on, front);
      NothingToSplice(on + {start.trigger}, kids);
  }

  /** Without repetitions and stray closers there is nothing to warn of. */
  lemma {:induction false} NothingToWarn(on: set<Byte>, top: Byte, docs: Docs)
    requires NoRepeats(on, docs) && StrayCount(docs) == 0
    ensures ParseWarnings(on, top, docs) == []
    decreases docs
  {
    match docs
    case End =>
    case Text(front, _, _) => NothingToWarn(on, top, front);
    case Leaf(front, _, _) => NothingToWarn(on, top, front);
    case Element(front, start, kids, _, _) =>
      NothingToWarn(on, top, front);
      NothingToWarn(on + {start.trigger}, start.trigger, kids);
  }

  lemma {:induction false} NoStraysFit(d: Dictionary, top: Byte, docs: Docs)
    requires |d.tags| == 256 && StrayCount(docs) == 0
    ensures StraysFit(d, top, docs)
    decreases docs
  {
    match docs
    case End =>
    case Text(front, _, _) => NoStraysFit(d, top, front);
    case Leaf(front, _, _) => NoStraysFit(d, top, front);
    case Element(front, start, kids, _, _) =>
      NoStraysFit(d, top, front);
      NoStraysFit(d, start.trigger, kids);
  }

  lemma {:induction false} NoRepeatsCanSplice(d: Dictionary, on: set<Byte>, top: Byte, docs: Docs)
    requires |d.tags| == 256 && NoRepeats(on, docs) && StraysFit(d, top, docs)
    ensures CanSplice(d, on, top, docs)
    decreases docs
  {
    match docs
    case End =>
    case Text(front, _, _) => NoRepeatsCanSplice(d, on, top, front);
    case Leaf(front, _, _) => NoRepeatsCanSplice(d, on, top, front);
    case Element(front, start, kids, _, _) =>
      NoRepeatsCanSplice(d, on, top, front);
      NoRepeatsCanSplice(d, on + {start.trigger}, start.trigger, kids);
  }

  /** Round trip: for every document with no tag repeated along a path, and any dictionary, the
   *  parse of its printed form is exactly its tree, with its stray closers as text in place. The only
   *  warnings are one for each of those; without any there is none. */
  lemma {:induction false} ParseOfPrintIsIdentity(d: Dictionary, docs: Docs)
    requires WfTags(d) && NoLimits(d) && WfDocs(d, docs) && NoRepeats({}, docs) && StraysFit(d, 0, docs)
    ensures TokensOk(d, Print(docs)) && ParseIs(Parsed(d, Print(docs)), docs, ParseWarnings({}, 0, docs))
    ensures StrayCount(docs) == 0 ==> ParseWarnings({}, 0, docs) == []
  {
    NothingToSplice({}, docs);
    NoRepeatsCanSplice(d, {}, 0, docs);
    ParsePrinted(d, docs);
    if StrayCount(docs) == 0 { NothingToWarn({}, 0, docs); }
  }

  /** The document `[a$b]c$]` over the given tokens. */
  function StrayInside(start: Token, a: Token, u: Token, b: Token, stray: Token, c: Token, v: Token, stop: Token): Docs {
    Element(End, start, Element(Text(End, a, []), u, Text(Text(Text(End, b, []), stray, []), c, []), v, []), stop, [])
  }

  /** A closer of the outer tag inside another tag, as in `[a$b]c$]`: it stays there as text, with one
   *  warning, and both tags end at their own closers. */
  lemma {:induction false} CloserInsideStays(d: Dictionary, start: Token, a: Token, u: Token, b: Token, stray: Token, c: Token,
                                             v: Token, stop: Token)
    requires WfTags(d) && NoLimits(d) && Brackets(d, start, stop) && Brackets(d, u, v) && start.trigger != u.trigger
    requires IsClosingTag(d, stray) && stray.trigger == stop.trigger && IsStray(d, u.trigger, stray)
    requires a.typ == b.typ == c.typ == TextToken
    ensures var toks := [start, a, u, b, stray, c, v, stop];
      TokensOk(d, toks)
      && ParseIs(Parsed(d, toks), StrayInside(start, a, u, b, stray, c, v, stop), [Mismatch(u.trigger, stray)])
  {
    hide Parsed, ParseIs, WfDocs, StraysFit, NoRepeats, ParseWarnings, Print;
    var outer := StrayInside(start, a, u, b, stray, c, v, stop);
    StrayInsideTokens(d, start, a, u, b, stray, c, v, stop);
    StrayInsideFits(d, start, a, u, b, stray, c, v, stop);
    ParseOfPrintIsIdentity(d, outer);
  }

  lemma {:induction false} StrayInsideTokens(d: Dictionary, start: Token, a: Token, u: Token, b: Token, stray: Token, c: Token,
                                             v: Token, stop: Token)
    requires |d.tags| == 256 && a.typ == b.typ == c.typ == TextToken && stray.typ == TagToken && start.trigger != u.trigger
    ensures var outer := StrayInside(start, a, u, b, stray, c, v, stop);
      Print(outer) == [start, a, u, b, stray, c, v, stop] && ParseWarnings({}, 0, outer) == [Mismatch(u.trigger, stray)]
  {
    var outer := StrayInside(start, a, u, b, stray, c, v, stop);
    var kids := outer.kids;
    var inner := kids.kids;
    assert Print(inner.front.front) == [b] && Print(inner.front) == [b, stray] && Print(inner) == [b, stray, c];
    assert Print(kids.front) == [a] && Print(kids) == [a, u, b, stray, c, v];
    var on := {} + {start.trigger};
    assert ParseWarnings(on, start.trigger, End) == [] && ParseWarnings(on + {u.trigger}, u.trigger, End) == [];
    assert ParseWarnings(on + {u.trigger}, u.trigger, inner.front.front) == [] && ParseWarnings(on, start.trigger, kids.front) == [];
    assert ParseWarnings(on + {u.trigger}, u.trigger, inner) == [Mismatch(u.trigger, stray)];
    assert ParseWarnings(on, start.trigger, kids) == [Mismatch(u.trigger, stray)];
  }

  lemma {:induction false} StrayInsideFits(d: Dictionary, start: Token, a: Token, u: Token, b: Token, stray: Token, c: Token,
                                           v: Token, stop: Token)
    requires |d.tags| == 256 && Brackets(d, start, stop) && Brackets(d, u, v) && start.trigger != u.trigger
    requires IsClosingTag(d, stray) && IsStray(d, u.trigger, stray) && a.typ == b.typ == c.typ == TextToken
    ensures var outer := StrayInside(start, a, u, b, stray, c, v, stop);
      WfDocs(d, outer) && StraysFit(d, 0, outer) && NoRepeats({}, outer)
  {
    hide Brackets, IsClosingTag, IsStray;
    var outer := StrayInside(start, a, u, b, stray, c, v, stop);
    var kids := outer.kids;
    var inner := kids.kids;
    assert AttributeTokens([]) && WfDocs(d, End) && WfDocs(d, inner.front.front) && WfDocs(d, inner.front) && WfDocs(d, inner);
    assert stray.typ != TextToken ==> IsStray(d, u.trigger, stray);
    assert WfDocs(d, kids.front) && WfDocs(d, kids);
    assert StraysFit(d, u.trigger, inner.front.front) && StraysFit(d, u.trigger, inner.front) && StraysFit(d, u.trigger, inner);
    assert StraysFit(d, start.trigger, kids.front) && StraysFit(d, start.trigger, kids) && StraysFit(d, 0, End);
    var on := {} + {start.trigger};
    assert NoRepeats(on + {u.trigger}, inner.front.front) && NoRepeats(on + {u.trigger}, inner);
    assert NoRepeats(on, kids.front) && NoRepeats(on, kids) && NoRepeats({}, End);
  }

  /** Splicing leaves no repeat behind: the tree a parse delivers never nests a tag in itself. */
  lemma {:induction false} SplicedHasNoRepeats(on: set<Byte>, docs: Docs)
    ensures NoRepeats(on, Spliced(on, docs))
    decreases docs
  {
    match docs
    case End =>
    case Text(front, _, _) => SplicedHasNoRepeats(on, front);
    case Leaf(front, _, _) => SplicedHasNoRepeats(on, front);
    case Element(front, start, kids, _, _) =>
      SplicedHasNoRepeats(on, front);
      SplicedHasNoRepeats(on + {start.trigger}, kids);
      if start.trigger in on {
        assert on + {start.trigger} == on;
        JoinNoRepeats(on, Spliced(on, front), Spliced(on, kids));
      }
  }

  lemma {:induction false} JoinNoRepeats(on: set<Byte>, a: Docs, b: Docs)
    requires NoRepeats(on, a) && NoRepeats(on, b)
    ensures NoRepeats(on, Join(a, b))
    decreases b
  {
    match b
    case End =>
    case Text(front, _, _) => JoinNoRepeats(on, a, front);
    case Leaf(front, _, _) => JoinNoRepeats(on, a, front);
    case Element(front, _, _, _, _) => JoinNoRepeats(on, a, front);
  }
}
