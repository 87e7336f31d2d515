/** A written document, parsed and serialized: every node shows the tag, the bytes and the attributes
 *  that were written. */
module WrittenSerialized {
  import opened Markup
  import opened Forests
  import opened Actions
  import opened TokenizerSpec
  import opened Escapes
  import Z = Serializer
  import opened SourceRoundTrip
  import P = ParserSpec
  import R = RoundTrip
  import Nesting
  import opened Widths
  import opened ResourceLimits
  import opened TextAccounting
  import Parsing

  // ---- what the serialized form of a document must be ----

  /** The attributes are those written, in order: key, payload as written, and whether there is no key. */
  ghost predicate ShowsAttrs(d: Dictionary, out: seq<Z.SAttribute>, attrs: seq<Attr>) {
    && |out| == |attrs|
    && forall i :: 0 <= i < |attrs| ==> out[i] == Z.SAttribute(attrs[i].key, Payload(d, attrs[i].payload), attrs[i].key == [])
  }

  /** A text node with these bytes and attributes. */
  ghost predicate ShowsText(d: Dictionary, n: Z.SNode, content: seq<Byte>, attrs: seq<Attr>) {
    n.name == "TEXT" && n.typ == "Text" && n.id == 0 && n.content == content && ShowsAttrs(d, n.attributes, attrs) && n.count == 0
  }

  /** A tag node of this tag. */
  ghost predicate ShowsTag(d: Dictionary, n: Z.SNode, tag: Byte, content: seq<Byte>, attrs: seq<Attr>)
    requires |d.tags| == 256
  {
    n.name == d.tags[tag].name && n.typ == "Tag" && n.id == tag && n.content == content && ShowsAttrs(d, n.attributes, attrs)
  }

  /** Bytes of attributes in a document. */
  function AttrBytes(d: Dictionary, m: Source): nat
    requires |d.tags| == |d.actions| == 256
  {
    match m
    case Nothing => 0
    case Words(front, _, attrs) => AttrBytes(d, front) + |WriteAttrs(d, attrs)|
    case Tagged(front, _, kids, attrs) => AttrBytes(d, front) + AttrBytes(d, kids) + |WriteAttrs(d, attrs)|
    case Raw(front, _, _, attrs) => AttrBytes(d, front) + |WriteAttrs(d, attrs)|
  }

  /** The bytes of a tagged piece, without those of attributes behind it. */
  function TagBytes(d: Dictionary, tag: Byte, kids: Source): seq<Byte>
    requires |d.tags| == |d.actions| == 256
  {
    Sequence(d, tag) + (Write(d, kids) + Sequence(d, Closer(d, tag)))
  }

  /** The slots show the pieces of the document, each with its children's slots. A tag's content is cut
   *  short by the bytes of the attributes written inside it. */
  ghost predicate Shows(d: Dictionary, all: seq<Z.SNode>, start: nat, count: nat, m: Source)
    requires |d.tags| == |d.actions| == 256
    decreases m
  {
    match m
    case Nothing => count == 0
    case Words(front, text, attrs) =>
      && 0 < count && start + count <= |all| && Shows(d, all, start, count - 1, front)
      && ShowsText(d, all[start + count - 1], Escaped(d, text), attrs)
    case Tagged(front, tag, kids, attrs) =>
      && 0 < count && start + count <= |all| && Shows(d, all, start, count - 1, front)
      && var n, bytes := all[start + count - 1], TagBytes(d, tag, kids);
         && AttrBytes(d, kids) <= |bytes| && ShowsTag(d, n, tag, bytes[..|bytes| - AttrBytes(d, kids)], attrs)
         && Shows(d, all, n.start, n.count, kids)
    case Raw(front, tag, content, attrs) =>
      && 0 < count && start + count <= |all| && Shows(d, all, start, count - 1, front)
      && var n := all[start + count - 1];
         && ShowsTag(d, n, tag, Sequence(d, tag) + (content + Sequence(d, Closer(d, tag))), [])
         && n.count == 1 && n.start < |all| && ShowsText(d, all[n.start], content, attrs)
  }

  // ---- attributes ----

  /** The arena holds these attributes from index ab on. */
  ghost predicate Holding(attributes: seq<Attribute>, ab: nat, log: seq<P.Owned>) {
    ab + |log| <= |attributes| && forall k :: 0 <= k < |log| ==> attributes[ab + k] == log[k].attr
  }

  lemma {:induction false} HoldingSplit(attributes: seq<Attribute>, ab: nat, a: seq<P.Owned>, b: seq<P.Owned>)
    requires Holding(attributes, ab, a + b)
    ensures Holding(attributes, ab, a) && Holding(attributes, ab + |a|, b)
  {
    forall k | 0 <= k < |a| ensures attributes[ab + k] == a[k].attr {
      assert (a + b)[k] == a[k];
    }
    forall k | 0 <= k < |b| ensures attributes[ab + |a| + k] == b[k].attr {
      assert attributes[ab + (|a| + k)] == (a + b)[|a| + k].attr;
    }
  }

  lemma {:induction false} SliceStands(input: seq<Byte>, i: nat, part: seq<Byte>)
    requires StandsAt(input, i, part)
    ensures i + |part| <= |input| && input[i..i + |part|] == part
  {
    var cut := input[i..i + |part|];
    assert forall k :: 0 <= k < |part| ==> cut[k] == input[i + k];
  }

  /** A printed attribute resolves to what was written. */
  lemma {:induction false} AttributeShown(d: Dictionary, src: Z.Source, pos: nat, a: Attr)
    requires StandsAt(src.input, pos, PrintedAttribute(d, a.key, a.payload))
    ensures var attr := R.AttrOf(AttributeToken(d, pos, a.key, a.payload));
      Z.AttributeReadable(src, attr) && Z.Resolve(src, attr) == Z.SAttribute(a.key, Payload(d, a.payload), a.key == [])
  {
    hide StandsAt, Payload;
    var front, tail := [d.attrTrigger] + a.key + [d.attrPayloadStart], Payload(d, a.payload) + [d.attrPayloadEnd];
    StandsSplit(src.input, pos, front, tail);
    StandsSplit(src.input, pos + |front|, Payload(d, a.payload), [d.attrPayloadEnd]);
    SliceStands(src.input, pos + |front|, Payload(d, a.payload));
    StandsSplit(src.input, pos, [d.attrTrigger] + a.key, [d.attrPayloadStart]);
    StandsSplit(src.input, pos, [d.attrTrigger], a.key);
    SliceStands(src.input, pos + 1, a.key);
  }

  /** The attributes of one piece, from the arena. */
  lemma {:induction false} AttrsShown(d: Dictionary, src: Z.Source, pos: nat, attrs: seq<Attr>, owner: nat, ab: nat)
    requires StandsAt(src.input, pos, WriteAttrs(d, attrs))
    requires Holding(src.attributes, ab, R.Own(owner, AttrToks(d, attrs, pos)))
    ensures |AttrToks(d, attrs, pos)| == |attrs| && ab + |attrs| <= |src.attributes|
    ensures forall i :: 0 <= i < |attrs| ==> ShownAt(d, src, attrs, ab, i)
    decreases |attrs|
  {
    hide StandsAt, PrintedAttribute, Z.Resolve, Z.AttributeReadable, AttributeToken, R.AttrOf;
    if attrs != [] {
      var n := |attrs| - 1;
      var front, a := attrs[..n], attrs[n];
      var p := pos + |WriteAttrs(d, front)|;
      StandsSplit(src.input, pos, WriteAttrs(d, front), PrintedAttribute(d, a.key, a.payload));
      var ts := AttrToks(d, attrs, pos);
      assert ts[..|ts| - 1] == AttrToks(d, front, pos) && ts[|ts| - 1] == AttributeToken(d, p, a.key, a.payload);
      HoldingSplit(src.attributes, ab, R.Own(owner, AttrToks(d, front, pos)), [P.Owned(owner, R.AttrOf(ts[|ts| - 1]))]);
      AttrsShown(d, src, pos, front, owner, ab);
      AttributeShown(d, src, p, a);
      assert [P.Owned(owner, R.AttrOf(ts[|ts| - 1]))][0].attr == src.attributes[ab + n + 0];
      forall i | 0 <= i < |attrs| ensures ShownAt(d, src, attrs, ab, i) {
        if i < n { assert ShownAt(d, src, front, ab, i); }
      }
    }
  }

  /** Attribute i of the piece resolves to what was written. */
  ghost predicate ShownAt(d: Dictionary, src: Z.Source, attrs: seq<Attr>, ab: nat, i: nat)
    requires i < |attrs| && ab + |attrs| <= |src.attributes|
  {
    var a := src.attributes[ab + i];
    Z.AttributeReadable(src, a) && Z.Resolve(src, a) == Z.SAttribute(attrs[i].key, Payload(d, attrs[i].payload), attrs[i].key == [])
  }

  /** A label with the piece's range serializes to the piece's attributes. */
  lemma {:induction false} LabelShown(d: Dictionary, src: Z.Source, l: Label, attrs: seq<Attr>, ab: nat, start: nat, count: nat)
    requires |src.tags| == 256 && Z.Readable(src, l) && ab + |attrs| <= |src.attributes|
    requires l.attrs == R.AttrRange(ab, |attrs|) && forall i :: 0 <= i < |attrs| ==> ShownAt(d, src, attrs, ab, i)
    ensures ShowsAttrs(d, Z.SerialOf(src, l, start, count).attributes, attrs)
  {
    hide Payload, Z.Resolve;
    forall i | 0 <= i < |attrs|
      ensures Z.SerialOf(src, l, start, count).attributes[i] == Z.SAttribute(attrs[i].key, Payload(d, attrs[i].payload), attrs[i].key == [])
    {
      assert ShownAt(d, src, attrs, ab, i);
    }
  }

  // ---- documents ----

  /** The bytes of the tokens are those of the text less the attributes'. */
  lemma {:induction false} NetWidthOf(d: Dictionary, m: Source, pos: nat)
    requires |d.tags| == |d.actions| == 256
    ensures R.NetWidth(DocsOf(d, m, pos)) == |Write(d, m)| - AttrBytes(d, m)
    decreases m
  {
    hide Escaped, AttrToks, WriteAttrs;
    match m
    case Nothing =>
    case Words(front, _, _) => NetWidthOf(d, front, pos);
    case Tagged(front, tag, kids, _) =>
      NetWidthOf(d, front, pos);
      NetWidthOf(d, kids, pos + |Write(d, front)| + |Sequence(d, tag)|);
      NetWidthTagged(d, m, pos);
    case Raw(front, _, _, _) => NetWidthOf(d, front, pos);
  }

  lemma {:induction false} NetWidthTagged(d: Dictionary, m: Source, pos: nat)
    requires |d.tags| == |d.actions| == 256 && m.Tagged?
    ensures R.NetWidth(DocsOf(d, m, pos))
      == R.NetWidth(DocsOf(d, m.front, pos)) + |Sequence(d, m.tag)| + |Sequence(d, Closer(d, m.tag))|
         + R.NetWidth(DocsOf(d, m.kids, pos + |Write(d, m.front)| + |Sequence(d, m.tag)|))
  {
    hide Write, AttrToks, WriteAttrs;
  }

  lemma {:induction false} AttrToksCount(d: Dictionary, attrs: seq<Attr>, pos: nat)
    ensures |AttrToks(d, attrs, pos)| == |attrs|
  {
    if attrs != [] { AttrToksCount(d, attrs[..|attrs| - 1], pos); }
  }

  /** The written document stands at pos, its attributes are in the arena from ab on, its tree in the
   *  slots: then the slots show the document. */
  ghost predicate Laid(d: Dictionary, src: Z.Source, all: seq<Z.SNode>, start: nat, count: nat, m: Source, pos: nat,
                       ab: nat, base: nat)
  {
    && |d.tags| == |d.actions| == 256 && src.tags == d.tags && StandsAt(src.input, pos, Write(d, m))
    && Holding(src.attributes, ab, R.AttrLog(DocsOf(d, m, pos), base))
    && Z.Holds(src, all, start, count, R.Tree(DocsOf(d, m, pos), ab))
  }

  lemma {:induction false} ShowsWritten(d: Dictionary, src: Z.Source, all: seq<Z.SNode>, start: nat, count: nat, m: Source,
                                        pos: nat, ab: nat, base: nat)
    requires |d.tags| == |d.actions| == 256 && Laid(d, src, all, start, count, m, pos, ab, base)
    ensures Shows(d, all, start, count, m)
    decreases m
  {
    hide Laid, StandsAt, Escaped, Payload, WriteAttrs, AttrToks, ShowsAttrs;
    match m
    case Nothing => NothingLaid(d, src, all, start, count, pos, ab, base);
    case Words(front, text, attrs) =>
      WordsLaid(d, src, all, start, count, m, pos, ab, base);
      ShowsWritten(d, src, all, start, count - 1, front, pos, ab, base);
    case Tagged(front, tag, kids, attrs) =>
      var i, kb := TaggedLaid(d, src, all, start, count, m, pos, ab, base);
      ShowsWritten(d, src, all, start, count - 1, front, pos, ab, base);
      var n := all[start + count - 1];
      ShowsWritten(d, src, all, n.start, n.count, kids, i, kb, base + R.Nodes(DocsOf(d, front, pos)) + 1);
    case Raw(front, tag, content, attrs) =>
      RawLaid(d, src, all, start, count, m, pos, ab, base);
      ShowsWritten(d, src, all, start, count - 1, front, pos, ab, base);
  }

  lemma {:induction false} NothingLaid(d: Dictionary, src: Z.Source, all: seq<Z.SNode>, start: nat, count: nat, pos: nat,
                                       ab: nat, base: nat)
    requires Laid(d, src, all, start, count, Nothing, pos, ab, base)
    ensures count == 0
  {
  }

  lemma {:induction false} WordsLaid(d: Dictionary, src: Z.Source, all: seq<Z.SNode>, start: nat, count: nat, m: Source,
                                     pos: nat, ab: nat, base: nat)
    requires m.Words? && Laid(d, src, all, start, count, m, pos, ab, base)
    ensures 0 < count && start + count <= |all| && Laid(d, src, all, start, count - 1, m.front, pos, ab, base)
    ensures ShowsText(d, all[start + count - 1], Escaped(d, m.text), m.attrs)
  {
    hide StandsAt, Escaped, Payload, WriteAttrs, AttrToks, ShowsAttrs, Holding, Z.Resolve, R.Own, Write;
    var front, attrs := m.front, m.attrs;
    var docs := DocsOf(d, front, pos);
    var i := pos + |Write(d, front)|;
    var j := i + |Escaped(d, m.text)|;
    assert Write(d, m) == Write(d, front) + (Escaped(d, m.text) + WriteAttrs(d, attrs)) by { WriteWords(d, m); }
    StandsSplit(src.input, pos, Write(d, front), Escaped(d, m.text) + WriteAttrs(d, attrs));
    StandsSplit(src.input, i, Escaped(d, m.text), WriteAttrs(d, attrs));
    SliceStands(src.input, i, Escaped(d, m.text));
    var toks := AttrToks(d, attrs, j);
    AttrToksCount(d, attrs, j);
    HoldingSplit(src.attributes, ab, R.AttrLog(docs, base), R.Own(base + R.Nodes(docs), toks));
    var at := ab + R.AttrCount(docs);
    AttrsShown(d, src, j, attrs, base + R.Nodes(docs), at);
    assert R.Tree(DocsOf(d, m, pos), ab) == Snoc(R.Tree(docs, ab), TextNodeOf(i, j, at, attrs), Empty) by { WordsTree(d, m, pos, ab); }
    LastHeld(src, all, start, count, R.Tree(docs, ab), TextNodeOf(i, j, at, attrs), Empty);
    var n := all[start + count - 1];
    NoneHeld(src, all, n.start, n.count);
    LabelShown(d, src, TextNodeOf(i, j, at, attrs), attrs, at, n.start, n.count);
  }

  lemma {:induction false} WordsTree(d: Dictionary, m: Source, pos: nat, ab: nat)
    requires |d.tags| == |d.actions| == 256 && m.Words?
    ensures var docs, i := DocsOf(d, m.front, pos), pos + |Write(d, m.front)|;
      var j := i + |Escaped(d, m.text)|;
      R.Tree(DocsOf(d, m, pos), ab) == Snoc(R.Tree(docs, ab), TextNodeOf(i, j, ab + R.AttrCount(docs), m.attrs), Empty)
  {
    hide Write, Escaped, AttrToks;
    AttrToksCount(d, m.attrs, pos + |Write(d, m.front)| + |Escaped(d, m.text)|);
  }

  /** The last slot holds the last tree. */
  lemma {:induction false} LastHeld(src: Z.Source, all: seq<Z.SNode>, start: nat, count: nat, f: Forest<Label>, l: Label, kids: Forest<Label>)
    requires |src.tags| == 256 && Z.Holds(src, all, start, count, Snoc(f, l, kids))
    ensures 0 < count && start + count <= |all| && Z.Holds(src, all, start, count - 1, f) && Z.Readable(src, l)
    ensures var n := all[start + count - 1];
      Z.Holds(src, all, n.start, n.count, kids) && n == Z.SerialOf(src, l, n.start, n.count)
  {
    hide Z.SerialOf, Z.Readable;
  }

  lemma {:induction false} NoneHeld(src: Z.Source, all: seq<Z.SNode>, start: nat, count: nat)
    requires |src.tags| == 256 && Z.Holds(src, all, start, count, Empty)
    ensures count == 0
  {
  }

  lemma {:induction false} WriteWords(d: Dictionary, m: Source)
    requires |d.tags| == |d.actions| == 256 && m.Words?
    ensures Write(d, m) == Write(d, m.front) + (Escaped(d, m.text) + WriteAttrs(d, m.attrs))
  {
  }

  /** The label of a text node. */
  function TextNodeOf(i: nat, j: nat, ab: nat, attrs: seq<Attr>): Label {
    P.TextLabel(Span(i, j)).(attrs := R.AttrRange(ab, |attrs|))
  }

  lemma {:induction false} TaggedLaid(d: Dictionary, src: Z.Source, all: seq<Z.SNode>, start: nat, count: nat, m: Source,
                                      pos: nat, ab: nat, base: nat) returns (inner: nat, kb: nat)
    requires m.Tagged? && Laid(d, src, all, start, count, m, pos, ab, base)
    ensures 0 < count && start + count <= |all| && Laid(d, src, all, start, count - 1, m.front, pos, ab, base)
    ensures var n, bytes := all[start + count - 1], TagBytes(d, m.tag, m.kids);
      && AttrBytes(d, m.kids) <= |bytes| && ShowsTag(d, n, m.tag, bytes[..|bytes| - AttrBytes(d, m.kids)], m.attrs)
      && Laid(d, src, all, n.start, n.count, m.kids, inner, kb, base + R.Nodes(DocsOf(d, m.front, pos)) + 1)
  {
    hide StandsAt, Payload, WriteAttrs, AttrToks, ShowsAttrs, Holding, Z.Resolve, R.Own, Write, AttrBytes, R.NetWidth, Z.Holds, R.Tree, R.AttrLog;
    var front, kids, tag, attrs := m.front, m.kids, m.tag, m.attrs;
    var i := pos + |Write(d, front)|;
    inner := i + |Sequence(d, tag)|;
    var j := inner + |Write(d, kids)|;
    var docs, kidDocs := DocsOf(d, front, pos), DocsOf(d, kids, inner);
    kb := ab + R.AttrCount(docs);
    TaggedBytes(d, src.input, m, pos);
    var toks, node := AttrToks(d, attrs, j + |Sequence(d, Closer(d, tag))|), base + R.Nodes(docs);
    AttrToksCount(d, attrs, j + |Sequence(d, Closer(d, tag))|);
    TaggedHolding(d, src.attributes, m, pos, ab, base);
    var at := kb + R.AttrCount(kidDocs);
    AttrsShown(d, src, j + |Sequence(d, Closer(d, tag))|, attrs, node, at);
    NetWidthOf(d, kids, inner);
    var l := TagNodeOf(tag, i, |TagBytes(d, tag, kids)| - AttrBytes(d, kids), at, attrs);
    TaggedTree(d, m, pos, ab);
    LastHeld(src, all, start, count, R.Tree(docs, ab), l, R.Tree(kidDocs, kb));
    var n := all[start + count - 1];
    LabelShown(d, src, l, attrs, at, n.start, n.count);
  }

  lemma {:induction false} TaggedTree(d: Dictionary, m: Source, pos: nat, ab: nat)
    requires |d.tags| == |d.actions| == 256 && m.Tagged?
    ensures var docs, i := DocsOf(d, m.front, pos), pos + |Write(d, m.front)|;
      var kids := DocsOf(d, m.kids, i + |Sequence(d, m.tag)|);
      var kb := ab + R.AttrCount(docs);
      R.Tree(DocsOf(d, m, pos), ab)
      == Snoc(R.Tree(docs, ab),
              TagNodeOf(m.tag, i, |TagBytes(d, m.tag, m.kids)| - AttrBytes(d, m.kids), kb + R.AttrCount(kids), m.attrs),
              R.Tree(kids, kb))
  {
    hide Write, AttrToks, AttrBytes, R.NetWidth;
    var i := pos + |Write(d, m.front)|;
    var inner := i + |Sequence(d, m.tag)|;
    var j := inner + |Write(d, m.kids)|;
    AttrToksCount(d, m.attrs, j + |Sequence(d, Closer(d, m.tag))|);
    NetWidthOf(d, m.kids, inner);
  }

  /** The attributes of a tagged piece: those before it, those inside, its own. */
  lemma {:induction false} TaggedHolding(d: Dictionary, attributes: seq<Attribute>, m: Source, pos: nat, ab: nat, base: nat)
    requires |d.tags| == |d.actions| == 256 && m.Tagged? && Holding(attributes, ab, R.AttrLog(DocsOf(d, m, pos), base))
    ensures var i := pos + |Write(d, m.front)|;
      var inner := i + |Sequence(d, m.tag)|;
      var j := inner + |Write(d, m.kids)| + |Sequence(d, Closer(d, m.tag))|;
      var docs, kids := DocsOf(d, m.front, pos), DocsOf(d, m.kids, inner);
      var node, kb := base + R.Nodes(docs), ab + R.AttrCount(docs);
      && Holding(attributes, ab, R.AttrLog(docs, base)) && Holding(attributes, kb, R.AttrLog(kids, node + 1))
      && Holding(attributes, kb + R.AttrCount(kids), R.Own(node, AttrToks(d, m.attrs, j)))
  {
    hide Holding, Write, AttrToks, R.Own;
    var i := pos + |Write(d, m.front)|;
    var inner := i + |Sequence(d, m.tag)|;
    var docs, kids := DocsOf(d, m.front, pos), DocsOf(d, m.kids, inner);
    var node, kb := base + R.Nodes(docs), ab + R.AttrCount(docs);
    var own := R.Own(node, AttrToks(d, m.attrs, inner + |Write(d, m.kids)| + |Sequence(d, Closer(d, m.tag))|));
    HoldingSplit(attributes, ab, R.AttrLog(docs, base), R.AttrLog(kids, node + 1) + own);
    HoldingSplit(attributes, kb, R.AttrLog(kids, node + 1), own);
  }

  /** The label of a tag node. */
  function TagNodeOf(tag: Byte, i: nat, width: int, ab: nat, attrs: seq<Attr>): Label {
    Label(TagNode, tag, Span(i, i + width), R.AttrRange(ab, |attrs|))
  }

  lemma {:induction false} AttrBytesBound(d: Dictionary, m: Source)
    requires |d.tags| == |d.actions| == 256
    ensures AttrBytes(d, m) <= |Write(d, m)|
    decreases m
  {
    hide Escaped, WriteAttrs;
    match m
    case Nothing =>
    case Words(front, _, _) => AttrBytesBound(d, front);
    case Tagged(front, _, kids, _) =>
      AttrBytesBound(d, front);
      AttrBytesBound(d, kids);
    case Raw(front, _, _, _) => AttrBytesBound(d, front);
  }

  /** The parts of a tagged piece in the input. */
  lemma {:induction false} TaggedBytes(d: Dictionary, input: seq<Byte>, m: Source, pos: nat)
    requires |d.tags| == |d.actions| == 256 && m.Tagged? && StandsAt(input, pos, Write(d, m))
    ensures var i, bytes, cut := pos + |Write(d, m.front)|, TagBytes(d, m.tag, m.kids), AttrBytes(d, m.kids);
      && StandsAt(input, pos, Write(d, m.front)) && StandsAt(input, i + |Sequence(d, m.tag)|, Write(d, m.kids))
      && StandsAt(input, i + |bytes|, WriteAttrs(d, m.attrs))
      && cut <= |bytes| && i + |bytes| <= |input| && input[i..i + |bytes| - cut] == bytes[..|bytes| - cut]
  {
    hide StandsAt, WriteAttrs, AttrBytes;
    var open, kids, close, attrs := Sequence(d, m.tag), Write(d, m.kids), Sequence(d, Closer(d, m.tag)), WriteAttrs(d, m.attrs);
    var front := Write(d, m.front);
    var i := pos + |front|;
    AttrBytesBound(d, m.kids);
    StandsSplit(input, pos, front, open + (kids + (close + attrs)));
    assert open + (kids + (close + attrs)) == TagBytes(d, m.tag, m.kids) + attrs;
    StandsSplit(input, i, TagBytes(d, m.tag, m.kids), attrs);
    StandsSplit(input, i, open, kids + close);
    StandsSplit(input, i + |open|, kids, close);
    SliceStands(input, i, TagBytes(d, m.tag, m.kids));
    var bytes := TagBytes(d, m.tag, m.kids);
    assert input[i..i + |bytes|][..|bytes| - AttrBytes(d, m.kids)] == input[i..i + |bytes| - AttrBytes(d, m.kids)];
  }

  lemma {:induction false} RawLaid(d: Dictionary, src: Z.Source, all: seq<Z.SNode>, start: nat, count: nat, m: Source,
                                   pos: nat, ab: nat, base: nat)
    requires m.Raw? && Laid(d, src, all, start, count, m, pos, ab, base)
    ensures 0 < count && start + count <= |all| && Laid(d, src, all, start, count - 1, m.front, pos, ab, base)
    ensures var n := all[start + count - 1];
      && ShowsTag(d, n, m.tag, Sequence(d, m.tag) + (m.content + Sequence(d, Closer(d, m.tag))), [])
      && n.count == 1 && n.start < |all| && ShowsText(d, all[n.start], m.content, m.attrs)
  {
    hide StandsAt, Payload, WriteAttrs, AttrToks, ShowsAttrs, Holding, Z.Resolve, R.Own, Write, Z.Holds, R.Tree;
    var front, tag, content, attrs := m.front, m.tag, m.content, m.attrs;
    var docs := DocsOf(d, front, pos);
    var i := pos + |Write(d, front)|;
    var whole := Sequence(d, tag) + (content + Sequence(d, Closer(d, tag)));
    assert Write(d, m) == Write(d, front) + (whole + WriteAttrs(d, attrs)) by { WriteRaw(d, m); }
    StandsSplit(src.input, pos, Write(d, front), whole + WriteAttrs(d, attrs));
    StandsSplit(src.input, i, whole, WriteAttrs(d, attrs));
    SliceStands(src.input, i, whole);
    StandsSplit(src.input, i, Sequence(d, tag), content + Sequence(d, Closer(d, tag)));
    StandsSplit(src.input, i + |Sequence(d, tag)|, content, Sequence(d, Closer(d, tag)));
    SliceStands(src.input, i + |Sequence(d, tag)|, content);
    var toks, node := AttrToks(d, attrs, i + |whole|), base + R.Nodes(docs) + 1;
    AttrToksCount(d, attrs, i + |whole|);
    HoldingSplit(src.attributes, ab, R.AttrLog(docs, base), R.Own(node, toks));
    var at := ab + R.AttrCount(docs);
    AttrsShown(d, src, i + |whole|, attrs, node, at);
    var inner := i + |Sequence(d, tag)|;
    var tagged, kid := TagNodeOf(tag, i, |whole|, 0, []), TextNodeOf(inner, inner + |content|, at, attrs);
    RawTree(d, m, pos, ab);
    LastHeld(src, all, start, count, R.Tree(docs, ab), tagged, Snoc(Empty, kid, Empty));
    var n := all[start + count - 1];
    NoAttrsShown(d, src, tagged, n.start, n.count);
    OneHeld(src, all, n.start, n.count, kid);
    LabelShown(d, src, kid, attrs, at, all[n.start].start, all[n.start].count);
  }

  lemma {:induction false} RawTree(d: Dictionary, m: Source, pos: nat, ab: nat)
    requires |d.tags| == |d.actions| == 256 && m.Raw?
    ensures var docs, i := DocsOf(d, m.front, pos), pos + |Write(d, m.front)|;
      var inner := i + |Sequence(d, m.tag)|;
      var width := |Sequence(d, m.tag) + (m.content + Sequence(d, Closer(d, m.tag)))|;
      var kid := TextNodeOf(inner, inner + |m.content|, ab + R.AttrCount(docs), m.attrs);
      R.Tree(DocsOf(d, m, pos), ab) == Snoc(R.Tree(docs, ab), TagNodeOf(m.tag, i, width, 0, []), Snoc(Empty, kid, Empty))
  {
    hide Write, AttrToks;
    var i := pos + |Write(d, m.front)|;
    AttrToksCount(d, m.attrs, i + RawTok(d, m.tag, m.content, i).width);
  }

  lemma {:induction false} WriteRaw(d: Dictionary, m: Source)
    requires |d.tags| == |d.actions| == 256 && m.Raw?
    ensures Write(d, m) == Write(d, m.front)
      + ((Sequence(d, m.tag) + (m.content + Sequence(d, Closer(d, m.tag)))) + WriteAttrs(d, m.attrs))
  {
  }

  lemma {:induction false} NoAttrsShown(d: Dictionary, src: Z.Source, l: Label, start: nat, count: nat)
    requires |src.tags| == 256 && Z.Readable(src, l) && l.attrs.len == 0
    ensures ShowsAttrs(d, Z.SerialOf(src, l, start, count).attributes, [])
  {
  }

  /** Slots that hold a single node without children. */
  lemma {:induction false} OneHeld(src: Z.Source, all: seq<Z.SNode>, start: nat, count: nat, l: Label)
    requires |src.tags| == 256 && Z.Holds(src, all, start, count, Snoc(Empty, l, Empty))
    ensures count == 1 && start < |all| && Z.Readable(src, l) && all[start].count == 0
    ensures all[start] == Z.SerialOf(src, l, all[start].start, 0)
  {
    hide Z.SerialOf, Z.Readable;
    assert Z.Holds(src, all, start, count - 1, Empty);
  }

  // ---- the whole ----

  /** A document that can be written and read back without loss. */
  ghost predicate Plain(e: Env, m: Source)
    requires WfEnv(e)
  {
    Writable(e.d, m, false) && e.input == Write(e.d, m) && R.NoLimits(e.d) && R.NoRepeats({}, DocsOf(e.d, m, 0))
  }

  /** What `Parsing.ParseAndSerialize` promises of the tree in state s. */
  ghost predicate Delivered(src: Z.Source, s: P.State, root: Z.SNode, all: seq<Z.SNode>) {
    && |src.tags| == 256 && Forests.Valid(s.par) && |s.labels| == |s.par| > 0 && Z.Readable(src, s.labels[0])
    && |src.attributes| == |s.attrs| && (forall i :: 0 <= i < |s.attrs| ==> src.attributes[i] == s.attrs[i].attr)
    && Z.Holds(src, all, root.start, root.count, Below(s.par, s.labels, 0))
    && root == Z.SerialOf(src, s.labels[0], root.start, root.count).(name := "ROOT")
  }

  /** The arena, the attributes and the slots that parsing and serializing its bytes leaves. */
  lemma {:induction false} WrittenIsShown(e: Env, m: Source, src: Z.Source, root: Z.SNode, all: seq<Z.SNode>)
    requires WfEnv(e) && Plain(e, m) && src.input == e.input && src.tags == e.d.tags
    requires P.TokensOk(e.d, Tokenized(e, []).tokens)
    requires Delivered(src, P.Parsed(e.d, Tokenized(e, []).tokens), root, all)
    ensures Tokenized(e, []).warns == [] && P.Parsed(e.d, Tokenized(e, []).tokens).warns == []
    ensures root.name == "ROOT" && root.typ == "Root" && root.id == 0 && root.attributes == []
    ensures AttrBytes(e.d, m) <= |e.input| && root.content == e.input[..|e.input| - AttrBytes(e.d, m)]
    ensures Shows(e.d, all, root.start, root.count, m)
  {
    hide Tokenized, P.Parsed, Below, Writable, Write, DocsOf, R.Tree, R.AttrLog, R.NoRepeats, Z.Holds, Shows, AttrBytes, R.NetWidth,
         Nesting.Inv;
    var toks, docs := Tokenized(e, []).tokens, DocsOf(e.d, m, 0);
    var s := P.Parsed(e.d, toks);
    SourceComesBack(e, m);
    assert s == P.Parsed(e.d, toks);
    Nesting.ParsedTree(e.d, toks);
    assert R.ParseIs(s, docs, []);
    NetWidthOf(e.d, m, 0);
    AttrBytesBound(e.d, m);
    assert Laid(e.d, src, all, root.start, root.count, m, 0, 0, 1);
    ShowsWritten(e.d, src, all, root.start, root.count, m, 0, 0, 1);
  }

  /** Parsing and serializing the bytes of a written document: every slot shows the piece that was
   *  written there, with the tag's name, the bytes and the attributes in order. */
  method SerializeWritten(u: Unicode, d: Dictionary, input: seq<Byte>, ghost m: Source)
    returns (root: Z.SNode, all: array<Z.SNode>, warned: seq<Warning>)
    requires WfEnv(Env(u, d, input)) && Plain(Env(u, d, input), m)
    ensures warned == [] && root.name == "ROOT" && root.typ == "Root" && root.id == 0 && root.attributes == []
    ensures AttrBytes(d, m) <= |input| && root.content == input[..|input| - AttrBytes(d, m)]
    ensures Shows(d, all[..], root.start, root.count, m)
  {
    hide Tokenized, P.Parsed, Below, Plain, Z.Holds, Z.SerialOf, Z.Readable, Shows, AttrBytes, SpansWithin, Parsing.AttributesIn,
         LimitInv, RangesInv, SumLens, LinearText, TreeText, Nesting.StackInv, Nesting.NoNestedTwins;
    var attributes;
    root, all, attributes, warned := Parsing.ParseAndSerialize(u, d, input, []);
    ghost var s := P.Parsed(d, Tokenized(Env(u, d, input), []).tokens);
    assert Delivered(Z.Source(input, attributes, d.tags), s, root, all[..]);
    WrittenIsShown(Env(u, d, input), m, Z.Source(input, attributes, d.tags), root, all[..]);
  }
}
