/** The text of a written document is what was written between its tags. */
module WrittenText {
  import opened Markup
  import opened Forests
  import opened Actions
  import opened TokenizerSpec
  import opened Escapes
  import opened SourceRoundTrip
  import opened TextAccounting
  import opened WrittenSerialized
  import P = ParserSpec
  import R = RoundTrip
  import Nesting

  /** All texts and raw contents in order, texts as they are spelled. */
  function WrittenText(d: Dictionary, m: Source): seq<Byte>
    requires |d.actions| == 256
  {
    match m
    case Nothing => []
    case Words(front, text, _) => WrittenText(d, front) + Escaped(d, text)
    case Tagged(front, _, kids, _) => WrittenText(d, front) + WrittenText(d, kids)
    case Raw(front, _, content, _) => WrittenText(d, front) + content
  }

  /** The text of the tree laid out for a document that stands in the input. */
  lemma {:induction false} TreeTextIsWritten(d: Dictionary, input: seq<Byte>, m: Source, pos: nat, ab: nat)
    requires |d.tags| == |d.actions| == 256 && StandsAt(input, pos, Write(d, m))
    ensures TreeText(input, R.Tree(DocsOf(d, m, pos), ab)) == WrittenText(d, m)
    decreases m
  {
    hide StandsAt, Escaped, WriteAttrs, R.Tree, DocsOf, Write, TreeText;
    match m
    case Nothing =>
      NothingText(d, input, pos, ab);
    case Words(front, text, attrs) =>
      WordsText(d, input, m, pos, ab);
      TreeTextIsWritten(d, input, front, pos, ab);
    case Tagged(front, tag, kids, attrs) =>
      var inner, kb := TaggedText(d, input, m, pos, ab);
      TreeTextIsWritten(d, input, front, pos, ab);
      TreeTextIsWritten(d, input, kids, inner, kb);
    case Raw(front, tag, content, attrs) =>
      RawText(d, input, m, pos, ab);
      TreeTextIsWritten(d, input, front, pos, ab);
  }

  lemma {:induction false} WordsText(d: Dictionary, input: seq<Byte>, m: Source, pos: nat, ab: nat)
    requires |d.tags| == |d.actions| == 256 && m.Words? && StandsAt(input, pos, Write(d, m))
    ensures StandsAt(input, pos, Write(d, m.front))
    ensures TreeText(input, R.Tree(DocsOf(d, m, pos), ab))
         == TreeText(input, R.Tree(DocsOf(d, m.front, pos), ab)) + Escaped(d, m.text)
  {
    hide StandsAt, Escaped, WriteAttrs, R.Tree, DocsOf, Write, TreeText;
    var i, text, attrs := pos + |Write(d, m.front)|, Escaped(d, m.text), WriteAttrs(d, m.attrs);
    WordsTree(d, m, pos, ab);
    WriteWords(d, m);
    StandsSplit(input, pos, Write(d, m.front), text + attrs);
    StandsSplit(input, i, text, attrs);
    SliceStands(input, i, text);
    LastText(input, R.Tree(DocsOf(d, m.front, pos), ab), TextNodeOf(i, i + |text|, ab + R.AttrCount(DocsOf(d, m.front, pos)), m.attrs), Empty);
    NoText(input);
  }

  lemma {:induction false} TaggedText(d: Dictionary, input: seq<Byte>, m: Source, pos: nat, ab: nat) returns (inner: nat, kb: nat)
    requires |d.tags| == |d.actions| == 256 && m.Tagged? && StandsAt(input, pos, Write(d, m))
    ensures StandsAt(input, pos, Write(d, m.front)) && StandsAt(input, inner, Write(d, m.kids))
    ensures TreeText(input, R.Tree(DocsOf(d, m, pos), ab))
         == TreeText(input, R.Tree(DocsOf(d, m.front, pos), ab)) + TreeText(input, R.Tree(DocsOf(d, m.kids, inner), kb))
  {
    hide StandsAt, WriteAttrs, R.Tree, DocsOf, Write, TreeText, AttrBytes;
    var i := pos + |Write(d, m.front)|;
    inner := i + |Sequence(d, m.tag)|;
    var docs, kids := DocsOf(d, m.front, pos), DocsOf(d, m.kids, inner);
    kb := ab + R.AttrCount(docs);
    TaggedTree(d, m, pos, ab);
    TaggedBytes(d, input, m, pos);
    var l := TagNodeOf(m.tag, i, |TagBytes(d, m.tag, m.kids)| - AttrBytes(d, m.kids), kb + R.AttrCount(kids), m.attrs);
    LastText(input, R.Tree(docs, ab), l, R.Tree(kids, kb));
    assert TreeText(input, R.Tree(docs, ab)) + [] == TreeText(input, R.Tree(docs, ab));
  }

  lemma {:induction false} RawText(d: Dictionary, input: seq<Byte>, m: Source, pos: nat, ab: nat)
    requires |d.tags| == |d.actions| == 256 && m.Raw? && StandsAt(input, pos, Write(d, m))
    ensures StandsAt(input, pos, Write(d, m.front))
    ensures TreeText(input, R.Tree(DocsOf(d, m, pos), ab)) == TreeText(input, R.Tree(DocsOf(d, m.front, pos), ab)) + m.content
  {
    hide StandsAt, R.Tree, DocsOf, Write, TreeText;
    var docs, inner := DocsOf(d, m.front, pos), pos + |Write(d, m.front)| + |Sequence(d, m.tag)|;
    RawTree(d, m, pos, ab);
    RawBytes(d, input, m, pos);
    var kid := TextNodeOf(inner, inner + |m.content|, ab + R.AttrCount(docs), m.attrs);
    var width := |Sequence(d, m.tag) + (m.content + Sequence(d, Closer(d, m.tag)))|;
    LastText(input, R.Tree(docs, ab), TagNodeOf(m.tag, pos + |Write(d, m.front)|, width, 0, []), Snoc(Empty, kid, Empty));
    LastText(input, Empty, kid, Empty);
    NoText(input);
    var front := TreeText(input, R.Tree(docs, ab));
    assert front + [] + m.content == front + m.content;
    assert [] + m.content + [] == m.content;
  }

  lemma {:induction false} LastText(input: seq<Byte>, front: Forest<Label>, l: Label, kids: Forest<Label>)
    ensures TreeText(input, Snoc(front, l, kids)) == TreeText(input, front) + NodeText(input, l) + TreeText(input, kids)
  {
  }

  lemma {:induction false} NoText(input: seq<Byte>)
    ensures TreeText(input, Empty) == []
  {
  }

  lemma {:induction false} NothingText(d: Dictionary, input: seq<Byte>, pos: nat, ab: nat)
    requires |d.tags| == |d.actions| == 256
    ensures TreeText(input, R.Tree(DocsOf(d, Nothing, pos), ab)) == []
  {
  }

  /** Raw content in the input. */
  lemma {:induction false} RawBytes(d: Dictionary, input: seq<Byte>, m: Source, pos: nat)
    requires |d.tags| == |d.actions| == 256 && m.Raw? && StandsAt(input, pos, Write(d, m))
    ensures var inner := pos + |Write(d, m.front)| + |Sequence(d, m.tag)|;
      && StandsAt(input, pos, Write(d, m.front))
      && inner + |m.content| <= |input| && input[inner..inner + |m.content|] == m.content
  {
    hide StandsAt, WriteAttrs, Write;
    var front, content, attrs := m.front, m.content, m.attrs;
    var i, close := pos + |Write(d, front)|, Sequence(d, Closer(d, m.tag));
    var whole := Sequence(d, m.tag) + (content + close);
    WriteRaw(d, m);
    StandsSplit(input, pos, Write(d, front), whole + WriteAttrs(d, attrs));
    StandsSplit(input, i, whole, WriteAttrs(d, attrs));
    StandsSplit(input, i, Sequence(d, m.tag), content + close);
    StandsSplit(input, i + |Sequence(d, m.tag)|, content, close);
    SliceStands(input, i + |Sequence(d, m.tag)|, content);
  }

  /** The text of a parsed document is the text written. */
  lemma {:induction false} TextOfWritten(e: Env, m: Source)
    requires WfEnv(e) && Plain(e, m)
    ensures P.TokensOk(e.d, Tokenized(e, []).tokens)
    ensures LinearText(e.input, P.Parsed(e.d, Tokenized(e, []).tokens).labels) == WrittenText(e.d, m)
  {
    hide Tokenized, P.Parsed, Below, Writable, Write, DocsOf, R.Tree, R.AttrLog, R.NoRepeats, R.NetWidth, Nesting.Inv, LinearText, WrittenText;
    var toks, docs := Tokenized(e, []).tokens, DocsOf(e.d, m, 0);
    SourceComesBack(e, m);
    LinearScanIsTreeText(e.d, toks, e.input);
    TreeTextIsWritten(e.d, e.input, m, 0, 0);
    RootText(e.input, P.ROOT.(span := Span(0, R.NetWidth(docs))), R.Tree(docs, 0));
  }

  lemma {:induction false} RootText(input: seq<Byte>, root: Label, f: Forest<Label>)
    requires root.typ == RootNode
    ensures TreeText(input, Snoc(Empty, root, f)) == TreeText(input, f)
  {
    assert TreeText(input, Empty) == [];
  }
}
