/** From input bytes to the finished tree: tokenizer, parser, text and the guarantees of the whole. */
module Parsing {
  import opened Markup
  import opened Forests
  import opened ParserSpec
  import opened Nesting
  import opened Widths
  import opened TextAccounting
  import opened ResourceLimits
  import opened Arena
  import opened Actions
  import T = TokenizerSpec
  import Tokenizer
  import Parser
  import Serializer

  // ---- what force-closing keeps of limits and ranges ----

  lemma {:induction false} CloseOneKeeps(d: Dictionary, s: State)
    requires Shape(s) && |d.tags| == 256 && s.stack != []
    ensures var r := ForceCloseOne(d, s);
      && (RangesInv(s) ==> RangesInv(r)) && (LimitInv(d, s) ==> LimitInv(d, r)) && r.attrs == s.attrs
  {
    hide RangesInv, Count, CloseTag;
    var eof := Token(TagToken, 0, 0, 0, Span(0, 0), Span(0, 0));
    var c := CloseTag(s, eof);
    CloseKeepsAttributes(s, eof);
    if LimitInv(d, s) { CloseLimits(d, s, eof); }
    var start := s.labels[Top(s)].span.start;
    var w := Warning(UnclosedTag, start, PeekStack(s), d.tags[PeekStack(s)].closeID, 0, 0);
    var c' := c.(last := s.last);
    assert KeepsAttributes(s, Log(c', w));
    if RangesInv(s) { KeptRanges(s, Log(c', w)); }
    if LimitInv(d, s) { LogOther(c', w); }
  }

  lemma {:induction false} ForceCloseKeeps(d: Dictionary, s: State)
    requires Shape(s) && |d.tags| == 256 && RangesInv(s) && LimitInv(d, s)
    ensures var r := ForceClose(d, s);
      RangesInv(r) && LimitInv(d, r) && r.attrs == s.attrs
    decreases |s.stack|
  {
    hide RangesInv, LimitInv, ForceCloseOne;
    if s.stack != [] {
      CloseOneKeeps(d, s);
      ForceCloseKeeps(d, ForceCloseOne(d, s));
    }
  }

  /** Limits and ranges at the end of a parse. */
  lemma {:induction false} ParsedLimitsAndRanges(d: Dictionary, toks: seq<Token>)
    requires |d.tags| == 256 && TokensOk(d, toks)
    ensures var s := Parsed(d, toks);
      && LimitInv(d, s) && RangesInv(s) && SumLens(s.labels) == |s.attrs|
      && s.attrs == Run(d, Start(), toks).attrs
  {
    hide Run, Count, ForceClose, RangeOf;
    var r := Run(d, Start(), toks);
    RunLimits(d, toks);
    RunRanges(d, toks);
    ForceCloseKeeps(d, r);
    KeptRanges(ForceClose(d, r), Parsed(d, toks));
    RangesPartitionArena(Parsed(d, toks));
  }

  // ---- attribute spans ----

  /** Attribute spans lie in the n bytes read. */
  ghost predicate AttributesIn(os: seq<Owned>, n: nat) {
    forall i :: 0 <= i < |os| ==>
      && 0 <= os[i].attr.name.start <= os[i].attr.name.end <= n
      && 0 <= os[i].attr.payload.start <= os[i].attr.payload.end <= n
  }

  lemma {:induction false} StepAttributesIn(d: Dictionary, s: State, tok: Token, n: nat)
    requires Shape(s) && |d.tags| == 256 && TokenOk(d, tok) && AttributesIn(s.attrs, n)
    requires 0 <= tok.attrKey.start <= tok.attrKey.end <= n && 0 <= tok.payload.start <= tok.payload.end <= n
    ensures AttributesIn(Step(d, s, tok).attrs, n)
  {
    hide ProcessTag;
    match tok.typ
    case TagToken => TagKeepsAttributes(d, s, tok);
    case _ =>
  }

  lemma {:induction false} RunAttributesIn(d: Dictionary, toks: seq<Token>, m: nat, n: nat)
    requires |d.tags| == 256 && TokensOk(d, toks) && Tile(toks, m) && PayloadsInside(toks) && T.KeysInside(toks, n) && m <= n
    ensures AttributesIn(Run(d, Start(), toks).attrs, n)
  {
    hide Step, AttributesIn;
    if toks == [] {
      assert AttributesIn(Start().attrs, n) by { NoAttributes(n); }
    } else {
      var l := |toks| - 1;
      TilePositions(toks[..l], toks[l].pos);
      RunAttributesIn(d, toks[..l], toks[l].pos, n);
      assert PayloadInside(toks[l]);
      StepAttributesIn(d, Run(d, Start(), toks[..l]), toks[l], n);
    }
  }

  lemma {:induction false} NoAttributes(n: nat)
    ensures AttributesIn(Start().attrs, n)
  {
  }

  // ---- the whole ----

  /** What a parse of any input under any dictionary guarantees. */
  ghost predicate Sound(e: Env, s: State)
    requires WfEnv(e)
  {
    && Inv(e.d, s) && s.stack == []
    && SpansWithin(s, |e.input|) && AttributesIn(s.attrs, |e.input|)
    && LimitInv(e.d, s) && RangesInv(s) && SumLens(s.labels) == |s.attrs|
    && LinearText(e.input, s.labels) == TreeText(e.input, Below(s.par, s.labels, -1))
  }

  /** For every dictionary and input, the parse is a preorder tree with no tag inside itself and
   *  nothing left open; all its spans lie in the input; its limits hold, each reported at most
   *  once; its attribute ranges share out the attribute arena; its linear text is the tree's. */
  lemma {:induction false} EveryParseIsSound(e: Env, warns: seq<Warning>)
    requires WfEnv(e)
    ensures var r := T.Tokenized(e, warns);
      TokensOk(e.d, r.tokens) && Sound(e, Parsed(e.d, r.tokens))
  {
    hide T.Tokenized, Parsed, Inv, SpansWithin, AttributesIn, LimitInv, RangesInv, SumLens, LinearText, TreeText, Below;
    var toks, n := T.Tokenized(e, warns).tokens, |e.input|;
    T.TokensTileInput(e, warns);
    ParsedTree(e.d, toks);
    ParsedSpans(e.d, toks, n);
    RunAttributesIn(e.d, toks, n, n);
    ParsedLimitsAndRanges(e.d, toks);
    LinearScanIsTreeText(e.d, toks, e.input);
  }

  /** The reported byte length: what the tokenizer counted, plus closing tags demoted to text. */
  function ReportedTextLen(e: Env, warns: seq<Warning>): int
    requires WfEnv(e) && TokensOk(e.d, T.Tokenized(e, warns).tokens)
  {
    Parsed(e.d, T.Tokenized(e, warns).tokens).textLen + T.Tokenized(e, warns).textByteLen
  }

  /** The text of any parse is as long as reported, less the bytes that were counted and reached no
   *  text node; so it has exactly the reported length if and only if every token's text was placed. */
  lemma {:induction false} TextHasReportedLength(e: Env, warns: seq<Warning>)
    requires WfEnv(e)
    ensures var toks := T.Tokenized(e, warns).tokens;
      && TokensOk(e.d, toks)
      && var len := |LinearText(e.input, Parsed(e.d, toks).labels)|;
         && len == ReportedTextLen(e, warns) - UnplacedText(e.d, toks)
         && len <= ReportedTextLen(e, warns)
         && (len == ReportedTextLen(e, warns) <==> forall i :: 0 <= i < |toks| ==> !IsUnplaced(e.d, toks, i))
  {
    hide T.Tokenized, Parsed, LinearText, TextLen, TokensText, T.CountsOf, T.TextTokensOf, Inv, UnplacedText, IsUnplaced;
    var toks := T.Tokenized(e, warns).tokens;
    EveryParseIsSound(e, warns);
    TextByteLenIsExact(e.d, toks);
    T.CountersAreExact(e, warns);
    T.TokensTileInput(e, warns);
    PayloadsOrdered(toks, |e.input|);
    AllPlacedIff(e.d, toks);
    LinearTextLen(e.input, Parsed(e.d, toks).labels);
  }

  lemma {:induction false} PayloadsOrdered(toks: seq<Token>, n: int)
    requires Tile(toks, n) && PayloadsInside(toks)
    ensures forall i :: 0 <= i < |toks| ==> toks[i].width >= 0 && toks[i].payload.start <= toks[i].payload.end
  {
    forall i | 0 <= i < |toks| ensures toks[i].width >= 0 && toks[i].payload.start <= toks[i].payload.end {
      assert PayloadInside(toks[i]);
    }
  }

  /** Without a node limit, and if no non-greedy tag is closed by a greedy tag's ID, all text is placed. */
  lemma {:induction false} TextPlacedWithoutLimits(e: Env, warns: seq<Warning>)
    requires WfEnv(e) && e.d.limits.maxNodes == 0 && NoGreedyClosers(e.d)
    ensures var toks := T.Tokenized(e, warns).tokens;
      TokensOk(e.d, toks) && |LinearText(e.input, Parsed(e.d, toks).labels)| == ReportedTextLen(e, warns)
  {
    hide T.Tokenized, Parsed, LinearText, UnplacedText, NoGreedyClosers;
    TextHasReportedLength(e, warns);
    RunPlaces(e.d, T.Tokenized(e, warns).tokens);
  }

  function Infos(nodes: seq<Node>): seq<Label> {
    seq(|nodes|, i requires 0 <= i < |nodes| => nodes[i].info)
  }

  lemma {:induction false} InfosAreLabels(nodes: seq<Node>, par: seq<int>, labels: seq<Label>)
    requires IsLinked(nodes, par, labels)
    ensures Infos(nodes) == labels
  {
    assert forall i :: 0 <= i < |nodes| ==> Infos(nodes)[i] == labels[i];
  }

  /** Tokenizes and parses. The arena it returns links exactly the tree of the specification, and is
   *  ready to be serialized. */
  method ParseInto(u: Unicode, d: Dictionary, input: seq<Byte>, warns: seq<Warning>)
    returns (ast: Parser.AST, warned: seq<Warning>)
    requires WfEnv(Env(u, d, input))
    ensures var e := Env(u, d, input);
      var r := T.Tokenized(e, warns);
      && TokensOk(d, r.tokens)
      && var s := Parsed(d, r.tokens);
         && Sound(e, s) && warned == r.warns + s.warns
         && IsLinked(ast.nodes, s.par, s.labels) && Infos(ast.nodes) == s.labels
         && ast.maxDepth == s.maxDepth && ast.totalTagNodes == s.tagNodes
         && ast.textByteLen == ReportedTextLen(e, warns) && ast.totalTextNodes == s.textNodes + r.textTokens
         && |ast.attributes| == |s.attrs| && (forall i :: 0 <= i < |s.attrs| ==> ast.attributes[i] == s.attrs[i].attr)
         && Serializer.AllReadable(Serializer.Source(input, ast.attributes, d.tags), s.labels)
  {
    hide T.Tokenized, Parsed, Sound, IsLinked;
    var e := Env(u, d, input);
    EveryParseIsSound(e, warns);
    var out, tokenizerWarns := Tokenizer.Tokenize(u, d, input, warns);
    var parserWarns;
    ast, parserWarns := Parser.ParseTokens(d, out.tokens, Parser.TokenCounts(out.textByteLen, out.textTokens));
    warned := tokenizerWarns + parserWarns;
    ghost var s := Parsed(d, out.tokens);
    SoundReadable(e, s, Serializer.Source(input, ast.attributes, d.tags));
    InfosAreLabels(ast.nodes, s.par, s.labels);
  }

  /** Serialization finds everything it reads. */
  lemma {:induction false} SoundReadable(e: Env, s: State, src: Serializer.Source)
    requires WfEnv(e) && Sound(e, s) && src.input == e.input
    requires |src.attributes| == |s.attrs| && forall i :: 0 <= i < |s.attrs| ==> src.attributes[i] == s.attrs[i].attr
    ensures Serializer.AllReadable(src, s.labels)
  {
    hide TreeInv, StackInv, NoNestedTwins, LimitInv, SumLens, LinearText, TreeText, Below, RangesInv;
    RangesPartitionArena(s);
    forall i | 0 <= i < |s.labels| ensures Serializer.Readable(src, s.labels[i]) {
    }
  }

  /** The text of a parse by a scan of the arena; every slice it takes lies in the input. */
  method Text(nodes: seq<Node>, input: seq<Byte>) returns (text: seq<Byte>)
    requires forall i :: 0 <= i < |nodes| && nodes[i].info.typ == TextNode ==>
      0 <= nodes[i].info.span.start <= nodes[i].info.span.end <= |input|
    ensures text == LinearText(input, Infos(nodes))
  {
    text := [];
    var infos := Infos(nodes);
    for k := 0 to |nodes|
      invariant text == LinearText(input, infos[..k])
    {
      assert infos[..k + 1][..k] == infos[..k];
      var n := nodes[k].info;
      if n.typ != TextNode {
        continue;
      }
      text := text + input[n.span.start..n.span.end];
    }
    assert infos[..|nodes|] == infos;
  }

  /** Parses an input and serializes the result: the child slots hold, recursively, the parsed tree. */
  method ParseAndSerialize(u: Unicode, d: Dictionary, input: seq<Byte>, warns: seq<Warning>)
    returns (root: Serializer.SNode, all: array<Serializer.SNode>, attributes: seq<Attribute>, warned: seq<Warning>)
    requires WfEnv(Env(u, d, input))
    ensures var e := Env(u, d, input);
      var toks := T.Tokenized(e, warns).tokens;
      && TokensOk(d, toks)
      && var s := Parsed(d, toks);
         && Sound(e, s) && warned == T.Tokenized(e, warns).warns + s.warns && all.Length == |s.par| - 1
         && |attributes| == |s.attrs| && (forall i :: 0 <= i < |s.attrs| ==> attributes[i] == s.attrs[i].attr)
         && Serializer.Holds(Serializer.Source(input, attributes, d.tags), all[..], root.start, root.count,
                             Below(s.par, s.labels, 0))
         && Serializer.Readable(Serializer.Source(input, attributes, d.tags), s.labels[0])
         && root == Serializer.SerialOf(Serializer.Source(input, attributes, d.tags), s.labels[0], root.start, root.count).(name := "ROOT")
  {
    hide T.Tokenized, Parsed, Serializer.Holds, Serializer.SerialOf, Serializer.BookOk, Serializer.SlotsOk,
         SpansWithin, AttributesIn, LimitInv, RangesInv, SumLens, LinearText, TreeText, Below, StackInv, NoNestedTwins, IsLinked;
    var ast;
    ast, warned := ParseInto(u, d, input, warns);
    attributes := ast.attributes;
    ghost var s := Parsed(d, T.Tokenized(Env(u, d, input), warns).tokens);
    assert |ast.nodes| == |s.par| by { LinkedSize(ast.nodes, s.par, s.labels); }
    var used;
    ghost var b;
    var src := Serializer.Source(input, ast.attributes, d.tags);
    root, all, used, b := Serializer.Serialize(src, ast.nodes, s.par, s.labels);
    assert root == Serializer.SerialOf(src, s.labels[0], root.start, root.count).(name := "ROOT") by {
      Serializer.RootStart(src, s.labels[0], root.count);
      Serializer.RootStart(src, s.labels[0], |Kids(s.par, 0)|);
    }
  }

  lemma {:induction false} LinkedSize(nodes: seq<Node>, par: seq<int>, labels: seq<Label>)
    requires IsLinked(nodes, par, labels)
    ensures |nodes| == |par| == |labels|
  {
  }
}
