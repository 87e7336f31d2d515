/** Markup source written from a document, tokenized and parsed: the document comes back. */
module SourceRoundTrip {
  import opened Markup
  import opened Plans
  import opened Scanning
  import opened Actions
  import opened TokenizerSpec
  import opened TokenizerLaws
  import opened TagActions
  import opened Escapes
  import P = ParserSpec
  import R = RoundTrip
  import L = ResourceLimits

  datatype Attr = Attr(key: seq<Byte>, payload: seq<Byte>)

  /** What an author writes, last piece outermost: plain text, a tag around content, a greedy tag
   *  around raw content; each with attributes directly behind it. */
  datatype Source =
    | Nothing
    | Words(front: Source, text: seq<Byte>, attrs: seq<Attr>)
    | Tagged(front: Source, tag: Byte, kids: Source, attrs: seq<Attr>)
    | Raw(front: Source, tag: Byte, content: seq<Byte>, attrs: seq<Attr>)

  function Sequence(d: Dictionary, b: Byte): seq<Byte>
    requires |d.tags| == 256
  {
    d.tags[b].sequence
  }

  function Closer(d: Dictionary, b: Byte): Byte
    requires |d.tags| == 256
  {
    d.tags[b].closeID
  }

  function WriteAttrs(d: Dictionary, attrs: seq<Attr>): seq<Byte> {
    if attrs == [] then []
    else
      var a := attrs[|attrs| - 1];
      WriteAttrs(d, attrs[..|attrs| - 1]) + PrintedAttribute(d, a.key, a.payload)
  }

  /** The bytes of a document: text escaped, tags by their sequences, raw content as it is. */
  function Write(d: Dictionary, m: Source): seq<Byte>
    requires |d.tags| == |d.actions| == 256
  {
    match m
    case Nothing => []
    case Words(front, text, attrs) => Write(d, front) + (Escaped(d, text) + WriteAttrs(d, attrs))
    case Tagged(front, tag, kids, attrs) =>
      Write(d, front) + (Sequence(d, tag) + (Write(d, kids) + (Sequence(d, Closer(d, tag)) + WriteAttrs(d, attrs))))
    case Raw(front, tag, content, attrs) =>
      Write(d, front) + ((Sequence(d, tag) + (content + Sequence(d, Closer(d, tag)))) + WriteAttrs(d, attrs))
  }

  // ---- the documents that can be written ----

  ghost predicate AttrsOk(d: Dictionary, attrs: seq<Attr>)
    requires |d.actions| == 256
  {
    (attrs == [] || EndsApart(d)) && forall i :: 0 <= i < |attrs| ==> CanPrint(d, attrs[i].key, attrs[i].payload)
  }

  /** A tag without greed or rule, and its closer. */
  ghost predicate PlainTag(d: Dictionary, b: Byte)
    requires |d.tags| == 256
  {
    && b != 0 && Registered(d, b) && d.tags[b].greed == NonGreedy && d.tags[b].rule == RuleNA
    && (d.tags[b].IsUniversal()
        || (d.tags[b].IsOpening() && Registered(d, Closer(d, b)) && d.tags[Closer(d, b)].greed == NonGreedy
            && d.tags[Closer(d, b)].IsClosing()))
  }

  /** Raw content in which the closing sequence first occurs at the end, within the payload limit. */
  ghost predicate RawOk(d: Dictionary, b: Byte, content: seq<Byte>)
    requires |d.tags| == 256
  {
    && b != 0 && Registered(d, b) && d.tags[b].greed != NonGreedy && d.tags[b].rule != RuleTagVsContent
    && (d.tags[b].IsUniversal() || d.tags[b].IsOpening()) && Registered(d, Closer(d, b))
    && |content| + |Sequence(d, Closer(d, b))| <= d.limits.maxPayloadLen + 1
    && forall p: nat :: p < |content| ==> !OccursAt(content + Sequence(d, Closer(d, b)), Sequence(d, Closer(d, b)), p)
  }

  /** The text ends in the open: more text would run into it. */
  predicate EndsInText(m: Source, pending: bool) {
    match m
    case Nothing => pending
    case Words(_, _, attrs) => attrs == []
    case _ => false
  }

  /** Texts are not empty and do not touch, and can be spelled with the escapes there are. */
  ghost predicate Writable(d: Dictionary, m: Source, pending: bool)
    requires |d.tags| == |d.actions| == 256
  {
    match m
    case Nothing => true
    case Words(front, text, attrs) =>
      Writable(d, front, pending) && text != [] && Spells(d, text) && !EndsInText(front, pending) && AttrsOk(d, attrs)
    case Tagged(front, tag, kids, attrs) =>
      Writable(d, front, pending) && PlainTag(d, tag) && Writable(d, kids, false) && AttrsOk(d, attrs)
    case Raw(front, tag, content, attrs) =>
      Writable(d, front, pending) && RawOk(d, tag, content) && AttrsOk(d, attrs)
  }

  // ---- the tokens of a document ----

  function AttrToks(d: Dictionary, attrs: seq<Attr>, pos: nat): seq<Token> {
    if attrs == [] then []
    else
      var front, a := attrs[..|attrs| - 1], attrs[|attrs| - 1];
      AttrToks(d, front, pos) + [AttributeToken(d, pos + |WriteAttrs(d, front)|, a.key, a.payload)]
  }

  function TagTok(d: Dictionary, b: Byte, pos: nat): Token
    requires |d.tags| == 256
  {
    var w := |Sequence(d, b)|;
    Token(TagToken, b, pos, w, Span(pos + w, pos + w), Span(0, 0))
  }

  function RawTok(d: Dictionary, b: Byte, content: seq<Byte>, pos: nat): (tok: Token)
    requires |d.tags| == 256
    ensures tok.width >= 0
  {
    var start := pos + |Sequence(d, b)|;
    Token(TagToken, b, pos, |Sequence(d, b)| + |content| + |Sequence(d, Closer(d, b))|, Span(start, start + |content|), Span(0, 0))
  }

  /** The document as the parser's token tree, written from position pos on. */
  function DocsOf(d: Dictionary, m: Source, pos: nat): R.Docs
    requires |d.tags| == |d.actions| == 256
  {
    match m
    case Nothing => R.End
    case Words(front, text, attrs) =>
      var i := pos + |Write(d, front)|;
      var j := i + |Escaped(d, text)|;
      R.Text(DocsOf(d, front, pos), TextBetween(i, j), AttrToks(d, attrs, j))
    case Tagged(front, tag, kids, attrs) =>
      var i := pos + |Write(d, front)|;
      var inner := i + |Sequence(d, tag)|;
      var j := inner + |Write(d, kids)|;
      R.Element(DocsOf(d, front, pos), TagTok(d, tag, i), DocsOf(d, kids, inner), TagTok(d, Closer(d, tag), j),
                AttrToks(d, attrs, j + |Sequence(d, Closer(d, tag))|))
    case Raw(front, tag, content, attrs) =>
      var i := pos + |Write(d, front)|;
      R.Leaf(DocsOf(d, front, pos), RawTok(d, tag, content, i), AttrToks(d, attrs, i + RawTok(d, tag, content, i).width))
  }

  // ---- one token of the source ----

  /** The tokens of a progress, its pending text included. */
  function Settled(p: Progress): seq<Token>
    requires p.textStart <= p.i
  {
    Flush(p, p.i).tokens
  }

  /** The loop got from p to q, adding these tokens and no warning. */
  ghost predicate Reads(e: Env, p: Progress, q: Progress, toks: seq<Token>, width: nat)
    requires ProgressOk(e, p)
  {
    && ProgressOk(e, q) && Loop(e, p) == Loop(e, q)
    && q.i == p.i + width && Settled(q) == Settled(p) + toks && q.warns == p.warns
  }

  lemma {:induction false} ReadsChain(e: Env, p: Progress, q: Progress, r: Progress, a: seq<Token>, b: seq<Token>, n: nat, m: nat)
    requires ProgressOk(e, p) && Reads(e, p, q, a, n) && Reads(e, q, r, b, m)
    ensures Reads(e, p, r, a + b, n + m)
  {
    hide Loop, Flush;
    assert Settled(p) + a + b == Settled(p) + (a + b);
  }

  /** An action that emits a token without a warning. */
  lemma {:induction false} TokenTurn(e: Env, p: Progress) returns (q: Progress)
    requires ProgressOk(e, p) && p.i < |e.input| && HasAction(e.d, e.input[p.i])
    requires var c := Act(e, Reset(p.i, p.counts, p.warns)); !c.skip && c.warns == p.warns
    ensures var c := Act(e, Reset(p.i, p.counts, p.warns)); c.stride >= 0 && Reads(e, p, q, [c.token], c.stride)
    ensures q.textStart == q.i
  {
    hide Act;
    q := Turn(e, p);
  }

  lemma {:induction false} AttributeRead(e: Env, p: Progress, a: Attr) returns (q: Progress)
    requires ProgressOk(e, p) && CanPrint(e.d, a.key, a.payload) && EndsApart(e.d)
    requires StandsAt(e.input, p.i, PrintedAttribute(e.d, a.key, a.payload))
    ensures Reads(e, p, q, [AttributeToken(e.d, p.i, a.key, a.payload)], |PrintedAttribute(e.d, a.key, a.payload)|)
    ensures q.textStart == q.i
  {
    hide StandsAt, Reads, Act, CanPrint;
    PrintedAttributeAct(e, Reset(p.i, p.counts, p.warns), a.key, a.payload);
    q := TokenTurn(e, p);
    AttributeWidth(e.d, p.i, a);
  }

  lemma {:induction false} AttrsRead(e: Env, p: Progress, attrs: seq<Attr>) returns (q: Progress)
    requires ProgressOk(e, p) && AttrsOk(e.d, attrs) && StandsAt(e.input, p.i, WriteAttrs(e.d, attrs))
    ensures Reads(e, p, q, AttrToks(e.d, attrs, p.i), |WriteAttrs(e.d, attrs)|)
    ensures q.textStart == q.i || (attrs == [] && q == p)
    decreases |attrs|
  {
    hide StandsAt, Reads, PrintedAttribute, CanPrint, AttributeToken;
    if attrs == [] {
      q := p;
      ReadsNothing(e, p);
    } else {
      var front, a := attrs[..|attrs| - 1], attrs[|attrs| - 1];
      StandsSplit(e.input, p.i, WriteAttrs(e.d, front), PrintedAttribute(e.d, a.key, a.payload));
      var m := AttrsRead(e, p, front);
      ReadsTo(e, p, m, AttrToks(e.d, front, p.i), |WriteAttrs(e.d, front)|);
      q := AttributeRead(e, m, a);
      ReadsChain(e, p, m, q, AttrToks(e.d, front, p.i), [AttributeToken(e.d, m.i, a.key, a.payload)],
                 |WriteAttrs(e.d, front)|, |PrintedAttribute(e.d, a.key, a.payload)|);
    }
  }

  lemma {:induction false} ReadsNothing(e: Env, p: Progress)
    requires ProgressOk(e, p)
    ensures Reads(e, p, p, [], 0)
  {
    assert Settled(p) + [] == Settled(p);
  }

  lemma {:induction false} ReadsTo(e: Env, p: Progress, q: Progress, toks: seq<Token>, width: nat)
    requires ProgressOk(e, p) && Reads(e, p, q, toks, width)
    ensures ProgressOk(e, q) && q.i == p.i + width && q.warns == p.warns
  {
  }

  lemma {:induction false} AttributeWidth(d: Dictionary, pos: nat, a: Attr)
    ensures AttributeToken(d, pos, a.key, a.payload).width == |PrintedAttribute(d, a.key, a.payload)|
  {
  }

  // ---- tag actions ----

  /** A simple tag standing at the trigger is emitted with its exact bounds. */
  lemma {:induction false} SimpleAct(e: Env, c: Ctx)
    requires CtxOk(e, c) && Simple(TagOf(e, c)) && OccursAt(e.input, TagOf(e, c).sequence, c.idx)
    requires TagOf(e, c).IsOpening() ==> c.idx + |TagOf(e, c).sequence| < |e.input|
    requires TagOf(e, c).IsClosing() ==> c.idx > 0
    ensures var r := ActTag(e, c);
      !r.skip && r.warns == c.warns && r.token == TagTok(e.d, e.input[c.idx], c.idx) && r.stride == r.token.width
  {
    hide RunPlan, OccursAt, PlanOf;
    var t := TagOf(e, c);
    SimplePlan(t);
    if t.IsUniversal() {
      var m := HeadFrames(e, c, [CountUniversalTag] + [EmitEntireTag]);
      CountAndEmit(e, CountUniversalTag, m);
    } else if t.IsOpening() {
      var m := HeadFrames(e, c, BEFORE_EOL + ([CountOpenTag] + [EmitEntireTag]));
      PassEOL(e, m, [CountOpenTag] + [EmitEntireTag]);
      CountAndEmit(e, CountOpenTag, m);
    } else {
      var m := HeadFrames(e, c, [WarnCloseAfterStartStep, SkipCloseAfterStart] + ([CountCloseTag] + [EmitEntireTag]));
      PassStart(e, m, [CountCloseTag] + [EmitEntireTag]);
      CountAndEmit(e, CountCloseTag, m);
    }
  }

  // ---- raw content ----

  /** Content and closing sequence stand at `start`: the closing search finds exactly that. */
  lemma {:induction false} RawCloses(e: Env, b: Byte, content: seq<Byte>, start: nat)
    requires WfEnv(e) && RawOk(e.d, b, content)
    requires StandsAt(e.input, start, content + Sequence(e.d, Closer(e.d, b)))
    ensures Closable(e, e.d.tags[b], start)
    ensures forall q: nat :: ClosesFirstAt(e, e.d.tags[b], start, q) ==> q == start + |content|
  {
    hide OccursAt;
    var pat := Sequence(e.d, Closer(e.d, b));
    InsideInput(e.input, start, content + pat);
    StandsSplit(e.input, start, content, pat);
    StandsOccurs(e.input, start + |content|, pat);
    assert ClosesIn(e.input, pat, start, SearchEnd(e, start), start + |content|);
    forall q: nat | start <= q < start + |content| ensures !OccursAt(e.input, pat, q) {
      if OccursAt(e.input, pat, q) {
        OccursInside(e.input, start, content + pat, pat, q - start);
      }
    }
  }

  lemma {:induction false} StandsOccurs(input: seq<Byte>, i: nat, part: seq<Byte>)
    ensures StandsAt(input, i, part) <==> OccursAt(input, part, i)
  {
    if i + |part| <= |input| {
      var cut := input[i..i + |part|];
      assert forall k :: 0 <= k < |part| ==> cut[k] == input[i + k];
    }
  }

  /** An occurrence inside a part that stands in the input is an occurrence in that part. */
  lemma {:induction false} OccursInside(input: seq<Byte>, i: nat, part: seq<Byte>, pat: seq<Byte>, p: nat)
    requires StandsAt(input, i, part) && OccursAt(input, pat, i + p) && p + |pat| <= |part|
    ensures OccursAt(part, pat, p)
  {
    StandsOccurs(input, i + p, pat);
    forall k | 0 <= k < |pat| ensures part[p + k] == pat[k] {
      assert input[i + (p + k)] == part[p + k];
      assert input[(i + p) + k] == pat[k];
    }
    StandsOccurs(part, p, pat);
  }

  lemma {:induction false} RawAct(e: Env, c: Ctx, content: seq<Byte>)
    requires CtxOk(e, c) && c == Reset(c.idx, c.counts, c.warns) && RawOk(e.d, e.input[c.idx], content)
    requires StandsAt(e.input, c.idx, Sequence(e.d, e.input[c.idx]) + (content + Sequence(e.d, TagOf(e, c).closeID)))
    ensures var r := ActTag(e, c);
      !r.skip && r.warns == c.warns && r.token == RawTok(e.d, e.input[c.idx], content, c.idx) && r.stride == r.token.width
  {
    hide ActTag, OccursAt, StandsAt, Closable, ClosesFirstAt;
    var t := TagOf(e, c);
    var w, tail := |t.sequence|, content + Sequence(e.d, t.closeID);
    StandsSplit(e.input, c.idx, t.sequence, tail);
    StandsOccurs(e.input, c.idx, t.sequence);
    InsideInput(e.input, c.idx + w, tail);
    RawCloses(e, e.input[c.idx], content, c.idx + w);
    PayloadTagAction(e, c);
  }

  // ---- reading a document ----

  /** Reading a tag token. */
  lemma {:induction false} TagRead(e: Env, p: Progress, b: Byte) returns (q: Progress)
    requires ProgressOk(e, p) && Registered(e.d, b) && Simple(e.d.tags[b]) && StandsAt(e.input, p.i, Sequence(e.d, b))
    requires e.d.tags[b].IsOpening() ==> p.i + |Sequence(e.d, b)| < |e.input|
    requires e.d.tags[b].IsClosing() ==> p.i > 0
    ensures Reads(e, p, q, [TagTok(e.d, b, p.i)], |Sequence(e.d, b)|) && q.textStart == q.i
  {
    hide Reads, ActTag, Simple, OccursAt;
    AtRegistered(e, p, b);
    StandsOccurs(e.input, p.i, Sequence(e.d, b));
    SimpleAct(e, Reset(p.i, p.counts, p.warns));
    q := TokenTurn(e, p);
  }

  /** The context at a registered tag. */
  lemma {:induction false} AtRegistered(e: Env, p: Progress, b: Byte)
    requires ProgressOk(e, p) && Registered(e.d, b) && StandsAt(e.input, p.i, Sequence(e.d, b))
    ensures p.i < |e.input| && e.input[p.i] == b && HasAction(e.d, b)
    ensures var c := Reset(p.i, p.counts, p.warns);
      CtxOk(e, c) && TagOf(e, c) == e.d.tags[b] && Act(e, c) == ActTag(e, c)
  {
    hide ActTag;
    assert WfTag(e.d.tags[b], b);
    assert e.input[p.i] == Sequence(e.d, b)[0];
    assert ActionOk(e.d, b);
  }

  lemma {:induction false} RawRead(e: Env, p: Progress, b: Byte, content: seq<Byte>) returns (q: Progress)
    requires ProgressOk(e, p) && RawOk(e.d, b, content)
    requires StandsAt(e.input, p.i, Sequence(e.d, b) + (content + Sequence(e.d, Closer(e.d, b))))
    ensures Reads(e, p, q, [RawTok(e.d, b, content, p.i)], |Sequence(e.d, b)| + |content| + |Sequence(e.d, Closer(e.d, b))|)
    ensures q.textStart == q.i
  {
    hide Reads, ActTag, StandsAt, OccursAt;
    StandsSplit(e.input, p.i, Sequence(e.d, b), content + Sequence(e.d, Closer(e.d, b)));
    AtRegistered(e, p, b);
    RawAct(e, Reset(p.i, p.counts, p.warns), content);
    q := TokenTurn(e, p);
  }

  /** Reading plain text where no text is pending. */
  lemma {:induction false} WordsRead(e: Env, p: Progress, text: seq<Byte>) returns (q: Progress)
    requires ProgressOk(e, p) && Spells(e.d, text) && text != [] && p.textStart == p.i
    requires StandsAt(e.input, p.i, Escaped(e.d, text))
    ensures Reads(e, p, q, [TextBetween(p.i, p.i + |Escaped(e.d, text)|)], |Escaped(e.d, text)|)
  {
    hide Loop;
    EscapedIsTransparent(e, p, text);
    q := p.(i := p.i + |Escaped(e.d, text)|);
    assert |Escaped(e.d, text)| > 0;
  }

  /** Plain text and its attributes. */
  lemma {:induction false} WordsPiece(e: Env, f: Progress, text: seq<Byte>, attrs: seq<Attr>) returns (q: Progress)
    requires ProgressOk(e, f) && Spells(e.d, text) && text != [] && f.textStart == f.i && AttrsOk(e.d, attrs)
    requires StandsAt(e.input, f.i, Escaped(e.d, text) + WriteAttrs(e.d, attrs))
    ensures var j := f.i + |Escaped(e.d, text)|;
      Reads(e, f, q, [TextBetween(f.i, j)] + AttrToks(e.d, attrs, j), |Escaped(e.d, text) + WriteAttrs(e.d, attrs)|)
    ensures q.textStart == q.i || attrs == []
  {
    hide StandsAt, Reads, Spells, AttrsOk, Escaped, WriteAttrs, AttrToks, TextBetween;
    StandsSplit(e.input, f.i, Escaped(e.d, text), WriteAttrs(e.d, attrs));
    var g := WordsRead(e, f, text);
    ReadsTo(e, f, g, [TextBetween(f.i, f.i + |Escaped(e.d, text)|)], |Escaped(e.d, text)|);
    q := AttrsRead(e, g, attrs);
    ReadsChain(e, f, g, q, [TextBetween(f.i, g.i)], AttrToks(e.d, attrs, g.i), |Escaped(e.d, text)|, |WriteAttrs(e.d, attrs)|);
  }

  /** A raw tag and its attributes. */
  lemma {:induction false} RawPiece(e: Env, f: Progress, tag: Byte, content: seq<Byte>, attrs: seq<Attr>) returns (q: Progress)
    requires ProgressOk(e, f) && RawOk(e.d, tag, content) && AttrsOk(e.d, attrs)
    requires StandsAt(e.input, f.i, (Sequence(e.d, tag) + (content + Sequence(e.d, Closer(e.d, tag)))) + WriteAttrs(e.d, attrs))
    ensures var r := RawTok(e.d, tag, content, f.i);
      Reads(e, f, q, [r] + AttrToks(e.d, attrs, f.i + r.width),
            |(Sequence(e.d, tag) + (content + Sequence(e.d, Closer(e.d, tag)))) + WriteAttrs(e.d, attrs)|)
    ensures q.textStart == q.i
  {
    hide StandsAt, Reads, RawOk, AttrsOk, WriteAttrs, AttrToks, RawTok;
    var whole := Sequence(e.d, tag) + (content + Sequence(e.d, Closer(e.d, tag)));
    StandsSplit(e.input, f.i, whole, WriteAttrs(e.d, attrs));
    var g := RawRead(e, f, tag, content);
    RawWidth(e.d, tag, content, f.i);
    ReadsTo(e, f, g, [RawTok(e.d, tag, content, f.i)], |whole|);
    q := AttrsRead(e, g, attrs);
    ReadsChain(e, f, g, q, [RawTok(e.d, tag, content, f.i)], AttrToks(e.d, attrs, g.i), |whole|, |WriteAttrs(e.d, attrs)|);
  }

  /** A closing tag and its attributes. */
  lemma {:induction false} ClosePiece(e: Env, h: Progress, close: Byte, attrs: seq<Attr>) returns (q: Progress)
    requires ProgressOk(e, h) && AttrsOk(e.d, attrs) && h.i > 0
    requires Registered(e.d, close) && Simple(e.d.tags[close])
    requires e.d.tags[close].IsOpening() ==> h.i + |Sequence(e.d, close)| < |e.input|
    requires StandsAt(e.input, h.i, Sequence(e.d, close) + WriteAttrs(e.d, attrs))
    ensures Reads(e, h, q, [TagTok(e.d, close, h.i)] + AttrToks(e.d, attrs, h.i + |Sequence(e.d, close)|),
                  |Sequence(e.d, close) + WriteAttrs(e.d, attrs)|)
    ensures q.textStart == q.i
  {
    hide StandsAt, Reads, AttrsOk, WriteAttrs, AttrToks, TagTok, Simple;
    StandsSplit(e.input, h.i, Sequence(e.d, close), WriteAttrs(e.d, attrs));
    var k := TagRead(e, h, close);
    ReadsTo(e, h, k, [TagTok(e.d, close, h.i)], |Sequence(e.d, close)|);
    q := AttrsRead(e, k, attrs);
    ReadsChain(e, h, k, q, [TagTok(e.d, close, h.i)], AttrToks(e.d, attrs, k.i), |Sequence(e.d, close)|, |WriteAttrs(e.d, attrs)|);
  }

  /** Opener, content and closer, one behind the other. */
  lemma {:induction false} ReadsElement(e: Env, f: Progress, g: Progress, h: Progress, q: Progress, start: Token, kids: seq<Token>,
                                        tail: seq<Token>, a: nat, b: nat, c: nat)
    requires ProgressOk(e, f) && Reads(e, f, g, [start], a) && Reads(e, g, h, kids, b) && Reads(e, h, q, tail, c)
    ensures Reads(e, f, q, [start] + (kids + tail), a + (b + c))
  {
    hide Reads;
    ReadsTo(e, f, g, [start], a);
    ReadsChain(e, g, h, q, kids, tail, b, c);
    ReadsChain(e, f, g, q, [start], kids + tail, a, b + c);
  }

  /** Where the parts of a tagged piece stand. */
  lemma {:induction false} TaggedStands(e: Env, i: nat, tag: Byte, kids: Source, attrs: seq<Attr>)
    requires WfEnv(e) && PlainTag(e.d, tag)
    requires StandsAt(e.input, i, Sequence(e.d, tag) + (Write(e.d, kids) + (Sequence(e.d, Closer(e.d, tag)) + WriteAttrs(e.d, attrs))))
    ensures var close, inner := Closer(e.d, tag), i + |Sequence(e.d, tag)|;
      var j := inner + |Write(e.d, kids)|;
      && StandsAt(e.input, i, Sequence(e.d, tag)) && StandsAt(e.input, inner, Write(e.d, kids))
      && StandsAt(e.input, j, Sequence(e.d, close) + WriteAttrs(e.d, attrs))
      && Registered(e.d, tag) && Registered(e.d, close) && Simple(e.d.tags[tag]) && Simple(e.d.tags[close])
      && inner < |e.input| && j > 0 && !e.d.tags[tag].IsClosing() && !e.d.tags[close].IsOpening()
  {
    hide StandsAt, Simple, PlainTag, Write, WriteAttrs;
    var close, inner := Closer(e.d, tag), i + |Sequence(e.d, tag)|;
    var j, end := inner + |Write(e.d, kids)|, Sequence(e.d, close) + WriteAttrs(e.d, attrs);
    StandsSplit(e.input, i, Sequence(e.d, tag), Write(e.d, kids) + end);
    StandsSplit(e.input, inner, Write(e.d, kids), end);
    StandsSplit(e.input, j, Sequence(e.d, close), WriteAttrs(e.d, attrs));
    TagEnds(e, tag, i, j);
  }

  /** A written document stands at p, and text is pending only where the document allows it. */
  ghost predicate CanRead(e: Env, p: Progress, m: Source, pending: bool) {
    && ProgressOk(e, p) && Writable(e.d, m, pending)
    && StandsAt(e.input, p.i, Write(e.d, m)) && (p.textStart < p.i ==> pending)
  }

  /** Reading a written document adds its tokens, without a warning. */
  lemma {:induction false} SourceRead(e: Env, p: Progress, m: Source, pending: bool) returns (q: Progress)
    requires CanRead(e, p, m, pending)
    ensures Reads(e, p, q, R.Print(DocsOf(e.d, m, p.i)), |Write(e.d, m)|)
    ensures q.textStart < q.i ==> EndsInText(m, pending)
    decreases m, 1
  {
    hide StandsAt, Reads, Spells, Writable;
    match m
    case Nothing =>
      q := p;
      ReadsNothing(e, p);
    case Words(_, _, _) => q := WordsCase(e, p, m, pending);
    case Raw(_, _, _, _) => q := RawCase(e, p, m, pending);
    case Tagged(_, _, _, _) => q := TaggedCase(e, p, m, pending);
  }

  /** What a document ending in plain text is made of. */
  lemma {:induction false} WordsParts(e: Env, p: Progress, m: Source, pending: bool)
    requires m.Words? && CanRead(e, p, m, pending)
    ensures Writable(e.d, m.front, pending) && m.text != [] && Spells(e.d, m.text) && !EndsInText(m.front, pending)
    ensures AttrsOk(e.d, m.attrs)
    ensures var j := p.i + |Write(e.d, m.front)| + |Escaped(e.d, m.text)|;
      && Write(e.d, m) == Write(e.d, m.front) + (Escaped(e.d, m.text) + WriteAttrs(e.d, m.attrs))
      && R.Print(DocsOf(e.d, m, p.i)) == R.Print(DocsOf(e.d, m.front, p.i))
           + ([TextBetween(p.i + |Write(e.d, m.front)|, j)] + AttrToks(e.d, m.attrs, j))
    ensures EndsInText(m, pending) == (m.attrs == [])
  {
    hide StandsAt, Spells, AttrsOk, Escaped, WriteAttrs, AttrToks, TextBetween, ProgressOk;
  }

  /** What a document ending in a raw tag is made of. */
  lemma {:induction false} RawParts(e: Env, p: Progress, m: Source, pending: bool)
    requires m.Raw? && CanRead(e, p, m, pending)
    ensures Writable(e.d, m.front, pending) && RawOk(e.d, m.tag, m.content) && AttrsOk(e.d, m.attrs)
    ensures var r := RawTok(e.d, m.tag, m.content, p.i + |Write(e.d, m.front)|);
      var whole := Sequence(e.d, m.tag) + (m.content + Sequence(e.d, Closer(e.d, m.tag)));
      && Write(e.d, m) == Write(e.d, m.front) + (whole + WriteAttrs(e.d, m.attrs))
      && R.Print(DocsOf(e.d, m, p.i)) == R.Print(DocsOf(e.d, m.front, p.i))
           + ([r] + AttrToks(e.d, m.attrs, p.i + |Write(e.d, m.front)| + r.width))
  {
    hide StandsAt, Spells, AttrsOk, RawOk, RawTok, WriteAttrs, AttrToks, ProgressOk;
  }

  /** What a document ending in a tag is made of. */
  lemma {:induction false} TaggedParts(e: Env, p: Progress, m: Source, pending: bool)
    requires m.Tagged? && CanRead(e, p, m, pending)
    ensures Writable(e.d, m.front, pending) && PlainTag(e.d, m.tag) && Writable(e.d, m.kids, false) && AttrsOk(e.d, m.attrs)
    ensures var i, close := p.i + |Write(e.d, m.front)|, Closer(e.d, m.tag);
      var inner := i + |Sequence(e.d, m.tag)|;
      var j := inner + |Write(e.d, m.kids)|;
      && Write(e.d, m) == Write(e.d, m.front)
           + (Sequence(e.d, m.tag) + (Write(e.d, m.kids) + (Sequence(e.d, close) + WriteAttrs(e.d, m.attrs))))
      && R.Print(DocsOf(e.d, m, p.i)) == R.Print(DocsOf(e.d, m.front, p.i))
           + ([TagTok(e.d, m.tag, i)] + (R.Print(DocsOf(e.d, m.kids, inner))
              + ([TagTok(e.d, close, j)] + AttrToks(e.d, m.attrs, j + |Sequence(e.d, close)|))))
  {
    hide StandsAt, Spells, AttrsOk, PlainTag, TagTok, WriteAttrs, AttrToks, WfUnicode, DocsOf, R.Print;
    TaggedTokens(e.d, m, p.i);
  }

  lemma {:induction false} TaggedTokens(d: Dictionary, m: Source, pos: nat)
    requires m.Tagged? && |d.tags| == |d.actions| == 256
    ensures var i, close := pos + |Write(d, m.front)|, Closer(d, m.tag);
      var inner := i + |Sequence(d, m.tag)|;
      var j := inner + |Write(d, m.kids)|;
      R.Print(DocsOf(d, m, pos)) == R.Print(DocsOf(d, m.front, pos))
        + ([TagTok(d, m.tag, i)] + (R.Print(DocsOf(d, m.kids, inner))
           + ([TagTok(d, close, j)] + AttrToks(d, m.attrs, j + |Sequence(d, close)|))))
  {
    hide TagTok, AttrToks, Write;
  }

  lemma {:induction false} WordsCase(e: Env, p: Progress, m: Source, pending: bool) returns (q: Progress)
    requires m.Words? && CanRead(e, p, m, pending)
    ensures Reads(e, p, q, R.Print(DocsOf(e.d, m, p.i)), |Write(e.d, m)|)
    ensures q.textStart < q.i ==> EndsInText(m, pending)
    decreases m, 0
  {
    hide StandsAt, Reads, Spells, RawOk, PlainTag, AttrsOk, Escaped, WriteAttrs, AttrToks, TextBetween, RawTok,
         TagTok, Simple, Write, DocsOf, R.Print, Writable;
    WordsParts(e, p, m, pending);
    var front, text, attrs := m.front, m.text, m.attrs;
    var f := FrontRead(e, p, front, Escaped(e.d, text) + WriteAttrs(e.d, attrs), pending);
    q := WordsPiece(e, f, text, attrs);
    var j := f.i + |Escaped(e.d, text)|;
    ReadsChain(e, p, f, q, R.Print(DocsOf(e.d, front, p.i)), [TextBetween(f.i, j)] + AttrToks(e.d, attrs, j),
               |Write(e.d, front)|, |Escaped(e.d, text) + WriteAttrs(e.d, attrs)|);
  }

  lemma {:induction false} RawCase(e: Env, p: Progress, m: Source, pending: bool) returns (q: Progress)
    requires m.Raw? && CanRead(e, p, m, pending)
    ensures Reads(e, p, q, R.Print(DocsOf(e.d, m, p.i)), |Write(e.d, m)|)
    ensures q.textStart < q.i ==> EndsInText(m, pending)
    decreases m, 0
  {
    hide StandsAt, Reads, Spells, RawOk, PlainTag, AttrsOk, Escaped, WriteAttrs, AttrToks, TextBetween, RawTok,
         TagTok, Simple, Write, DocsOf, R.Print, Writable;
    RawParts(e, p, m, pending);
    var front, tag, content, attrs := m.front, m.tag, m.content, m.attrs;
    var whole := (Sequence(e.d, tag) + (content + Sequence(e.d, Closer(e.d, tag)))) + WriteAttrs(e.d, attrs);
    var f := FrontRead(e, p, front, whole, pending);
    q := RawPiece(e, f, tag, content, attrs);
    var r := RawTok(e.d, tag, content, f.i);
    ReadsChain(e, p, f, q, R.Print(DocsOf(e.d, front, p.i)), [r] + AttrToks(e.d, attrs, f.i + r.width),
               |Write(e.d, front)|, |whole|);
  }

  lemma {:induction false} TaggedCase(e: Env, p: Progress, m: Source, pending: bool) returns (q: Progress)
    requires m.Tagged? && CanRead(e, p, m, pending)
    ensures Reads(e, p, q, R.Print(DocsOf(e.d, m, p.i)), |Write(e.d, m)|)
    ensures q.textStart < q.i ==> EndsInText(m, pending)
    decreases m, 0
  {
    hide StandsAt, Reads, Spells, RawOk, PlainTag, AttrsOk, Escaped, WriteAttrs, AttrToks, TextBetween, RawTok,
         TagTok, Simple, Write, DocsOf, R.Print, Writable;
    TaggedParts(e, p, m, pending);
    var front, tag, kids, attrs := m.front, m.tag, m.kids, m.attrs;
    var close := Closer(e.d, tag);
    var end := Sequence(e.d, close) + WriteAttrs(e.d, attrs);
    var f := FrontRead(e, p, front, Sequence(e.d, tag) + (Write(e.d, kids) + end), pending);
    var g, h;
    g, h, q := BodyRead(e, f, tag, kids, attrs);
    var tail := [TagTok(e.d, close, h.i)] + AttrToks(e.d, attrs, h.i + |Sequence(e.d, close)|);
    ReadsChain(e, p, f, q, R.Print(DocsOf(e.d, front, p.i)), [TagTok(e.d, tag, f.i)] + (R.Print(DocsOf(e.d, kids, g.i)) + tail),
               |Write(e.d, front)|, |Sequence(e.d, tag) + (Write(e.d, kids) + end)|);
  }

  /** Reading a tagged piece from its opener on. */
  lemma {:induction false} BodyRead(e: Env, f: Progress, tag: Byte, kids: Source, attrs: seq<Attr>)
    returns (g: Progress, h: Progress, q: Progress)
    requires ProgressOk(e, f) && PlainTag(e.d, tag) && Writable(e.d, kids, false)
    requires AttrsOk(e.d, attrs)
    requires StandsAt(e.input, f.i, Sequence(e.d, tag) + (Write(e.d, kids) + (Sequence(e.d, Closer(e.d, tag)) + WriteAttrs(e.d, attrs))))
    ensures g.i == f.i + |Sequence(e.d, tag)| && h.i == g.i + |Write(e.d, kids)|
    ensures var close := Closer(e.d, tag);
      var tail := [TagTok(e.d, close, h.i)] + AttrToks(e.d, attrs, h.i + |Sequence(e.d, close)|);
      Reads(e, f, q, [TagTok(e.d, tag, f.i)] + (R.Print(DocsOf(e.d, kids, g.i)) + tail),
            |Sequence(e.d, tag) + (Write(e.d, kids) + (Sequence(e.d, close) + WriteAttrs(e.d, attrs)))|)
    ensures q.textStart == q.i
    decreases kids, 2
  {
    hide StandsAt, Reads, Spells, RawOk, PlainTag, AttrsOk, Escaped, WriteAttrs, AttrToks, TextBetween, RawTok,
         TagTok, Simple, Writable, Write, DocsOf, R.Print;
    var close := Closer(e.d, tag);
    var end := Sequence(e.d, close) + WriteAttrs(e.d, attrs);
    TaggedStands(e, f.i, tag, kids, attrs);
    g := TagRead(e, f, tag);
    ReadsTo(e, f, g, [TagTok(e.d, tag, f.i)], |Sequence(e.d, tag)|);
    h := SourceRead(e, g, kids, false);
    ReadsTo(e, g, h, R.Print(DocsOf(e.d, kids, g.i)), |Write(e.d, kids)|);
    q := ClosePiece(e, h, close, attrs);
    var tail := [TagTok(e.d, close, h.i)] + AttrToks(e.d, attrs, h.i + |Sequence(e.d, close)|);
    ReadsElement(e, f, g, h, q, TagTok(e.d, tag, f.i), R.Print(DocsOf(e.d, kids, g.i)), tail,
                 |Sequence(e.d, tag)|, |Write(e.d, kids)|, |end|);
  }

  /** Reading what comes before the last piece. */
  lemma {:induction false} FrontRead(e: Env, p: Progress, front: Source, rest: seq<Byte>, pending: bool) returns (f: Progress)
    requires ProgressOk(e, p) && Writable(e.d, front, pending)
    requires StandsAt(e.input, p.i, Write(e.d, front) + rest) && (p.textStart < p.i ==> pending)
    ensures Reads(e, p, f, R.Print(DocsOf(e.d, front, p.i)), |Write(e.d, front)|)
    ensures ProgressOk(e, f) && f.i == p.i + |Write(e.d, front)| && f.warns == p.warns && StandsAt(e.input, f.i, rest)
    ensures f.textStart < f.i ==> EndsInText(front, pending)
    decreases front, 2
  {
    hide StandsAt, Reads, Spells, Write, DocsOf, R.Print, Writable, EndsInText;
    StandsSplit(e.input, p.i, Write(e.d, front), rest);
    f := SourceRead(e, p, front, pending);
    ReadsTo(e, p, f, R.Print(DocsOf(e.d, front, p.i)), |Write(e.d, front)|);
  }

  lemma {:induction false} RawWidth(d: Dictionary, tag: Byte, content: seq<Byte>, pos: nat)
    requires |d.tags| == 256
    ensures RawTok(d, tag, content, pos).width == |Sequence(d, tag) + (content + Sequence(d, Closer(d, tag)))|
  {
  }

  /** Opener and closer of a plain tag are simple, the closer stands behind the opener. */
  lemma {:induction false} TagEnds(e: Env, tag: Byte, i: nat, j: nat)
    requires WfEnv(e) && PlainTag(e.d, tag) && i + |Sequence(e.d, tag)| <= j
    requires StandsAt(e.input, j, Sequence(e.d, Closer(e.d, tag)))
    ensures var close := Closer(e.d, tag);
      && Registered(e.d, tag) && Registered(e.d, close) && Simple(e.d.tags[tag]) && Simple(e.d.tags[close])
      && i + |Sequence(e.d, tag)| < |e.input| && j > 0 && !e.d.tags[tag].IsClosing() && !e.d.tags[close].IsOpening()
  {
    assert WfTag(e.d.tags[tag], tag);
    if !e.d.tags[tag].IsUniversal() {
      assert WfTag(e.d.tags[Closer(e.d, tag)], Closer(e.d, tag));
    }
  }

  // ---- the tokens form a document ----

  lemma {:induction false} AttrToksOk(d: Dictionary, attrs: seq<Attr>, pos: nat)
    ensures R.AttributeTokens(AttrToks(d, attrs, pos))
  {
    if attrs != [] {
      AttrToksOk(d, attrs[..|attrs| - 1], pos);
    }
  }

  lemma {:induction false} PlainBrackets(d: Dictionary, b: Byte, i: nat, j: nat)
    requires WfTags(d) && PlainTag(d, b)
    ensures R.Brackets(d, TagTok(d, b, i), TagTok(d, Closer(d, b), j))
  {
    assert d.tags[Closer(d, b)] == UNREGISTERED || WfTag(d.tags[Closer(d, b)], Closer(d, b));
  }

  lemma {:induction false} DocsWf(d: Dictionary, m: Source, pending: bool, pos: nat)
    requires WfTags(d) && |d.tags| == |d.actions| == 256 && Writable(d, m, pending)
    ensures R.WfDocs(d, DocsOf(d, m, pos))
    decreases m
  {
    hide WfTags, PlainTag, R.Brackets, R.AttributeTokens, Write, Escaped, AttrToks, AttrsOk, OccursAt;
    match m
    case Nothing =>
    case Words(front, text, attrs) =>
      DocsWf(d, front, pending, pos);
      AttrToksOk(d, attrs, pos + |Write(d, front)| + |Escaped(d, text)|);
    case Tagged(front, tag, kids, attrs) =>
      var i := pos + |Write(d, front)|;
      var inner := i + |Sequence(d, tag)|;
      var j := inner + |Write(d, kids)|;
      DocsWf(d, front, pending, pos);
      DocsWf(d, kids, false, inner);
      PlainBrackets(d, tag, i, j);
      AttrToksOk(d, attrs, j + |Sequence(d, Closer(d, tag))|);
    case Raw(front, tag, content, attrs) =>
      var i := pos + |Write(d, front)|;
      DocsWf(d, front, pending, pos);
      AttrToksOk(d, attrs, i + RawTok(d, tag, content, i).width);
  }

  lemma {:induction false} NoStrays(d: Dictionary, m: Source, pos: nat)
    requires |d.tags| == |d.actions| == 256
    ensures R.StrayCount(DocsOf(d, m, pos)) == 0
    decreases m
  {
    hide Write, Escaped, AttrToks, TagTok, RawTok;
    match m
    case Nothing =>
    case Words(front, _, _) => NoStrays(d, front, pos);
    case Tagged(front, tag, kids, _) =>
      NoStrays(d, front, pos);
      NoStrays(d, kids, pos + |Write(d, front)| + |Sequence(d, tag)|);
    case Raw(front, _, _, _) => NoStrays(d, front, pos);
  }

  /** Tokenizing a written document gives the tokens of its tree, and no warning. */
  lemma {:induction false} TokensOfWritten(e: Env, m: Source)
    requires WfEnv(e) && Writable(e.d, m, false) && e.input == Write(e.d, m)
    ensures Tokenized(e, []).tokens == R.Print(DocsOf(e.d, m, 0)) && Tokenized(e, []).warns == []
  {
    hide Spells, Writable, Write, DocsOf, R.Print, Loop;
    var p := Begin([]);
    var q := SourceRead(e, p, m, false);
    AtEnd(e, q);
    assert Settled(p) == [];
  }

  lemma {:induction false} AtEnd(e: Env, q: Progress)
    requires ProgressOk(e, q) && q.i == |e.input|
    ensures Loop(e, q) == q
  {
  }

  /** Writing a document, tokenizing and parsing it gives the document back: with repeated tags
   *  spliced out, each with a warning, and exactly itself when no tag is repeated. */
  lemma {:induction false} SourceComesBack(e: Env, m: Source)
    requires WfEnv(e) && Writable(e.d, m, false) && e.input == Write(e.d, m)
    requires R.NoLimits(e.d)
    ensures var docs, toks := DocsOf(e.d, m, 0), Tokenized(e, []).tokens;
      && P.TokensOk(e.d, toks) && Tokenized(e, []).warns == []
      && (R.NoRepeats({}, docs) ==> R.ParseIs(P.Parsed(e.d, toks), docs, []))
      && (R.CanSplice(e.d, {}, 0, docs) && R.ClosersAreInjective(e.d) ==>
           R.ParseIs(P.Parsed(e.d, toks), R.Spliced({}, docs), R.ParseWarnings({}, 0, docs)))
  {
    hide Spells, Writable, Write, DocsOf, R.Print, Tokenized, P.Parsed, R.ParseIs, R.WfDocs;
    var docs := DocsOf(e.d, m, 0);
    TokensOfWritten(e, m);
    TokensTileInput(e, []);
    DocsWf(e.d, m, false, 0);
    NoStrays(e.d, m, 0);
    R.NoStraysFit(e.d, 0, docs);
    if R.NoRepeats({}, docs) {
      R.ParseOfPrintIsIdentity(e.d, docs);
    }
    if R.CanSplice(e.d, {}, 0, docs) && R.ClosersAreInjective(e.d) {
      R.ParsePrinted(e.d, docs);
    }
  }

  // ---- such documents exist ----

  /** The document `[a\]b]!{c}`: a link around a text with an escaped bracket, with a flag attribute. */
  function Sample(): Source {
    Tagged(Nothing, 91, Words(Nothing, [97, 93, 98], []), [Attr([], [99])])
  }

  /** It meets everything SourceComesBack asks for. */
  lemma {:induction false} SampleComesBack() returns (e: Env)
    ensures WfEnv(e) && EscapeWorks(e.d) && EndsApart(e.d) && R.NoLimits(e.d) && e.input == Write(e.d, Sample())
    ensures Writable(e.d, Sample(), false) && R.NoRepeats({}, DocsOf(e.d, Sample(), 0))
  {
    hide PlanOf, WfDictionary, Write, Writable, DocsOf, R.NoRepeats;
    var d := L.LinkDictionary();
    var u := Unicode(s => if s == [] then 0 else 1, s => 0, s => false, s => false);
    e := Env(u, d, Write(d, Sample()));
    SampleTag(d);
    SampleAttribute(d);
    SampleWritable(d);
    SampleRepeatsNothing(d);
  }

  lemma {:induction false} SampleTag(d: Dictionary)
    requires d == L.LinkDictionary()
    ensures PlainTag(d, 91)
  {
    hide PlanOf, WfDictionary;
  }

  lemma {:induction false} SampleAttribute(d: Dictionary)
    requires d == L.LinkDictionary()
    ensures CanPrint(d, [], [99]) && EndsApart(d)
  {
    hide PlanOf, WfDictionary, Protected;
    assert Protected([99], 125, 92) == [99] by { OneProtected(99, 125, 92); }
  }

  lemma {:induction false} OneProtected(b: Byte, end: Byte, esc: Byte)
    requires b != end && b != esc
    ensures Protected([b], end, esc) == [b]
  {
    assert [b][1..] == [] && Protected([], end, esc) == [];
  }

  lemma {:induction false} SampleWritable(d: Dictionary)
    requires |d.tags| == |d.actions| == 256 && PlainTag(d, 91) && EscapeWorks(d) && CanPrint(d, [], [99]) && EndsApart(d)
    ensures Writable(d, Sample(), false)
  {
    hide PlainTag, EscapeWorks, CanPrint, EndsApart;
    assert Writable(d, Nothing, false);
    assert Writable(d, Words(Nothing, [97, 93, 98], []), false);
  }

  lemma {:induction false} TextRepeatsNothing(on: set<Byte>, tok: Token, attrs: seq<Token>)
    ensures R.NoRepeats(on, R.Text(R.End, tok, attrs))
  {
    assert R.NoRepeats(on, R.End);
  }

  lemma {:induction false} WordsRepeatNothing(d: Dictionary, on: set<Byte>, text: seq<Byte>, pos: nat)
    requires |d.tags| == |d.actions| == 256
    ensures R.NoRepeats(on, DocsOf(d, Words(Nothing, text, []), pos))
  {
    hide Write, AttrToks, Escaped;
    assert DocsOf(d, Nothing, pos) == R.End;
    var docs := DocsOf(d, Words(Nothing, text, []), pos);
    TextRepeatsNothing(on, docs.tok, docs.attrs);
  }

  lemma {:induction false} SampleRepeatsNothing(d: Dictionary)
    requires |d.tags| == |d.actions| == 256
    ensures R.NoRepeats({}, DocsOf(d, Sample(), 0))
  {
    hide Write, AttrToks, Escaped;
    WordsRepeatNothing(d, {} + {91 as Byte}, [97, 93, 98], 0 + |Write(d, Nothing)| + |Sequence(d, 91)|);
    assert DocsOf(d, Nothing, 0) == R.End && R.NoRepeats({}, R.End);
  }
}
