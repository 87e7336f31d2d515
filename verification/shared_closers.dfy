/** Duplicate elision works exactly when no two brackets share a closer. */
module SharedClosers {
  import opened Markup
  import opened Forests
  import opened ParserSpec
  import opened Nesting
  import opened RoundTrip

  // ---- a document that a shared closer misplaces ----

  /** The document `aa b x c y c c`: bracket b around x, behind it y, both in a bracket a written twice. */
  function Doubled(t: seq<Token>): Docs
    requires |t| == 8
  {
    var inner := Text(Element(End, t[2], Text(End, t[3], []), t[4], []), t[5], []);
    Element(End, t[0], Element(End, t[1], inner, t[6], []), t[7], [])
  }

  ghost predicate IsMark(tok: Token, b: Byte) {
    tok.typ == TagToken && tok.trigger == b
  }

  /** The tokens fit their places. */
  ghost predicate Fits(d: Dictionary, a: Byte, b: Byte, t: seq<Token>)
    requires |d.tags| == 256
  {
    var c := d.tags[a].closeID;
    && |t| == 8 && IsMark(t[0], a) && IsMark(t[1], a) && IsMark(t[2], b) && t[3].typ == TextToken
    && IsMark(t[4], c) && t[5].typ == TextToken && IsMark(t[6], c) && IsMark(t[7], c)
  }

  lemma {:induction false} DoubledPrints(t: seq<Token>)
    requires |t| == 8
    ensures Print(Doubled(t)) == t
  {
    assert Print(End) == [];
    var round := Element(End, t[2], Text(End, t[3], []), t[4], []);
    assert Print(Text(End, t[3], [])) == [t[3]];
    assert Print(round) == [t[2], t[3], t[4]];
    assert Print(Text(round, t[5], [])) == [t[2], t[3], t[4], t[5]];
    assert Print(Element(End, t[1], Text(round, t[5], []), t[6], [])) == [t[1], t[2], t[3], t[4], t[5], t[6]];
  }

  lemma {:induction false} DoubledFits(d: Dictionary, a: Byte, b: Byte, t: seq<Token>)
    requires WfTags(d) && ShareCloser(d, a, b) && Fits(d, a, b, t)
    ensures WfDocs(d, Doubled(t)) && CanSplice(d, {}, 0, Doubled(t)) && TokensOk(d, t)
  {
    CloserStands(d, a);
    var round := Element(End, t[2], Text(End, t[3], []), t[4], []);
    assert WfDocs(d, End) && WfDocs(d, Text(End, t[3], []));
    assert WfDocs(d, round) && WfDocs(d, Text(round, t[5], []));
    assert CanSplice(d, {a} + {b}, b, End) && CanSplice(d, {a} + {b}, b, Text(End, t[3], []));
    assert CanSplice(d, {a}, a, End) && CanSplice(d, {a}, a, round);
    assert {a} + {a} == {a} && CanSplice(d, {a}, a, Text(round, t[5], []));
    assert Strays(End) == {} && Strays(Text(End, t[3], [])) == {} && Strays(round) == {} && Strays(Text(round, t[5], [])) == {};
    assert CanSplice(d, {a}, a, Element(End, t[1], Text(round, t[5], []), t[6], []));
    assert {} + {a} == {a};
  }

  /** A closer in use is a registered tag, and not a bracket. */
  lemma {:induction false} CloserStands(d: Dictionary, a: Byte)
    requires WfTags(d) && IsBracket(d, a) && IsCloser(d, d.tags[a].closeID)
    ensures var c := d.tags[a].closeID; c != 0 && Registered(d, c) && !d.tags[c].IsUniversal() && !d.tags[c].IsOpening()
    ensures forall b: Byte :: IsBracket(d, b) ==> b != d.tags[a].closeID && !d.tags[b].IsUniversal()
  {
    var c := d.tags[a].closeID;
    assert d.tags[c] == UNREGISTERED || WfTag(d.tags[c], c);
    forall b: Byte | IsBracket(d, b) ensures b != c && !d.tags[b].IsUniversal() {
      assert WfTag(d.tags[b], b);
    }
  }

  // ---- what the parser does with it ----

  /** The part of a state that decides where the next node goes. */
  ghost predicate At(d: Dictionary, s: State, par: seq<int>, stack: seq<Byte>, crumbs: seq<nat>, c: Byte, skip: nat) {
    Shape(s) && s.par == par && s.stack == stack && s.crumbs == crumbs && s.skip[c] == skip
  }

  lemma {:induction false} FirstOpens(d: Dictionary, a: Byte, b: Byte, t: seq<Token>) returns (s: State)
    requires WfTags(d) && NoLimits(d) && ShareCloser(d, a, b) && Fits(d, a, b, t) && TokensOk(d, t)
    ensures s == Run(d, Start(), t[..1]) && At(d, s, [-1, 0], [a], [0, 1], d.tags[a].closeID, 0)
    ensures s.isOpen[a] && !s.isOpen[b] && s.skip[a] == 0 && s.skip[b] == 0
  {
    hide Run;
    CloserStands(d, a);
    assert t[..1] == [t[0]];
    RunOne(d, Start(), t[0]);
    s := Step(d, Start(), t[0]);
  }

  lemma {:induction false} SecondIsSkipped(d: Dictionary, a: Byte, b: Byte, t: seq<Token>) returns (s: State)
    requires WfTags(d) && NoLimits(d) && ShareCloser(d, a, b) && Fits(d, a, b, t) && TokensOk(d, t)
    ensures s == Run(d, Start(), t[..2]) && At(d, s, [-1, 0], [a], [0, 1], d.tags[a].closeID, 1)
    ensures !s.isOpen[b] && s.skip[b] == 0
  {
    hide Run;
    CloserStands(d, a);
    var r := FirstOpens(d, a, b, t);
    assert t[..2] == t[..1] + [t[1]];
    RunSnoc(d, Start(), t[..1], t[1]);
    s := Step(d, r, t[1]);
  }

  lemma {:induction false} ThirdOpens(d: Dictionary, a: Byte, b: Byte, t: seq<Token>) returns (s: State)
    requires WfTags(d) && NoLimits(d) && ShareCloser(d, a, b) && Fits(d, a, b, t) && TokensOk(d, t)
    ensures s == Run(d, Start(), t[..3]) && At(d, s, [-1, 0, 1], [a, b], [0, 1, 2], d.tags[a].closeID, 1)
  {
    hide Run;
    CloserStands(d, a);
    var r := SecondIsSkipped(d, a, b, t);
    assert t[..3] == t[..2] + [t[2]];
    RunSnoc(d, Start(), t[..2], t[2]);
    s := Step(d, r, t[2]);
  }

  lemma {:induction false} TextStep(d: Dictionary, s: State, tok: Token)
    requires Shape(s) && |d.tags| == 256 && NoLimits(d) && tok.typ == TextToken
    ensures var r := Step(d, s, tok);
      r.par == s.par + [Top(s)] && r.stack == s.stack && r.crumbs == s.crumbs && r.skip == s.skip
  {
  }

  lemma {:induction false} SkipStep(d: Dictionary, s: State, tok: Token)
    requires Shape(s) && |d.tags| == 256 && TokenOk(d, tok) && tok.typ == TagToken && s.skip[tok.trigger] == 1
    ensures var r := Step(d, s, tok);
      r.par == s.par && r.stack == s.stack && r.crumbs == s.crumbs && r.skip[tok.trigger] == 0
  {
  }

  lemma {:induction false} CloseStep(d: Dictionary, s: State, tok: Token)
    requires Shape(s) && |d.tags| == 256 && TokenOk(d, tok) && tok.typ == TagToken && s.skip[tok.trigger] == 0
    requires d.tags[tok.trigger].greed == NonGreedy && d.tags[tok.trigger].IsClosing()
    requires !d.tags[tok.trigger].IsUniversal() && !d.tags[tok.trigger].IsOpening()
    requires s.stack != [] && PeekStack(s) != 0 && d.tags[PeekStack(s)].closeID == tok.trigger
    ensures var r, k := Step(d, s, tok), |s.stack| - 1;
      r.par == s.par && r.stack == s.stack[..k] && r.crumbs == s.crumbs[..k + 1] && r.skip == s.skip
  {
  }

  /** The closer of b is taken for that of the repeated a: y lands inside b. */
  lemma {:induction false} Misplaced(d: Dictionary, a: Byte, b: Byte, t: seq<Token>) returns (s: State)
    requires WfTags(d) && NoLimits(d) && ShareCloser(d, a, b) && Fits(d, a, b, t) && TokensOk(d, t)
    ensures s == Run(d, Start(), t[..6]) && At(d, s, [-1, 0, 1, 2, 2], [a, b], [0, 1, 2], d.tags[a].closeID, 0)
  {
    hide Run, Step;
    var r := ThirdOpens(d, a, b, t);
    assert t[..4] == t[..3] + [t[3]] && t[..5] == t[..4] + [t[4]] && t[..6] == t[..5] + [t[5]];
    RunSnoc(d, Start(), t[..3], t[3]);
    TextStep(d, r, t[3]);
    RunSnoc(d, Start(), t[..4], t[4]);
    SkipStep(d, Step(d, r, t[3]), t[4]);
    RunSnoc(d, Start(), t[..5], t[5]);
    s := Step(d, Step(d, r, t[3]), t[4]);
    TextStep(d, s, t[5]);
    s := Step(d, s, t[5]);
  }

  lemma {:induction false} WholeRun(d: Dictionary, a: Byte, b: Byte, t: seq<Token>)
    requires WfTags(d) && NoLimits(d) && ShareCloser(d, a, b) && Fits(d, a, b, t) && TokensOk(d, t)
    ensures var s := Run(d, Start(), t); s.par == [-1, 0, 1, 2, 2] && s.stack == []
  {
    hide Run, Step;
    CloserStands(d, a);
    var s := Misplaced(d, a, b, t);
    assert t[..7] == t[..6] + [t[6]] && t == t[..7] + [t[7]];
    RunSnoc(d, Start(), t[..6], t[6]);
    CloseStep(d, s, t[6]);
    RunSnoc(d, Start(), t[..7], t[7]);
    CloseStep(d, Step(d, s, t[6]), t[7]);
  }

  /** In the parse, y lies three levels below the root. */
  lemma {:induction false} ParsedDepth(d: Dictionary, toks: seq<Token>)
    requires |d.tags| == 256 && TokensOk(d, toks)
    requires Run(d, Start(), toks).par == [-1, 0, 1, 2, 2] && Run(d, Start(), toks).stack == []
    ensures var s := Parsed(d, toks); Valid(s.par) && LastDepth(Flatten(Below(s.par, s.labels, -1), 0)) == 3
  {
    hide Run;
    ParsedTree(d, toks);
    var s := Parsed(d, toks);
    assert s.par == [-1, 0, 1, 2, 2];
    assert Level(s.par, 0) == 1 && Level(s.par, 1) == 2 && Level(s.par, 2) == 3;
  }

  ghost function LastDepth<T>(out: seq<(nat, T)>): int {
    if out == [] then -1 else out[|out| - 1].0
  }

  /** In the document's tree it lies two levels below the root. */
  lemma {:induction false} WrittenDepth(d: Dictionary, a: Byte, b: Byte, t: seq<Token>, root: Label)
    requires |d.tags| == 256 && a != b && Fits(d, a, b, t)
    ensures LastDepth(Flatten(Snoc(Empty, root, Tree(Spliced({}, Doubled(t)), 0)), 0)) == 2
  {
    var round := Element(End, t[2], Text(End, t[3], []), t[4], []);
    var inner := Text(round, t[5], []);
    var f := Spliced({a}, round);
    assert {} + {a} == {a} && {a} + {a} == {a};
    assert Spliced({a}, inner) == Text(f, t[5], []);
    assert Spliced({a}, Element(End, t[1], inner, t[6], [])) == Join(End, Text(f, t[5], []));
    assert Spliced({}, Doubled(t)) == Element(End, t[0], Text(Join(End, f), t[5], []), t[7], []);
    LastOfTree(root, t[0], Join(End, f), t[5], t[7]);
  }

  lemma {:induction false} LastOfTree(root: Label, start: Token, front: Docs, last: Token, close: Token)
    ensures LastDepth(Flatten(Snoc(Empty, root, Tree(Element(End, start, Text(front, last, []), close, []), 0)), 0)) == 2
  {
    var kids := Tree(Text(front, last, []), 0);
    assert kids.Snoc? && kids.kids == Empty;
    assert Flatten(kids, 2) == Flatten(kids.front, 2) + [(2, kids.value)] + [];
    var whole := Tree(Element(End, start, Text(front, last, []), close, []), 0);
    assert whole.Snoc? && whole.kids == kids;
    assert Flatten(whole, 1) == Flatten(whole.front, 1) + [(1, whole.value)] + Flatten(kids, 2);
  }

  /** If two brackets share a closer, this document does not come back. */
  lemma {:induction false} SharedCloserMisplaces(d: Dictionary, a: Byte, b: Byte, t: seq<Token>)
    requires WfTags(d) && NoLimits(d) && ShareCloser(d, a, b) && Fits(d, a, b, t)
    ensures var docs := Doubled(t);
      && Print(docs) == t && WfDocs(d, docs) && CanSplice(d, {}, 0, docs) && TokensOk(d, t)
      && Parsed(d, t).par == [-1, 0, 1, 2, 2]
      && !ParseIs(Parsed(d, t), Spliced({}, docs), ParseWarnings({}, 0, docs))
  {
    hide Run, Tree, Spliced, Flatten, ParseWarnings, Below;
    DoubledPrints(t);
    DoubledFits(d, a, b, t);
    WholeRun(d, a, b, t);
    ParsedDepth(d, t);
    WrittenDepth(d, a, b, t, ROOT.(span := Span(0, NetWidth(Spliced({}, Doubled(t))))));
  }

  // ---- the exact condition ----

  /** The document comes back with its repeated tags replaced by their content. */
  ghost predicate Elides(d: Dictionary, docs: Docs)
    requires |d.tags| == 256
  {
    && TokensOk(d, Print(docs))
    && ParseIs(Parsed(d, Print(docs)), Spliced({}, docs), ParseWarnings({}, 0, docs))
  }

  function Mark(d: Dictionary, b: Byte, pos: nat): Token
    requires |d.tags| == 256
  {
    var end := pos + |d.tags[b].sequence|;
    Token(TagToken, b, pos, end - pos, Span(end, end), Span(0, 0))
  }

  function Letter(pos: nat): Token {
    Token(TextToken, 0, pos, 1, Span(pos, pos + 1), Span(0, 0))
  }

  /** The tokens of the document, side by side. */
  function Tokens(d: Dictionary, a: Byte, b: Byte): seq<Token>
    requires |d.tags| == 256
  {
    var c := d.tags[a].closeID;
    var m, n, k := |d.tags[a].sequence|, |d.tags[b].sequence|, |d.tags[c].sequence|;
    var x := 2 * m + n;
    [Mark(d, a, 0), Mark(d, a, m), Mark(d, b, 2 * m), Letter(x), Mark(d, c, x + 1), Letter(x + 1 + k),
     Mark(d, c, x + 2 + k), Mark(d, c, x + 2 + 2 * k)]
  }

  /** Every document whose repeats can be spliced comes back elided, if and only if no two brackets
   *  share a closer. */
  lemma {:induction false} ElisionIff(d: Dictionary)
    requires WfTags(d) && NoLimits(d)
    ensures ClosersAreInjective(d)
       <==> forall docs: Docs :: WfDocs(d, docs) && CanSplice(d, {}, 0, docs) ==> Elides(d, docs)
  {
    hide ParseIs, Parsed, Print, WfDocs, CanSplice, ShareCloser, Doubled;
    if ClosersAreInjective(d) {
      forall docs: Docs | WfDocs(d, docs) && CanSplice(d, {}, 0, docs) ensures Elides(d, docs) {
        ParsePrinted(d, docs);
      }
    } else {
      var a: Byte, b: Byte :| ShareCloser(d, a, b);
      var t := Tokens(d, a, b);
      TokensFit(d, a, b);
      SharedCloserMisplaces(d, a, b, t);
      assert !Elides(d, Doubled(t));
    }
  }

  lemma {:induction false} TokensFit(d: Dictionary, a: Byte, b: Byte)
    requires |d.tags| == 256
    ensures Fits(d, a, b, Tokens(d, a, b))
  {
  }
}
