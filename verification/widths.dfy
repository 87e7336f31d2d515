/** Width conservation: what the cumulative widths, and the spans computed from them, amount to. */
module Widths {
  import opened Markup
  import opened Forests
  import opened ParserSpec
  import opened Nesting

  /** The tokens lie side by side and cover [0, n). */
  ghost predicate Tile(toks: seq<Token>, n: int)
    decreases |toks|
  {
    if toks == [] then n == 0
    else
      var t := toks[|toks| - 1];
      Tile(toks[..|toks| - 1], t.pos) && t.width >= 1 && t.pos + t.width == n
  }

  /** Tokens whose width is added to no frame: attributes, swallowed, repeated and misplaced tags. */
  predicate Drops(d: Dictionary, s: State, tok: Token)
    requires Shape(s) && |d.tags| == 256
  {
    match tok.typ
    case TextToken => false
    case TagToken =>
      var tag := d.tags[tok.trigger];
      if s.skip[tok.trigger] > 0 then true
      else if tag.greed != NonGreedy then false
      else if tag.IsUniversal() then s.isOpen[tok.trigger] && PeekStack(s) != tok.trigger
      else if tag.IsOpening() then s.isOpen[tok.trigger]
      else if tag.IsClosing() then PeekStack(s) == 0
      else true
    case _ => true
  }

  /** Width of the tokens at or behind position `from` that a run dropped. */
  function Dropped(d: Dictionary, toks: seq<Token>, from: int): int
    requires |d.tags| == 256 && TokensOk(d, toks)
  {
    if toks == [] then 0
    else
      var n := |toks| - 1;
      Dropped(d, toks[..n], from)
      + (if toks[n].pos >= from && Drops(d, Run(d, Start(), toks[..n]), toks[n]) then toks[n].width else 0)
  }

  /** Sum of the widths from frame k upwards. */
  function SumFrom(ws: seq<int>, k: nat): int
    requires k <= |ws|
    decreases |ws|
  {
    if k == |ws| then 0 else SumFrom(ws[..|ws| - 1], k) + ws[|ws| - 1]
  }

  lemma {:induction false} SumFromPush(ws: seq<int>, w: int, k: nat)
    requires k <= |ws|
    ensures SumFrom(ws + [w], k) == SumFrom(ws, k) + w
  {
    assert (ws + [w])[..|ws|] == ws;
  }

  lemma {:induction false} SumFromTop(ws: seq<int>, w: int, k: nat)
    requires k < |ws|
    ensures SumFrom(ws[|ws| - 1 := ws[|ws| - 1] + w], k) == SumFrom(ws, k) + w
  {
    assert ws[|ws| - 1 := ws[|ws| - 1] + w][..|ws| - 1] == ws[..|ws| - 1];
  }

  /** Folding the top frame, and w more, into the frame below it. */
  lemma {:induction false} SumFromFold(ws: seq<int>, w: int, k: nat)
    requires |ws| >= 2 && k < |ws| - 1
    ensures var l := |ws| - 1;
      SumFrom(ws[..l][l - 1 := ws[l - 1] + (ws[l] + w)], k) == SumFrom(ws, k) + w
  {
    var l := |ws| - 1;
    SumFromTop(ws[..l], ws[l] + w, k);
  }

  /** Where frame k starts; the root starts at 0. */
  function FrameStart(s: State, k: nat): int
    requires Shape(s) && k < |s.crumbs|
  {
    if k == 0 then 0 else s.labels[s.crumbs[k]].span.start
  }

  /** What one step does to the frames. */
  ghost predicate Accounts(s: State, r: State, tok: Token, drops: bool)
    requires Shape(s) && Shape(r)
  {
    && (forall k :: 0 <= k < |s.crumbs| && k < |r.crumbs| ==>
         && SumFrom(r.widths, k) == SumFrom(s.widths, k) + (if drops then 0 else tok.width)
         && FrameStart(r, k) == FrameStart(s, k))
    && |r.crumbs| <= |s.crumbs| + 1
    && (|r.crumbs| == |s.crumbs| + 1 ==>
         !drops && SumFrom(r.widths, |s.crumbs|) == tok.width && FrameStart(r, |s.crumbs|) == tok.pos)
  }

  lemma {:induction false} TopUp(s: State, r: State, tok: Token)
    requires Shape(s) && Shape(r) && r.crumbs == s.crumbs && r.widths == AddWidth(s, tok.width).widths
    requires |s.labels| <= |r.labels| && forall i :: 0 <= i < |s.labels| ==> r.labels[i].span == s.labels[i].span
    ensures Accounts(s, r, tok, false)
  {
    forall k | 0 <= k < |s.crumbs| ensures SumFrom(r.widths, k) == SumFrom(s.widths, k) + tok.width {
      SumFromTop(s.widths, tok.width, k);
    }
  }

  lemma {:induction false} Unaccounted(s: State, r: State, tok: Token)
    requires Shape(s) && Shape(r) && r.crumbs == s.crumbs && r.widths == s.widths && |r.labels| == |s.labels|
    requires forall i :: 0 <= i < |s.labels| ==> r.labels[i].span == s.labels[i].span
    ensures Accounts(s, r, tok, true)
  {
  }

  /** An opener is a duplicate, is omitted with its width counted, or enters its node. */
  lemma {:induction false} OpeningOutcome(d: Dictionary, s: State, tok: Token)
    requires |d.tags| == 256 && Shape(s)
    ensures var r, k := ProcessOpening(d, s, tok), |s.widths| - 1;
      && k >= 0
      && ((r.par == s.par && r.labels == s.labels && r.crumbs == s.crumbs
           && r.widths == (if s.isOpen[tok.trigger] then s.widths else s.widths[k := s.widths[k] + tok.width]))
          || (!s.isOpen[tok.trigger] && r.par == s.par + [Top(s)] && r.labels == s.labels + [TagLabel(tok)]
              && r.crumbs == s.crumbs + [|s.par|] && r.widths == s.widths + [tok.width]))
  {
    hide OmitOpening, NodesFull, TagLabel;
    assert |s.widths| > 0;
    Omitted(d, s, WarnDepth(s, tok.pos), tok);
    Omitted(d, s, WarnNodes(s, tok.pos), tok);
  }

  lemma {:induction false} Omitted(d: Dictionary, s: State, w: State, tok: Token)
    requires |d.tags| == 256 && Shape(s) && w == s.(warnedNodes := w.warnedNodes, warnedDepth := w.warnedDepth, warns := w.warns)
    ensures Shape(w)
    ensures var r, k := OmitOpening(d, w, tok), |s.widths| - 1;
      && k >= 0 && r.par == s.par && r.labels == s.labels && r.crumbs == s.crumbs
      && r.widths == s.widths[k := s.widths[k] + tok.width]
  {
  }

  lemma {:induction false} OpeningAccounts(d: Dictionary, s: State, tok: Token)
    requires Shape(s) && |d.tags| == 256
    ensures Accounts(s, ProcessOpening(d, s, tok), tok, s.isOpen[tok.trigger])
  {
    hide SumFrom, Accounts, ProcessOpening;
    OpeningOutcome(d, s, tok);
    var r := ProcessOpening(d, s, tok);
    if s.isOpen[tok.trigger] {
      Unaccounted(s, r, tok);
    } else if r.crumbs == s.crumbs {
      TopUp(s, r, tok);
    } else {
      PushAccounts(s, r, tok);
    }
  }

  lemma {:induction false} PushAccounts(s: State, r: State, tok: Token)
    requires Shape(s) && Shape(r) && r.crumbs == s.crumbs + [|s.par|] && r.widths == s.widths + [tok.width]
    requires r.labels == s.labels + [TagLabel(tok)]
    ensures Accounts(s, r, tok, false)
  {
    forall k | 0 <= k <= |s.widths| ensures SumFrom(r.widths, k) == SumFrom(s.widths, k) + tok.width {
      SumFromPush(s.widths, tok.width, k);
    }
  }

  lemma {:induction false} CloseAccounts(d: Dictionary, s: State, tok: Token)
    requires |d.tags| == 256 && Inv(d, s) && |s.stack| > 0
    ensures Accounts(s, CloseTag(s, tok), tok, false)
  {
    var r := CloseTag(s, tok);
    CrumbsIncrease(s);
    forall k | 0 <= k < |r.crumbs|
      ensures SumFrom(r.widths, k) == SumFrom(s.widths, k) + tok.width && FrameStart(r, k) == FrameStart(s, k)
    {
      SumFromFold(s.widths, tok.width, k);
    }
  }

  lemma {:induction false} CrumbsIncrease(s: State)
    requires Shape(s) && TreeInv(s)
    ensures forall i, k :: 0 <= i < k < |s.crumbs| ==> s.crumbs[i] < s.crumbs[k]
  {
    forall k | 0 <= k < |s.crumbs| ensures forall i :: 0 <= i < k ==> s.crumbs[i] < s.crumbs[k] {
      CrumbsBelow(s, k);
    }
  }

  lemma {:induction false} CrumbsBelow(s: State, k: nat)
    requires Shape(s) && TreeInv(s) && k < |s.crumbs|
    ensures forall i :: 0 <= i < k ==> s.crumbs[i] < s.crumbs[k]
  {
    if k > 0 {
      CrumbsBelow(s, k - 1);
      assert s.par[s.crumbs[k]] == s.crumbs[k - 1];
    }
  }

  lemma {:induction false} TextAccounts(d: Dictionary, s: State, tok: Token)
    requires Shape(s)
    ensures Accounts(s, ProcessText(d.limits, s, tok), tok, false)
    ensures Accounts(s, AppendGreedy(d.limits, s, tok), tok, false)
  {
    hide Accounts;
    TopUp(s, ProcessText(d.limits, s, tok), tok);
    GreedyAccounts(d, s, tok);
  }

  lemma {:induction false} GreedyAccounts(d: Dictionary, s: State, tok: Token)
    requires Shape(s)
    ensures Accounts(s, AppendGreedy(d.limits, s, tok), tok, false)
  {
    hide Accounts;
    TopUp(s, AppendGreedy(d.limits, s, tok), tok);
  }

  lemma {:induction false} ClosingAccounts(d: Dictionary, s: State, tok: Token)
    requires |d.tags| == 256 && Inv(d, s)
    ensures Accounts(s, ProcessClosing(d, s, tok), tok, PeekStack(s) == 0)
  {
    hide Accounts, CloseTag, TreeInv, StackInv, NoNestedTwins;
    var r := ProcessClosing(d, s, tok);
    if PeekStack(s) == 0 {
      Unaccounted(s, r, tok);
    } else if d.tags[PeekStack(s)].closeID != tok.trigger && d.tags[tok.trigger].openID != PeekStack(s) {
      TopUp(s, r, tok);
    } else {
      CloseAccounts(d, s, tok);
    }
  }

  lemma {:induction false} TagAccounts(d: Dictionary, s: State, tok: Token)
    requires |d.tags| == 256 && Inv(d, s) && TokenOk(d, tok) && tok.typ == TagToken
    ensures Accounts(s, ProcessTag(d, s, tok), tok, Drops(d, s, tok))
  {
    hide Accounts, CloseTag, AppendGreedy, ProcessOpening, ProcessClosing, TreeInv, NoNestedTwins;
    TextAccounts(d, s, tok);
    OpeningAccounts(d, s, tok);
    ClosingAccounts(d, s, tok);
    if PeekStack(s) == tok.trigger {
      CloseAccounts(d, s, tok);
    }
    if s.skip[tok.trigger] > 0 {
      Unaccounted(s, s.(skip := s.skip[tok.trigger := s.skip[tok.trigger] - 1]), tok);
    }
    Unaccounted(s, s, tok);
  }

  lemma {:induction false} StepAccounts(d: Dictionary, s: State, tok: Token)
    requires |d.tags| == 256 && Inv(d, s) && TokenOk(d, tok)
    ensures Accounts(s, Step(d, s, tok), tok, Drops(d, s, tok))
  {
    hide Accounts, ProcessTag, TreeInv, StackInv, NoNestedTwins;
    match tok.typ
    case TextToken => TextAccounts(d, s, tok);
    case TagToken => TagAccounts(d, s, tok);
    case _ => Unaccounted(s, Step(d, s, tok), tok);
  }

  lemma {:induction false} TilePositions(toks: seq<Token>, n: int)
    requires Tile(toks, n)
    ensures n >= 0 && forall i :: 0 <= i < |toks| ==> 0 <= toks[i].pos < n && toks[i].width >= 1
  {
    if toks != [] {
      TilePositions(toks[..|toks| - 1], toks[|toks| - 1].pos);
    }
  }

  lemma {:induction false} NothingDroppedBehind(d: Dictionary, toks: seq<Token>, from: int)
    requires |d.tags| == 256 && TokensOk(d, toks)
    requires forall i :: 0 <= i < |toks| ==> toks[i].pos < from
    ensures Dropped(d, toks, from) == 0
  {
    hide Run;
    if toks != [] {
      NothingDroppedBehind(d, toks[..|toks| - 1], from);
    }
  }

  /** At every point of a run, the widths from any frame upwards add up to the bytes read since
   *  that frame started, less the bytes dropped since then. */
  ghost predicate Conserved(d: Dictionary, toks: seq<Token>, n: int)
    requires |d.tags| == 256 && TokensOk(d, toks)
  {
    var s := Run(d, Start(), toks);
    forall k :: 0 <= k < |s.crumbs| ==>
      && 0 <= FrameStart(s, k) <= n
      && SumFrom(s.widths, k) == n - FrameStart(s, k) - Dropped(d, toks, FrameStart(s, k))
  }

  lemma {:induction false} WidthConservation(d: Dictionary, toks: seq<Token>, n: int)
    requires |d.tags| == 256 && TokensOk(d, toks) && Tile(toks, n)
    ensures Conserved(d, toks, n)
  {
    hide Step;
    if toks == [] {
      StartConserved(d);
    } else {
      var l := |toks| - 1;
      WidthConservation(d, toks[..l], toks[l].pos);
      RunInv(d, toks[..l]);
      StepAccounts(d, Run(d, Start(), toks[..l]), toks[l]);
      TilePositions(toks[..l], toks[l].pos);
      NothingDroppedBehind(d, toks[..l], toks[l].pos);
      ConservedStep(d, toks, n);
    }
  }

  lemma {:induction false} StartConserved(d: Dictionary)
    requires |d.tags| == 256
    ensures Conserved(d, [], 0)
  {
    assert SumFrom([0], 0) == SumFrom([0][..0], 0) + 0;
  }

  lemma {:induction false} ConservedStep(d: Dictionary, toks: seq<Token>, n: int)
    requires |d.tags| == 256 && TokensOk(d, toks) && toks != [] && Tile(toks, n)
    requires var l := |toks| - 1; var s := Run(d, Start(), toks[..l]);
      && Conserved(d, toks[..l], toks[l].pos)
      && Accounts(s, Step(d, s, toks[l]), toks[l], Drops(d, s, toks[l]))
      && Dropped(d, toks[..l], toks[l].pos) == 0
    ensures Conserved(d, toks, n)
  {
    hide Step, SumFrom, Drops;
    var l := |toks| - 1;
    var s, t := Run(d, Start(), toks[..l]), toks[l];
    var r := Run(d, Start(), toks);
    assert r == Step(d, s, t);
    assert FrameStart(s, 0) <= t.pos;
    forall k | 0 <= k < |r.crumbs|
      ensures 0 <= FrameStart(r, k) <= n
      ensures SumFrom(r.widths, k) == n - FrameStart(r, k) - Dropped(d, toks, FrameStart(r, k))
    {
      if k < |s.crumbs| {
        assert FrameStart(r, k) == FrameStart(s, k) <= t.pos;
      } else {
        assert FrameStart(r, k) == t.pos;
      }
    }
  }

  // ---- spans ----

  /** The span a closing token gives its tag: from the tag's start, as long as the bytes up to the
   *  token's end that were not dropped on the way. */
  lemma {:induction false} ClosedSpan(d: Dictionary, toks: seq<Token>, tok: Token)
    requires |d.tags| == 256 && TokensOk(d, toks) && Tile(toks, tok.pos)
    requires Run(d, Start(), toks).stack != []
    ensures var s := Run(d, Start(), toks);
      var l := CloseTag(s, tok).labels[Top(s)];
      && l.span.start == s.labels[Top(s)].span.start
      && l.span.end == tok.pos + tok.width - Dropped(d, toks, l.span.start)
  {
    hide Run;
    WidthConservation(d, toks, tok.pos);
    var s := Run(d, Start(), toks);
    var k := |s.crumbs| - 1;
    assert SumFrom(s.widths, k) == SumFrom(s.widths[..k], k) + s.widths[k];
    assert FrameStart(s, k) == s.labels[Top(s)].span.start;
  }

  /** Payloads lie inside their tokens. */
  ghost predicate PayloadInside(tok: Token) {
    && tok.pos <= tok.payload.start <= tok.payload.end <= tok.pos + tok.width
    && (tok.typ == TextToken ==> tok.payload == Span(tok.pos, tok.pos + tok.width))
  }

  ghost predicate PayloadsInside(toks: seq<Token>) {
    forall i :: 0 <= i < |toks| ==> PayloadInside(toks[i])
  }

  /** Every span lies inside the n bytes read, and frame widths are not negative. */
  ghost predicate SpansWithin(s: State, n: int) {
    && (forall j :: 0 <= j < |s.labels| ==> 0 <= s.labels[j].span.start <= s.labels[j].span.end <= n)
    && (forall k :: 0 <= k < |s.widths| ==> s.widths[k] >= 0)
  }

  lemma {:induction false} DroppedBounds(d: Dictionary, toks: seq<Token>, n: int, from: int)
    requires |d.tags| == 256 && TokensOk(d, toks) && Tile(toks, n)
    ensures 0 <= Dropped(d, toks, from)
  {
    hide Run, Drops;
    if toks != [] {
      DroppedBounds(d, toks[..|toks| - 1], toks[|toks| - 1].pos, from);
    }
  }

  lemma {:induction false} StepSpans(d: Dictionary, toks: seq<Token>, tok: Token)
    requires |d.tags| == 256 && TokensOk(d, toks) && TokenOk(d, tok) && Tile(toks, tok.pos) && tok.width >= 1
    requires PayloadInside(tok) && SpansWithin(Run(d, Start(), toks), tok.pos)
    ensures SpansWithin(Step(d, Run(d, Start(), toks), tok), tok.pos + tok.width)
  {
    hide Run, Dropped;
    var s := Run(d, Start(), toks);
    TilePositions(toks, tok.pos);
    if s.stack != [] {
      ClosedSpan(d, toks, tok);
      DroppedBounds(d, toks, tok.pos, s.labels[Top(s)].span.start);
    }
    match tok.typ
    case TextToken => TextSpans(d, s, tok);
    case TagToken => TagSpans(d, s, tok);
    case _ =>
  }

  lemma {:induction false} TextSpans(d: Dictionary, s: State, tok: Token)
    requires Shape(s) && 0 <= tok.pos && tok.width >= 1 && PayloadInside(tok) && SpansWithin(s, tok.pos)
    ensures SpansWithin(ProcessText(d.limits, s, tok), tok.pos + tok.width)
  {
  }

  lemma {:induction false} GreedySpans(d: Dictionary, s: State, tok: Token)
    requires Shape(s) && 0 <= tok.pos && tok.width >= 1 && PayloadInside(tok) && SpansWithin(s, tok.pos)
    ensures SpansWithin(AppendGreedy(d.limits, s, tok), tok.pos + tok.width)
  {
    hide Shape;
    var r := AppendGreedy(d.limits, s, tok);
    GreedyShape(d, s, tok);
    assert forall j :: 0 <= j < |s.labels| ==> r.labels[j] == s.labels[j];
  }

  /** What a greedy tag adds to the arena and to the innermost frame. */
  lemma {:induction false} GreedyShape(d: Dictionary, s: State, tok: Token)
    requires Shape(s)
    ensures var r, k := AppendGreedy(d.limits, s, tok), |s.widths| - 1;
      && k >= 0 && r.widths == s.widths[k := s.widths[k] + tok.width]
      && (r.labels == s.labels || r.labels == s.labels + [TagLabel(tok)]
          || r.labels == s.labels + [TagLabel(tok), TextLabel(tok.payload)])
  {
  }

  lemma {:induction false} OpeningSpans(d: Dictionary, s: State, tok: Token)
    requires Shape(s) && |d.tags| == 256 && 0 <= tok.pos && tok.width >= 1 && SpansWithin(s, tok.pos)
    ensures SpansWithin(ProcessOpening(d, s, tok), tok.pos + tok.width)
  {
    hide ProcessOpening, Shape;
    OpeningShape(d, s, tok);
    var r := ProcessOpening(d, s, tok);
    assert forall j :: 0 <= j < |s.labels| ==> r.labels[j] == s.labels[j];
  }

  lemma {:induction false} CloseSpans(s: State, tok: Token)
    requires Shape(s) && s.stack != [] && tok.width >= 0 && SpansWithin(s, tok.pos)
    requires CloseTag(s, tok).labels[Top(s)].span.end <= tok.pos + tok.width
    ensures SpansWithin(CloseTag(s, tok), tok.pos + tok.width)
  {
  }

  lemma {:induction false} TagSpans(d: Dictionary, s: State, tok: Token)
    requires Shape(s) && |d.tags| == 256 && tok.trigger != 0
    requires 0 <= tok.pos && tok.width >= 1 && PayloadInside(tok) && SpansWithin(s, tok.pos)
    requires s.stack != [] ==> CloseTag(s, tok).labels[Top(s)].span.end <= tok.pos + tok.width
    ensures SpansWithin(ProcessTag(d, s, tok), tok.pos + tok.width)
  {
    hide AppendGreedy, ProcessOpening, CloseTag, ProcessText, PayloadInside, Shape;
    GreedySpans(d, s, tok);
    OpeningSpans(d, s, tok);
    if s.stack != [] { CloseSpans(s, tok); }
    DemotedSpans(d, s, tok);
  }

  lemma {:induction false} DemotedSpans(d: Dictionary, s: State, tok: Token)
    requires Shape(s) && |d.tags| == 256 && 0 <= tok.pos && tok.width >= 1 && SpansWithin(s, tok.pos)
    ensures var s1 := Log(s, Warning(OpenCloseTagMismatch, tok.pos, tok.trigger, 0, PeekStack(s), 0));
      SpansWithin(ProcessText(d.limits, s1.(textLen := s1.textLen + tok.width, textNodes := s1.textNodes + 1), DemotedToText(tok)),
                  tok.pos + tok.width)
  {
    hide ProcessText;
    var s1 := Log(s, Warning(OpenCloseTagMismatch, tok.pos, tok.trigger, 0, PeekStack(s), 0));
    TextSpans(d, s1.(textLen := s1.textLen + tok.width, textNodes := s1.textNodes + 1), DemotedToText(tok));
  }

  /** No span ever leaves the part of the input read so far. */
  lemma {:induction false} RunSpans(d: Dictionary, toks: seq<Token>, n: int)
    requires |d.tags| == 256 && TokensOk(d, toks) && Tile(toks, n) && PayloadsInside(toks)
    ensures SpansWithin(Run(d, Start(), toks), n)
  {
    hide Step, SpansWithin, PayloadInside;
    if toks == [] {
      StartSpans();
    } else {
      var l := |toks| - 1;
      RunSpans(d, toks[..l], toks[l].pos);
      StepSpans(d, toks[..l], toks[l]);
    }
  }

  lemma {:induction false} StartSpans()
    ensures SpansWithin(Start(), 0)
  {
  }

  // ---- the finished parse ----

  /** Force-closing folds all frame widths into the root's and keeps every span inside the input. */
  lemma {:induction false} ForceCloseTotal(d: Dictionary, s: State, n: int)
    requires |d.tags| == 256 && Inv(d, s) && SpansWithin(s, n)
    requires forall k :: 0 <= k < |s.crumbs| ==> SumFrom(s.widths, k) <= n - FrameStart(s, k)
    ensures var c := ForceClose(d, s);
      c.widths == [SumFrom(s.widths, 0)] && |c.labels| == |s.labels| && SpansWithin(c, n) && c.labels[0].span.start == s.labels[0].span.start
    decreases |s.stack|
  {
    hide TreeInv, StackInv, NoNestedTwins;
    if s.stack == [] {
      assert SumFrom(s.widths, 0) == SumFrom(s.widths[..0], 0) + s.widths[0];
    } else {
      var eof := Token(TagToken, 0, 0, 0, Span(0, 0), Span(0, 0));
      CloseAccounts(d, s, eof);
      ForceCloseOneInv(d, s);
      ForceCloseSpans(d, s, n);
      ForceCloseTotal(d, ForceCloseOne(d, s), n);
    }
  }

  lemma {:induction false} ForceCloseSpans(d: Dictionary, s: State, n: int)
    requires |d.tags| == 256 && Inv(d, s) && s.stack != [] && SpansWithin(s, n)
    requires SumFrom(s.widths, |s.widths| - 1) <= n - FrameStart(s, |s.widths| - 1)
    ensures var r := ForceCloseOne(d, s); SpansWithin(r, n) && r.labels[0].span.start == s.labels[0].span.start
  {
    hide StackInv, NoNestedTwins;
    var k := |s.widths| - 1;
    assert SumFrom(s.widths, k) == SumFrom(s.widths[..k], k) + s.widths[k];
  }

  /** After a whole parse of n bytes, all spans lie inside the input, and the root's span is
   *  [0, n - dropped): exactly [0, n) when and only when no byte was dropped. */
  lemma {:induction false} ParsedSpans(d: Dictionary, toks: seq<Token>, n: int)
    requires |d.tags| == 256 && TokensOk(d, toks) && Tile(toks, n) && PayloadsInside(toks)
    ensures var s := Parsed(d, toks);
      && SpansWithin(s, n)
      && s.labels[0].span == Span(0, n - Dropped(d, toks, 0))
      && (s.labels[0].span == Span(0, n) <==> Dropped(d, toks, 0) == 0)
  {
    hide Run, TreeInv, StackInv, NoNestedTwins;
    var s := Run(d, Start(), toks);
    RunInv(d, toks);
    RunSpans(d, toks, n);
    WidthConservation(d, toks, n);
    forall k | 0 <= k < |s.crumbs| ensures SumFrom(s.widths, k) <= n - FrameStart(s, k) {
      DroppedBounds(d, toks, n, FrameStart(s, k));
    }
    ForceCloseTotal(d, s, n);
    assert FrameStart(s, 0) == 0;
    DroppedBounds(d, toks, n, 0);
    RootStart(d, toks);
  }

  lemma {:induction false} RootStart(d: Dictionary, toks: seq<Token>)
    requires |d.tags| == 256 && TokensOk(d, toks)
    ensures Run(d, Start(), toks).labels[0].span == Span(0, 0)
  {
    hide Step;
    if toks != [] {
      var n := |toks| - 1;
      RootStart(d, toks[..n]);
      RunInv(d, toks[..n]);
      StepRoot(d, Run(d, Start(), toks[..n]), toks[n]);
    }
  }

  lemma {:induction false} StepRoot(d: Dictionary, s: State, tok: Token)
    requires |d.tags| == 256 && Inv(d, s) && TokenOk(d, tok)
    ensures Step(d, s, tok).labels[0].span == s.labels[0].span
  {
    hide AppendGreedy, ProcessOpening, ProcessClosing, CloseTag, StackInv, TreeInv, NoNestedTwins;
    if tok.typ == TagToken {
      AppendRoot(d, s, tok);
      ClosingRoot(d, s, tok);
      if s.stack != [] { CloseRoot(s, tok); }
    }
  }

  lemma {:induction false} AppendRoot(d: Dictionary, s: State, tok: Token)
    requires Shape(s) && |d.tags| == 256
    ensures AppendGreedy(d.limits, s, tok).labels[0] == s.labels[0]
    ensures ProcessOpening(d, s, tok).labels[0] == s.labels[0]
  {
    hide ProcessOpening;
    OpeningShape(d, s, tok);
  }

  /** What an opening tag adds to the arena and to the frames. */
  lemma {:induction false} OpeningShape(d: Dictionary, s: State, tok: Token)
    requires Shape(s) && |d.tags| == 256
    ensures var r, k := ProcessOpening(d, s, tok), |s.widths| - 1;
      && k >= 0 && (r.labels == s.labels || r.labels == s.labels + [TagLabel(tok)])
      && (r.widths == s.widths || r.widths == s.widths[k := s.widths[k] + tok.width] || r.widths == s.widths + [tok.width])
  {
    hide ProcessOpening;
    OpeningOutcome(d, s, tok);
  }

  lemma {:induction false} CloseRoot(s: State, tok: Token)
    requires Shape(s) && TreeInv(s) && s.stack != []
    ensures CloseTag(s, tok).labels[0] == s.labels[0]
  {
    CrumbsIncrease(s);
    assert s.crumbs[0] < Top(s);
  }

  lemma {:induction false} ClosingRoot(d: Dictionary, s: State, tok: Token)
    requires Shape(s) && TreeInv(s) && |d.tags| == 256
    ensures ProcessClosing(d, s, tok).labels[0] == s.labels[0]
  {
    hide CloseTag, TreeInv;
    if s.stack != [] { CloseRoot(s, tok); }
  }

  // ---- nested spans ----

  /** Node j is not open. */
  predicate IsClosed(s: State, j: int) {
    forall k :: 0 <= k < |s.crumbs| ==> s.crumbs[k] != j
  }

  /** Node j starts inside its parent, and also ends inside it once the parent is closed. */
  ghost predicate NestsInParent(s: State, j: int)
    requires Shape(s) && Valid(s.par) && 1 <= j < |s.par| && s.par[j] >= 0
  {
    var a, b := s.labels[s.par[j]].span, s.labels[j].span;
    a.start <= b.start && (IsClosed(s, s.par[j]) ==> b.end <= a.end)
  }

  ghost predicate SpansNest(s: State)
    requires Shape(s) && TreeInv(s)
  {
    forall j :: 1 <= j < |s.par| ==> NestsInParent(s, j)
  }

  /** Appending below an open node. */
  lemma {:induction false} AppendNests(s: State, p: nat, l: Label, r: State)
    requires Shape(s) && TreeInv(s) && SpansNest(s) && p < |s.par| && Shape(r) && TreeInv(r)
    requires r.par == s.par + [p] && r.labels == s.labels + [l]
    requires r.crumbs == s.crumbs || r.crumbs == s.crumbs + [|s.par|]
    requires s.labels[p].span.start <= l.span.start
    requires (exists k :: 0 <= k < |s.crumbs| && s.crumbs[k] == p) || l.span.end <= s.labels[p].span.end
    ensures SpansNest(r)
  {
    forall j | 1 <= j < |r.par| ensures NestsInParent(r, j) {
      if j < |s.par| {
        assert NestsInParent(s, j);
        if IsClosed(r, s.par[j]) { ClosedBefore(s, r, s.par[j]); }
      } else if exists k :: 0 <= k < |s.crumbs| && s.crumbs[k] == p {
        var k :| 0 <= k < |s.crumbs| && s.crumbs[k] == p;
        assert r.crumbs[k] == p;
      }
    }
  }

  lemma {:induction false} ClosedBefore(s: State, r: State, j: int)
    requires r.crumbs == s.crumbs || r.crumbs == s.crumbs + [|s.par|]
    requires IsClosed(r, j)
    ensures IsClosed(s, j)
  {
    forall k | 0 <= k < |s.crumbs| ensures s.crumbs[k] != j {
      assert r.crumbs[k] == s.crumbs[k];
    }
  }

  lemma {:induction false} FrameNests(s: State, r: State)
    requires Shape(s) && TreeInv(s) && SpansNest(s) && Shape(r)
    requires r.par == s.par && r.crumbs == s.crumbs
    requires forall j :: 0 <= j < |s.labels| ==> r.labels[j].span == s.labels[j].span
    ensures TreeInv(r) && SpansNest(r)
  {
    forall j | 1 <= j < |r.par| ensures NestsInParent(r, j) {
      assert NestsInParent(s, j);
    }
  }

  /** Closing the innermost tag at the end e of all its children's spans. */
  lemma {:induction false} CloseNests(d: Dictionary, s: State, r: State, e: int)
    requires |d.tags| == 256 && Inv(d, s) && s.stack != [] && SpansNest(s) && SpansWithin(s, e)
    requires Shape(r) && TreeInv(r) && r.par == s.par && r.crumbs == s.crumbs[..|s.crumbs| - 1]
    requires |r.labels| == |s.labels| && r.labels[Top(s)].span == Span(s.labels[Top(s)].span.start, e)
    requires forall j :: 0 <= j < |s.labels| && j != Top(s) ==> r.labels[j].span == s.labels[j].span
    ensures SpansNest(r)
  {
    hide StackInv, NoNestedTwins;
    forall j | 1 <= j < |r.par| ensures NestsInParent(r, j) {
      assert NestsInParent(s, j);
      var p, top := s.par[j], Top(s);
      if p != top && j != top && IsClosed(r, p) {
        assert s.crumbs[|s.crumbs| - 1] == top;
        forall k | 0 <= k < |s.crumbs| ensures s.crumbs[k] != p {
          assert k < |r.crumbs| ==> r.crumbs[k] == s.crumbs[k];
        }
      }
      if j == top {
        var k := |s.crumbs| - 2;
        assert s.par[s.crumbs[k + 1]] == s.crumbs[k] && r.crumbs[k] == p;
      }
    }
  }

  lemma {:induction false} TextNests(d: Dictionary, s: State, tok: Token)
    requires |d.tags| == 256 && Inv(d, s) && SpansNest(s) && SpansWithin(s, tok.pos)
    requires tok.pos <= tok.payload.start
    ensures var r := ProcessText(d.limits, s, tok); TreeInv(r) && SpansNest(r)
  {
    hide StackInv, NoNestedTwins, SpansNest, TreeInv;
    var r := ProcessText(d.limits, s, tok);
    if NodesFull(d.limits, s) {
      FrameNests(s, r);
    } else {
      var a := AppendNode(s, Top(s), TextLabel(tok.payload));
      AppendInv(d, s, TextLabel(tok.payload));
      TopIsCrumb(s);
      AppendNests(s, Top(s), TextLabel(tok.payload), a);
      FrameNests(a, r);
    }
  }

  lemma {:induction false} TopIsCrumb(s: State)
    requires Shape(s)
    ensures exists k :: 0 <= k < |s.crumbs| && s.crumbs[k] == Top(s)
  {
    assert s.crumbs[|s.crumbs| - 1] == Top(s);
  }

  lemma {:induction false} GreedyNests(d: Dictionary, s: State, tok: Token)
    requires |d.tags| == 256 && Inv(d, s) && SpansNest(s) && SpansWithin(s, tok.pos)
    requires PayloadInside(tok) && d.tags[tok.trigger].greed != NonGreedy
    ensures var r := AppendGreedy(d.limits, s, tok); TreeInv(r) && SpansNest(r)
  {
    hide StackInv, NoNestedTwins, SpansNest, TreeInv;
    var r := AppendGreedy(d.limits, s, tok);
    if NodesFull(d.limits, s) {
      FrameNests(s, r);
    } else {
      var a := AppendNode(s, Top(s), TagLabel(tok));
      GreedyNotOpen(d, s, tok.trigger);
      AppendInv(d, s, TagLabel(tok));
      TopIsCrumb(s);
      AppendNests(s, Top(s), TagLabel(tok), a);
      if NodesFull(d.limits, a) {
        FrameNests(a, r);
      } else {
        var b := AppendNode(a, |s.par|, TextLabel(tok.payload));
        AppendPayloadInv(d, a, TextLabel(tok.payload));
        AppendNests(a, |s.par|, TextLabel(tok.payload), b);
        FrameNests(b, r);
      }
    }
  }

  lemma {:induction false} OpeningNests(d: Dictionary, s: State, tok: Token)
    requires |d.tags| == 256 && Inv(d, s) && SpansNest(s) && SpansWithin(s, tok.pos) && CanOpen(d, tok.trigger)
    ensures var r := ProcessOpening(d, s, tok); TreeInv(r) && SpansNest(r)
  {
    hide StackInv, NoNestedTwins, SpansNest, TreeInv, CanOpen, ProcessOpening;
    var r := ProcessOpening(d, s, tok);
    OpeningInv(d, s, tok);
    OpeningOutcome(d, s, tok);
    if r.par == s.par {
      FrameNests(s, r);
    } else {
      TopIsCrumb(s);
      AppendNests(s, Top(s), TagLabel(tok), r);
    }
  }

  lemma {:induction false} ClosingNests(d: Dictionary, s: State, tok: Token)
    requires |d.tags| == 256 && Inv(d, s) && SpansNest(s) && SpansWithin(s, tok.pos) && tok.width >= 1
    requires s.stack != [] ==> CloseTag(s, tok).labels[Top(s)].span.end == tok.pos + tok.width
    ensures var r := ProcessClosing(d, s, tok); TreeInv(r) && SpansNest(r)
  {
    hide StackInv, NoNestedTwins, SpansNest, TreeInv, CloseTag, ProcessText;
    if PeekStack(s) == 0 {
      FrameNests(s, ProcessClosing(d, s, tok));
    } else if d.tags[PeekStack(s)].closeID != tok.trigger && d.tags[tok.trigger].openID != PeekStack(s) {
      var s1 := Log(s, Warning(OpenCloseTagMismatch, tok.pos, tok.trigger, 0, PeekStack(s), 0));
      var s2 := s1.(textLen := s1.textLen + tok.width, textNodes := s1.textNodes + 1);
      FrameInv(d, s, s2);
      FrameNests(s, s2);
      TextNests(d, s2, DemotedToText(tok));
    } else {
      TagCloseNests(d, s, tok);
    }
  }

  lemma {:induction false} TagCloseNests(d: Dictionary, s: State, tok: Token)
    requires |d.tags| == 256 && Inv(d, s) && SpansNest(s) && SpansWithin(s, tok.pos) && tok.width >= 0
    requires s.stack != [] && CloseTag(s, tok).labels[Top(s)].span.end == tok.pos + tok.width
    ensures var r := CloseTag(s, tok); TreeInv(r) && SpansNest(r)
  {
    CloseInv(d, s, tok);
    hide StackInv, NoNestedTwins, SpansNest, TreeInv;
    CloseNests(d, s, CloseTag(s, tok), tok.pos + tok.width);
  }

  lemma {:induction false} StepNests(d: Dictionary, s: State, tok: Token)
    requires |d.tags| == 256 && Inv(d, s) && TokenOk(d, tok) && SpansNest(s) && SpansWithin(s, tok.pos)
    requires tok.width >= 1 && PayloadInside(tok)
    requires s.stack != [] ==> CloseTag(s, tok).labels[Top(s)].span.end == tok.pos + tok.width
    ensures var r := Step(d, s, tok); TreeInv(r) && SpansNest(r)
  {
    hide StackInv, NoNestedTwins, SpansNest, TreeInv, AppendGreedy, ProcessOpening, ProcessClosing, CloseTag, ProcessText;
    match tok.typ
    case TextToken => TextNests(d, s, tok);
    case TagToken =>
      var tag := d.tags[tok.trigger];
      if s.skip[tok.trigger] > 0 {
        FrameNests(s, Step(d, s, tok));
      } else if tag.greed != NonGreedy {
        GreedyNests(d, s, tok);
      } else if tag.IsUniversal() && s.isOpen[tok.trigger] && PeekStack(s) == tok.trigger {
        TagCloseNests(d, s, tok);
      } else if tag.IsUniversal() || tag.IsOpening() {
        OpeningNests(d, s, tok);
      } else if tag.IsClosing() {
        ClosingNests(d, s, tok);
      }
    case _ => FrameNests(s, Step(d, s, tok));
  }

  lemma {:induction false} DroppedMonotone(d: Dictionary, toks: seq<Token>, n: int, from: int)
    requires |d.tags| == 256 && TokensOk(d, toks) && Tile(toks, n) && from >= 0
    ensures Dropped(d, toks, from) <= Dropped(d, toks, 0)
  {
    hide Run, Drops;
    if toks != [] {
      DroppedMonotone(d, toks[..|toks| - 1], toks[|toks| - 1].pos, from);
      TilePositions(toks, n);
    }
  }

  lemma {:induction false} RunNests(d: Dictionary, toks: seq<Token>, n: int)
    requires |d.tags| == 256 && TokensOk(d, toks) && Tile(toks, n) && PayloadsInside(toks)
    requires Dropped(d, toks, 0) == 0
    ensures var s := Run(d, Start(), toks); TreeInv(s) && SpansNest(s)
  {
    hide Step, SpansNest, StackInv, NoNestedTwins, TreeInv, PayloadInside, Drops;
    if toks == [] {
      StartNests(d);
    } else {
      var l := |toks| - 1;
      var front, tok := toks[..l], toks[l];
      var s := Run(d, Start(), front);
      DroppedBounds(d, front, tok.pos, 0);
      TilePositions(toks, n);
      RunNests(d, front, tok.pos);
      RunInv(d, front);
      RunSpans(d, front, tok.pos);
      if s.stack != [] {
        ClosedSpan(d, front, tok);
        assert 0 <= s.labels[Top(s)].span.start;
        DroppedMonotone(d, front, tok.pos, s.labels[Top(s)].span.start);
        DroppedBounds(d, front, tok.pos, s.labels[Top(s)].span.start);
      }
      StepNests(d, s, tok);
    }
  }

  lemma {:induction false} StartNests(d: Dictionary)
    requires |d.tags| == 256
    ensures TreeInv(Start()) && SpansNest(Start())
  {
    StartInv(d);
  }

  lemma {:induction false} ForceCloseNests(d: Dictionary, s: State, n: int)
    requires |d.tags| == 256 && Inv(d, s) && SpansWithin(s, n) && SpansNest(s)
    requires forall k :: 0 <= k < |s.crumbs| ==> SumFrom(s.widths, k) == n - FrameStart(s, k)
    ensures var c := ForceClose(d, s); TreeInv(c) && SpansNest(c) && SpansWithin(c, n)
    decreases |s.stack|
  {
    hide TreeInv, StackInv, NoNestedTwins, SpansNest;
    if s.stack != [] {
      var eof := Token(TagToken, 0, n, 0, Span(0, 0), Span(0, 0));
      var k := |s.widths| - 1;
      assert SumFrom(s.widths, k) == SumFrom(s.widths[..k], k) + s.widths[k];
      TagCloseNests(d, s, eof);
      var r := ForceCloseOne(d, s);
      ForceCloseOneInv(d, s);
      FrameNests(CloseTag(s, eof), r);
      CloseAccounts(d, s, eof);
      ForceCloseSpans(d, s, n);
      ForceCloseNests(d, r, n);
    }
  }

  /** With no byte dropped, every node's span lies inside its parent's. */
  lemma {:induction false} ParsedSpansNest(d: Dictionary, toks: seq<Token>, n: int)
    requires |d.tags| == 256 && TokensOk(d, toks) && Tile(toks, n) && PayloadsInside(toks)
    requires Dropped(d, toks, 0) == 0
    ensures var s := Parsed(d, toks);
      forall j :: 1 <= j < |s.par| ==>
        && 0 <= s.par[j] < |s.par|
        && s.labels[s.par[j]].span.start <= s.labels[j].span.start
        && s.labels[j].span.end <= s.labels[s.par[j]].span.end
  {
    hide Run, StackInv, NoNestedTwins, Dropped;
    var s := Run(d, Start(), toks);
    RunInv(d, toks);
    RunSpans(d, toks, n);
    RunNests(d, toks, n);
    WidthConservation(d, toks, n);
    forall k | 0 <= k < |s.crumbs| ensures SumFrom(s.widths, k) == n - FrameStart(s, k) {
      DroppedBounds(d, toks, n, FrameStart(s, k));
      DroppedMonotone(d, toks, n, FrameStart(s, k));
    }
    ForceCloseNests(d, s, n);
    ParsedSpans(d, toks, n);
    var c, r := ForceClose(d, s), Parsed(d, toks);
    forall j | 1 <= j < |r.par|
      ensures && 0 <= r.par[j] < |r.par| && r.labels[r.par[j]].span.start <= r.labels[j].span.start
              && r.labels[j].span.end <= r.labels[r.par[j]].span.end
    {
      assert NestsInParent(c, j);
      assert r.labels[j] == c.labels[j];
      if r.par[j] != 0 {
        assert IsClosed(c, c.par[j]);
      }
    }
  }
}
