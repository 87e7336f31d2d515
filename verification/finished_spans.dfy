/** The span of every tag in a finished parse: where the tag ends, less the bytes dropped inside it. */
module FinishedSpans {
  import opened Markup
  import opened ParserSpec
  import opened Nesting
  import opened Widths

  // ---- what a step does to labels and frames ----

  /** Type, tag and span are as before. */
  predicate SameSpan(l: Label, m: Label) {
    l.typ == m.typ && l.tagID == m.tagID && l.span == m.span
  }

  /** A tag node that was opened, not a greedy one. */
  predicate IsElement(d: Dictionary, l: Label)
    requires |d.tags| == 256
  {
    l.typ == TagNode && d.tags[l.tagID].greed == NonGreedy
  }

  /** The frames stay, or the new node, opened by this token, becomes the innermost one. */
  ghost predicate Grows(d: Dictionary, s: State, r: State, tok: Token)
    requires Shape(s) && Shape(r) && |d.tags| == 256
  {
    && |s.labels| <= |r.labels| && (r.crumbs == s.crumbs || r.crumbs == s.crumbs + [|s.labels|])
    && (forall j :: 0 <= j < |s.labels| ==> SameSpan(s.labels[j], r.labels[j]))
    && (forall j :: |s.labels| <= j < |r.labels| && IsElement(d, r.labels[j]) ==>
          j == |s.labels| && r.crumbs == s.crumbs + [j] && tok.typ == TagToken
          && r.labels[j].tagID == tok.trigger && r.labels[j].span.start == tok.pos)
  }

  /** The token closes the innermost tag. */
  predicate Closes(d: Dictionary, s: State, tok: Token)
    requires Shape(s) && |d.tags| == 256 && TokenOk(d, tok)
  {
    |Step(d, s, tok).crumbs| < |s.crumbs|
  }

  lemma {:induction false} TextGrows(d: Dictionary, s: State, tok: Token)
    requires Shape(s) && |d.tags| == 256
    ensures Grows(d, s, ProcessText(d.limits, s, tok), tok)
  {
  }

  lemma {:induction false} GreedyGrows(d: Dictionary, s: State, tok: Token)
    requires Shape(s) && |d.tags| == 256 && d.tags[tok.trigger].greed != NonGreedy
    ensures Grows(d, s, AppendGreedy(d.limits, s, tok), tok)
  {
    hide Shape;
    GreedyShape(d, s, tok);
    assert AppendGreedy(d.limits, s, tok).crumbs == s.crumbs;
  }

  lemma {:induction false} OpeningGrows(d: Dictionary, s: State, tok: Token)
    requires Shape(s) && |d.tags| == 256 && tok.typ == TagToken
    ensures Grows(d, s, ProcessOpening(d, s, tok), tok)
  {
  }

  lemma {:induction false} DemotedGrows(d: Dictionary, s: State, tok: Token)
    requires Shape(s) && |d.tags| == 256 && PeekStack(s) != 0
    ensures var r := ProcessClosing(d, s, tok); s.stack != [] && (r == CloseTag(s, tok) || Grows(d, s, r, tok))
  {
    hide CloseTag;
  }

  lemma {:induction false} ClosingGrows(d: Dictionary, s: State, tok: Token)
    requires Shape(s) && |d.tags| == 256
    ensures var r := ProcessClosing(d, s, tok); (s.stack != [] && r == CloseTag(s, tok)) || Grows(d, s, r, tok)
  {
    if PeekStack(s) != 0 {
      hide ProcessClosing, CloseTag, Grows;
      DemotedGrows(d, s, tok);
    }
  }

  ghost predicate ClosesOrGrows(d: Dictionary, s: State, r: State, tok: Token)
    requires Shape(s) && Shape(r) && |d.tags| == 256
  {
    (s.stack != [] && r == CloseTag(s, tok)) || Grows(d, s, r, tok)
  }

  lemma {:induction false} UntouchedGrows(d: Dictionary, s: State, r: State, tok: Token)
    requires Shape(s) && Shape(r) && |d.tags| == 256 && r.crumbs == s.crumbs && |r.labels| == |s.labels|
    requires forall j :: 0 <= j < |s.labels| ==> SameSpan(s.labels[j], r.labels[j])
    ensures Grows(d, s, r, tok)
  {
  }

  lemma {:induction false} TagGrows(d: Dictionary, s: State, tok: Token)
    requires Shape(s) && |d.tags| == 256 && tok.typ == TagToken && tok.trigger != 0
    ensures ClosesOrGrows(d, s, ProcessTag(d, s, tok), tok)
  {
    hide AppendGreedy, ProcessOpening, ProcessClosing, CloseTag, Grows;
    if d.tags[tok.trigger].greed != NonGreedy { GreedyGrows(d, s, tok); }
    OpeningGrows(d, s, tok);
    ClosingGrows(d, s, tok);
    UntouchedGrows(d, s, s, tok);
    if s.skip[tok.trigger] > 0 {
      UntouchedGrows(d, s, s.(skip := s.skip[tok.trigger := s.skip[tok.trigger] - 1]), tok);
    }
  }

  lemma {:induction false} AttributeGrows(d: Dictionary, s: State, tok: Token)
    requires Shape(s) && |d.tags| == 256
    ensures Grows(d, s, ProcessAttribute(d.limits, s, tok), tok)
  {
    UntouchedGrows(d, s, ProcessAttribute(d.limits, s, tok), tok);
  }

  lemma {:induction false} CloseShrinks(s: State, tok: Token)
    requires Shape(s) && s.stack != []
    ensures |CloseTag(s, tok).crumbs| < |s.crumbs|
  {
  }

  /** A token either closes the innermost tag or only adds. */
  lemma {:induction false} StepGrows(d: Dictionary, s: State, tok: Token)
    requires Shape(s) && |d.tags| == 256 && TokenOk(d, tok)
    ensures var r := Step(d, s, tok);
      if Closes(d, s, tok) then s.stack != [] && r == CloseTag(s, tok) else Grows(d, s, r, tok)
  {
    hide ProcessTag, ProcessText, ProcessAttribute, CloseTag, Shape;
    match tok.typ {
      case TextToken => TextGrows(d, s, tok);
      case TagToken => TagGrows(d, s, tok);
      case _ => AttributeGrows(d, s, tok);
    }
    if s.stack != [] { CloseShrinks(s, tok); }
  }

  // ---- the spans after a run ----

  /** Token i closes the tag of node j, and the span says so: it starts at the tag's opener and ends
   *  where the token ends, less what was dropped since. */
  ghost predicate ClosedAt(d: Dictionary, toks: seq<Token>, i: nat, j: nat, span: Span)
    requires |d.tags| == 256 && TokensOk(d, toks) && i < |toks|
  {
    var s := Run(d, Start(), toks[..i]);
    && Closes(d, s, toks[i]) && Top(s) == j
    && span.end == toks[i].pos + toks[i].width - Dropped(d, toks[..i], span.start)
  }

  ghost predicate ClosedBySome(d: Dictionary, toks: seq<Token>, j: nat, span: Span)
    requires |d.tags| == 256 && TokensOk(d, toks)
  {
    exists i :: 0 <= i < |toks| && ClosedAt(d, toks, i, j, span)
  }

  /** Node j is open at the end of the tokens. */
  ghost predicate IsOpenAfter(s: State, j: nat) {
    exists k :: 1 <= k < |s.crumbs| && s.crumbs[k] == j
  }

  /** Token i made node j, and the node carries its tag and starts where it stands. */
  ghost predicate OpenedAt(d: Dictionary, toks: seq<Token>, i: nat, j: nat, l: Label)
    requires |d.tags| == 256 && TokensOk(d, toks) && i < |toks|
  {
    && |Run(d, Start(), toks[..i]).labels| == j < |Step(d, Run(d, Start(), toks[..i]), toks[i]).labels|
    && toks[i].typ == TagToken && toks[i].trigger == l.tagID && toks[i].pos == l.span.start
  }

  ghost predicate OpenedBySome(d: Dictionary, toks: seq<Token>, j: nat, l: Label)
    requires |d.tags| == 256 && TokensOk(d, toks)
  {
    exists i :: 0 <= i < |toks| && OpenedAt(d, toks, i, j, l)
  }

  ghost predicate ElementOk(d: Dictionary, toks: seq<Token>, s: State, j: nat)
    requires |d.tags| == 256 && TokensOk(d, toks) && j < |s.labels|
  {
    IsElement(d, s.labels[j]) ==>
      && OpenedBySome(d, toks, j, s.labels[j])
      && (IsOpenAfter(s, j) || ClosedBySome(d, toks, j, s.labels[j].span))
  }

  /** More tokens do not unsay that a token closed a tag. */
  lemma {:induction false} StaysClosed(d: Dictionary, toks: seq<Token>, j: nat, l: Label)
    requires |d.tags| == 256 && toks != [] && TokensOk(d, toks)
    ensures ClosedBySome(d, toks[..|toks| - 1], j, l.span) ==> ClosedBySome(d, toks, j, l.span)
    ensures OpenedBySome(d, toks[..|toks| - 1], j, l) ==> OpenedBySome(d, toks, j, l)
  {
    hide Run, Dropped, Closes;
    var front := toks[..|toks| - 1];
    if ClosedBySome(d, front, j, l.span) {
      var i :| 0 <= i < |front| && ClosedAt(d, front, i, j, l.span);
      assert front[..i] == toks[..i];
      assert ClosedAt(d, toks, i, j, l.span);
    }
    if OpenedBySome(d, front, j, l) {
      var i :| 0 <= i < |front| && OpenedAt(d, front, i, j, l);
      assert front[..i] == toks[..i];
      assert OpenedAt(d, toks, i, j, l);
    }
  }

  lemma {:induction false} SameOpener(d: Dictionary, toks: seq<Token>, j: nat, l: Label, m: Label)
    requires |d.tags| == 256 && TokensOk(d, toks)
    requires l.tagID == m.tagID && l.span.start == m.span.start
    ensures OpenedBySome(d, toks, j, l) ==> OpenedBySome(d, toks, j, m)
  {
    hide Run, Step;
    if OpenedBySome(d, toks, j, l) {
      var i :| 0 <= i < |toks| && OpenedAt(d, toks, i, j, l);
      assert OpenedAt(d, toks, i, j, m);
    }
  }

  lemma {:induction false} RunLast(d: Dictionary, toks: seq<Token>)
    requires |d.tags| == 256 && toks != [] && TokensOk(d, toks)
    ensures var n := |toks| - 1;
      TokenOk(d, toks[n]) && Run(d, Start(), toks) == Step(d, Run(d, Start(), toks[..n]), toks[n])
  {
    hide Step;
  }

  /** A close gives its tag the right span and leaves the others alone. */
  lemma {:induction false} CloseElement(d: Dictionary, toks: seq<Token>, s: State, r: State, j: nat)
    requires |d.tags| == 256 && toks != [] && TokensOk(d, toks) && Tile(toks, toks[|toks| - 1].pos + toks[|toks| - 1].width)
    requires s == Run(d, Start(), toks[..|toks| - 1]) && s.stack != [] && r == CloseTag(s, toks[|toks| - 1])
    requires Closes(d, s, toks[|toks| - 1]) && j < |s.labels| && ElementOk(d, toks[..|toks| - 1], s, j)
    ensures |r.labels| == |s.labels| && ElementOk(d, toks, r, j)
  {
    hide Run, Step, Dropped, OpenedBySome;
    var n := |toks| - 1;
    var front, tok := toks[..n], toks[n];
    StaysClosed(d, toks, j, s.labels[j]);
    SameOpener(d, toks, j, s.labels[j], r.labels[j]);
    if j == Top(s) {
      ClosedSpan(d, front, tok);
      assert ClosedAt(d, toks, n, j, r.labels[j].span);
    } else if IsOpenAfter(s, j) {
      var k :| 1 <= k < |s.crumbs| && s.crumbs[k] == j;
      assert r.crumbs[k] == j;
    }
  }

  /** Any other token leaves closed tags alone and keeps or adds open ones. */
  lemma {:induction false} GrowElement(d: Dictionary, toks: seq<Token>, s: State, r: State, j: nat)
    requires |d.tags| == 256 && toks != [] && TokensOk(d, toks) && Shape(s) && Shape(r)
    requires s == Run(d, Start(), toks[..|toks| - 1]) && r == Step(d, s, toks[|toks| - 1])
    requires Grows(d, s, r, toks[|toks| - 1]) && j < |r.labels| && (j < |s.labels| ==> ElementOk(d, toks[..|toks| - 1], s, j))
    ensures ElementOk(d, toks, r, j)
  {
    hide ClosedBySome, Shape, Run, Step;
    var n := |toks| - 1;
    if j < |s.labels| {
      StaysClosed(d, toks, j, s.labels[j]);
      SameOpener(d, toks, j, s.labels[j], r.labels[j]);
      if IsOpenAfter(s, j) {
        var k :| 1 <= k < |s.crumbs| && s.crumbs[k] == j;
        assert r.crumbs[k] == j;
      }
    } else if IsElement(d, r.labels[j]) {
      assert r.crumbs[|s.crumbs|] == j;
      assert |s.crumbs| >= 1 by { HasRoot(s); }
      assert OpenedAt(d, toks, n, j, r.labels[j]);
    }
  }

  lemma {:induction false} HasRoot(s: State)
    requires Shape(s)
    ensures |s.crumbs| >= 1
  {
  }

  /** After any tokens, every element is open, or closed with the right span. */
  lemma {:induction false} RunElements(d: Dictionary, toks: seq<Token>, n: int)
    requires |d.tags| == 256 && TokensOk(d, toks) && Tile(toks, n)
    ensures var s := Run(d, Start(), toks); forall j :: 0 <= j < |s.labels| ==> ElementOk(d, toks, s, j)
    decreases |toks|
  {
    hide Run, Step, ElementOk, Closes, CloseTag, Grows;
    if toks == [] {
      RootIsNoElement(d);
    } else {
      var l := |toks| - 1;
      RunElements(d, toks[..l], toks[l].pos);
      RunLast(d, toks);
      var s, r := Run(d, Start(), toks[..l]), Run(d, Start(), toks);
      StepGrows(d, s, toks[l]);
      forall j | 0 <= j < |r.labels| ensures ElementOk(d, toks, r, j) {
        if Closes(d, s, toks[l]) {
          SameCount(s, toks[l]);
          CloseElement(d, toks, s, r, j);
        } else {
          GrowElement(d, toks, s, r, j);
        }
      }
    }
  }

  lemma {:induction false} SameCount(s: State, tok: Token)
    requires Shape(s) && s.stack != []
    ensures |CloseTag(s, tok).labels| == |s.labels|
  {
  }

  lemma {:induction false} RootIsNoElement(d: Dictionary)
    requires |d.tags| == 256
    ensures Run(d, Start(), []) == Start() && |Start().labels| == 1 && ElementOk(d, [], Start(), 0)
  {
  }

  // ---- force-closing ----

  /** Frame k's tag ends after the bytes its frames hold. */
  ghost predicate FrameClosed(s: State, c: State, k: nat)
    requires Shape(s) && 1 <= k < |s.crumbs| && |c.labels| == |s.labels|
  {
    c.labels[s.crumbs[k]].span == Span(FrameStart(s, k), FrameStart(s, k) + SumFrom(s.widths, k))
  }

  /** One turn closes the innermost tag and keeps the totals of the others. */
  lemma {:induction false} OneClosed(d: Dictionary, s: State)
    requires |d.tags| == 256 && Inv(d, s) && s.stack != []
    ensures var r, m := ForceCloseOne(d, s), |s.crumbs| - 1;
      && |r.labels| == |s.labels| && r.crumbs == s.crumbs[..m] && FrameClosed(s, r, m)
      && (forall j :: 0 <= j < |s.labels| && j != Top(s) ==> r.labels[j] == s.labels[j])
      && (forall j :: 0 <= j < |s.labels| ==> r.labels[j].typ == s.labels[j].typ && r.labels[j].tagID == s.labels[j].tagID)
      && (forall k :: 1 <= k < m ==> SumFrom(r.widths, k) == SumFrom(s.widths, k) && FrameStart(r, k) == FrameStart(s, k))
  {
    hide TreeInv, StackInv, NoNestedTwins;
    var m, eof := |s.crumbs| - 1, Token(TagToken, 0, 0, 0, Span(0, 0), Span(0, 0));
    CloseAccounts(d, s, eof);
    assert SumFrom(s.widths, m) == SumFrom(s.widths[..m], m) + s.widths[m];
  }

  lemma {:induction false} TopIsOnce(s: State)
    requires Shape(s) && TreeInv(s) && s.stack != []
    ensures forall k :: 0 <= k < |s.crumbs| - 1 ==> s.crumbs[k] != Top(s)
  {
    CrumbsIncrease(s);
  }

  /** Force-closing gives each open tag what its frames hold and changes no other label. */
  lemma {:induction false} ForceCloseFrames(d: Dictionary, s: State)
    requires |d.tags| == 256 && Inv(d, s)
    ensures var c := ForceClose(d, s);
      && |c.labels| == |s.labels|
      && (forall k :: 1 <= k < |s.crumbs| ==> FrameClosed(s, c, k))
      && (forall j :: 0 <= j < |s.labels| && !IsOpenAfter(s, j) ==> c.labels[j] == s.labels[j])
      && (forall j :: 0 <= j < |s.labels| ==> c.labels[j].typ == s.labels[j].typ && c.labels[j].tagID == s.labels[j].tagID)
    decreases |s.stack|
  {
    hide TreeInv, StackInv, NoNestedTwins, SumFrom, ForceCloseOne;
    if s.stack != [] {
      var r, m := ForceCloseOne(d, s), |s.crumbs| - 1;
      ForceCloseOneInv(d, s);
      ForceCloseFrames(d, r);
      OneClosed(d, s);
      TopIsOnce(s);
      var c := ForceClose(d, r);
      assert !IsOpenAfter(r, Top(s));
      forall k | 1 <= k < |s.crumbs| ensures FrameClosed(s, c, k) {
        if k < m { assert FrameClosed(r, c, k); }
      }
      forall j | 0 <= j < |s.labels| && !IsOpenAfter(s, j) ensures c.labels[j] == s.labels[j] {
        NotOpenLater(s, r, j);
      }
    }
  }

  lemma {:induction false} NotOpenLater(s: State, r: State, j: nat)
    requires Shape(s) && s.stack != [] && r.crumbs == s.crumbs[..|s.crumbs| - 1] && !IsOpenAfter(s, j)
    ensures !IsOpenAfter(r, j) && j != Top(s)
  {
    forall k | 1 <= k < |r.crumbs| ensures r.crumbs[k] != j {
      assert r.crumbs[k] == s.crumbs[k];
    }
  }

  // ---- the finished parse ----

  /** A tag still open at the end of the tokens ends with the input, less what was dropped since it
   *  started. */
  lemma {:induction false} OpenTagSpan(d: Dictionary, toks: seq<Token>, n: int, k: nat)
    requires |d.tags| == 256 && TokensOk(d, toks) && Tile(toks, n) && 1 <= k < |Run(d, Start(), toks).crumbs|
    ensures var s := Run(d, Start(), toks);
      var start := FrameStart(s, k);
      && |Parsed(d, toks).labels| == |s.labels|
      && Parsed(d, toks).labels[s.crumbs[k]].span == Span(start, n - Dropped(d, toks, start))
  {
    hide Run, ForceClose, TreeInv, StackInv, NoNestedTwins, Dropped, SumFrom;
    var s := Run(d, Start(), toks);
    RunInv(d, toks);
    WidthConservation(d, toks, n);
    ForceCloseFrames(d, s);
    assert FrameClosed(s, ForceClose(d, s), k);
    CrumbsPositive(s, k);
  }

  lemma {:induction false} CrumbsPositive(s: State, k: nat)
    requires Shape(s) && TreeInv(s) && 1 <= k < |s.crumbs|
    ensures s.crumbs[k] > 0
  {
    CrumbsIncrease(s);
  }

  /** Every tag element of a finished parse starts at the token that made it. If a token closed it, it ends where
   *  that token ends, less the bytes dropped since it started; otherwise it ends with the input,
   *  less the bytes dropped since it started. */
  lemma {:induction false} ElementSpans(d: Dictionary, toks: seq<Token>, n: int, j: nat)
    requires |d.tags| == 256 && TokensOk(d, toks) && Tile(toks, n)
    requires j < |Parsed(d, toks).labels| && IsElement(d, Parsed(d, toks).labels[j])
    ensures var s, l := Run(d, Start(), toks), Parsed(d, toks).labels[j];
      && OpenedBySome(d, toks, j, l)
      && (if IsOpenAfter(s, j) then l.span.end == n - Dropped(d, toks, l.span.start)
          else ClosedBySome(d, toks, j, l.span))
  {
    hide Run, ForceClose, TreeInv, StackInv, NoNestedTwins, Dropped, SumFrom, OpenedBySome, ClosedBySome;
    var s := Run(d, Start(), toks);
    RunInv(d, toks);
    RunElements(d, toks, n);
    ForceCloseFrames(d, s);
    RootIsRoot(d, s);
    assert j < |s.labels| && ElementOk(d, toks, s, j);
    if IsOpenAfter(s, j) {
      var k :| 1 <= k < |s.crumbs| && s.crumbs[k] == j;
      OpenTagSpan(d, toks, n, k);
      SameOpener(d, toks, j, s.labels[j], Parsed(d, toks).labels[j]);
    }
  }

  lemma {:induction false} RootIsRoot(d: Dictionary, s: State)
    requires |d.tags| == 256 && Inv(d, s)
    ensures s.labels[0].typ == RootNode
  {
  }

  /** A tag closed by a token keeps, to the end of the parse, the span that token gave it. */
  lemma {:induction false} ClosedTagSpan(d: Dictionary, toks: seq<Token>, n: int, i: nat)
    requires |d.tags| == 256 && TokensOk(d, toks) && Tile(toks, n) && i < |toks|
    requires Closes(d, Run(d, Start(), toks[..i]), toks[i])
    ensures var s := Run(d, Start(), toks[..i]);
      var start := s.labels[Top(s)].span.start;
      && Top(s) < |Parsed(d, toks).labels|
      && Parsed(d, toks).labels[Top(s)].span == Span(start, toks[i].pos + toks[i].width - Dropped(d, toks[..i], start))
  {
    hide Run, ForceClose, TreeInv, StackInv, NoNestedTwins, Dropped, SumFrom, Closes, CloseTag;
    var s := Run(d, Start(), toks[..i]);
    RunInv(d, toks[..i]);
    StepGrows(d, s, toks[i]);
    TilePrefix(toks, n, i);
    ClosedSpan(d, toks[..i], toks[i]);
    assert toks[..i + 1][..i] == toks[..i];
    RunLast(d, toks[..i + 1]);
    JustClosed(d, s, toks[i]);
    StaysPut(d, toks, i + 1, Top(s));
    var e := Run(d, Start(), toks);
    RunInv(d, toks);
    ForceCloseFrames(d, e);
  }

  lemma {:induction false} TilePrefix(toks: seq<Token>, n: int, i: nat)
    requires Tile(toks, n) && i < |toks|
    ensures Tile(toks[..i], toks[i].pos)
    decreases |toks|
  {
    var l := |toks| - 1;
    if i < l {
      TilePrefix(toks[..l], toks[l].pos, i);
      assert toks[..l][..i] == toks[..i];
    }
  }

  lemma {:induction false} JustClosed(d: Dictionary, s: State, tok: Token)
    requires |d.tags| == 256 && Inv(d, s) && s.stack != []
    ensures var r := CloseTag(s, tok); !IsOpenAfter(r, Top(s)) && 0 < Top(s) < |r.labels|
  {
    CrumbsIncrease(s);
  }

  /** A node that is not open keeps its span. */
  lemma {:induction false} StaysPut(d: Dictionary, toks: seq<Token>, i: nat, j: nat)
    requires |d.tags| == 256 && TokensOk(d, toks) && i <= |toks|
    requires j < |Run(d, Start(), toks[..i]).labels| && !IsOpenAfter(Run(d, Start(), toks[..i]), j) && j > 0
    ensures var s, e := Run(d, Start(), toks[..i]), Run(d, Start(), toks);
      j < |e.labels| && e.labels[j].span == s.labels[j].span && !IsOpenAfter(e, j)
    decreases |toks|
  {
    hide Run, Step, Closes, CloseTag, Grows;
    if i == |toks| {
      assert toks[..i] == toks;
    } else {
      var l := |toks| - 1;
      assert toks[..l][..i] == toks[..i];
      StaysPut(d, toks[..l], i, j);
      RunLast(d, toks);
      var m := Run(d, Start(), toks[..l]);
      StepGrows(d, m, toks[l]);
      var e := Run(d, Start(), toks);
      if Closes(d, m, toks[l]) {
        OthersStay(m, toks[l], j);
        assert e == CloseTag(m, toks[l]);
      } else {
        GrowthStays(d, m, e, toks[l], j);
        GrownCount(d, m, e, toks[l]);
      }
    }
  }

  lemma {:induction false} GrownCount(d: Dictionary, s: State, r: State, tok: Token)
    requires |d.tags| == 256 && Shape(s) && Shape(r) && Grows(d, s, r, tok)
    ensures |s.labels| <= |r.labels|
  {
  }

  lemma {:induction false} OthersStay(s: State, tok: Token, j: nat)
    requires Shape(s) && s.stack != [] && j < |s.labels| && !IsOpenAfter(s, j)
    ensures var r := CloseTag(s, tok); j < |r.labels| && r.labels[j] == s.labels[j] && !IsOpenAfter(r, j)
  {
    NotOpenLater(s, CloseTag(s, tok), j);
  }

  lemma {:induction false} GrowthStays(d: Dictionary, s: State, r: State, tok: Token, j: nat)
    requires |d.tags| == 256 && Shape(s) && Shape(r) && Grows(d, s, r, tok) && j < |s.labels| && !IsOpenAfter(s, j)
    ensures r.labels[j].span == s.labels[j].span && !IsOpenAfter(r, j)
  {
    forall k | 1 <= k < |r.crumbs| ensures r.crumbs[k] != j {
      assert k < |s.crumbs| ==> r.crumbs[k] == s.crumbs[k];
    }
  }
}
