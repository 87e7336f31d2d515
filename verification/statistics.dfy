/** What a finished parse reports about itself: the warnings for tags left open, the number of tag and
 *  text nodes, and the depth reached. */
module Statistics {
  import opened Markup
  import opened Forests
  import opened ParserSpec
  import opened Nesting
  import opened Widths
  import opened TextAccounting
  import opened Actions
  import opened TokenizerSpec
  import opened ParserRules
  import FinishedSpans

  // ---- tags left open ----

  /** One warning for each of the k outermost open tags, innermost first, at its opener. */
  function LeftOpen(d: Dictionary, s: State, k: nat): seq<Warning>
    requires Shape(s) && |d.tags| == 256 && k <= |s.stack|
  {
    if k == 0 then []
    else
      var b := s.stack[k - 1];
      [Warning(UnclosedTag, s.labels[s.crumbs[k]].span.start, b, d.tags[b].closeID, 0, 0)] + LeftOpen(d, s, k - 1)
  }

  lemma {:induction false} LeftOpenSame(d: Dictionary, s: State, r: State, k: nat)
    requires Shape(s) && Shape(r) && |d.tags| == 256 && k <= |s.stack| && k <= |r.stack|
    requires forall i :: 0 <= i < k ==> r.stack[i] == s.stack[i]
    requires forall i :: 1 <= i <= k ==> r.crumbs[i] == s.crumbs[i] && FrameStart(r, i) == FrameStart(s, i)
    ensures LeftOpen(d, r, k) == LeftOpen(d, s, k)
  {
    if k > 0 {
      LeftOpenSame(d, s, r, k - 1);
      assert FrameStart(r, k) == FrameStart(s, k);
    }
  }

  lemma {:induction false} OneLeftOpen(d: Dictionary, s: State)
    requires |d.tags| == 256 && Shape(s) && s.stack != []
    ensures var r, k := ForceCloseOne(d, s), |s.stack|;
      && r.stack == s.stack[..k - 1]
      && r.warns == s.warns + [Warning(UnclosedTag, s.labels[s.crumbs[k]].span.start, s.stack[k - 1], d.tags[s.stack[k - 1]].closeID, 0, 0)]
      && r.par == s.par && r.attrs == s.attrs && r.tagNodes == s.tagNodes && r.textNodes == s.textNodes && r.textLen == s.textLen
      && r.maxDepth == s.maxDepth && r.skip == s.skip
  {
  }

  lemma {:induction false} NoneLeftOpen(d: Dictionary, s: State)
    requires Shape(s) && |d.tags| == 256
    ensures LeftOpen(d, s, 0) == []
  {
  }

  lemma {:induction false} InnermostLeftOpen(d: Dictionary, s: State)
    requires Shape(s) && |d.tags| == 256 && s.stack != []
    ensures var k := |s.stack|;
      LeftOpen(d, s, k)
      == [Warning(UnclosedTag, s.labels[s.crumbs[k]].span.start, s.stack[k - 1], d.tags[s.stack[k - 1]].closeID, 0, 0)] + LeftOpen(d, s, k - 1)
  {
  }

  lemma {:induction false} LeftOpenBelow(d: Dictionary, s: State)
    requires |d.tags| == 256 && Inv(d, s) && s.stack != []
    ensures var r, k := ForceCloseOne(d, s), |s.stack|;
      Inv(d, r) && |r.stack| == k - 1 && LeftOpen(d, r, k - 1) == LeftOpen(d, s, k - 1)
  {
    hide TreeInv, StackInv, NoNestedTwins, ForceCloseOne, SumFrom;
    var r, k := ForceCloseOne(d, s), |s.stack|;
    ForceCloseOneInv(d, s);
    OneLeftOpen(d, s);
    FinishedSpans.OneClosed(d, s);
    forall i | 1 <= i <= k - 1 ensures r.crumbs[i] == s.crumbs[i] && FrameStart(r, i) == FrameStart(s, i) {
    }
    LeftOpenSame(d, s, r, k - 1);
  }

  /** Force-closing warns of each open tag once, innermost first, and changes no counter and no parent. */
  lemma {:induction false} ForceCloseWarns(d: Dictionary, s: State)
    requires |d.tags| == 256 && Inv(d, s)
    ensures var c := ForceClose(d, s);
      && c.warns == s.warns + LeftOpen(d, s, |s.stack|)
      && c.par == s.par && c.attrs == s.attrs && c.tagNodes == s.tagNodes && c.textNodes == s.textNodes && c.textLen == s.textLen
      && c.maxDepth == s.maxDepth && c.skip == s.skip
    decreases |s.stack|
  {
    hide TreeInv, StackInv, NoNestedTwins, ForceCloseOne, LeftOpen;
    if s.stack == [] {
      assert LeftOpen(d, s, 0) == [] by { NoneLeftOpen(d, s); }
      assert s.warns + [] == s.warns;
    } else {
      var r, k := ForceCloseOne(d, s), |s.stack|;
      ForceCloseOneInv(d, s);
      ForceCloseWarns(d, r);
      OneLeftOpen(d, s);
      LeftOpenBelow(d, s);
      var w := [Warning(UnclosedTag, s.labels[s.crumbs[k]].span.start, s.stack[k - 1], d.tags[s.stack[k - 1]].closeID, 0, 0)];
      assert LeftOpen(d, s, k) == w + LeftOpen(d, s, k - 1) by { InnermostLeftOpen(d, s); }
      assert s.warns + w + LeftOpen(d, s, k - 1) == s.warns + (w + LeftOpen(d, s, k - 1));
    }
  }

  /** A finished parse has the warnings of its tokens, and then one for each tag left open; its counters
   *  are those behind the last token. */
  lemma {:induction false} FinishedWarnings(d: Dictionary, toks: seq<Token>)
    requires |d.tags| == 256 && TokensOk(d, toks)
    ensures var s, f := Run(d, Start(), toks), Parsed(d, toks);
      && f.warns == s.warns + LeftOpen(d, s, |s.stack|)
      && f.par == s.par && f.attrs == s.attrs && f.tagNodes == s.tagNodes && f.textNodes == s.textNodes && f.textLen == s.textLen
      && f.maxDepth == s.maxDepth && f.skip == s.skip
  {
    hide Run, TreeInv, StackInv, NoNestedTwins, ForceClose;
    RunInv(d, toks);
    ForceCloseWarns(d, Run(d, Start(), toks));
  }

  // ---- tag nodes ----

  predicate IsElement(d: Dictionary, l: Label)
    requires |d.tags| == 256
  {
    FinishedSpans.IsElement(d, l)
  }

  /** How many nodes are tags that open and close; greedy tags are not among them. */
  function ElementCount(d: Dictionary, labels: seq<Label>): nat
    requires |d.tags| == 256
  {
    if labels == [] then 0
    else ElementCount(d, labels[..|labels| - 1]) + (if IsElement(d, labels[|labels| - 1]) then 1 else 0)
  }

  lemma {:induction false} ElementCountSame(d: Dictionary, a: seq<Label>, b: seq<Label>)
    requires |d.tags| == 256 && |a| == |b| && forall j :: 0 <= j < |a| ==> a[j].typ == b[j].typ && a[j].tagID == b[j].tagID
    ensures ElementCount(d, a) == ElementCount(d, b)
  {
    if a != [] {
      ElementCountSame(d, a[..|a| - 1], b[..|b| - 1]);
    }
  }

  lemma {:induction false} ElementCountAppend(d: Dictionary, labels: seq<Label>, l: Label)
    requires |d.tags| == 256
    ensures ElementCount(d, labels + [l]) == ElementCount(d, labels) + (if IsElement(d, l) then 1 else 0)
  {
    assert (labels + [l])[..|labels|] == labels;
  }

  lemma {:induction false} ElementCountMore(d: Dictionary, a: seq<Label>, b: seq<Label>)
    requires |d.tags| == 256 && |a| <= |b| <= |a| + 2
    requires forall j :: 0 <= j < |a| ==> a[j].typ == b[j].typ && a[j].tagID == b[j].tagID
    ensures ElementCount(d, b) == ElementCount(d, a) + CountAt(d, b, |a|) + CountAt(d, b, |a| + 1)
  {
    if |b| == |a| {
      ElementCountSame(d, a, b);
    } else {
      ElementCountMore(d, a, b[..|b| - 1]);
    }
  }

  function CountAt(d: Dictionary, labels: seq<Label>, j: nat): nat
    requires |d.tags| == 256
  {
    if j < |labels| && IsElement(d, labels[j]) then 1 else 0
  }

  /** The labels a token adds. */
  lemma {:induction false} AddedElements(d: Dictionary, s: State, tok: Token)
    requires |d.tags| == 256 && Shape(s)
    ensures var add := Added(d, s, tok);
      && |add| <= 2 && (|add| > 0 && IsElement(d, add[0].1) <==> Enters(d, s, tok)) && (|add| > 1 ==> !IsElement(d, add[1].1))
  {
  }

  /** One more element exactly when a tag is entered. */
  lemma {:induction false} StepElements(d: Dictionary, s: State, tok: Token, r: State)
    requires |d.tags| == 256 && Shape(s) && Shape(r) && ArenaFollows(d, s, tok, r)
    ensures ElementCount(d, r.labels) == ElementCount(d, s.labels) + (if Enters(d, s, tok) then 1 else 0)
  {
    hide Added, Ends, Enters, IsElement, ElementCount;
    AddedElements(d, s, tok);
    var add, n := Added(d, s, tok), |s.labels|;
    assert |add| > 0 ==> r.labels[n + 0] == add[0].1;
    assert |add| > 1 ==> r.labels[n + 1] == add[1].1;
    ElementCountMore(d, s.labels, r.labels);
  }

  /** The reported number of tags is the number of nodes of tags that open and close. */
  lemma {:induction false} RunElements(d: Dictionary, toks: seq<Token>)
    requires |d.tags| == 256 && TokensOk(d, toks)
    ensures var s := Run(d, Start(), toks); s.tagNodes == ElementCount(d, s.labels)
  {
    hide Step, ArenaFollows, SkipFollows, WarningsFollow, AttributesFollow, Enters, Run, ElementCount;
    if toks == [] {
      StartElements(d);
    } else {
      var n := |toks| - 1;
      RunElements(d, toks[..n]);
      RunFollows(d, toks);
      assert FollowsAt(d, toks, n) && toks[..n + 1] == toks;
      StepElements(d, Run(d, Start(), toks[..n]), toks[n], Run(d, Start(), toks));
    }
  }

  lemma {:induction false} StartElements(d: Dictionary)
    requires |d.tags| == 256
    ensures Run(d, Start(), []) == Start() && Start().tagNodes == ElementCount(d, Start().labels)
  {
    assert [ROOT][..0] == [];
  }

  /** The reported number of tag nodes is that of the elements. */
  lemma {:induction false} TagNodesExact(d: Dictionary, toks: seq<Token>)
    requires |d.tags| == 256 && TokensOk(d, toks)
    ensures var f := Parsed(d, toks); f.tagNodes == ElementCount(d, f.labels)
  {
    hide Run, ElementCount, TreeInv, StackInv, NoNestedTwins, ForceClose;
    var s := Run(d, Start(), toks);
    RunInv(d, toks);
    RunElements(d, toks);
    FinishedWarnings(d, toks);
    FinishedSpans.ForceCloseFrames(d, s);
    ElementCountSame(d, s.labels, Parsed(d, toks).labels);
  }

  // ---- the depth ----

  /** How deep an element lies: one for those directly below the root. */
  ghost function DepthOf(par: seq<int>, j: nat): int
    requires Valid(par) && j < |par|
  {
    Level(par, j) - 1
  }

  /** The depth is at least 1, at least that of every element, and no more. */
  ghost predicate DepthIs(d: Dictionary, par: seq<int>, labels: seq<Label>, m: int)
    requires |d.tags| == 256 && Valid(par) && |labels| == |par|
  {
    && m >= 1
    && (forall j :: 0 <= j < |par| && IsElement(d, labels[j]) ==> DepthOf(par, j) <= m)
    && (m > 1 ==> exists j :: 0 <= j < |par| && IsElement(d, labels[j]) && DepthOf(par, j) == m)
  }

  lemma {:induction false} CrumbLevels(s: State, k: nat)
    requires Shape(s) && TreeInv(s) && k < |s.crumbs|
    ensures Level(s.par, s.crumbs[k]) == k + 1
  {
    if k > 0 {
      CrumbLevels(s, k - 1);
    } else {
      assert Level(s.par, 0) == 1 + Level(s.par, -1);
    }
  }

  /** A step keeps the depth exact. */
  lemma {:induction false} StepDepth(d: Dictionary, s: State, tok: Token, r: State)
    requires |d.tags| == 256 && Inv(d, s) && Inv(d, r) && Follows(d, s, tok, r) && s.maxDepth >= |s.stack|
    requires DepthIs(d, s.par, s.labels, s.maxDepth)
    ensures DepthIs(d, r.par, r.labels, r.maxDepth)
  {
    hide StackInv, NoNestedTwins, Added, Ends, Enters, IsElement, SkipFollows, WarningsFollow, AttributesFollow, Level, Preorder;
    AddedElements(d, s, tok);
    var add, n := Added(d, s, tok), |s.par|;
    assert |add| > 0 ==> r.labels[n + 0] == add[0].1;
    assert |add| > 1 ==> r.labels[n + 1] == add[1].1;
    SameElements(d, s, r);
    if Enters(d, s, tok) {
      EnteredDepth(d, s, tok, r);
    }
    DepthAfter(d, s, r, Enters(d, s, tok));
  }

  /** Old nodes keep kind and level. */
  lemma {:induction false} SameElements(d: Dictionary, s: State, r: State)
    requires |d.tags| == 256 && Shape(s) && Shape(r) && Valid(s.par) && Valid(r.par) && |s.par| <= |r.par| && s.par == r.par[..|s.par|]
    requires forall j :: 0 <= j < |s.labels| ==> SamePlace(s.labels[j], r.labels[j])
    ensures forall j :: 0 <= j < |s.par| ==> IsElement(d, r.labels[j]) == IsElement(d, s.labels[j]) && DepthOf(r.par, j) == DepthOf(s.par, j)
  {
    hide Shape;
    assert |s.labels| == |s.par| && |r.labels| == |r.par| by { SameCounts(s); SameCounts(r); }
    forall j | 0 <= j < |s.par|
      ensures IsElement(d, r.labels[j]) == IsElement(d, s.labels[j]) && DepthOf(r.par, j) == DepthOf(s.par, j)
    {
      LevelPrefix(s.par, r.par, j);
      assert SamePlace(s.labels[j], r.labels[j]);
    }
  }

  lemma {:induction false} SameCounts(s: State)
    requires Shape(s)
    ensures |s.labels| == |s.par|
  {
  }

  lemma {:induction false} EnteredDepth(d: Dictionary, s: State, tok: Token, r: State)
    requires |d.tags| == 256 && Inv(d, r) && Shape(s) && StackFollows(d, s, tok, r) && Enters(d, s, tok) && |s.par| < |r.par|
    ensures |r.stack| == |s.stack| + 1 && DepthOf(r.par, |s.par|) == |r.stack|
  {
    hide StackInv, NoNestedTwins, Enters;
    CrumbLevels(r, |r.crumbs| - 1);
  }

  lemma {:induction false} DepthAfter(d: Dictionary, s: State, r: State, enters: bool)
    requires |d.tags| == 256 && Shape(s) && Shape(r) && Valid(s.par) && Valid(r.par) && |s.par| <= |r.par| <= |s.par| + 2
    requires DepthIs(d, s.par, s.labels, s.maxDepth) && s.maxDepth >= |s.stack|
    requires forall j :: 0 <= j < |s.par| ==> IsElement(d, r.labels[j]) == IsElement(d, s.labels[j]) && DepthOf(r.par, j) == DepthOf(s.par, j)
    requires forall j :: |s.par| <= j < |r.par| ==> (IsElement(d, r.labels[j]) <==> enters && j == |s.par|)
    requires enters ==> |s.par| < |r.par| && DepthOf(r.par, |s.par|) == |r.stack|
    requires !enters ==> |r.stack| <= |s.stack|
    requires r.maxDepth == if |r.stack| > s.maxDepth then |r.stack| else s.maxDepth
    ensures DepthIs(d, r.par, r.labels, r.maxDepth)
  {
    hide IsElement, Shape, DepthOf;
    assert |s.labels| == |s.par| && |r.labels| == |r.par| by { SameCounts(s); SameCounts(r); }
    if r.maxDepth == s.maxDepth && r.maxDepth > 1 {
      var j :| 0 <= j < |s.par| && IsElement(d, s.labels[j]) && DepthOf(s.par, j) == s.maxDepth;
      assert IsElement(d, r.labels[j]) && DepthOf(r.par, j) == r.maxDepth;
    } else if r.maxDepth > 1 {
      assert IsElement(d, r.labels[|s.par|]) && DepthOf(r.par, |s.par|) == r.maxDepth;
    }
  }

  lemma {:induction false} RunDepth(d: Dictionary, toks: seq<Token>)
    requires |d.tags| == 256 && TokensOk(d, toks)
    ensures var s := Run(d, Start(), toks); Valid(s.par) && DepthIs(d, s.par, s.labels, s.maxDepth)
  {
    hide Step, Follows, Run, DepthIs, StackInv, NoNestedTwins;
    RunInv(d, toks);
    if toks == [] {
      StartDepth(d);
    } else {
      var n := |toks| - 1;
      RunDepth(d, toks[..n]);
      RunInv(d, toks[..n]);
      RunFollows(d, toks[..n]);
      RunFollows(d, toks);
      assert FollowsAt(d, toks, n) && toks[..n + 1] == toks;
      StepDepth(d, Run(d, Start(), toks[..n]), toks[n], Run(d, Start(), toks));
    }
  }

  lemma {:induction false} StartDepth(d: Dictionary)
    requires |d.tags| == 256
    ensures Run(d, Start(), []) == Start() && Valid(Start().par) && DepthIs(d, Start().par, Start().labels, Start().maxDepth)
  {
  }

  lemma {:induction false} SameDepth(d: Dictionary, par: seq<int>, a: seq<Label>, b: seq<Label>, m: int)
    requires |d.tags| == 256 && Valid(par) && |a| == |par| == |b| && DepthIs(d, par, a, m)
    requires forall j :: 0 <= j < |a| ==> IsElement(d, a[j]) == IsElement(d, b[j])
    ensures DepthIs(d, par, b, m)
  {
    hide IsElement, DepthOf;
    if m > 1 {
      var j :| 0 <= j < |par| && IsElement(d, a[j]) && DepthOf(par, j) == m;
      assert IsElement(d, b[j]);
    }
  }

  /** The reported depth is that of the deepest element, and 1 without any. */
  lemma {:induction false} MaxDepthExact(d: Dictionary, toks: seq<Token>)
    requires |d.tags| == 256 && TokensOk(d, toks)
    ensures var f := Parsed(d, toks); Valid(f.par) && DepthIs(d, f.par, f.labels, f.maxDepth)
  {
    hide Run, DepthIs, StackInv, NoNestedTwins, ForceClose;
    var s := Run(d, Start(), toks);
    RunInv(d, toks);
    RunDepth(d, toks);
    FinishedWarnings(d, toks);
    FinishedSpans.ForceCloseFrames(d, s);
    SameDepth(d, s.par, s.labels, Parsed(d, toks).labels, s.maxDepth);
  }

  // ---- text nodes ----

  predicate IsText(l: Label) {
    l.typ == TextNode && l.span.start < l.span.end
  }

  /** How many nodes hold text. */
  function TextCount(labels: seq<Label>): nat {
    if labels == [] then 0 else TextCount(labels[..|labels| - 1]) + TextAt(labels, |labels| - 1)
  }

  function TextAt(labels: seq<Label>, j: nat): nat {
    if j < |labels| && IsText(labels[j]) then 1 else 0
  }

  lemma {:induction false} TextCountMore(a: seq<Label>, b: seq<Label>)
    requires |a| <= |b| <= |a| + 2 && forall j :: 0 <= j < |a| ==> IsText(a[j]) == IsText(b[j])
    ensures TextCount(b) == TextCount(a) + TextAt(b, |a|) + TextAt(b, |a| + 1)
    decreases |b|
  {
    hide IsText;
    if |b| > |a| {
      TextCountMore(a, b[..|b| - 1]);
    } else if a != [] {
      TextCountMore(a[..|a| - 1], b[..|b| - 1]);
    }
  }

  function One(b: bool): nat {
    if b then 1 else 0
  }

  /** A token's text goes into one node, or is lost. */
  lemma {:induction false} AddedTexts(d: Dictionary, s: State, tok: Token)
    requires |d.tags| == 256 && Shape(s) && StackInv(d, s) && PayloadInside(tok) && tok.width >= 1
    ensures var add := Added(d, s, tok);
      && |add| <= 2
      && One(|add| > 0 && IsText(add[0].1)) + One(|add| > 1 && IsText(add[1].1)) + One(Unplaced(d, s, tok) > 0)
         == One(HasText(d, tok)) + One(ClosesNothing(d, s, tok) && s.stack != [])
  {
    Opened(d, s);
    hide StackInv;
  }

  lemma {:induction false} StepTexts(d: Dictionary, s: State, tok: Token, r: State)
    requires |d.tags| == 256 && Shape(s) && Shape(r) && StackInv(d, s) && PayloadInside(tok) && tok.width >= 1
    requires ArenaFollows(d, s, tok, r) && AttributesFollow(d, s, tok, r) && TextsKept(s, r)
    ensures TextCount(r.labels) - r.textNodes + One(Unplaced(d, s, tok) > 0) == TextCount(s.labels) - s.textNodes + One(HasText(d, tok))
  {
    hide StackInv, Added, Ends, Unplaced, HasText, ClosesNothing, TextCount, IsText;
    AddedTexts(d, s, tok);
    var add, n := Added(d, s, tok), |s.labels|;
    assert |add| > 0 ==> r.labels[n + 0] == add[0].1;
    assert |add| > 1 ==> r.labels[n + 1] == add[1].1;
    TextCountMore(s.labels, r.labels);
  }

  /** No token changes an old node's text. */
  ghost predicate TextsKept(s: State, r: State)
    requires Shape(s) && Shape(r)
  {
    |s.labels| <= |r.labels| && forall j :: 0 <= j < |s.labels| ==> IsText(s.labels[j]) == IsText(r.labels[j])
  }

  lemma {:induction false} KeepsTexts(d: Dictionary, s: State, tok: Token, r: State)
    requires |d.tags| == 256 && Shape(s) && Shape(r) && StackInv(d, s) && ArenaFollows(d, s, tok, r)
    ensures TextsKept(s, r)
  {
    hide Added, Ends;
    if s.stack != [] { assert OpenNode(s, |s.crumbs| - 1); }
    if Ends(d, s, tok) { EndsOpen(d, s, tok); }
    forall j | 0 <= j < |s.labels| ensures IsText(s.labels[j]) == IsText(r.labels[j]) {
      assert SamePlace(s.labels[j], r.labels[j]);
    }
  }

  /** How many tokens' texts were lost. */
  function LostTexts(d: Dictionary, toks: seq<Token>): nat
    requires |d.tags| == 256 && TokensOk(d, toks)
  {
    if toks == [] then 0
    else
      var n := |toks| - 1;
      LostTexts(d, toks[..n]) + One(Unplaced(d, Run(d, Start(), toks[..n]), toks[n]) > 0)
  }

  lemma {:induction false} RunTexts(d: Dictionary, toks: seq<Token>, m: int)
    requires |d.tags| == 256 && TokensOk(d, toks) && PayloadsInside(toks) && Tile(toks, m)
    ensures var s := Run(d, Start(), toks);
      TextCount(s.labels) == s.textNodes + TextTokensOf(d, toks) - LostTexts(d, toks)
  {
    hide Step, ArenaFollows, SkipFollows, WarningsFollow, AttributesFollow, StackFollows, Run, TextCount, TreeInv, StackInv,
         NoNestedTwins, Unplaced, HasText;
    if toks == [] {
      StartTexts(d);
    } else {
      var n := |toks| - 1;
      RunTexts(d, toks[..n], toks[n].pos);
      RunInv(d, toks[..n]);
      RunFollows(d, toks);
      assert FollowsAt(d, toks, n) && toks[..n + 1] == toks;
      assert PayloadInside(toks[n]);
      KeepsTexts(d, Run(d, Start(), toks[..n]), toks[n], Run(d, Start(), toks));
      StepTexts(d, Run(d, Start(), toks[..n]), toks[n], Run(d, Start(), toks));
    }
  }

  lemma {:induction false} StartTexts(d: Dictionary)
    requires |d.tags| == 256
    ensures Run(d, Start(), []) == Start() && TextCount(Start().labels) == 0 && Start().textNodes == 0
  {
    assert [ROOT][..0] == [];
  }

  /** The reported number of text nodes is the number of nodes that hold text, plus the texts lost. */
  lemma {:induction false} TextNodesExact(e: Env, warns: seq<Warning>)
    requires WfEnv(e)
    ensures var t := Tokenized(e, warns);
      && TokensOk(e.d, t.tokens)
      && var f := Parsed(e.d, t.tokens);
         f.textNodes + t.textTokens == TextCount(f.labels) + LostTexts(e.d, t.tokens)
  {
    hide Tokenized, Run, TextCount, TreeInv, StackInv, NoNestedTwins, ForceClose, LostTexts, CountsOf, TokensText, TextTokensOf;
    TokensTileInput(e, warns);
    CountersAreExact(e, warns);
    var toks := Tokenized(e, warns).tokens;
    var s := Run(e.d, Start(), toks);
    RunInv(e.d, toks);
    RunTexts(e.d, toks, |e.input|);
    FinishedWarnings(e.d, toks);
    FinishedSpans.ForceCloseFrames(e.d, s);
    FinishKeepsTexts(e.d, s);
    TextCountMore(s.labels, Parsed(e.d, toks).labels);
  }

  lemma {:induction false} FinishKeepsTexts(d: Dictionary, s: State)
    requires |d.tags| == 256 && Inv(d, s)
    ensures var f := Finish(d, s);
      |f.labels| == |s.labels| && forall j :: 0 <= j < |s.labels| ==> IsText(s.labels[j]) == IsText(f.labels[j])
  {
    hide TreeInv, NoNestedTwins, ForceClose, SumFrom, IsText;
    FinishedSpans.ForceCloseFrames(d, s);
    var f := Finish(d, s);
    forall j | 0 <= j < |s.labels| ensures IsText(s.labels[j]) == IsText(f.labels[j]) {
      TagsHoldNoText(s, f, j);
      if FinishedSpans.IsOpenAfter(s, j) {
        var k :| 1 <= k < |s.crumbs| && s.crumbs[k] == j;
        assert OpenNode(s, k);
      }
    }
  }

  lemma {:induction false} TagsHoldNoText(s: State, f: State, j: nat)
    requires j < |s.labels| == |f.labels| && s.labels[j].typ == f.labels[j].typ
    ensures s.labels[j].typ != TextNode || s.labels[j].span == f.labels[j].span ==> IsText(s.labels[j]) == IsText(f.labels[j])
  {
  }
}
