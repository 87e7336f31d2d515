/** What every step of the parser keeps: the arena is a tree in preorder whose rightmost path holds
 *  the breadcrumbs, the stacks mirror it, and no tag is open twice. */
module Nesting {
  import opened Basics
  import opened Markup
  import opened Forests
  import opened ParserSpec

  /** The breadcrumbs are a chain of the tree, and its top is on the rightmost path. */
  ghost predicate TreeInv(s: State)
    requires Shape(s)
  {
    && Valid(s.par) && Preorder(s.par)
    && s.par[0] == -1 && (forall j :: 1 <= j < |s.par| ==> s.par[j] >= 0)
    && s.crumbs[0] == 0 && (forall k :: 0 < k < |s.crumbs| ==> s.par[s.crumbs[k]] == s.crumbs[k - 1])
    && Anc(s.par, Top(s), |s.par| - 1)
  }

  /** Tags that may be on the stack. */
  ghost predicate CanOpen(d: Dictionary, b: Byte)
    requires |d.tags| == 256
  {
    b != 0 && Registered(d, b) && d.tags[b].greed == NonGreedy && (d.tags[b].IsUniversal() || d.tags[b].IsOpening())
  }

  /** The k-th open node is a tag node of the k-th tag on the stack. */
  ghost predicate OpenNode(s: State, k: int)
    requires Shape(s) && 1 <= k < |s.crumbs|
  {
    s.labels[s.crumbs[k]].typ == TagNode && s.labels[s.crumbs[k]].tagID == s.stack[k - 1]
  }

  /** The stack mirrors the open nodes, holds no tag twice, and `isOpen` is its membership table. */
  ghost predicate StackInv(d: Dictionary, s: State)
    requires Shape(s) && |d.tags| == 256
  {
    && s.labels[0].typ == RootNode
    && (forall k :: 1 <= k < |s.crumbs| ==> OpenNode(s, k))
    && (forall k :: 0 <= k < |s.stack| ==> CanOpen(d, s.stack[k]))
    && (forall i, k :: 0 <= i < k < |s.stack| ==> s.stack[i] != s.stack[k])
    && (forall b: Byte :: s.isOpen[b] <==> b in s.stack)
  }

  /** Node j has no proper ancestor with its own tag. */
  ghost predicate NoTwinAbove(par: seq<int>, labels: seq<Label>, j: int)
    requires Valid(par) && |labels| == |par| && 0 <= j < |par|
  {
    forall a :: 0 <= a < j && Anc(par, a, j) && labels[a].typ == TagNode && labels[j].typ == TagNode ==>
      labels[a].tagID != labels[j].tagID
  }

  ghost predicate NoNestedTwins(s: State)
    requires Shape(s) && Valid(s.par)
  {
    forall j :: 0 <= j < |s.par| ==> NoTwinAbove(s.par, s.labels, j)
  }

  ghost predicate Inv(d: Dictionary, s: State)
    requires |d.tags| == 256
  {
    Shape(s) && TreeInv(s) && StackInv(d, s) && NoNestedTwins(s)
  }

  // ---- the breadcrumbs are the proper path of the tree ----

  lemma {:induction false} CrumbsAreAncestors(s: State, k: nat, a: int)
    requires Shape(s) && TreeInv(s) && k < |s.crumbs|
    requires 0 <= a && Anc(s.par, a, s.crumbs[k])
    ensures exists i :: 0 <= i <= k && s.crumbs[i] == a
    decreases k
  {
    if a != s.crumbs[k] {
      if k == 0 {
        AncBounds(s.par, a, -1);
      } else {
        CrumbsAreAncestors(s, k - 1, a);
      }
    }
  }

  lemma {:induction false} AppendKeepsTree(s: State, p: nat, l: Label)
    requires Shape(s) && TreeInv(s) && p < |s.par|
    requires Anc(s.par, p, |s.par| - 1) && Anc(s.par, Top(s), p)
    ensures var r := AppendNode(s, p, l);
      Shape(r) && TreeInv(r) && Anc(r.par, Top(s), |s.par|) && Anc(r.par, |s.par|, |s.par|)
  {
    PreorderAppend(s.par, p);
    AncAppend(s.par, p, Top(s), p);
  }

  /** A new node keeps twins apart when no tag above its parent, nor the parent, has its tag. */
  lemma {:induction false} AppendKeepsTwinsApart(s: State, p: nat, l: Label)
    requires Shape(s) && Valid(s.par) && NoNestedTwins(s) && p < |s.par|
    requires l.typ == TagNode ==>
      forall a :: 0 <= a <= p && Anc(s.par, a, p) && s.labels[a].typ == TagNode ==> s.labels[a].tagID != l.tagID
    ensures var r := AppendNode(s, p, l); Shape(r) && Valid(r.par) && NoNestedTwins(r)
  {
    var r := AppendNode(s, p, l);
    AncAppend(s.par, p, -1, p);
    forall j | 0 <= j < |r.par| ensures NoTwinAbove(r.par, r.labels, j) {
      forall a | 0 <= a < j && Anc(r.par, a, j) && r.labels[a].typ == TagNode && r.labels[j].typ == TagNode
        ensures r.labels[a].tagID != r.labels[j].tagID
      {
        if j < |s.par| {
          AncAppend(s.par, p, a, j);
          assert NoTwinAbove(s.par, s.labels, j);
        } else {
          AncAppend(s.par, p, a, p);
          AncBounds(s.par, a, p);
        }
      }
    }
  }

  /** Above the innermost open node the tags are exactly those on the stack. */
  lemma {:induction false} TagsAboveTop(d: Dictionary, s: State, a: nat)
    requires |d.tags| == 256 && Inv(d, s)
    requires Anc(s.par, a, Top(s)) && a < |s.par| && s.labels[a].typ == TagNode
    ensures s.labels[a].tagID in s.stack
  {
    CrumbsAreAncestors(s, |s.crumbs| - 1, a);
    var i :| 0 <= i < |s.crumbs| && s.crumbs[i] == a;
    if i > 0 {
      assert OpenNode(s, i);
    }
  }

  // ---- every transformer keeps the invariant ----

  /** Changing anything but the tree and the stack keeps it. */
  lemma {:induction false} FrameInv(d: Dictionary, s: State, r: State)
    requires |d.tags| == 256 && Inv(d, s) && Shape(r)
    requires r.par == s.par && r.crumbs == s.crumbs && r.stack == s.stack && r.isOpen == s.isOpen
    requires forall j :: 0 <= j < |s.par| ==> r.labels[j].typ == s.labels[j].typ && r.labels[j].tagID == s.labels[j].tagID
    ensures Inv(d, r)
  {
    assert TreeInv(r);
    assert NoNestedTwins(r) by {
      forall j | 0 <= j < |r.par| ensures NoTwinAbove(r.par, r.labels, j) {
        assert NoTwinAbove(s.par, s.labels, j);
      }
    }
    FrameStack(d, s, r);
  }

  lemma {:induction false} FrameStack(d: Dictionary, s: State, r: State)
    requires |d.tags| == 256 && Shape(s) && StackInv(d, s) && Shape(r)
    requires |r.par| == |s.par| && r.crumbs == s.crumbs && r.stack == s.stack && r.isOpen == s.isOpen
    requires forall j :: 0 <= j < |s.par| ==> r.labels[j].typ == s.labels[j].typ && r.labels[j].tagID == s.labels[j].tagID
    ensures StackInv(d, r)
  {
    forall b: Byte ensures r.isOpen[b] <==> b in r.stack {
      assert s.isOpen[b] <==> b in s.stack;
    }
    forall k | 1 <= k < |r.crumbs| ensures OpenNode(r, k) {
      assert OpenNode(s, k);
    }
  }

  /** Appending a node below the innermost open node. */
  lemma {:induction false} AppendInv(d: Dictionary, s: State, l: Label)
    requires |d.tags| == 256 && Inv(d, s)
    requires l.typ == TagNode ==> l.tagID !in s.stack
    ensures Inv(d, AppendNode(s, Top(s), l))
    ensures Anc(AppendNode(s, Top(s), l).par, Top(s), |s.par|)
  {
    AppendKeepsTree(s, Top(s), l);
    forall a | 0 <= a <= Top(s) && Anc(s.par, a, Top(s)) && s.labels[a].typ == TagNode
      ensures l.typ == TagNode ==> s.labels[a].tagID != l.tagID
    {
      TagsAboveTop(d, s, a);
    }
    AppendKeepsTwinsApart(s, Top(s), l);
    AppendKeepsStack(d, s, AppendNode(s, Top(s), l));
  }

  lemma {:induction false} AppendKeepsStack(d: Dictionary, s: State, r: State)
    requires |d.tags| == 256 && Shape(s) && StackInv(d, s) && Shape(r)
    requires r.crumbs == s.crumbs && r.stack == s.stack && r.isOpen == s.isOpen
    requires |r.par| >= |s.par| && r.labels[..|s.par|] == s.labels
    ensures StackInv(d, r)
  {
    assert r.labels[0] == r.labels[..|s.par|][0];
    forall k | 1 <= k < |r.crumbs| ensures OpenNode(r, k) {
      assert OpenNode(s, k);
      assert r.labels[..|s.par|][s.crumbs[k]] == s.labels[s.crumbs[k]];
    }
  }

  /** Appending a text node below the node just appended. */
  lemma {:induction false} AppendPayloadInv(d: Dictionary, s: State, l: Label)
    requires |d.tags| == 256 && Inv(d, s) && l.typ == TextNode
    ensures Inv(d, AppendNode(s, |s.par| - 1, l))
  {
    var n := |s.par| - 1;
    assert Anc(s.par, n, n);
    AppendKeepsTree(s, n, l);
    AppendKeepsTwinsApart(s, n, l);
    AppendKeepsStack(d, s, AppendNode(s, n, l));
  }

  lemma {:induction false} TextInv(d: Dictionary, lim: Limits, s: State, tok: Token)
    requires |d.tags| == 256 && Inv(d, s)
    ensures Inv(d, ProcessText(lim, s, tok))
  {
    hide TreeInv, StackInv, NoNestedTwins;
    var r := ProcessText(lim, s, tok);
    if NodesFull(lim, s) {
      FrameInv(d, s, r);
    } else {
      AppendInv(d, s, TextLabel(tok.payload));
      FrameInv(d, AppendNode(s, Top(s), TextLabel(tok.payload)), r);
    }
  }

  lemma {:induction false} AttributeInv(d: Dictionary, lim: Limits, s: State, tok: Token)
    requires |d.tags| == 256 && Inv(d, s)
    ensures Inv(d, ProcessAttribute(lim, s, tok))
  {
    hide TreeInv, StackInv, NoNestedTwins;
    FrameInv(d, s, ProcessAttribute(lim, s, tok));
  }

  lemma {:induction false} GreedyNotOpen(d: Dictionary, s: State, b: Byte)
    requires |d.tags| == 256 && Shape(s) && StackInv(d, s) && d.tags[b].greed != NonGreedy
    ensures b !in s.stack
  {
    forall k | 0 <= k < |s.stack| ensures s.stack[k] != b {
      assert CanOpen(d, s.stack[k]);
    }
  }

  lemma {:induction false} GreedyInv(d: Dictionary, lim: Limits, s: State, tok: Token)
    requires |d.tags| == 256 && Inv(d, s) && d.tags[tok.trigger].greed != NonGreedy
    ensures Inv(d, AppendGreedy(lim, s, tok))
  {
    hide TreeInv, StackInv, NoNestedTwins;
    var r := AppendGreedy(lim, s, tok);
    if NodesFull(lim, s) {
      FrameInv(d, s, r);
    } else {
      GreedyNotOpen(d, s, tok.trigger);
      AppendInv(d, s, TagLabel(tok));
      var s1 := AppendNode(s, Top(s), TagLabel(tok));
      if NodesFull(lim, s1) {
        FrameInv(d, s1, r);
      } else {
        AppendPayloadInv(d, s1, TextLabel(tok.payload));
        FrameInv(d, AppendNode(s1, |s.par|, TextLabel(tok.payload)), r);
      }
    }
  }

  lemma {:induction false} OpeningInv(d: Dictionary, s: State, tok: Token)
    requires |d.tags| == 256 && Inv(d, s) && CanOpen(d, tok.trigger)
    ensures Inv(d, ProcessOpening(d, s, tok))
  {
    hide TreeInv, NoNestedTwins, CanOpen;
    var r := ProcessOpening(d, s, tok);
    if s.isOpen[tok.trigger] || (d.limits.maxParseDepth > 0 && |s.stack| >= d.limits.maxParseDepth)
       || NodesFull(d.limits, s) {
      FrameInv(d, s, r);
    } else {
      assert tok.trigger !in s.stack;
      var pushed := PushInv(d, s, tok);
      FrameInv(d, pushed, r);
    }
  }

  lemma {:induction false} PushInv(d: Dictionary, s: State, tok: Token) returns (r: State)
    requires |d.tags| == 256 && Inv(d, s) && CanOpen(d, tok.trigger) && tok.trigger !in s.stack
    ensures r == AppendNode(s, Top(s), TagLabel(tok)).(
              crumbs := s.crumbs + [|s.par|], stack := s.stack + [tok.trigger], widths := s.widths + [tok.width],
              isOpen := s.isOpen[tok.trigger := true])
    ensures Inv(d, r)
  {
    var a := AppendNode(s, Top(s), TagLabel(tok));
    AppendInv(d, s, TagLabel(tok));
    r := a.(crumbs := s.crumbs + [|s.par|], stack := s.stack + [tok.trigger], widths := s.widths + [tok.width],
            isOpen := s.isOpen[tok.trigger := true]);
    PushTree(s, a, r);
    PushStack(d, s, a, r, tok.trigger);
    assert NoNestedTwins(r);
  }

  lemma {:induction false} PushTree(s: State, a: State, r: State)
    requires Shape(s) && Shape(a) && TreeInv(a) && Shape(r)
    requires |a.par| == |s.par| + 1 && a.crumbs == s.crumbs && a.par[|s.par|] == Top(s)
    requires r.par == a.par && r.crumbs == s.crumbs + [|s.par|]
    ensures TreeInv(r)
  {
  }

  lemma {:induction false} PushStack(d: Dictionary, s: State, a: State, r: State, b: Byte)
    requires |d.tags| == 256 && Shape(s) && Shape(a) && StackInv(d, a) && Shape(r)
    requires a.crumbs == s.crumbs && a.stack == s.stack && a.isOpen == s.isOpen && |a.par| == |s.par| + 1
    requires CanOpen(d, b) && b !in s.stack && a.labels[|s.par|].typ == TagNode && a.labels[|s.par|].tagID == b
    requires r.labels == a.labels && r.crumbs == s.crumbs + [|s.par|] && r.stack == s.stack + [b]
    requires r.isOpen == s.isOpen[b := true]
    ensures StackInv(d, r)
  {
    forall k | 1 <= k < |r.crumbs| ensures OpenNode(r, k) {
      assert k < |s.crumbs| ==> OpenNode(a, k);
    }
  }

  lemma {:induction false} CloseInv(d: Dictionary, s: State, tok: Token)
    requires |d.tags| == 256 && Inv(d, s) && |s.stack| > 0
    ensures Inv(d, CloseTag(s, tok))
  {
    var r, k := CloseTag(s, tok), |s.stack| - 1;
    assert TreeInv(r) by {
      assert Anc(s.par, s.crumbs[k], s.crumbs[k + 1]);
      AncTransitive(s.par, s.crumbs[k], s.crumbs[k + 1], |s.par| - 1);
    }
    forall j | 0 <= j < |r.par| ensures NoTwinAbove(r.par, r.labels, j) {
      assert NoTwinAbove(s.par, s.labels, j);
    }
    PopStack(d, s, r);
  }

  lemma {:induction false} PopStack(d: Dictionary, s: State, r: State)
    requires |d.tags| == 256 && Shape(s) && Shape(r) && StackInv(d, s) && |s.stack| > 0
    requires |r.par| == |s.par|
    requires forall j :: 0 <= j < |s.par| ==> r.labels[j].typ == s.labels[j].typ && r.labels[j].tagID == s.labels[j].tagID
    requires r.crumbs == s.crumbs[..|s.stack|] && r.stack == s.stack[..|s.stack| - 1]
    requires r.isOpen == s.isOpen[PeekStack(s) := false]
    ensures StackInv(d, r)
  {
    var k := |s.stack| - 1;
    forall b: Byte ensures r.isOpen[b] <==> b in r.stack {
      assert s.stack == r.stack + [s.stack[k]];
      assert s.isOpen[b] <==> b in s.stack;
    }
    forall k | 1 <= k < |r.crumbs| ensures OpenNode(r, k) {
      assert OpenNode(s, k);
    }
  }

  lemma {:induction false} ClosingInv(d: Dictionary, s: State, tok: Token)
    requires |d.tags| == 256 && Inv(d, s)
    ensures Inv(d, ProcessClosing(d, s, tok))
  {
    hide TreeInv, StackInv, NoNestedTwins;
    var stacked, tag := PeekStack(s), d.tags[tok.trigger];
    if stacked == 0 {
      FrameInv(d, s, ProcessClosing(d, s, tok));
    } else if d.tags[stacked].closeID != tok.trigger && tag.openID != stacked {
      var s1 := Log(s, Warning(OpenCloseTagMismatch, tok.pos, tok.trigger, 0, stacked, 0));
      var s2 := s1.(textLen := s1.textLen + tok.width, textNodes := s1.textNodes + 1);
      FrameInv(d, s, s2);
      TextInv(d, d.limits, s2, DemotedToText(tok));
    } else {
      CloseInv(d, s, tok);
    }
  }

  lemma {:induction false} TagInv(d: Dictionary, s: State, tok: Token)
    requires |d.tags| == 256 && Inv(d, s) && tok.trigger != 0 && Registered(d, tok.trigger)
    ensures Inv(d, ProcessTag(d, s, tok))
  {
    hide TreeInv, StackInv, NoNestedTwins;
    var tag := d.tags[tok.trigger];
    if s.skip[tok.trigger] > 0 {
      FrameInv(d, s, ProcessTag(d, s, tok));
    } else if tag.greed != NonGreedy {
      GreedyInv(d, d.limits, s, tok);
    } else if tag.IsUniversal() {
      if s.isOpen[tok.trigger] && PeekStack(s) == tok.trigger {
        CloseInv(d, s, tok);
      } else {
        OpeningInv(d, s, tok);
      }
    } else if tag.IsOpening() {
      OpeningInv(d, s, tok);
    } else if tag.IsClosing() {
      ClosingInv(d, s, tok);
    }
  }

  /** Every token, of any kind, keeps the invariant. */
  lemma {:induction false} StepInv(d: Dictionary, s: State, tok: Token)
    requires |d.tags| == 256 && Inv(d, s) && TokenOk(d, tok)
    ensures Inv(d, Step(d, s, tok))
  {
    hide TreeInv, StackInv, NoNestedTwins;
    match tok.typ
    case TextToken => TextInv(d, d.limits, s, tok);
    case TagToken => TagInv(d, s, tok);
    case AttributeKV => AttributeInv(d, d.limits, s, tok);
    case AttributeFlag => AttributeInv(d, d.limits, s, tok);
  }

  lemma {:induction false} StartInv(d: Dictionary)
    requires |d.tags| == 256
    ensures Inv(d, Start())
  {
    var s := Start();
    forall j | 0 <= j < |s.par| ensures NoTwinAbove(s.par, s.labels, j) {
    }
  }

  /** The invariant holds after any run from the start. */
  lemma {:induction false} RunInv(d: Dictionary, toks: seq<Token>)
    requires |d.tags| == 256 && TokensOk(d, toks)
    ensures Inv(d, Run(d, Start(), toks))
  {
    hide Step;
    hide Inv;
    if toks == [] {
      StartInv(d);
    } else {
      var n := |toks| - 1;
      RunInv(d, toks[..n]);
      StepInv(d, Run(d, Start(), toks[..n]), toks[n]);
    }
  }

  // ---- the finished parse ----

  lemma {:induction false} ForceCloseOneInv(d: Dictionary, s: State)
    requires |d.tags| == 256 && Inv(d, s) && |s.stack| > 0
    ensures Inv(d, ForceCloseOne(d, s))
  {
    hide TreeInv, StackInv, NoNestedTwins;
    var eof := Token(TagToken, 0, 0, 0, Span(0, 0), Span(0, 0));
    CloseInv(d, s, eof);
    FrameInv(d, CloseTag(s, eof), ForceCloseOne(d, s));
  }

  lemma {:induction false} ForceCloseInv(d: Dictionary, s: State)
    requires |d.tags| == 256 && Inv(d, s)
    ensures Inv(d, ForceClose(d, s))
    decreases |s.stack|
  {
    hide TreeInv, StackInv, NoNestedTwins;
    if s.stack != [] {
      ForceCloseOneInv(d, s);
      ForceCloseInv(d, ForceCloseOne(d, s));
    }
  }

  /** The arena of a finished parse, for every dictionary and token stream: a tree with the root
   *  as its only root, whose index order is its preorder, in which no tag node has an ancestor
   *  with its own tag, and with nothing left open. */
  lemma {:induction false} ParsedTree(d: Dictionary, toks: seq<Token>)
    requires |d.tags| == 256 && TokensOk(d, toks)
    ensures var s := Parsed(d, toks);
      && Inv(d, s) && s.stack == [] && s.crumbs == [0]
      && Below(s.par, s.labels, -1) == Snoc(Empty, s.labels[0], Below(s.par, s.labels, 0))
      && Flatten(Below(s.par, s.labels, -1), 0) == Listing(s.par, s.labels)
      && forall b: Byte :: !s.isOpen[b]
  {
    var s := Parsed(d, toks);
    assert Inv(d, s) by {
      hide TreeInv, StackInv, NoNestedTwins;
      var r := Run(d, Start(), toks);
      RunInv(d, toks);
      ForceCloseInv(d, r);
      FrameInv(d, ForceClose(d, r), s);
    }
    ListingInIndexOrder(s.par, s.labels);
    OnlyRoot(s.par, |s.par|);
    assert s.par[..|s.par|] == s.par;
    assert Kids(s.par, -1) == [0];
    assert [0][..0] == [];
    assert Trees(s.par, s.labels, -1, []) == Empty;
  }

  /** The virtual root has node 0 as its only child. */
  lemma {:induction false} OnlyRoot(par: seq<int>, n: nat)
    requires Valid(par) && 1 <= n <= |par| && par[0] == -1 && forall j :: 1 <= j < |par| ==> par[j] >= 0
    ensures Kids(par[..n], -1) == [0]
  {
    if n == 1 {
      assert par[..1][..0] == [];
      assert Kids(par[..1][..0], -1) == [];
    } else {
      OnlyRoot(par, n - 1);
      assert par[..n][..n - 1] == par[..n - 1];
    }
  }

  // ---- nesting depth is bounded by the dictionary, even without a depth limit ----

  ghost function Openable(d: Dictionary): set<Byte>
    requires |d.tags| == 256
  {
    set b: Byte | 0 <= b < 256 && CanOpen(d, b)
  }

  lemma {:induction false} StackBound(d: Dictionary, s: State)
    requires |d.tags| == 256 && Shape(s) && StackInv(d, s)
    ensures |s.stack| <= |Openable(d)|
  {
    forall i | 0 <= i < |s.stack| ensures s.stack[i] in Openable(d) {
      assert CanOpen(d, s.stack[i]);
    }
    DistinctLength(s.stack, Openable(d));
  }

  lemma {:induction false} TagDepth(d: Dictionary, s: State, tok: Token)
    requires |d.tags| == 256 && Shape(s) && tok.trigger != 0
    ensures var r := ProcessTag(d, s, tok);
      r.maxDepth == s.maxDepth || r.maxDepth == |r.stack|
  {
    hide ProcessOpening, ProcessClosing, AppendGreedy;
    OpeningDepth(d, s, tok);
    ClosingDepth(d, s, tok);
  }

  lemma {:induction false} OpeningDepth(d: Dictionary, s: State, tok: Token)
    requires |d.tags| == 256 && Shape(s)
    ensures var r := ProcessOpening(d, s, tok);
      r.maxDepth == s.maxDepth || r.maxDepth == |r.stack|
  {
  }

  lemma {:induction false} ClosingDepth(d: Dictionary, s: State, tok: Token)
    requires |d.tags| == 256 && Shape(s)
    ensures ProcessClosing(d, s, tok).maxDepth == s.maxDepth && AppendGreedy(d.limits, s, tok).maxDepth == s.maxDepth
  {
  }

  lemma {:induction false} StepDepth(d: Dictionary, s: State, tok: Token)
    requires |d.tags| == 256 && Shape(s) && TokenOk(d, tok)
    ensures var r := Step(d, s, tok);
      r.maxDepth == s.maxDepth || r.maxDepth == |r.stack|
  {
    hide ProcessTag;
    if tok.typ == TagToken {
      TagDepth(d, s, tok);
    }
  }

  /** With or without a depth limit, the depth a parse reaches is at most the number of tags that
   *  can open a level (and the initial value 1 of the statistic). */
  lemma {:induction false} DepthBoundedByDictionary(d: Dictionary, toks: seq<Token>)
    requires |d.tags| == 256 && TokensOk(d, toks)
    ensures var s := Run(d, Start(), toks);
      |s.stack| <= |Openable(d)| && s.maxDepth <= (if |Openable(d)| > 1 then |Openable(d)| else 1)
  {
    hide Step;
    RunInv(d, toks);
    StackBound(d, Run(d, Start(), toks));
    if toks != [] {
      var n := |toks| - 1;
      DepthBoundedByDictionary(d, toks[..n]);
      StepDepth(d, Run(d, Start(), toks[..n]), toks[n]);
    }
  }
}
