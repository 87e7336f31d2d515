/** Resource limits, limit warnings, and what an attribute range of a node holds. */
module ResourceLimits {
  import opened Markup
  import opened Plans
  import opened ParserSpec

  function Count(ws: seq<Warning>, issue: Issue): nat {
    if ws == [] then 0
    else Count(ws[..|ws| - 1], issue) + (if ws[|ws| - 1].issue == issue then 1 else 0)
  }

  lemma {:induction false} CountAppend(ws: seq<Warning>, w: Warning, issue: Issue)
    ensures Count(ws + [w], issue) == Count(ws, issue) + (if w.issue == issue then 1 else 0)
  {
    assert (ws + [w])[..|ws|] == ws;
  }

  function Flag(b: bool): nat {
    if b then 1 else 0
  }

  /** Each limit's warning has been issued once if its flag is up, and never otherwise. */
  ghost predicate WarnedOnce(s: State) {
    && Count(s.warns, MaxNodesExceeded) == Flag(s.warnedNodes)
    && Count(s.warns, MaxAttributesExceeded) == Flag(s.warnedAttributes)
    && Count(s.warns, MaxParseDepthExceeded) == Flag(s.warnedDepth)
  }

  ghost predicate Within(d: Dictionary, s: State) {
    && (d.limits.maxNodes > 0 ==> |s.par| <= d.limits.maxNodes)
    && (d.limits.maxAttributes > 0 ==> |s.attrs| <= d.limits.maxAttributes)
    && (d.limits.maxParseDepth > 0 ==> |s.stack| <= d.limits.maxParseDepth)
  }

  ghost predicate LimitInv(d: Dictionary, s: State) {
    Within(d, s) && WarnedOnce(s)
  }

  predicate IsLimitIssue(i: Issue) {
    i == MaxNodesExceeded || i == MaxAttributesExceeded || i == MaxParseDepthExceeded
  }

  lemma {:induction false} CountLimits(ws: seq<Warning>, w: Warning)
    ensures Count(ws + [w], MaxNodesExceeded) == Count(ws, MaxNodesExceeded) + Flag(w.issue == MaxNodesExceeded)
    ensures Count(ws + [w], MaxAttributesExceeded) == Count(ws, MaxAttributesExceeded) + Flag(w.issue == MaxAttributesExceeded)
    ensures Count(ws + [w], MaxParseDepthExceeded) == Count(ws, MaxParseDepthExceeded) + Flag(w.issue == MaxParseDepthExceeded)
  {
    CountAppend(ws, w, MaxNodesExceeded);
    CountAppend(ws, w, MaxAttributesExceeded);
    CountAppend(ws, w, MaxParseDepthExceeded);
  }

  lemma {:induction false} LogOther(s: State, w: Warning)
    requires WarnedOnce(s) && !IsLimitIssue(w.issue)
    ensures WarnedOnce(Log(s, w))
  {
    hide Count;
    CountLimits(s.warns, w);
  }

  lemma {:induction false} LimitWarnings(s: State, pos: int)
    requires WarnedOnce(s)
    ensures WarnedOnce(WarnNodes(s, pos)) && WarnedOnce(WarnAttributes(s, pos)) && WarnedOnce(WarnDepth(s, pos))
  {
    hide Count;
    CountLimits(s.warns, Warn(MaxNodesExceeded, pos));
    CountLimits(s.warns, Warn(MaxAttributesExceeded, pos));
    CountLimits(s.warns, Warn(MaxParseDepthExceeded, pos));
  }

  lemma {:induction false} TextLimits(d: Dictionary, s: State, tok: Token)
    requires Shape(s) && LimitInv(d, s)
    ensures LimitInv(d, ProcessText(d.limits, s, tok))
  {
    hide Count, Shape;
    LimitWarnings(s, tok.pos);
  }

  lemma {:induction false} GreedyLimits(d: Dictionary, s: State, tok: Token)
    requires Shape(s) && LimitInv(d, s)
    ensures LimitInv(d, AppendGreedy(d.limits, s, tok))
  {
    hide Count;
    LimitWarnings(s, tok.pos);
    if !NodesFull(d.limits, s) {
      LimitWarnings(AppendNode(s, Top(s), TagLabel(tok)), tok.payload.start);
    }
  }

  lemma {:induction false} OpeningLimits(d: Dictionary, s: State, tok: Token)
    requires Shape(s) && |d.tags| == 256 && LimitInv(d, s)
    ensures LimitInv(d, ProcessOpening(d, s, tok))
  {
    hide Count, Shape;
    LimitWarnings(s, tok.pos);
    LogOther(s, Warning(DuplicateNestedTag, tok.pos, tok.trigger, 0, 0, 0));
  }

  lemma {:induction false} CloseLimits(d: Dictionary, s: State, tok: Token)
    requires Shape(s) && LimitInv(d, s) && |s.stack| > 0
    ensures LimitInv(d, CloseTag(s, tok))
  {
  }

  lemma {:induction false} DemotedLimits(d: Dictionary, s: State, tok: Token, w: Warning)
    requires Shape(s) && LimitInv(d, s) && !IsLimitIssue(w.issue)
    ensures var s1 := Log(s, w);
      LimitInv(d, ProcessText(d.limits, s1.(textLen := s1.textLen + tok.width, textNodes := s1.textNodes + 1), DemotedToText(tok)))
  {
    hide Count, ProcessText;
    LogOther(s, w);
    var s1 := Log(s, w);
    TextLimits(d, s1.(textLen := s1.textLen + tok.width, textNodes := s1.textNodes + 1), DemotedToText(tok));
  }

  lemma {:induction false} ClosingLimits(d: Dictionary, s: State, tok: Token)
    requires Shape(s) && |d.tags| == 256 && LimitInv(d, s)
    ensures LimitInv(d, ProcessClosing(d, s, tok))
  {
    hide Count, ProcessText, CloseTag, Shape;
    var stacked, tag := PeekStack(s), d.tags[tok.trigger];
    if stacked == 0 {
      LogOther(s, Warning(MisplacedClosingTag, tok.pos, tok.trigger, 0, tag.openID, 0));
    } else {
      hide LimitInv;
      if d.tags[stacked].closeID != tok.trigger && tag.openID != stacked {
        DemotedLimits(d, s, tok, Warning(OpenCloseTagMismatch, tok.pos, tok.trigger, 0, stacked, 0));
      } else {
        OnStack(s);
        CloseLimits(d, s, tok);
      }
    }
  }

  lemma {:induction false} OnStack(s: State)
    requires Shape(s) && PeekStack(s) != 0
    ensures |s.stack| > 0
  {
  }

  lemma {:induction false} TagLimits(d: Dictionary, s: State, tok: Token)
    requires Shape(s) && |d.tags| == 256 && tok.trigger != 0 && LimitInv(d, s)
    ensures LimitInv(d, ProcessTag(d, s, tok))
  {
    hide Count, Shape, ProcessText, AppendGreedy, ProcessOpening, ProcessClosing, CloseTag;
    GreedyLimits(d, s, tok);
    OpeningLimits(d, s, tok);
    ClosingLimits(d, s, tok);
    if PeekStack(s) == tok.trigger { CloseLimits(d, s, tok); }
  }

  lemma {:induction false} StepLimits(d: Dictionary, s: State, tok: Token)
    requires Shape(s) && |d.tags| == 256 && TokenOk(d, tok) && LimitInv(d, s)
    ensures LimitInv(d, Step(d, s, tok))
  {
    hide Count, Shape, ProcessText, ProcessTag;
    match tok.typ
    case TextToken => TextLimits(d, s, tok);
    case TagToken => TagLimits(d, s, tok);
    case _ => LimitWarnings(s, tok.pos);
  }

  /** The limits hold in every reachable state, and each limit is reported at most once. */
  lemma {:induction false} RunLimits(d: Dictionary, toks: seq<Token>)
    requires |d.tags| == 256 && TokensOk(d, toks)
    ensures LimitInv(d, Run(d, Start(), toks))
  {
    hide Step, LimitInv;
    if toks == [] {
      StartLimits(d);
    } else {
      var n := |toks| - 1;
      RunLimits(d, toks[..n]);
      StepLimits(d, Run(d, Start(), toks[..n]), toks[n]);
    }
  }

  lemma {:induction false} StartLimits(d: Dictionary)
    ensures LimitInv(d, Start())
  {
  }

  // ---- attribute ranges ----

  function CountOwned(os: seq<Owned>, i: nat): nat {
    if os == [] then 0
    else CountOwned(os[..|os| - 1], i) + (if os[|os| - 1].owner == i then 1 else 0)
  }

  /** Index of the first attribute attached to node i. */
  function FirstOwned(os: seq<Owned>, i: nat): (k: nat)
    requires CountOwned(os, i) > 0
    ensures k < |os| && os[k].owner == i && CountOwned(os[..k], i) == 0
    ensures k + CountOwned(os, i) <= |os|
  {
    var n := |os| - 1;
    if CountOwned(os[..n], i) > 0 then
      var k := FirstOwned(os[..n], i);
      assert os[..n][..k] == os[..k];
      k
    else n
  }

  /** The range a node must carry given the attributes attached so far. */
  function RangeOf(os: seq<Owned>, i: nat): Range {
    var n := CountOwned(os, i);
    Range(if n == 0 then 0 else FirstOwned(os, i), n)
  }

  ghost predicate RangesInv(s: State)
    requires Shape(s)
  {
    forall i :: 0 <= i < |s.labels| ==> s.labels[i].attrs == RangeOf(s.attrs, i)
  }

  lemma {:induction false} RangeAppend(os: seq<Owned>, o: Owned, i: nat)
    ensures var was, now := RangeOf(os, i), RangeOf(os + [o], i);
      now == if o.owner == i then Range(if was.len == 0 then |os| else was.start, was.len + 1) else was
  {
    assert (os + [o])[..|os|] == os;
  }

  lemma {:induction false} NoneOwned(os: seq<Owned>, i: nat)
    requires forall k :: 0 <= k < |os| ==> os[k].owner < i
    ensures RangeOf(os, i) == Range(0, 0)
  {
    if os != [] {
      NoneOwned(os[..|os| - 1], i);
    }
  }

  /** Old nodes keep their range, new nodes have none, no attribute is added. */
  ghost predicate KeepsAttributes(s: State, r: State)
    requires Shape(s) && Shape(r)
  {
    && r.attrs == s.attrs && |s.labels| <= |r.labels|
    && (forall i :: 0 <= i < |s.labels| ==> r.labels[i].attrs == s.labels[i].attrs)
    && (forall i :: |s.labels| <= i < |r.labels| ==> r.labels[i].attrs == Range(0, 0))
  }

  lemma {:induction false} KeptRanges(s: State, r: State)
    requires Shape(s) && Shape(r) && RangesInv(s) && KeepsAttributes(s, r)
    ensures RangesInv(r)
  {
    forall i | 0 <= i < |r.labels| ensures r.labels[i].attrs == RangeOf(r.attrs, i) {
      if i >= |s.labels| {
        NoneOwned(s.attrs, i);
      }
    }
  }

  lemma {:induction false} TagKeepsAttributes(d: Dictionary, s: State, tok: Token)
    requires Shape(s) && |d.tags| == 256 && tok.trigger != 0
    ensures KeepsAttributes(s, ProcessTag(d, s, tok))
  {
    hide AppendGreedy, ProcessOpening, ProcessClosing, CloseTag;
    GreedyKeepsAttributes(d, s, tok);
    OpeningKeepsAttributes(d, s, tok);
    ClosingKeepsAttributes(d, s, tok);
    if PeekStack(s) == tok.trigger { CloseKeepsAttributes(s, tok); }
  }

  lemma {:induction false} GreedyKeepsAttributes(d: Dictionary, s: State, tok: Token)
    requires Shape(s)
    ensures KeepsAttributes(s, AppendGreedy(d.limits, s, tok))
  {
  }

  lemma {:induction false} OpeningKeepsAttributes(d: Dictionary, s: State, tok: Token)
    requires Shape(s) && |d.tags| == 256
    ensures KeepsAttributes(s, ProcessOpening(d, s, tok))
  {
  }

  lemma {:induction false} CloseKeepsAttributes(s: State, tok: Token)
    requires Shape(s) && |s.stack| > 0
    ensures KeepsAttributes(s, CloseTag(s, tok))
  {
  }

  lemma {:induction false} ClosingKeepsAttributes(d: Dictionary, s: State, tok: Token)
    requires Shape(s) && |d.tags| == 256
    ensures KeepsAttributes(s, ProcessClosing(d, s, tok))
  {
    hide CloseTag;
    if PeekStack(s) != 0 { CloseKeepsAttributes(s, tok); }
  }

  lemma {:induction false} StepRanges(d: Dictionary, s: State, tok: Token)
    requires Shape(s) && |d.tags| == 256 && TokenOk(d, tok) && RangesInv(s)
    ensures RangesInv(Step(d, s, tok))
  {
    var r := Step(d, s, tok);
    match tok.typ
    case TextToken => KeptRanges(s, r);
    case TagToken =>
      TagKeepsAttributes(d, s, tok);
      KeptRanges(s, r);
    case _ => AttributeRanges(d, s, tok);
  }

  lemma {:induction false} AttributeRanges(d: Dictionary, s: State, tok: Token)
    requires Shape(s) && RangesInv(s)
    ensures RangesInv(ProcessAttribute(d.limits, s, tok))
  {
    hide CountOwned, FirstOwned;
    var r := ProcessAttribute(d.limits, s, tok);
    if |r.attrs| > |s.attrs| {
      forall i | 0 <= i < |r.labels| ensures r.labels[i].attrs == RangeOf(r.attrs, i) {
        RangeAppend(s.attrs, r.attrs[|s.attrs|], i);
      }
    }
  }

  /** Every range starts at its node's first attribute and has the length of the number of the
   *  node's attributes, in every reachable state. */
  lemma {:induction false} RunRanges(d: Dictionary, toks: seq<Token>)
    requires |d.tags| == 256 && TokensOk(d, toks)
    ensures RangesInv(Run(d, Start(), toks))
  {
    hide Step, RangesInv;
    if toks == [] {
      assert RangesInv(Start()) by { StartRanges(); }
    } else {
      var n := |toks| - 1;
      RunRanges(d, toks[..n]);
      StepRanges(d, Run(d, Start(), toks[..n]), toks[n]);
    }
  }

  lemma {:induction false} StartRanges()
    ensures RangesInv(Start())
  {
  }

  // ---- what the ranges mean ----

  function SumLens(labels: seq<Label>): nat {
    if labels == [] then 0
    else SumLens(labels[..|labels| - 1]) + labels[|labels| - 1].attrs.len
  }

  function CountBelow(os: seq<Owned>, n: nat): nat {
    if os == [] then 0
    else CountBelow(os[..|os| - 1], n) + (if os[|os| - 1].owner < n then 1 else 0)
  }

  lemma {:induction false} CountBelowStep(os: seq<Owned>, n: nat)
    ensures CountBelow(os, n + 1) == CountBelow(os, n) + CountOwned(os, n)
  {
    if os != [] {
      CountBelowStep(os[..|os| - 1], n);
    }
  }

  lemma {:induction false} CountBelowAll(os: seq<Owned>, n: nat)
    requires forall k :: 0 <= k < |os| ==> os[k].owner < n
    ensures CountBelow(os, n) == |os|
  {
    if os != [] {
      CountBelowAll(os[..|os| - 1], n);
    }
  }

  lemma {:induction false} CountBelowNone(os: seq<Owned>)
    ensures CountBelow(os, 0) == 0
  {
    if os != [] {
      CountBelowNone(os[..|os| - 1]);
    }
  }

  lemma {:induction false} SumOfRanges(s: State, n: nat)
    requires Shape(s) && RangesInv(s) && n <= |s.labels|
    ensures SumLens(s.labels[..n]) == CountBelow(s.attrs, n)
  {
    if n == 0 {
      CountBelowNone(s.attrs);
    } else {
      SumOfRanges(s, n - 1);
      CountBelowStep(s.attrs, n - 1);
      assert s.labels[..n][..n - 1] == s.labels[..n - 1];
    }
  }

  /** Every attribute is counted by exactly one node, and every range lies inside the arena. */
  lemma {:induction false} RangesPartitionArena(s: State)
    requires Shape(s) && RangesInv(s)
    ensures SumLens(s.labels) == |s.attrs|
    ensures forall i :: 0 <= i < |s.labels| ==> s.labels[i].attrs.start + s.labels[i].attrs.len <= |s.attrs|
  {
    SumOfRanges(s, |s.labels|);
    assert s.labels[..|s.labels|] == s.labels;
    CountBelowAll(s.attrs, |s.labels|);
    forall i | 0 <= i < |s.labels| ensures s.labels[i].attrs.start + s.labels[i].attrs.len <= |s.attrs| {
      assert s.labels[i].attrs == RangeOf(s.attrs, i);
    }
  }

  /** The range of node i holds node i's attributes and no others. */
  ghost predicate RangeIsOwn(s: State, i: nat)
    requires i < |s.labels|
  {
    var r := s.labels[i].attrs;
    forall k :: 0 <= k < |s.attrs| ==> (r.start <= k < r.start + r.len <==> s.attrs[k].owner == i)
  }

  /** No attribute of another node was attached between two attributes of node i. */
  ghost predicate Uninterrupted(os: seq<Owned>, i: nat) {
    forall a, b, c :: 0 <= a < b < c < |os| && os[a].owner == i && os[c].owner == i ==> os[b].owner == i
  }

  lemma {:induction false} CountWindow(os: seq<Owned>, i: nat, k: nat, m: nat)
    requires k <= m <= |os|
    requires forall j :: k <= j < m ==> os[j].owner == i
    ensures CountOwned(os[..m], i) == CountOwned(os[..k], i) + (m - k)
    decreases m
  {
    if k < m {
      CountWindow(os, i, k, m - 1);
      assert os[..m][..m - 1] == os[..m - 1];
    }
  }

  lemma {:induction false} CountZero(os: seq<Owned>, i: nat)
    ensures CountOwned(os, i) == 0 <==> forall k :: 0 <= k < |os| ==> os[k].owner != i
  {
    if os != [] {
      CountZero(os[..|os| - 1], i);
      assert os == os[..|os| - 1] + [os[|os| - 1]];
    }
  }

  lemma {:induction false} CountMonotone(os: seq<Owned>, i: nat, m: nat)
    requires m <= |os|
    ensures CountOwned(os[..m], i) <= CountOwned(os, i)
    ensures CountOwned(os[..m], i) == CountOwned(os, i) ==> forall k :: m <= k < |os| ==> os[k].owner != i
    decreases |os|
  {
    if m == |os| {
      assert os[..m] == os;
    } else {
      var n := |os| - 1;
      CountMonotone(os[..n], i, m);
      assert os[..n][..m] == os[..m];
      assert forall k :: m <= k < n ==> os[k] == os[..n][k];
    }
  }

  /** A range is exactly the node's own attributes if and only if no attribute of another node was
   *  attached in between. */
  lemma {:induction false} RangeIsOwnIff(s: State, i: nat)
    requires Shape(s) && RangesInv(s) && i < |s.labels|
    ensures RangeIsOwn(s, i) <==> Uninterrupted(s.attrs, i)
  {
    var os, r := s.attrs, s.labels[i].attrs;
    assert r == RangeOf(os, i);
    CountZero(os, i);
    if r.len > 0 {
      CountZero(os[..r.start], i);
      assert forall k :: 0 <= k < r.start ==> os[k] == os[..r.start][k];
      if Uninterrupted(os, i) {
        UninterruptedRange(os, i, r.start, r.start);
      }
    }
  }

  /** From its first attribute on, an uninterrupted owner fills its range. */
  lemma {:induction false} UninterruptedRange(os: seq<Owned>, i: nat, f: nat, m: nat)
    requires Uninterrupted(os, i) && CountOwned(os, i) > 0 && f == FirstOwned(os, i) && f <= m
    requires m <= f + CountOwned(os, i)
    requires forall k :: f <= k < m ==> os[k].owner == i
    ensures forall k :: f <= k < f + CountOwned(os, i) ==> os[k].owner == i
    ensures forall k :: f + CountOwned(os, i) <= k < |os| ==> os[k].owner != i
    decreases |os| - m
  {
    CountWindow(os, i, f, m);
    CountMonotone(os, i, m);
    if m < f + CountOwned(os, i) {
      if os[m].owner != i {
        assert f < m;
        NoneAfter(os, i, m);
      } else {
        UninterruptedRange(os, i, f, m + 1);
      }
    }
  }

  lemma {:induction false} NoneAfter(os: seq<Owned>, i: nat, m: nat)
    requires m <= |os| && forall k :: m <= k < |os| ==> os[k].owner != i
    ensures CountOwned(os, i) == CountOwned(os[..m], i)
    decreases |os|
  {
    if m == |os| {
      assert os[..m] == os;
    } else {
      NoneAfter(os[..|os| - 1], i, m);
      assert os[..|os| - 1][..m] == os[..m];
    }
  }

  // ---- when are ranges exact for every node? ----

  /** The last node is a tag that is still open. */
  predicate LastIsOpen(s: State) {
    exists k :: 1 <= k < |s.crumbs| && s.crumbs[k] == s.last
  }

  predicate IsAttribute(tok: Token) {
    tok.typ == AttributeKV || tok.typ == AttributeFlag
  }

  /** No attribute token arrives while its node is a tag that is still open. */
  ghost predicate AttributesFollowClosers(d: Dictionary, toks: seq<Token>)
    requires |d.tags| == 256 && TokensOk(d, toks)
  {
    forall m :: 0 <= m < |toks| && IsAttribute(toks[m]) ==> !LastIsOpen(Run(d, Start(), toks[..m]))
  }

  /** No attribute belongs to an open tag, and the last node either got the latest attribute or none. */
  ghost predicate Quiet(s: State)
    requires Shape(s)
  {
    && (forall i :: 0 <= i < |s.labels| ==> Uninterrupted(s.attrs, i))
    && (forall k, c :: 0 <= k < |s.attrs| && 1 <= c < |s.crumbs| ==> s.crumbs[c] != s.attrs[k].owner)
    && (|s.attrs| > 0 ==>
         s.attrs[|s.attrs| - 1].owner == s.last || forall k :: 0 <= k < |s.attrs| ==> s.attrs[k].owner != s.last)
  }

  /** Steps that add no attribute: the last node is the same, new, or was open. */
  ghost predicate QuietStep(s: State, r: State)
    requires Shape(s) && Shape(r)
  {
    && r.attrs == s.attrs && |s.labels| <= |r.labels|
    && (r.last == s.last || r.last >= |s.par| || exists c :: 1 <= c < |s.crumbs| && s.crumbs[c] == r.last)
    && (forall c :: 1 <= c < |r.crumbs| ==> r.crumbs[c] >= |s.par| || exists e :: 1 <= e < |s.crumbs| && s.crumbs[e] == r.crumbs[c])
  }

  lemma {:induction false} QuietKept(s: State, r: State)
    requires Shape(s) && Shape(r) && Quiet(s) && QuietStep(s, r)
    ensures Quiet(r)
  {
    forall i | 0 <= i < |r.labels| ensures Uninterrupted(r.attrs, i) {
      assert i < |s.labels| ==> Uninterrupted(s.attrs, i);
    }
  }

  lemma {:induction false} TextQuiet(d: Dictionary, s: State, tok: Token)
    requires Shape(s)
    ensures QuietStep(s, ProcessText(d.limits, s, tok)) && QuietStep(s, AppendGreedy(d.limits, s, tok))
  {
  }

  lemma {:induction false} OpeningQuiet(d: Dictionary, s: State, tok: Token)
    requires Shape(s) && |d.tags| == 256
    ensures QuietStep(s, ProcessOpening(d, s, tok))
  {
  }

  lemma {:induction false} CloseQuiet(s: State, tok: Token)
    requires Shape(s) && |s.stack| > 0
    ensures QuietStep(s, CloseTag(s, tok))
  {
    var r := CloseTag(s, tok);
    assert s.crumbs[|s.crumbs| - 1] == r.last;
    forall c | 1 <= c < |r.crumbs| ensures exists e :: 1 <= e < |s.crumbs| && s.crumbs[e] == r.crumbs[c] {
      assert s.crumbs[c] == r.crumbs[c];
    }
  }

  /** Logging and counting a demoted tag touches nothing an attribute depends on. */
  lemma {:induction false} DemotedFrame(s: State, tok: Token, w: Warning) returns (r: State)
    requires Shape(s)
    ensures var s1 := Log(s, w); r == s1.(textLen := s1.textLen + tok.width, textNodes := s1.textNodes + 1)
    ensures Shape(r) && r.attrs == s.attrs && r.labels == s.labels && r.par == s.par && r.last == s.last && r.crumbs == s.crumbs
  {
    var s1 := Log(s, w);
    r := s1.(textLen := s1.textLen + tok.width, textNodes := s1.textNodes + 1);
  }

  lemma {:induction false} DemotedQuiet(d: Dictionary, s: State, tok: Token, w: Warning)
    requires Shape(s)
    ensures var s1 := Log(s, w);
      QuietStep(s, ProcessText(d.limits, s1.(textLen := s1.textLen + tok.width, textNodes := s1.textNodes + 1), DemotedToText(tok)))
  {
    hide ProcessText, QuietStep, Shape, Log;
    var r := DemotedFrame(s, tok, w);
    TextQuiet(d, r, DemotedToText(tok));
    QuietFrame(s, r, ProcessText(d.limits, r, DemotedToText(tok)));
  }

  lemma {:induction false} ClosingQuiet(d: Dictionary, s: State, tok: Token)
    requires Shape(s) && |d.tags| == 256
    ensures QuietStep(s, ProcessClosing(d, s, tok))
  {
    hide CloseTag, ProcessText, QuietStep;
    var stacked, tag := PeekStack(s), d.tags[tok.trigger];
    if stacked == 0 {
      SameQuiet(s, ProcessClosing(d, s, tok));
    } else if d.tags[stacked].closeID != tok.trigger && tag.openID != stacked {
      DemotedQuiet(d, s, tok, Warning(OpenCloseTagMismatch, tok.pos, tok.trigger, 0, stacked, 0));
    } else {
      CloseQuiet(s, tok);
    }
  }

  lemma {:induction false} SameQuiet(s: State, r: State)
    requires Shape(s) && Shape(r) && r.attrs == s.attrs && r.labels == s.labels && r.last == s.last && r.crumbs == s.crumbs
    ensures QuietStep(s, r)
  {
  }

  lemma {:induction false} QuietFrame(s: State, s': State, r: State)
    requires Shape(s) && Shape(s') && Shape(r) && QuietStep(s', r)
    requires s'.attrs == s.attrs && s'.labels == s.labels && s'.par == s.par && s'.last == s.last && s'.crumbs == s.crumbs
    ensures QuietStep(s, r)
  {
  }

  lemma {:induction false} TagQuiet(d: Dictionary, s: State, tok: Token)
    requires Shape(s) && |d.tags| == 256 && tok.trigger != 0
    ensures QuietStep(s, ProcessTag(d, s, tok))
  {
    hide AppendGreedy, ProcessOpening, ProcessClosing, CloseTag, QuietStep;
    TextQuiet(d, s, tok);
    OpeningQuiet(d, s, tok);
    ClosingQuiet(d, s, tok);
    if PeekStack(s) == tok.trigger { CloseQuiet(s, tok); }
    SameQuiet(s, s);
    if s.skip[tok.trigger] > 0 { SameQuiet(s, s.(skip := s.skip[tok.trigger := s.skip[tok.trigger] - 1])); }
  }

  lemma {:induction false} AttributeQuiet(d: Dictionary, s: State, tok: Token)
    requires Shape(s) && Quiet(s) && !LastIsOpen(s)
    ensures Quiet(ProcessAttribute(d.limits, s, tok))
  {
    hide Uninterrupted;
    var r := ProcessAttribute(d.limits, s, tok);
    forall i | 0 <= i < |r.labels| && |r.attrs| > |s.attrs| ensures Uninterrupted(r.attrs, i) {
      assert Uninterrupted(s.attrs, i);
      OneMore(s, i, r.attrs[|s.attrs|]);
    }
  }

  /** An attribute for a node whose attributes came last, or that has none, interrupts nobody. */
  lemma {:induction false} OneMore(s: State, i: nat, o: Owned)
    requires Uninterrupted(s.attrs, i) && o.owner == s.last
    requires |s.attrs| > 0 ==>
      s.attrs[|s.attrs| - 1].owner == s.last || forall k :: 0 <= k < |s.attrs| ==> s.attrs[k].owner != s.last
    ensures Uninterrupted(s.attrs + [o], i)
  {
  }

  lemma {:induction false} StepQuiet(d: Dictionary, s: State, tok: Token)
    requires Shape(s) && |d.tags| == 256 && TokenOk(d, tok) && Quiet(s) && (IsAttribute(tok) ==> !LastIsOpen(s))
    ensures Quiet(Step(d, s, tok))
  {
    hide Quiet, QuietStep, ProcessText, ProcessTag, ProcessAttribute;
    match tok.typ
    case TextToken => TextQuiet(d, s, tok); QuietKept(s, Step(d, s, tok));
    case TagToken => TagQuiet(d, s, tok); QuietKept(s, Step(d, s, tok));
    case _ => AttributeQuiet(d, s, tok);
  }

  /** If attributes are only written behind text and closed tags, every node's range is exactly its
   *  own attributes. */
  lemma {:induction false} RangesExactWithoutEarlyAttributes(d: Dictionary, toks: seq<Token>)
    requires |d.tags| == 256 && TokensOk(d, toks) && AttributesFollowClosers(d, toks)
    ensures var s := Run(d, Start(), toks);
      Quiet(s) && forall i :: 0 <= i < |s.labels| ==> RangeIsOwn(s, i)
  {
    var s := Run(d, Start(), toks);
    RunQuiet(d, toks);
    RunRanges(d, toks);
    forall i | 0 <= i < |s.labels| ensures RangeIsOwn(s, i) {
      RangeIsOwnIff(s, i);
      assert Uninterrupted(s.attrs, i);
    }
  }

  lemma {:induction false} RunQuiet(d: Dictionary, toks: seq<Token>)
    requires |d.tags| == 256 && TokensOk(d, toks) && AttributesFollowClosers(d, toks)
    ensures Quiet(Run(d, Start(), toks))
  {
    hide Step, Quiet, LastIsOpen;
    if toks == [] {
      StartQuiet();
    } else {
      var n := |toks| - 1;
      forall m | 0 <= m < n && IsAttribute(toks[..n][m]) ensures !LastIsOpen(Run(d, Start(), toks[..n][..m])) {
        assert toks[..n][..m] == toks[..m];
      }
      RunQuiet(d, toks[..n]);
      StepQuiet(d, Run(d, Start(), toks[..n]), toks[n]);
    }
  }

  lemma {:induction false} StartQuiet()
    ensures Quiet(Start())
  {
  }

  // ---- a document whose ranges are not exact: [!{a}x!{b}]!{c} ----

  function LinkDictionary(): (d: Dictionary)
    ensures WfDictionary(d)
  {
    var open, close := Tag("LINK", [91], NonGreedy, RuleNA, 0, 93), Tag("LINK", [93], NonGreedy, RuleNA, 91, 0);
    Dictionary(seq(256, i => if i == 91 then open else if i == 93 then close else UNREGISTERED),
               seq(256, i => if i == 91 then TagAction(PlanOf(open)) else if i == 93 then TagAction(PlanOf(close))
                             else if i == 33 then AttributeAction else if i == 92 then EscapeAction else NoAction),
               Limits(128, 512, 1024, 128, 0, 0, 0), 33, 123, 125, 92)
  }

  /** A one-byte tag, a text, or a flag attribute with a one-byte payload. */
  function Piece(typ: TokenType, trigger: Byte, pos: int, width: int): Token {
    var payload := match typ
      case TextToken => Span(pos, pos + width)
      case TagToken => Span(pos + width, pos + width)
      case _ => Span(pos + 2, pos + 3);
    Token(typ, trigger, pos, width, payload, Span(0, 0))
  }

  /** The tokens of `[!{a}x!{b}]!{c}`. */
  function EarlyAttribute(): seq<Token> {
    [Piece(TagToken, 91, 0, 1), Piece(AttributeFlag, 33, 1, 4), Piece(TextToken, 0, 5, 1)]
    + [Piece(AttributeFlag, 33, 6, 4), Piece(TagToken, 93, 10, 1), Piece(AttributeFlag, 33, 11, 4)]
  }

  lemma {:induction false} EarlyAttributeFirstHalf() returns (s: State)
    ensures var d, toks := LinkDictionary(), EarlyAttribute()[..3]; TokensOk(d, toks) && s == Run(d, Start(), toks)
    ensures Shape(s) && s.last == 2 && s.attrs == [Owned(1, Attribute(Span(0, 0), Span(3, 4), true))]
    ensures s.stack == [91] && s.crumbs == [0, 1] && s.isOpen[91] && s.skip[93] == 0 && s.par == [-1, 0, 1]
    ensures s.widths == [0, 2] && s.labels[1].span.start == 0 && s.labels[2].span == Span(5, 6)
  {
    hide Run;
    var d, t := LinkDictionary(), EarlyAttribute();
    RunOne(d, Start(), t[0]);
    RunSnoc(d, Start(), [t[0]], t[1]);
    RunSnoc(d, Start(), [t[0]] + [t[1]], t[2]);
    assert t[..3] == [t[0]] + [t[1]] + [t[2]];
    var s1 := Step(d, Start(), t[0]);
    assert s1.last == 1 && s1.stack == [91] && s1.crumbs == [0, 1] && s1.labels[1].attrs == Range(0, 0);
    var s2 := Step(d, s1, t[1]);
    s := Step(d, s2, t[2]);
  }

  lemma {:induction false} EarlyAttributeRun() returns (s: State)
    ensures var d, toks := LinkDictionary(), EarlyAttribute(); TokensOk(d, toks) && s == Run(d, Start(), toks)
    ensures |s.attrs| == 3 && s.attrs[0].owner == 1 && s.attrs[1].owner == 2 && s.attrs[2].owner == 1
    ensures s.par == [-1, 0, 1] && s.labels[1].span == Span(0, 3) && s.labels[2].span == Span(5, 6)
  {
    hide Run;
    var d, t := LinkDictionary(), EarlyAttribute();
    var s3 := EarlyAttributeFirstHalf();
    RunSnoc(d, Start(), t[..3], t[3]);
    RunSnoc(d, Start(), t[..3] + [t[3]], t[4]);
    RunSnoc(d, Start(), t[..3] + [t[3]] + [t[4]], t[5]);
    assert t == t[..3] + [t[3]] + [t[4]] + [t[5]];
    var s4 := Step(d, s3, t[3]);
    var s5 := Step(d, s4, t[4]);
    assert s5 == CloseTag(s4, t[4]) && s5.last == 1;
    s := Step(d, s5, t[5]);
  }

  /** The claim that a node's attributes are contiguous is false: here the tag's range holds the
   *  text's attribute and misses the tag's own last one. Its span, too, misses its own text. */
  lemma {:induction false} EarlyAttributeBreaksRange()
    ensures var d, toks := LinkDictionary(), EarlyAttribute();
      && TokensOk(d, toks)
      && var s := Run(d, Start(), toks);
         1 < |s.labels| && !RangeIsOwn(s, 1) && |s.attrs| == 3
         && s.attrs[0].owner == 1 && s.attrs[1].owner == 2 && s.attrs[2].owner == 1
         && s.par == [-1, 0, 1] && s.labels[1].span == Span(0, 3) && s.labels[2].span == Span(5, 6)
  {
    hide Run, RangeIsOwn;
    var s := EarlyAttributeRun();
    RunRanges(LinkDictionary(), EarlyAttribute());
    RangeIsOwnIff(s, 1);
    assert !Uninterrupted(s.attrs, 1);
  }
}
