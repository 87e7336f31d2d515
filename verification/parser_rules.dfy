/** The rules of the parser, observation by observation: what a token does to the open tags, the skip
 *  counters, the arena and the warnings, in every reachable state. */
module ParserRules {
  import opened Markup
  import opened Forests
  import opened ParserSpec
  import opened Nesting
  import opened Widths

  // ---- what a tag token amounts to ----

  /** A tag token that is neither swallowed nor a greedy tag's. */
  predicate Live(d: Dictionary, s: State, tok: Token)
    requires |s.skip| == 256 && |d.tags| == 256
  {
    tok.typ == TagToken && s.skip[tok.trigger] == 0 && d.tags[tok.trigger].greed == NonGreedy
  }

  predicate CanStart(d: Dictionary, b: Byte)
    requires |d.tags| == 256
  {
    d.tags[b].IsUniversal() || d.tags[b].IsOpening()
  }

  /** It ends the innermost tag: that universal tag itself, or a closing tag that fits it by the closer of
   *  the one or the opener of the other. */
  predicate Ends(d: Dictionary, s: State, tok: Token)
    requires |s.skip| == 256 && |d.tags| == 256
  {
    && Live(d, s, tok) && s.stack != []
    && var b, top := tok.trigger, s.stack[|s.stack| - 1];
       if CanStart(d, b) then d.tags[b].IsUniversal() && b == top
       else d.tags[b].IsClosing() && (d.tags[top].closeID == b || d.tags[b].openID == top)
  }

  /** It would start a tag. */
  predicate Starts(d: Dictionary, s: State, tok: Token)
    requires |s.skip| == 256 && |d.tags| == 256
  {
    Live(d, s, tok) && CanStart(d, tok.trigger) && !Ends(d, s, tok)
  }

  predicate TooDeep(d: Dictionary, s: State) {
    d.limits.maxParseDepth > 0 && |s.stack| >= d.limits.maxParseDepth
  }

  /** The arena has room for k more nodes. */
  predicate Room(d: Dictionary, s: State, k: nat) {
    d.limits.maxNodes == 0 || |s.par| + k <= d.limits.maxNodes
  }

  /** It starts one: the tag is not open already, and depth and nodes are not used up. */
  predicate Enters(d: Dictionary, s: State, tok: Token)
    requires |s.skip| == 256 && |d.tags| == 256
  {
    Starts(d, s, tok) && tok.trigger !in s.stack && !TooDeep(d, s) && Room(d, s, 1)
  }

  /** A closing tag that ends nothing. */
  predicate ClosesNothing(d: Dictionary, s: State, tok: Token)
    requires |s.skip| == 256 && |d.tags| == 256
  {
    Live(d, s, tok) && !CanStart(d, tok.trigger) && d.tags[tok.trigger].IsClosing() && !Ends(d, s, tok)
  }

  /** A greedy tag's token that is not swallowed. */
  predicate Embeds(d: Dictionary, s: State, tok: Token)
    requires |s.skip| == 256 && |d.tags| == 256
  {
    tok.typ == TagToken && s.skip[tok.trigger] == 0 && d.tags[tok.trigger].greed != NonGreedy
  }

  /** The token asks for a node for text: text, or a closing tag inside a tag it does not fit. */
  predicate ShowsText(d: Dictionary, s: State, tok: Token)
    requires |s.skip| == 256 && |d.tags| == 256
  {
    tok.typ == TextToken || (ClosesNothing(d, s, tok) && s.stack != [])
  }

  // ---- the effects ----

  function Stacked(d: Dictionary, s: State, tok: Token): seq<Byte>
    requires |s.skip| == 256 && |d.tags| == 256
  {
    if Enters(d, s, tok) then s.stack + [tok.trigger]
    else if Ends(d, s, tok) then s.stack[..|s.stack| - 1]
    else s.stack
  }

  /** Openers that are left out silence one closer; a silenced token uses that up. */
  function SkipOf(d: Dictionary, s: State, tok: Token, b: Byte): int
    requires |s.skip| == 256 && |d.tags| == 256
  {
    s.skip[b]
    + (if Starts(d, s, tok) && !Enters(d, s, tok) && d.tags[tok.trigger].closeID == b && (b != 0 || tok.trigger in s.stack) then 1 else 0)
    - (if tok.typ == TagToken && tok.trigger == b && s.skip[b] > 0 then 1 else 0)
  }

  /** The nodes the token adds, each with its parent: none without room for it. */
  function Added(d: Dictionary, s: State, tok: Token): seq<(int, Label)>
    requires |s.skip| == 256 && |d.tags| == 256 && |s.crumbs| > 0
  {
    var top, n := s.crumbs[|s.crumbs| - 1], |s.par|;
    var tag := Label(TagNode, tok.trigger, Span(tok.pos, tok.pos + tok.width), Range(0, 0));
    if !Room(d, s, 1) then []
    else if tok.typ == TextToken then [(top, Label(TextNode, 0, tok.payload, Range(0, 0)))]
    else if ShowsText(d, s, tok) then [(top, Label(TextNode, 0, Span(tok.pos, tok.pos + tok.width), Range(0, 0)))]
    else if Enters(d, s, tok) then [(top, tag)]
    else if Embeds(d, s, tok) then
      [(top, tag)] + (if Room(d, s, 2) then [(n, Label(TextNode, 0, tok.payload, Range(0, 0)))] else [])
    else []
  }

  /** A limit is reported the first time it shows. */
  function Once(warned: bool, issue: Issue, pos: int): seq<Warning> {
    if warned then [] else [Warn(issue, pos)]
  }

  /** The warnings the token causes. */
  function Alarms(d: Dictionary, s: State, tok: Token): seq<Warning>
    requires |s.skip| == 256 && |d.tags| == 256
  {
    (if ClosesNothing(d, s, tok) then
       if s.stack == [] then [Warning(MisplacedClosingTag, tok.pos, tok.trigger, 0, d.tags[tok.trigger].openID, 0)]
       else [Warning(OpenCloseTagMismatch, tok.pos, tok.trigger, 0, s.stack[|s.stack| - 1], 0)]
     else if Starts(d, s, tok) && tok.trigger in s.stack then [Warning(DuplicateNestedTag, tok.pos, tok.trigger, 0, 0, 0)]
     else if Starts(d, s, tok) && TooDeep(d, s) then Once(s.warnedDepth, MaxParseDepthExceeded, tok.pos)
     else if (tok.typ == AttributeKV || tok.typ == AttributeFlag) && d.limits.maxAttributes > 0 && |s.attrs| >= d.limits.maxAttributes
       then Once(s.warnedAttributes, MaxAttributesExceeded, tok.pos)
     else [])
    + (if WantsNode(d, s, tok) && !Room(d, s, 1) then Once(s.warnedNodes, MaxNodesExceeded, tok.pos)
       else if Embeds(d, s, tok) && !Room(d, s, 2) then Once(s.warnedNodes, MaxNodesExceeded, tok.payload.start)
       else [])
  }

  predicate WantsNode(d: Dictionary, s: State, tok: Token)
    requires |s.skip| == 256 && |d.tags| == 256
  {
    || ShowsText(d, s, tok) || Embeds(d, s, tok)
    || (Starts(d, s, tok) && tok.trigger !in s.stack && !TooDeep(d, s))
  }

  /** The node attributes go to: the last one added or closed. */
  function LastOf(d: Dictionary, s: State, tok: Token): int
    requires |s.skip| == 256 && |d.tags| == 256 && |s.crumbs| > 0
  {
    if Ends(d, s, tok) then s.crumbs[|s.crumbs| - 1]
    else if Added(d, s, tok) != [] then |s.par| + |Added(d, s, tok)| - 1
    else s.last
  }

  /** An attribute token that finds room. */
  predicate Attaches(d: Dictionary, s: State, tok: Token) {
    (tok.typ == AttributeKV || tok.typ == AttributeFlag) && (d.limits.maxAttributes == 0 || |s.attrs| < d.limits.maxAttributes)
  }

  /** Bytes that lie in no frame: attributes, swallowed tokens, repeated openers, closers with nothing
   *  open, and tags that neither start nor close. */
  predicate Unframed(d: Dictionary, s: State, tok: Token)
    requires |s.skip| == 256 && |d.tags| == 256
  {
    match tok.typ
    case TextToken => false
    case TagToken =>
      || s.skip[tok.trigger] > 0
      || (Starts(d, s, tok) && tok.trigger in s.stack)
      || (ClosesNothing(d, s, tok) && s.stack == [])
      || (Live(d, s, tok) && !CanStart(d, tok.trigger) && !d.tags[tok.trigger].IsClosing())
    case _ => true
  }

  // ---- the rules ----

  ghost predicate StackFollows(d: Dictionary, s: State, tok: Token, r: State)
    requires Shape(s) && Shape(r) && |d.tags| == 256
  {
    && r.stack == Stacked(d, s, tok)
    && r.crumbs == (if Enters(d, s, tok) then s.crumbs + [|s.par|]
                    else if Ends(d, s, tok) then s.crumbs[..|s.crumbs| - 1] else s.crumbs)
    && r.maxDepth == (if |r.stack| > s.maxDepth then |r.stack| else s.maxDepth)
    && r.tagNodes == s.tagNodes + (if Enters(d, s, tok) then 1 else 0)
    && forall b: Byte :: r.isOpen[b] <==> b in r.stack
  }

  ghost predicate SkipFollows(d: Dictionary, s: State, tok: Token, r: State)
    requires Shape(s) && Shape(r) && |d.tags| == 256
  {
    forall b: Byte :: r.skip[b] == SkipOf(d, s, tok, b)
  }

  ghost predicate ArenaFollows(d: Dictionary, s: State, tok: Token, r: State)
    requires Shape(s) && Shape(r) && |d.tags| == 256
  {
    var add := Added(d, s, tok);
    && |r.par| == |s.par| + |add| && r.last == LastOf(d, s, tok)
    && r.par[..|s.par|] == s.par
    && (forall j :: 0 <= j < |add| ==> r.par[|s.par| + j] == add[j].0 && r.labels[|s.par| + j] == add[j].1)
    && (forall j :: 0 <= j < |s.labels| ==> SamePlace(s.labels[j], r.labels[j]))
    && (forall j :: 0 <= j < |s.labels| && r.labels[j].attrs != s.labels[j].attrs ==> Attaches(d, s, tok) && j == s.last)
    && (forall j :: 0 <= j < |s.labels| && r.labels[j].span != s.labels[j].span ==> Ends(d, s, tok) && j == Top(s))
  }

  predicate SamePlace(l: Label, m: Label) {
    l.typ == m.typ && l.tagID == m.tagID && l.span.start == m.span.start
  }

  ghost predicate WarningsFollow(d: Dictionary, s: State, tok: Token, r: State)
    requires Shape(s) && Shape(r) && |d.tags| == 256
  {
    && r.warns == s.warns + Alarms(d, s, tok)
    && r.warnedDepth == (s.warnedDepth || (Starts(d, s, tok) && tok.trigger !in s.stack && TooDeep(d, s)))
    && r.warnedNodes == (s.warnedNodes || (WantsNode(d, s, tok) && !Room(d, s, 1)) || (Embeds(d, s, tok) && !Room(d, s, 2)))
    && r.warnedAttributes == (s.warnedAttributes || (IsAttribute(tok) && !Attaches(d, s, tok)))
  }

  predicate IsAttribute(tok: Token) {
    tok.typ == AttributeKV || tok.typ == AttributeFlag
  }

  ghost predicate AttributesFollow(d: Dictionary, s: State, tok: Token, r: State)
    requires Shape(s) && Shape(r) && |d.tags| == 256
  {
    && r.attrs == s.attrs
         + (if Attaches(d, s, tok) then [Owned(s.last, Attribute(tok.attrKey, tok.payload, tok.typ == AttributeFlag))] else [])
    && (Attaches(d, s, tok) ==>
          |r.labels| == |s.labels|
          && r.labels[s.last].attrs.len == s.labels[s.last].attrs.len + 1
          && r.labels[s.last].attrs.start == (if s.labels[s.last].attrs.len == 0 then |s.attrs| else s.labels[s.last].attrs.start))
    && r.textNodes == s.textNodes + (if ClosesNothing(d, s, tok) && s.stack != [] then 1 else 0)
    && r.textLen == s.textLen + (if ClosesNothing(d, s, tok) && s.stack != [] then tok.width else 0)
  }

  /** Everything at once. */
  ghost predicate Follows(d: Dictionary, s: State, tok: Token, r: State)
    requires Shape(s) && Shape(r) && |d.tags| == 256
  {
    && StackFollows(d, s, tok, r) && SkipFollows(d, s, tok, r) && ArenaFollows(d, s, tok, r)
    && WarningsFollow(d, s, tok, r) && AttributesFollow(d, s, tok, r)
  }

  // ---- case by case ----

  lemma {:induction false} Opened(d: Dictionary, s: State)
    requires |d.tags| == 256 && Shape(s) && StackInv(d, s)
    ensures PeekStack(s) == 0 <==> s.stack == []
    ensures forall b: Byte :: s.isOpen[b] <==> b in s.stack
    ensures s.stack != [] ==> CanOpen(d, PeekStack(s)) && PeekStack(s) == s.stack[|s.stack| - 1]
  {
    if s.stack != [] {
      assert CanOpen(d, s.stack[|s.stack| - 1]);
    }
  }

  /** What the token is, and what it therefore is not. */
  ghost predicate IsA(d: Dictionary, s: State, tok: Token, live: bool, ends: bool, starts: bool, stray: bool, embeds: bool)
    requires Shape(s) && |d.tags| == 256
  {
    && Live(d, s, tok) == live && Ends(d, s, tok) == ends && Starts(d, s, tok) == starts
    && ClosesNothing(d, s, tok) == stray && Embeds(d, s, tok) == embeds
    && Enters(d, s, tok) == (starts && tok.trigger !in s.stack && !TooDeep(d, s) && Room(d, s, 1))
  }

  lemma {:induction false} TextIs(d: Dictionary, s: State, tok: Token)
    requires Shape(s) && |d.tags| == 256 && tok.typ != TagToken
    ensures IsA(d, s, tok, false, false, false, false, false)
  {
  }

  lemma {:induction false} NoSkipChange(d: Dictionary, s: State, tok: Token)
    requires Shape(s) && |d.tags| == 256 && !Starts(d, s, tok) && (tok.typ == TagToken ==> s.skip[tok.trigger] == 0)
    ensures SkipFollows(d, s, tok, s)
  {
  }

  /** The tags stay as they are. */
  lemma {:induction false} StackStays(d: Dictionary, s: State, tok: Token, r: State)
    requires |d.tags| == 256 && Shape(s) && Shape(r) && StackInv(d, s) && s.maxDepth >= |s.stack|
    requires !Enters(d, s, tok) && !Ends(d, s, tok)
    requires r.stack == s.stack && r.crumbs == s.crumbs && r.isOpen == s.isOpen && r.maxDepth == s.maxDepth && r.tagNodes == s.tagNodes
    ensures StackFollows(d, s, tok, r)
  {
  }

  /** The arena stays, or one or two nodes are added. */
  lemma {:induction false} ArenaStays(d: Dictionary, s: State, tok: Token, r: State)
    requires |d.tags| == 256 && Shape(s) && Shape(r) && Added(d, s, tok) == [] && !Ends(d, s, tok)
    requires r.par == s.par && r.labels == s.labels && r.last == s.last
    ensures ArenaFollows(d, s, tok, r)
  {
    hide Added, Ends;
  }

  lemma {:induction false} ArenaGrows(d: Dictionary, s: State, tok: Token, r: State, add: seq<(int, Label)>)
    requires |d.tags| == 256 && Shape(s) && Shape(r) && Added(d, s, tok) == add && !Ends(d, s, tok) && 1 <= |add| <= 2
    requires r.par == s.par + (if |add| == 1 then [add[0].0] else [add[0].0] + [add[1].0])
    requires r.labels == s.labels + (if |add| == 1 then [add[0].1] else [add[0].1] + [add[1].1])
    requires r.last == |s.par| + |add| - 1
    ensures ArenaFollows(d, s, tok, r)
  {
    hide Added, Ends, Attaches;
  }

  lemma {:induction false} TextFollows(d: Dictionary, s: State, tok: Token)
    requires |d.tags| == 256 && Shape(s) && StackInv(d, s) && tok.typ == TextToken && s.maxDepth >= |s.stack|
    ensures Follows(d, s, tok, ProcessText(d.limits, s, tok))
  {
    hide StackInv, Live, Ends, Starts, ClosesNothing, Embeds, Enters, StackFollows, SkipFollows, ArenaFollows, WarningsFollow,
         ProcessText;
    TextIs(d, s, tok);
    TextKeeps(d, s, tok);
    var r := ProcessText(d.limits, s, tok);
    StackStays(d, s, tok, r);
    NoSkipChange(d, s, tok);
    SameSkips(d, s, tok, r);
    TextArena(d, s, tok);
    TextWarnings(d, s, tok);
    assert s.attrs + [] == s.attrs;
  }

  lemma {:induction false} TextKeeps(d: Dictionary, s: State, tok: Token)
    requires |d.tags| == 256 && Shape(s)
    ensures var r := ProcessText(d.limits, s, tok);
      && r.stack == s.stack && r.crumbs == s.crumbs && r.isOpen == s.isOpen && r.maxDepth == s.maxDepth && r.tagNodes == s.tagNodes
      && r.skip == s.skip && r.attrs == s.attrs && r.textNodes == s.textNodes && r.textLen == s.textLen
  {
    hide Shape;
  }

  lemma {:induction false} TextWarnings(d: Dictionary, s: State, tok: Token)
    requires |d.tags| == 256 && Shape(s) && tok.typ == TextToken
    ensures WarningsFollow(d, s, tok, ProcessText(d.limits, s, tok))
  {
    TextIs(d, s, tok);
    hide Live, Ends, Starts, ClosesNothing, Embeds, Enters, Shape;
    assert s.warns + [] == s.warns;
  }

  lemma {:induction false} TextArena(d: Dictionary, s: State, tok: Token)
    requires |d.tags| == 256 && Shape(s) && tok.typ == TextToken
    ensures ArenaFollows(d, s, tok, ProcessText(d.limits, s, tok))
  {
    TextIs(d, s, tok);
    hide Live, Ends, Starts, ClosesNothing, Embeds, Enters, ArenaFollows;
    var r := ProcessText(d.limits, s, tok);
    if Room(d, s, 1) {
      ArenaGrows(d, s, tok, r, [(Top(s), TextLabel(tok.payload))]);
    } else {
      ArenaStays(d, s, tok, r);
    }
  }

  lemma {:induction false} AttributeFollows(d: Dictionary, s: State, tok: Token)
    requires |d.tags| == 256 && Shape(s) && StackInv(d, s) && IsAttribute(tok) && s.maxDepth >= |s.stack|
    ensures Follows(d, s, tok, ProcessAttribute(d.limits, s, tok))
  {
    TextIs(d, s, tok);
    var r := ProcessAttribute(d.limits, s, tok);
    StackStays(d, s, tok, r);
    NoSkipChange(d, s, tok);
    hide StackInv, Live, Ends, Starts, ClosesNothing, Embeds, Enters, StackFollows, SkipOf;
    assert s.warns + [] == s.warns && s.attrs + [] == s.attrs;
  }

  lemma {:induction false} SwallowedFollows(d: Dictionary, s: State, tok: Token)
    requires |d.tags| == 256 && Shape(s) && StackInv(d, s) && tok.typ == TagToken && tok.trigger != 0 && s.maxDepth >= |s.stack|
    requires s.skip[tok.trigger] > 0
    ensures Follows(d, s, tok, ProcessTag(d, s, tok))
  {
    hide AppendGreedy, ProcessUniversal, ProcessOpening, ProcessClosing;
    Opened(d, s);
    hide StackInv;
  }

  lemma {:induction false} GreedyIs(d: Dictionary, s: State, tok: Token)
    requires Shape(s) && |d.tags| == 256 && Embeds(d, s, tok)
    ensures IsA(d, s, tok, false, false, false, false, true)
  {
  }

  lemma {:induction false} GreedyFollows(d: Dictionary, s: State, tok: Token)
    requires |d.tags| == 256 && Shape(s) && StackInv(d, s) && Embeds(d, s, tok) && s.maxDepth >= |s.stack|
    ensures Follows(d, s, tok, AppendGreedy(d.limits, s, tok))
  {
    hide StackInv, Live, Ends, Starts, ClosesNothing, Embeds, Enters, StackFollows, SkipFollows, ArenaFollows, WarningsFollow,
         AppendGreedy;
    GreedyIs(d, s, tok);
    GreedyKeeps(d, s, tok);
    var r := AppendGreedy(d.limits, s, tok);
    StackStays(d, s, tok, r);
    NoSkipChange(d, s, tok);
    SameSkips(d, s, tok, r);
    GreedyArena(d, s, tok);
    GreedyWarnings(d, s, tok);
    assert s.attrs + [] == s.attrs;
  }

  lemma {:induction false} SameSkips(d: Dictionary, s: State, tok: Token, r: State)
    requires |d.tags| == 256 && Shape(s) && Shape(r) && SkipFollows(d, s, tok, s) && r.skip == s.skip
    ensures SkipFollows(d, s, tok, r)
  {
  }

  lemma {:induction false} GreedyKeeps(d: Dictionary, s: State, tok: Token)
    requires |d.tags| == 256 && Shape(s) && Embeds(d, s, tok)
    ensures tok.typ == TagToken && s.skip[tok.trigger] == 0
    ensures var r := AppendGreedy(d.limits, s, tok);
      && r.stack == s.stack && r.crumbs == s.crumbs && r.isOpen == s.isOpen && r.maxDepth == s.maxDepth && r.tagNodes == s.tagNodes
      && r.skip == s.skip && r.attrs == s.attrs && r.textNodes == s.textNodes && r.textLen == s.textLen
  {
    hide Shape;
  }

  lemma {:induction false} GreedyArena(d: Dictionary, s: State, tok: Token)
    requires |d.tags| == 256 && Shape(s) && Embeds(d, s, tok)
    ensures ArenaFollows(d, s, tok, AppendGreedy(d.limits, s, tok))
  {
    GreedyIs(d, s, tok);
    hide Live, Ends, Starts, ClosesNothing, Enters, ArenaFollows;
    var r := AppendGreedy(d.limits, s, tok);
    if !Room(d, s, 1) {
      ArenaStays(d, s, tok, r);
    } else if !Room(d, s, 2) {
      ArenaGrows(d, s, tok, r, [(Top(s), TagLabel(tok))]);
    } else {
      assert s.par + [Top(s)] + [|s.par|] == s.par + ([Top(s)] + [|s.par|]);
      assert s.labels + [TagLabel(tok)] + [TextLabel(tok.payload)] == s.labels + ([TagLabel(tok)] + [TextLabel(tok.payload)]);
      ArenaGrows(d, s, tok, r, [(Top(s), TagLabel(tok)), (|s.par|, TextLabel(tok.payload))]);
    }
  }

  lemma {:induction false} GreedyWarnings(d: Dictionary, s: State, tok: Token)
    requires |d.tags| == 256 && Shape(s) && Embeds(d, s, tok)
    ensures WarningsFollow(d, s, tok, AppendGreedy(d.limits, s, tok))
  {
    GreedyIs(d, s, tok);
    hide Live, Ends, Starts, ClosesNothing, Embeds, Enters;
    assert s.warns + [] == s.warns;
  }

  lemma {:induction false} EndsFollows(d: Dictionary, s: State, tok: Token)
    requires |d.tags| == 256 && Shape(s) && StackInv(d, s) && Ends(d, s, tok) && s.maxDepth >= |s.stack|
    ensures Follows(d, s, tok, CloseTag(s, tok))
  {
    Opened(d, s);
    assert forall k :: 0 <= k < |s.stack| - 1 ==> s.stack[k] != PeekStack(s);
    hide StackInv;
  }

  lemma {:induction false} StartIs(d: Dictionary, s: State, tok: Token)
    requires Shape(s) && |d.tags| == 256 && Starts(d, s, tok)
    ensures IsA(d, s, tok, true, false, true, false, false)
  {
  }

  /** A repeated opener. */
  lemma {:induction false} RepeatFollows(d: Dictionary, s: State, tok: Token)
    requires |d.tags| == 256 && Shape(s) && StackInv(d, s) && Starts(d, s, tok) && tok.trigger in s.stack && s.maxDepth >= |s.stack|
    ensures Follows(d, s, tok, ProcessOpening(d, s, tok))
  {
    Opened(d, s);
    StartIs(d, s, tok);
    var r := ProcessOpening(d, s, tok);
    assert s.isOpen[tok.trigger];
    assert r == Log(s, Warning(DuplicateNestedTag, tok.pos, tok.trigger, 0, 0, 0)).(skip := r.skip);
    assert SkipFollows(d, s, tok, r) by { hide Live, Ends, CanStart; assert Live(d, s, tok) by { StartsLive(d, s, tok); } }
    StackStays(d, s, tok, r);
    hide StackInv, Live, Ends, Starts, ClosesNothing, Embeds, Enters, StackFollows, SkipFollows, ProcessOpening;
    assert s.attrs + [] == s.attrs;
  }

  lemma {:induction false} StartsLive(d: Dictionary, s: State, tok: Token)
    requires Shape(s) && |d.tags| == 256 && Starts(d, s, tok)
    ensures Live(d, s, tok)
  {
  }

  /** An opener without depth or room. */
  lemma {:induction false} OmittedFollows(d: Dictionary, s: State, tok: Token)
    requires |d.tags| == 256 && Shape(s) && StackInv(d, s) && Starts(d, s, tok) && tok.trigger !in s.stack && s.maxDepth >= |s.stack|
    requires TooDeep(d, s) || !Room(d, s, 1)
    ensures Follows(d, s, tok, ProcessOpening(d, s, tok))
  {
    Opened(d, s);
    StartIs(d, s, tok);
    StartsLive(d, s, tok);
    OmittedOutcome(d, s, tok);
    var r, w := ProcessOpening(d, s, tok), Refused(d, s, tok);
    assert SkipFollows(d, s, tok, r) by {
      hide Ends, CanStart, ProcessOpening, StackInv, Shape;
    }
    StackStays(d, s, tok, r);
    hide StackInv, Live, Ends, Starts, ClosesNothing, Embeds, Enters, StackFollows, SkipFollows, ProcessOpening, Shape, ArenaFollows;
    ArenaStays(d, s, tok, r);
    assert s.attrs + [] == s.attrs;
  }

  /** The state with the limit reported that keeps the opener out. */
  function Refused(d: Dictionary, s: State, tok: Token): State {
    if TooDeep(d, s) then WarnDepth(s, tok.pos) else WarnNodes(s, tok.pos)
  }

  lemma {:induction false} OmittedOutcome(d: Dictionary, s: State, tok: Token)
    requires |d.tags| == 256 && Shape(s) && !s.isOpen[tok.trigger] && (TooDeep(d, s) || !Room(d, s, 1))
    ensures var r, w, c := ProcessOpening(d, s, tok), Refused(d, s, tok), d.tags[tok.trigger].closeID;
      && |s.widths| > 0
      && r == AddWidth(w, tok.width).(skip := if c != 0 then s.skip[c := s.skip[c] + 1] else s.skip)
  {
  }

  /** An opener that enters its node. */
  lemma {:induction false} EntersFollows(d: Dictionary, s: State, tok: Token)
    requires |d.tags| == 256 && Shape(s) && StackInv(d, s) && Enters(d, s, tok) && s.maxDepth >= |s.stack|
    ensures Follows(d, s, tok, ProcessOpening(d, s, tok))
  {
    Opened(d, s);
    StartIs(d, s, tok);
    NoSkipChangeEnters(d, s, tok);
    hide StackInv, Live, Ends, Starts, ClosesNothing, Embeds, SkipOf;
    assert s.attrs + [] == s.attrs && s.warns + [] == s.warns;
  }

  lemma {:induction false} NoSkipChangeEnters(d: Dictionary, s: State, tok: Token)
    requires Shape(s) && |d.tags| == 256 && Enters(d, s, tok)
    ensures SkipFollows(d, s, tok, s)
  {
  }

  lemma {:induction false} StrayIs(d: Dictionary, s: State, tok: Token)
    requires Shape(s) && |d.tags| == 256 && ClosesNothing(d, s, tok)
    ensures IsA(d, s, tok, true, false, false, true, false)
  {
  }

  lemma {:induction false} StrayFollows(d: Dictionary, s: State, tok: Token)
    requires |d.tags| == 256 && Shape(s) && StackInv(d, s) && ClosesNothing(d, s, tok) && s.maxDepth >= |s.stack|
    ensures Follows(d, s, tok, ProcessClosing(d, s, tok))
  {
    hide StackInv, Live, Ends, Starts, Embeds, Enters, StackFollows, SkipFollows, ArenaFollows, WarningsFollow,
         ProcessClosing;
    StrayIs(d, s, tok);
    StrayOutcome(d, s, tok);
    var r := ProcessClosing(d, s, tok);
    StackStays(d, s, tok, r);
    StrayUnskipped(d, s, tok);
    NoSkipChange(d, s, tok);
    SameSkips(d, s, tok, r);
    StrayArena(d, s, tok);
    StrayWarnings(d, s, tok);
    hide ClosesNothing;
    assert s.attrs + [] == s.attrs;
  }

  lemma {:induction false} StrayUnskipped(d: Dictionary, s: State, tok: Token)
    requires |d.tags| == 256 && Shape(s) && ClosesNothing(d, s, tok)
    ensures tok.typ == TagToken && s.skip[tok.trigger] == 0
  {
  }

  lemma {:induction false} StrayArena(d: Dictionary, s: State, tok: Token)
    requires |d.tags| == 256 && Shape(s) && StackInv(d, s) && ClosesNothing(d, s, tok)
    ensures ArenaFollows(d, s, tok, ProcessClosing(d, s, tok))
  {
    StrayIs(d, s, tok);
    StrayOutcome(d, s, tok);
    StrayUnskipped(d, s, tok);
    hide StackInv, Live, Ends, Starts, ClosesNothing, Embeds, Enters, ArenaFollows, ProcessClosing;
    var r := ProcessClosing(d, s, tok);
    if s.stack != [] && Room(d, s, 1) {
      ArenaGrows(d, s, tok, r, [(Top(s), TextLabel(Span(tok.pos, tok.pos + tok.width)))]);
    } else {
      ArenaStays(d, s, tok, r);
    }
  }

  lemma {:induction false} StrayWarnings(d: Dictionary, s: State, tok: Token)
    requires |d.tags| == 256 && Shape(s) && StackInv(d, s) && ClosesNothing(d, s, tok)
    ensures WarningsFollow(d, s, tok, ProcessClosing(d, s, tok))
  {
    StrayIs(d, s, tok);
    StrayOutcome(d, s, tok);
    StrayUnskipped(d, s, tok);
    hide StackInv, Live, Ends, Starts, ClosesNothing, Embeds, Enters, ProcessClosing, Shape;
  }

  /** A stray closer is dropped when nothing is open, and else shown as text. */
  lemma {:induction false} StrayOutcome(d: Dictionary, s: State, tok: Token)
    requires |d.tags| == 256 && Shape(s) && StackInv(d, s) && ClosesNothing(d, s, tok)
    ensures var r := ProcessClosing(d, s, tok);
      if s.stack == [] then r == Log(s, Warning(MisplacedClosingTag, tok.pos, tok.trigger, 0, d.tags[tok.trigger].openID, 0))
      else
        var s1 := Log(s, Warning(OpenCloseTagMismatch, tok.pos, tok.trigger, 0, s.stack[|s.stack| - 1], 0));
        r == ProcessText(d.limits, s1.(textLen := s1.textLen + tok.width, textNodes := s1.textNodes + 1), DemotedToText(tok))
  {
    Opened(d, s);
    hide StackInv, CloseTag, ProcessText;
  }

  lemma {:induction false} InertIs(d: Dictionary, s: State, tok: Token)
    requires Shape(s) && |d.tags| == 256 && Live(d, s, tok) && !CanStart(d, tok.trigger) && !d.tags[tok.trigger].IsClosing()
    ensures IsA(d, s, tok, true, false, false, false, false)
  {
  }

  lemma {:induction false} InertFollows(d: Dictionary, s: State, tok: Token)
    requires |d.tags| == 256 && Shape(s) && StackInv(d, s) && Live(d, s, tok) && s.maxDepth >= |s.stack|
    requires !CanStart(d, tok.trigger) && !d.tags[tok.trigger].IsClosing()
    ensures Follows(d, s, tok, s)
  {
    InertIs(d, s, tok);
    StackStays(d, s, tok, s);
    NoSkipChange(d, s, tok);
    hide StackInv, Live, Ends, Starts, ClosesNothing, Embeds, Enters, StackFollows, SkipOf;
    assert s.attrs + [] == s.attrs && s.warns + [] == s.warns;
  }

  // ---- every token ----

  lemma {:induction false} UniversalEnds(d: Dictionary, s: State, tok: Token)
    requires |d.tags| == 256 && Shape(s) && StackInv(d, s) && Live(d, s, tok) && d.tags[tok.trigger].IsUniversal()
    ensures s.stack != [] && PeekStack(s) == tok.trigger <==> Ends(d, s, tok)
    ensures Ends(d, s, tok) ==> s.isOpen[tok.trigger] && PeekStack(s) == tok.trigger
    ensures !Ends(d, s, tok) ==> Starts(d, s, tok) && (s.isOpen[tok.trigger] ==> PeekStack(s) != tok.trigger)
  {
    Opened(d, s);
    hide StackInv;
  }

  lemma {:induction false} OpenerFollows(d: Dictionary, s: State, tok: Token)
    requires |d.tags| == 256 && Shape(s) && StackInv(d, s) && Starts(d, s, tok) && s.maxDepth >= |s.stack|
    ensures Follows(d, s, tok, ProcessOpening(d, s, tok))
  {
    hide StackInv, Starts, ProcessOpening, Follows, TooDeep, Room;
    if tok.trigger in s.stack {
      RepeatFollows(d, s, tok);
    } else if TooDeep(d, s) || !Room(d, s, 1) {
      OmittedFollows(d, s, tok);
    } else {
      EntersFollows(d, s, tok);
    }
  }

  lemma {:induction false} CloserFollows(d: Dictionary, s: State, tok: Token)
    requires |d.tags| == 256 && Shape(s) && StackInv(d, s) && Live(d, s, tok) && s.maxDepth >= |s.stack|
    requires !CanStart(d, tok.trigger) && d.tags[tok.trigger].IsClosing()
    ensures Follows(d, s, tok, ProcessClosing(d, s, tok))
  {
    Opened(d, s);
    hide StackInv, Follows, CloseTag, ProcessText;
    if Ends(d, s, tok) {
      EndsFollows(d, s, tok);
    } else {
      StrayFollows(d, s, tok);
    }
  }

  lemma {:induction false} LiveFollows(d: Dictionary, s: State, tok: Token)
    requires |d.tags| == 256 && Shape(s) && StackInv(d, s) && Live(d, s, tok) && tok.trigger != 0 && s.maxDepth >= |s.stack|
    ensures Follows(d, s, tok, ProcessTag(d, s, tok))
  {
    hide StackInv, Follows, CloseTag, ProcessOpening, ProcessClosing, AppendGreedy, Starts, Ends;
    if d.tags[tok.trigger].IsUniversal() {
      UniversalEnds(d, s, tok);
      if Ends(d, s, tok) {
        EndsFollows(d, s, tok);
      } else {
        OpenerFollows(d, s, tok);
      }
    } else if d.tags[tok.trigger].IsOpening() {
      assert Starts(d, s, tok) by { OpeningStarts(d, s, tok); }
      OpenerFollows(d, s, tok);
    } else if d.tags[tok.trigger].IsClosing() {
      CloserFollows(d, s, tok);
    } else {
      InertFollows(d, s, tok);
    }
  }

  lemma {:induction false} OpeningStarts(d: Dictionary, s: State, tok: Token)
    requires |d.tags| == 256 && Shape(s) && Live(d, s, tok) && d.tags[tok.trigger].IsOpening() && !d.tags[tok.trigger].IsUniversal()
    ensures Starts(d, s, tok)
  {
  }

  /** Every token, in every reachable state, follows the rules. */
  lemma {:induction false} StepFollows(d: Dictionary, s: State, tok: Token)
    requires |d.tags| == 256 && Shape(s) && StackInv(d, s) && TokenOk(d, tok) && s.maxDepth >= |s.stack|
    ensures Follows(d, s, tok, Step(d, s, tok))
  {
    hide StackInv, Follows, ProcessText, ProcessAttribute, ProcessUniversal, ProcessOpening, ProcessClosing, AppendGreedy;
    match tok.typ
    case TextToken => TextFollows(d, s, tok);
    case TagToken =>
      if s.skip[tok.trigger] > 0 {
        SwallowedFollows(d, s, tok);
      } else if d.tags[tok.trigger].greed != NonGreedy {
        GreedyFollows(d, s, tok);
      } else {
        LiveFollows(d, s, tok);
      }
    case _ => AttributeFollows(d, s, tok);
  }

  lemma {:induction false} StackKeepsDepth(d: Dictionary, s: State, tok: Token, r: State)
    requires |d.tags| == 256 && Shape(s) && Shape(r) && Follows(d, s, tok, r)
    ensures r.maxDepth >= |r.stack|
  {
    hide SkipFollows, ArenaFollows, WarningsFollow, AttributesFollow, Stacked;
  }

  /** Token after token, over any run. */
  lemma {:induction false} RunFollows(d: Dictionary, toks: seq<Token>)
    requires |d.tags| == 256 && TokensOk(d, toks)
    ensures var s := Run(d, Start(), toks); s.maxDepth >= |s.stack|
    ensures forall i :: 0 <= i < |toks| ==> FollowsAt(d, toks, i)
  {
    hide Step, Follows, TreeInv, StackInv, NoNestedTwins;
    if toks != [] {
      var n := |toks| - 1;
      RunFollows(d, toks[..n]);
      RunInv(d, toks[..n]);
      var s := Run(d, Start(), toks[..n]);
      StepFollows(d, s, toks[n]);
      StackKeepsDepth(d, s, toks[n], Run(d, Start(), toks));
      assert toks[..n + 1] == toks;
      forall i | 0 <= i < n ensures FollowsAt(d, toks, i) {
        assert FollowsAt(d, toks[..n], i);
        assert toks[..n][..i] == toks[..i] && toks[..n][..i + 1] == toks[..i + 1];
      }
    }
  }

  ghost predicate FollowsAt(d: Dictionary, toks: seq<Token>, i: nat)
    requires |d.tags| == 256 && TokensOk(d, toks) && i < |toks|
  {
    Follows(d, Run(d, Start(), toks[..i]), toks[i], Run(d, Start(), toks[..i + 1]))
  }

  /** Which token closes: a run's token takes the innermost tag off exactly when it ends it. */
  lemma {:induction false} ClosesIff(d: Dictionary, toks: seq<Token>, i: nat)
    requires |d.tags| == 256 && TokensOk(d, toks) && i < |toks|
    ensures var s, r := Run(d, Start(), toks[..i]), Run(d, Start(), toks[..i + 1]);
      |r.stack| < |s.stack| <==> Ends(d, s, toks[i])
  {
    hide Run, SkipFollows, ArenaFollows, WarningsFollow, AttributesFollow;
    RunFollows(d, toks);
    assert FollowsAt(d, toks, i);
    EndsOpen(d, Run(d, Start(), toks[..i]), toks[i]);
  }

  lemma {:induction false} EndsOpen(d: Dictionary, s: State, tok: Token)
    requires |d.tags| == 256 && Shape(s)
    ensures Ends(d, s, tok) ==> s.stack != [] && !Enters(d, s, tok)
  {
  }

  /** The bytes that lie in no frame. */
  lemma {:induction false} DropsIff(d: Dictionary, s: State, tok: Token)
    requires |d.tags| == 256 && Shape(s) && StackInv(d, s)
    ensures Drops(d, s, tok) <==> Unframed(d, s, tok)
  {
    Opened(d, s);
    hide StackInv;
  }
}
