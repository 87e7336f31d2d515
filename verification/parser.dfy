/** The parser as it runs: a mutable state over a linked arena, driven token by token.
 *
 *  `abs` is the abstract state of ParserSpec; `Valid` ties every field to it.  Each method is
 *  proved to take `abs` exactly where its counterpart in ParserSpec does.
 */
module Parser {
  import opened Markup
  import opened Forests
  import opened ParserSpec
  import opened Arena

  /** The tree a parse delivers, with its statistics. */
  datatype AST = AST(nodes: seq<Node>, attributes: seq<Attribute>, maxDepth: nat, textByteLen: int,
                     totalTagNodes: nat, totalTextNodes: nat)

  /** The statistics of a tokenizer run the parser uses. */
  datatype TokenCounts = TokenCounts(textByteLen: int, textTokens: nat)

  class ParserState {
    var nodes: seq<Node>
    var attributes: seq<Attribute>
    var breadcrumbs: seq<nat>
    var cumWidth: seq<int>
    const skip: array<nat>
    const openedTags: array<bool>
    var stack: seq<Byte>
    var maxDepth: nat
    var lastNodeIdx: nat
    var totalTagNodes: nat
    var textNodes: nat
    var textByteLen: int
    var warnedMaxNodes: bool
    var warnedMaxAttributes: bool
    var warnedMaxParseDepth: bool
    var warns: seq<Warning>

    ghost var abs: State

    ghost predicate Valid()
      reads this, skip, openedTags
    {
      && Shape(abs) && Forests.Valid(abs.par)
      && IsLinked(nodes, abs.par, abs.labels)
      && |attributes| == |abs.attrs| && (forall i :: 0 <= i < |attributes| ==> attributes[i] == abs.attrs[i].attr)
      && breadcrumbs == abs.crumbs && cumWidth == abs.widths && stack == abs.stack
      && skip[..] == abs.skip && openedTags[..] == abs.isOpen
      && maxDepth == abs.maxDepth && lastNodeIdx == abs.last && totalTagNodes == abs.tagNodes
      && textNodes == abs.textNodes && textByteLen == abs.textLen
      && warnedMaxNodes == abs.warnedNodes && warnedMaxAttributes == abs.warnedAttributes
      && warnedMaxParseDepth == abs.warnedDepth && warns == abs.warns
    }

    constructor ()
      ensures Valid() && abs == Start() && fresh(skip) && fresh(openedTags)
    {
      nodes := [Node(ROOT, -1, -1, -1, 0)];
      attributes, breadcrumbs, cumWidth, stack := [], [0], [0], [];
      skip, openedTags := new nat[256](i => 0), new bool[256](i => false);
      maxDepth, lastNodeIdx, totalTagNodes, textNodes, textByteLen := 1, 0, 0, 0, 0;
      warnedMaxNodes, warnedMaxAttributes, warnedMaxParseDepth, warns := false, false, false, [];
      abs := Start();
      new;
      assert Kids([-1], 0) == [] by {
        KidsBeyond([], 0);
        KidsAppend([], -1, 0);
        assert [] + [-1] == [-1];
      }
    }

    function PeekCrumb(): nat
      requires |breadcrumbs| > 0
      reads this
    {
      breadcrumbs[|breadcrumbs| - 1]
    }

    function PeekStack(): Byte
      reads this
    {
      if stack == [] then 0 else stack[|stack| - 1]
    }

    method AddWarning(w: Warning)
      requires Valid()
      modifies this`warns, this`abs
      ensures Valid() && abs == Log(old(abs), w)
    {
      warns := warns + [w];
      abs := Log(abs, w);
    }

    method IncrementCumWidth(w: int)
      requires Valid()
      modifies this`cumWidth, this`abs
      ensures Valid() && abs == AddWidth(old(abs), w)
    {
      var k := |cumWidth| - 1;
      cumWidth := cumWidth[k := cumWidth[k] + w];
      abs := AddWidth(abs, w);
    }

    method WarnMaxNodesOnce(pos: int)
      requires Valid()
      modifies this`warns, this`warnedMaxNodes, this`abs
      ensures Valid() && abs == WarnNodes(old(abs), pos)
    {
      if warnedMaxNodes { return; }
      warnedMaxNodes := true;
      abs := abs.(warnedNodes := true);
      AddWarning(Warn(MaxNodesExceeded, pos));
    }

    method WarnMaxAttributesOnce(pos: int)
      requires Valid()
      modifies this`warns, this`warnedMaxAttributes, this`abs
      ensures Valid() && abs == WarnAttributes(old(abs), pos)
    {
      if warnedMaxAttributes { return; }
      warnedMaxAttributes := true;
      abs := abs.(warnedAttributes := true);
      AddWarning(Warn(MaxAttributesExceeded, pos));
    }

    method WarnMaxParseDepthOnce(pos: int)
      requires Valid()
      modifies this`warns, this`warnedMaxParseDepth, this`abs
      ensures Valid() && abs == WarnDepth(old(abs), pos)
    {
      if warnedMaxParseDepth { return; }
      warnedMaxParseDepth := true;
      abs := abs.(warnedDepth := true);
      AddWarning(Warn(MaxParseDepthExceeded, pos));
    }

    /** Appends an unlinked node and links it as the last child of `parent`. */
    method AppendArenaNode(parent: nat, l: Label) returns (idx: nat)
      requires Valid() && parent < |nodes|
      modifies this`nodes, this`abs
      ensures Valid() && abs == AppendNode(old(abs), parent, l) && idx == old(|nodes|)
    {
      ghost var was := nodes;
      AppendLinks(nodes, abs.par, abs.labels, parent, l);
      idx := |nodes|;
      nodes := nodes + [Node(l, -1, -1, -1, 0)];
      var p := nodes[parent];
      p := p.(childCount := p.childCount + 1);
      if p.firstChild == -1 {
        nodes := nodes[parent := p.(firstChild := idx, lastChild := idx)];
      } else {
        var c := p.lastChild;
        nodes := nodes[c := nodes[c].(nextSibling := idx)];
        nodes := nodes[parent := p.(lastChild := idx)];
      }
      assert nodes == Relinked(was, parent, l);
      abs := AppendNode(abs, parent, l);
    }

    /** As `AppendArenaNode`, unless the node limit is reached. */
    method AppendStateNode(lim: Limits, parent: nat, l: Label, pos: int) returns (idx: int, ok: bool)
      requires Valid() && parent < |nodes|
      modifies this`nodes, this`warns, this`warnedMaxNodes, this`abs
      ensures Valid() && ok == !NodesFull(lim, old(abs))
      ensures abs == if ok then AppendNode(old(abs), parent, l) else WarnNodes(old(abs), pos)
      ensures idx == if ok then old(|nodes|) else -1
    {
      if lim.maxNodes > 0 && |nodes| >= lim.maxNodes {
        WarnMaxNodesOnce(pos);
        return -1, false;
      }
      idx := AppendArenaNode(parent, l);
      ok := true;
    }

    method ProcessTextToken(lim: Limits, tok: Token)
      requires Valid()
      modifies this
      ensures Valid() && abs == ProcessText(lim, old(abs), tok)
    {
      var idx, ok := AppendStateNode(lim, PeekCrumb(), TextLabel(tok.payload), tok.pos);
      if ok {
        lastNodeIdx := idx;
        abs := abs.(last := idx);
      }
      IncrementCumWidth(tok.width);
    }

    method ProcessAttributeToken(lim: Limits, tok: Token)
      requires Valid()
      modifies this
      ensures Valid() && abs == ProcessAttribute(lim, old(abs), tok)
    {
      if lim.maxAttributes > 0 && |attributes| >= lim.maxAttributes {
        WarnMaxAttributesOnce(tok.pos);
        return;
      }
      ghost var r := ProcessAttribute(lim, abs, tok);
      assert nodes[lastNodeIdx] == NodeOf(abs.par, abs.labels, lastNodeIdx);
      RelabelLinks(nodes, abs.par, abs.labels, lastNodeIdx, r.labels[lastNodeIdx]);
      var attrIdx := |attributes|;
      attributes := attributes + [Attribute(tok.attrKey, tok.payload, tok.typ == AttributeFlag)];
      var l := nodes[lastNodeIdx].info;
      if l.attrs.len == 0 {
        l := l.(attrs := l.attrs.(start := attrIdx));
      }
      l := l.(attrs := l.attrs.(len := l.attrs.len + 1));
      nodes := nodes[lastNodeIdx := nodes[lastNodeIdx].(info := l)];
      abs := r;
    }

    method AppendGreedyNode(lim: Limits, tok: Token)
      requires Valid()
      modifies this
      ensures Valid() && abs == AppendGreedy(lim, old(abs), tok)
    {
      hide NodeOf;
      var parentIdx, ok := AppendStateNode(lim, PeekCrumb(), TagLabel(tok), tok.pos);
      if !ok {
        IncrementCumWidth(tok.width);
        return;
      }
      var nodeIdx, added := AppendStateNode(lim, parentIdx, TextLabel(tok.payload), tok.payload.start);
      if added {
        lastNodeIdx := nodeIdx;
      } else {
        lastNodeIdx := parentIdx;
      }
      abs := abs.(last := lastNodeIdx);
      IncrementCumWidth(tok.width);
    }

    method SkipOneMore(c: Byte)
      requires Valid()
      modifies skip, this`abs
      ensures Valid() && abs == old(abs).(skip := old(abs).skip[c := old(abs).skip[c] + 1])
    {
      skip[c] := skip[c] + 1;
      abs := abs.(skip := abs.skip[c := abs.skip[c] + 1]);
      assert skip[..] == abs.skip;
    }

    method OmitOpeningTag(d: Dictionary, tok: Token)
      requires Valid() && |d.tags| == 256
      modifies this, skip
      ensures Valid() && abs == OmitOpening(d, old(abs), tok)
    {
      IncrementCumWidth(tok.width);
      var closeID := d.tags[tok.trigger].closeID;
      if closeID != 0 {
        SkipOneMore(closeID);
      }
    }

    method ProcessOpeningTag(d: Dictionary, tok: Token)
      requires Valid() && |d.tags| == 256
      modifies this, skip, openedTags
      ensures Valid() && abs == ProcessOpening(d, old(abs), tok)
    {
      hide NodeOf, OmitOpening;
      if openedTags[tok.trigger] {
        AddWarning(Warning(DuplicateNestedTag, tok.pos, tok.trigger, 0, 0, 0));
        SkipOneMore(d.tags[tok.trigger].closeID);
        return;
      }
      if d.limits.maxParseDepth > 0 && |stack| >= d.limits.maxParseDepth {
        WarnMaxParseDepthOnce(tok.pos);
        OmitOpeningTag(d, tok);
        return;
      }
      var idx, ok := AppendStateNode(d.limits, PeekCrumb(), TagLabel(tok), tok.pos);
      if !ok {
        OmitOpeningTag(d, tok);
        return;
      }
      EnterTag(idx, tok);
    }

    method MarkOpen(b: Byte)
      requires Valid()
      modifies this`abs, openedTags
      ensures Valid() && abs == old(abs).(isOpen := old(abs).isOpen[b := true])
    {
      hide IsLinked, Forests.Valid;
      openedTags[b] := true;
      abs := abs.(isOpen := abs.isOpen[b := true]);
      assert openedTags[..] == abs.isOpen;
    }

    /** Puts node idx on the three stacks. */
    method PushFrame(idx: nat, tok: Token)
      requires Valid() && idx < |abs.par|
      modifies this`breadcrumbs, this`stack, this`cumWidth, this`abs
      ensures Valid() && abs == Pushed(old(abs), idx, tok)
    {
      hide IsLinked, Forests.Valid, Shape;
      breadcrumbs := breadcrumbs + [idx];
      stack := stack + [tok.trigger];
      cumWidth := cumWidth + [tok.width];
      abs := Pushed(abs, idx, tok);
    }

    /** Enters the tag whose node, the arena's last, was just appended. */
    method EnterTag(idx: nat, tok: Token)
      requires Valid() && idx == |abs.par| - 1
      modifies this`breadcrumbs, this`stack, this`maxDepth, this`cumWidth, this`lastNodeIdx, this`totalTagNodes,
               this`abs, openedTags
      ensures Valid()
      ensures abs == Pushed(old(abs), idx, tok).(
        maxDepth := if |old(abs).stack| + 1 > old(abs).maxDepth then |old(abs).stack| + 1 else old(abs).maxDepth,
        last := idx, isOpen := old(abs).isOpen[tok.trigger := true], tagNodes := old(abs).tagNodes + 1)
    {
      hide IsLinked, Forests.Valid;
      PushFrame(idx, tok);
      if |stack| > maxDepth {
        maxDepth := |stack|;
      }
      lastNodeIdx := idx;
      totalTagNodes := totalTagNodes + 1;
      abs := abs.(maxDepth := maxDepth, last := idx, tagNodes := totalTagNodes);
      MarkOpen(tok.trigger);
    }

    /** Pops the stacks and gives the innermost open tag its end. */
    method CloseInnermost(tok: Token)
      requires Valid() && |stack| > 0
      modifies this, openedTags
      ensures Valid() && abs == CloseTag(old(abs), tok)
    {
      var k := |breadcrumbs| - 1;
      var idx := breadcrumbs[k];
      ghost var r := CloseTag(abs, tok);
      assert nodes[idx] == NodeOf(abs.par, abs.labels, idx);
      RelabelLinks(nodes, abs.par, abs.labels, idx, r.labels[idx]);
      breadcrumbs := breadcrumbs[..k];
      lastNodeIdx := idx;
      var total := cumWidth[k] + tok.width;
      cumWidth := cumWidth[..k][k - 1 := cumWidth[k - 1] + total];
      var l := nodes[idx].info;
      nodes := nodes[idx := nodes[idx].(info := l.(span := Span(l.span.start, l.span.start + total)))];
      var openTagID := stack[|stack| - 1];
      stack := stack[..|stack| - 1];
      openedTags[openTagID] := false;
      abs := r;
      assert openedTags[..] == abs.isOpen;
    }

    method ProcessClosingTag(d: Dictionary, tok: Token)
      requires Valid() && |d.tags| == 256
      modifies this, openedTags
      ensures Valid() && abs == ProcessClosing(d, old(abs), tok)
    {
      hide CloseTag, ProcessText, IsLinked;
      var stacked, tag := PeekStack(), d.tags[tok.trigger];
      if stacked == 0 {
        AddWarning(Warning(MisplacedClosingTag, tok.pos, tok.trigger, 0, tag.openID, 0));
        return;
      }
      if d.tags[stacked].closeID != tok.trigger && tag.openID != stacked {
        AddWarning(Warning(OpenCloseTagMismatch, tok.pos, tok.trigger, 0, stacked, 0));
        textByteLen := textByteLen + tok.width;
        textNodes := textNodes + 1;
        abs := abs.(textLen := abs.textLen + tok.width, textNodes := abs.textNodes + 1);
        ProcessTextToken(d.limits, tok.(typ := TextToken, payload := Span(tok.pos, tok.pos + tok.width)));
        return;
      }
      CloseInnermost(tok);
    }

    method ProcessUniversalTag(d: Dictionary, tok: Token)
      requires Valid() && |d.tags| == 256 && tok.trigger != 0
      modifies this, skip, openedTags
      ensures Valid() && abs == ProcessUniversal(d, old(abs), tok)
    {
      if openedTags[tok.trigger] && PeekStack() == tok.trigger {
        CloseInnermost(tok);
      } else {
        ProcessOpeningTag(d, tok);
      }
    }

    method ProcessTagToken(d: Dictionary, tok: Token)
      requires Valid() && |d.tags| == 256 && tok.trigger != 0
      modifies this, skip, openedTags
      ensures Valid() && abs == ProcessTag(d, old(abs), tok)
    {
      if skip[tok.trigger] > 0 {
        skip[tok.trigger] := skip[tok.trigger] - 1;
        abs := abs.(skip := abs.skip[tok.trigger := abs.skip[tok.trigger] - 1]);
        assert skip[..] == abs.skip;
        return;
      }
      var tag := d.tags[tok.trigger];
      if tag.greed != NonGreedy {
        AppendGreedyNode(d.limits, tok);
      } else if tag.IsUniversal() {
        ProcessUniversalTag(d, tok);
      } else if tag.IsOpening() {
        ProcessOpeningTag(d, tok);
      } else if tag.IsClosing() {
        ProcessClosingTag(d, tok);
      }
    }

    method ProcessToken(d: Dictionary, tok: Token)
      requires Valid() && |d.tags| == 256 && TokenOk(d, tok)
      modifies this, skip, openedTags
      ensures Valid() && abs == Step(d, old(abs), tok)
    {
      match tok.typ
      case TextToken => ProcessTextToken(d.limits, tok);
      case TagToken => ProcessTagToken(d, tok);
      case _ => ProcessAttributeToken(d.limits, tok);
    }

    /** Closes the innermost open tag at the end of the input. */
    method ForceCloseInnermost(d: Dictionary)
      requires Valid() && |d.tags| == 256 && |stack| > 0
      modifies this, openedTags
      ensures Valid() && abs == ForceCloseOne(d, old(abs))
    {
      var idx, last := PeekCrumb(), lastNodeIdx;
      var start, id := nodes[idx].info.span.start, PeekStack();
      assert nodes[idx] == NodeOf(abs.par, abs.labels, idx);
      CloseInnermost(Token(TagToken, 0, 0, 0, Span(0, 0), Span(0, 0)));
      lastNodeIdx := last;
      abs := abs.(last := last);
      AddWarning(Warning(UnclosedTag, start, id, d.tags[id].closeID, 0, 0));
    }

    method ForceCloseAll(d: Dictionary)
      requires Valid() && |d.tags| == 256
      modifies this, openedTags
      ensures Valid() && abs == ForceClose(d, old(abs))
    {
      hide IsLinked, Forests.Valid, ForceCloseOne;
      while |breadcrumbs| > 1
        invariant Valid() && ForceClose(d, abs) == ForceClose(d, old(abs))
        decreases |stack|
      {
        ForceCloseInnermost(d);
      }
    }

    /** Sets the root's span and gathers the statistics. */
    method Finished(counts: TokenCounts) returns (ast: AST)
      requires Valid()
      ensures var s := RootClosed(abs);
        && Forests.Valid(s.par) && IsLinked(ast.nodes, s.par, s.labels)
        && |ast.attributes| == |s.attrs| && (forall i :: 0 <= i < |ast.attributes| ==> ast.attributes[i] == s.attrs[i].attr)
        && ast.maxDepth == s.maxDepth && ast.totalTagNodes == s.tagNodes
        && ast.textByteLen == s.textLen + counts.textByteLen && ast.totalTextNodes == s.textNodes + counts.textTokens
    {
      var root := nodes[0];
      assert root == NodeOf(abs.par, abs.labels, 0);
      var l := root.info.(span := Span(root.info.span.start, cumWidth[0]));
      RelabelLinks(nodes, abs.par, abs.labels, 0, l);
      ast := AST(nodes[0 := root.(info := l)], attributes, maxDepth, textByteLen + counts.textByteLen, totalTagNodes,
                 textNodes + counts.textTokens);
    }
  }

  /** Parses a token stream: the arena it returns is that of the tree ParserSpec.Parsed denotes. */
  method ParseTokens(d: Dictionary, toks: seq<Token>, counts: TokenCounts)
    returns (ast: AST, warns: seq<Warning>)
    requires |d.tags| == 256 && TokensOk(d, toks)
    ensures var s := Parsed(d, toks);
      && Forests.Valid(s.par) && IsLinked(ast.nodes, s.par, s.labels)
      && |ast.attributes| == |s.attrs| && (forall i :: 0 <= i < |ast.attributes| ==> ast.attributes[i] == s.attrs[i].attr)
      && ast.maxDepth == s.maxDepth && ast.totalTagNodes == s.tagNodes
      && ast.textByteLen == s.textLen + counts.textByteLen && ast.totalTextNodes == s.textNodes + counts.textTokens
      && warns == s.warns
  {
    hide Run, Parsed, Step, ForceClose, IsLinked, Forests.Valid;
    var state := new ParserState();
    RunNothing(d, Start());
    assert toks[..0] == [];
    for i := 0 to |toks|
      invariant state.Valid() && state.abs == Run(d, Start(), toks[..i])
      invariant fresh(state) && fresh(state.skip) && fresh(state.openedTags)
    {
      assert toks[..i + 1] == toks[..i] + [toks[i]];
      RunSnoc(d, Start(), toks[..i], toks[i]);
      state.ProcessToken(d, toks[i]);
    }
    assert toks[..|toks|] == toks;
    state.ForceCloseAll(d);
    ParsedIs(d, toks);
    ast := state.Finished(counts);
    warns := state.warns;
  }

  /** The root's span is all that changes at the end. */
  ghost function RootClosed(c: State): (r: State)
    requires Shape(c)
    ensures Shape(r)
  {
    var root := c.labels[0];
    c.(labels := c.labels[0 := root.(span := Span(root.span.start, c.widths[0]))])
  }

  lemma {:induction false} ParsedIs(d: Dictionary, toks: seq<Token>)
    requires |d.tags| == 256 && TokensOk(d, toks)
    ensures Parsed(d, toks) == RootClosed(ForceClose(d, Run(d, Start(), toks)))
  {
    hide Run, ForceClose;
  }

  /** The three stacks with node idx on top. */
  ghost function Pushed(s: State, idx: nat, tok: Token): (r: State)
    requires Shape(s) && idx < |s.par|
    ensures Shape(r)
  {
    s.(crumbs := s.crumbs + [idx], stack := s.stack + [tok.trigger], widths := s.widths + [tok.width])
  }
}
