/** Tokenization as a function, and what it guarantees for every dictionary and input. */
module TokenizerSpec {
  import opened Markup
  import opened Plans
  import opened Scanning
  import opened Actions
  import opened ParserSpec
  import opened Widths
  import opened TextAccounting

  /** The tokenizer between two bytes: next position, start of the pending text, and its output. */
  datatype Progress = Progress(i: nat, textStart: nat, tokens: seq<Token>, counts: Counts, warns: seq<Warning>,
                               textTokens: nat, textByteLen: int)

  const NO_COUNTS := Counts(0, 0, 0, 0, 0)

  function Begin(warns: seq<Warning>): Progress {
    Progress(0, 0, [], NO_COUNTS, warns, 0, 0)
  }

  function TextBetween(start: nat, upto: nat): Token {
    Token(TextToken, 0, start, upto - start, Span(start, upto), Span(0, 0))
  }

  /** Emits the pending text, if any, up to position `upto`. */
  function Flush(p: Progress, upto: nat): (r: Progress)
    requires p.textStart <= upto
  {
    if p.textStart == upto then p
    else p.(tokens := p.tokens + [TextBetween(p.textStart, upto)], textTokens := p.textTokens + 1,
            textByteLen := p.textByteLen + (upto - p.textStart))
  }

  ghost predicate ProgressOk(e: Env, p: Progress) {
    WfEnv(e) && p.textStart <= p.i <= |e.input|
  }

  function GreedyPayload(d: Dictionary, tok: Token): int
    requires |d.tags| == 256
  {
    if tok.typ == TagToken && d.tags[tok.trigger].greed != NonGreedy && tok.payload.end > tok.payload.start
    then tok.payload.end - tok.payload.start else 0
  }

  /** One turn of the loop. */
  function Turn(e: Env, p: Progress): (r: Progress)
    requires ProgressOk(e, p) && p.i < |e.input|
    ensures ProgressOk(e, r) && r.i > p.i
  {
    if !HasAction(e.d, e.input[p.i]) then p.(i := p.i + 1)
    else
      var c := Act(e, Reset(p.i, p.counts, p.warns));
      if c.skip then p.(i := p.i + c.stride, counts := c.counts, warns := c.warns)
      else
        var f, g := Flush(p, p.i), GreedyPayload(e.d, c.token);
        Progress(p.i + c.stride, p.i + c.stride, f.tokens + [c.token], c.counts, c.warns,
                 f.textTokens + (if g > 0 then 1 else 0), f.textByteLen + g)
  }

  function Loop(e: Env, p: Progress): (r: Progress)
    requires ProgressOk(e, p)
    ensures ProgressOk(e, r) && r.i == |e.input|
    decreases |e.input| - p.i
  {
    if p.i == |e.input| then p else Loop(e, Turn(e, p))
  }

  function Tokenized(e: Env, warns: seq<Warning>): (r: Progress)
    requires WfEnv(e)
  {
    Flush(Loop(e, Begin(warns)), |e.input|)
  }

  // ---- lossless tokenization ----

  lemma {:induction false} TileAppend(toks: seq<Token>, tok: Token)
    requires Tile(toks, tok.pos) && tok.width >= 1
    ensures Tile(toks + [tok], tok.pos + tok.width)
  {
    assert (toks + [tok])[..|toks|] == toks;
  }

  /** Attribute keys lie in the n bytes read. */
  ghost predicate KeysInside(toks: seq<Token>, n: nat) {
    forall i :: 0 <= i < |toks| ==> 0 <= toks[i].attrKey.start <= toks[i].attrKey.end <= n
  }

  /** Emitted tokens tile the input up to the pending text, carry registered tags, and contain
   *  their payloads. */
  ghost predicate Lossless(e: Env, p: Progress)
    requires ProgressOk(e, p)
  {
    Tile(p.tokens, p.textStart) && TokensOk(e.d, p.tokens) && PayloadsInside(p.tokens) && KeysInside(p.tokens, |e.input|)
  }

  lemma {:induction false} FlushLossless(e: Env, p: Progress, upto: nat)
    requires ProgressOk(e, p) && Lossless(e, p) && p.textStart <= upto <= |e.input|
    ensures var f := Flush(p, upto);
      Tile(f.tokens, upto) && TokensOk(e.d, f.tokens) && PayloadsInside(f.tokens) && KeysInside(f.tokens, |e.input|)
  {
    if p.textStart < upto {
      TileAppend(p.tokens, TextBetween(p.textStart, upto));
    }
  }

  lemma {:induction false} TurnLossless(e: Env, p: Progress)
    requires ProgressOk(e, p) && p.i < |e.input| && Lossless(e, p)
    ensures Lossless(e, Turn(e, p))
  {
    hide Act, Flush, Tile;
    if HasAction(e.d, e.input[p.i]) {
      var c := Act(e, Reset(p.i, p.counts, p.warns));
      if !c.skip {
        FlushLossless(e, p, p.i);
        TileAppend(Flush(p, p.i).tokens, c.token);
        assert PayloadInside(c.token);
        ZeroUnregistered(e.d, c.token.trigger);
      }
    }
  }

  lemma {:induction false} ZeroUnregistered(d: Dictionary, b: Byte)
    requires WfDictionary(d)
    ensures Registered(d, b) ==> b != 0
  {
  }

  lemma {:induction false} LoopLossless(e: Env, p: Progress)
    requires ProgressOk(e, p) && Lossless(e, p)
    ensures Lossless(e, Loop(e, p))
    decreases |e.input| - p.i
  {
    hide Turn, Lossless;
    if p.i < |e.input| {
      TurnLossless(e, p);
      LoopLossless(e, Turn(e, p));
    }
  }

  /** For any dictionary and input, the tokens lie side by side and cover the whole input; every
   *  tag token carries a registered tag and every payload lies inside its token. */
  lemma {:induction false} TokensTileInput(e: Env, warns: seq<Warning>)
    requires WfEnv(e)
    ensures var t := Tokenized(e, warns).tokens;
      Tile(t, |e.input|) && TokensOk(e.d, t) && PayloadsInside(t) && KeysInside(t, |e.input|)
  {
    hide Loop;
    LoopLossless(e, Begin(warns));
    FlushLossless(e, Loop(e, Begin(warns)), |e.input|);
  }

  // ---- the counters ----

  predicate IsTag(tok: Token) {
    tok.typ == TagToken
  }

  /** Tags counted as universal, opening or closing: greedy openers are counted in the total only. */
  predicate IsUniversalTag(d: Dictionary, tok: Token)
    requires |d.tags| == 256
  {
    IsTag(tok) && d.tags[tok.trigger].IsUniversal() && d.tags[tok.trigger].greed == NonGreedy
  }

  predicate IsOpenTag(d: Dictionary, tok: Token)
    requires |d.tags| == 256
  {
    IsTag(tok) && !d.tags[tok.trigger].IsUniversal() && d.tags[tok.trigger].IsOpening() && d.tags[tok.trigger].greed == NonGreedy
  }

  predicate IsCloseTag(d: Dictionary, tok: Token)
    requires |d.tags| == 256
  {
    IsTag(tok) && d.tags[tok.trigger].IsClosing()
  }

  predicate IsAttr(tok: Token) {
    tok.typ == AttributeKV || tok.typ == AttributeFlag
  }

  function Add(n: Counts, d: Dictionary, tok: Token): Counts
    requires |d.tags| == 256
  {
    Counts(n.tagsTotal + (if IsTag(tok) then 1 else 0),
           n.universalTags + (if IsUniversalTag(d, tok) then 1 else 0),
           n.openTags + (if IsOpenTag(d, tok) then 1 else 0),
           n.closeTags + (if IsCloseTag(d, tok) then 1 else 0),
           n.attributes + (if IsAttr(tok) then 1 else 0))
  }

  /** The counts of a token sequence. */
  function CountsOf(d: Dictionary, toks: seq<Token>): Counts
    requires |d.tags| == 256
  {
    if toks == [] then NO_COUNTS else Add(CountsOf(d, toks[..|toks| - 1]), d, toks[|toks| - 1])
  }

  lemma {:induction false} CountsAppend(d: Dictionary, toks: seq<Token>, tok: Token)
    requires |d.tags| == 256
    ensures CountsOf(d, toks + [tok]) == Add(CountsOf(d, toks), d, tok)
    ensures TokensText(d, toks + [tok]) == TokensText(d, toks) + TokenText(d, tok)
  {
    assert (toks + [tok])[..|toks|] == toks;
  }

  /** Steps that neither count nor emit. */
  predicate Silent(s: PlanStep) {
    !s.EmitEntireTag? && !s.CountTag? && !s.CountCloseTag? && !s.CountOpenTag? && !s.CountUniversalTag?
  }

  ghost predicate AllSilent(steps: seq<PlanStep>) {
    forall i :: 0 <= i < |steps| ==> Silent(steps[i])
  }

  /** A silent front either settles the case by skipping, with nothing counted, or leaves it to the rest. */
  lemma {:induction false} SilentFront(e: Env, front: seq<PlanStep>, rest: seq<PlanStep>, c: Ctx) returns (m: Ctx)
    requires CtxOk(e, c) && AllSilent(front)
    ensures CtxOk(e, m) && m.idx == c.idx && m.counts == c.counts
    ensures var r := RunPlan(e, front + rest, c);
      (r.skip && r.counts == c.counts) || r == RunPlan(e, rest, m)
    decreases |front|
  {
    hide Mutate, Handles, Settle;
    if front == [] {
      m := c;
      assert front + rest == rest;
    } else {
      assert (front + rest)[1..] == front[1..] + rest;
      assert (front + rest)[0] == front[0];
      SilentMutate(e, front[0], c);
      if Handles(e, front[0], c) {
        m := c;
      } else {
        m := SilentFront(e, front[1..], rest, Mutate(e, front[0], c));
      }
    }
  }

  lemma {:induction false} SilentMutate(e: Env, s: PlanStep, c: Ctx)
    requires CtxOk(e, c) && Silent(s)
    ensures Mutate(e, s, c).counts == c.counts
  {
    hide FindClosing, Best, Contains, RunLen;
    match s
    case CheckTagVsContentStep => TvcCounts(e, c);
    case _ =>
  }

  lemma {:induction false} TvcCounts(e: Env, c: Ctx)
    requires CtxOk(e, c)
    ensures CheckTagVsContent(e, c).counts == c.counts
  {
  }

  /** A counting step directly before the emission. */
  lemma {:induction false} CountThenEmit(e: Env, s: PlanStep, c: Ctx)
    requires CtxOk(e, c) && (s.CountTag? || s.CountCloseTag? || s.CountOpenTag? || s.CountUniversalTag?)
    ensures var r := RunPlan(e, [s, EmitEntireTag], c);
      !r.skip && r.counts == Counted(s, c.counts)
  {
    assert [s, EmitEntireTag][1..] == [EmitEntireTag];
    assert !Handles(e, s, c);
  }

  /** What a tag's plan counts when it emits. */
  function CountOf(t: Tag): PlanStep {
    if t.IsUniversal() then (if t.greed == NonGreedy then CountUniversalTag else CountTag)
    else if t.IsOpening() then (if t.greed == NonGreedy then CountOpenTag else CountTag)
    else CountCloseTag
  }

  /** Every plan is a silent front, ending in one counting step and the emission or in nothing. */
  lemma {:induction false} PlanShape(t: Tag) returns (front: seq<PlanStep>)
    ensures AllSilent(front)
    ensures if t.IsUniversal() || t.IsOpening() || t.IsClosing()
            then PlanOf(t) == front + [CountOf(t), EmitEntireTag]
            else PlanOf(t) == front + []
  {
    hide SingleCharUniversalPlan, MultiCharUniversalPlan;
    var tail := [CountOf(t), EmitEntireTag];
    var head := if |t.sequence| == 1 then [PrepareSingleCharStep]
                else [CheckMultiCharSeqStep, WarnInvalidSeqStep, SkipInvalidTrigger];
    if !t.IsUniversal() && !t.IsOpening() {
      if t.IsClosing() {
        front := head + [WarnCloseAfterStartStep, SkipCloseAfterStart];
        assert PlanOf(t) == front + tail;
      } else {
        front := head;
      }
    } else {
      var mid := UniversalShape(t);
      if t.IsUniversal() {
        front := head + mid;
      } else {
        front := head + BEFORE_EOL + mid;
      }
      assert PlanOf(t) == front + tail;
    }
  }

  lemma {:induction false} UniversalShape(t: Tag) returns (mid: seq<PlanStep>)
    requires t.IsUniversal() || t.IsOpening()
    ensures AllSilent(mid)
    ensures if |t.sequence| == 1 then SingleCharUniversalPlan(t) == mid + [CountOf(t), EmitEntireTag]
            else MultiCharUniversalPlan(t) == mid + [CountOf(t), EmitEntireTag]
  {
    if |t.sequence| == 1 {
      match t.greed {
        case NonGreedy => mid := if t.rule == RuleInfraWord then [InfraWordCheck] else [];
        case Greedy => mid := CloseTagCheck(t) + [WarnUnclosedStep, SkipUnclosedOpen];
        case Grasping => mid := CloseTagCheck(t) + [WarnUnclosedStep];
      }
    } else {
      match t.greed {
        case NonGreedy => mid := [];
        case Greedy => mid := [CheckCloseStep, WarnUnclosedStep, WarnPayloadTooLongStep, SkipUnclosedOpen];
        case Grasping => mid := [CheckCloseStep, WarnUnclosedStep, WarnPayloadTooLongStep];
      }
    }
  }

  /** A tag action counts exactly what it emits. */
  lemma {:induction false} ActTagCounts(e: Env, c: Ctx)
    requires CtxOk(e, c)
    ensures var r := ActTag(e, c);
      r.counts == if r.skip then c.counts else Add(c.counts, e.d, r.token)
  {
    hide RunPlan, PlanOf;
    var t := TagOf(e, c);
    var front := PlanShape(t);
    if t.IsUniversal() || t.IsOpening() || t.IsClosing() {
      var m := SilentFront(e, front, [CountOf(t), EmitEntireTag], c);
      CountThenEmit(e, CountOf(t), m);
    } else {
      var m := SilentFront(e, front, [], c);
      EmptyPlan(e, m);
    }
  }

  lemma {:induction false} EmptyPlan(e: Env, c: Ctx)
    requires CtxOk(e, c)
    ensures RunPlan(e, [], c).skip && RunPlan(e, [], c).counts == c.counts
  {
  }

  /** Tokens whose text the tokenizer counts. */
  predicate HasText(d: Dictionary, tok: Token)
    requires |d.tags| == 256
  {
    tok.typ == TextToken || GreedyPayload(d, tok) > 0
  }

  function TextTokensOf(d: Dictionary, toks: seq<Token>): nat
    requires |d.tags| == 256
  {
    if toks == [] then 0
    else TextTokensOf(d, toks[..|toks| - 1]) + (if HasText(d, toks[|toks| - 1]) then 1 else 0)
  }

  lemma {:induction false} TextTokensAppend(d: Dictionary, toks: seq<Token>, tok: Token)
    requires |d.tags| == 256
    ensures TextTokensOf(d, toks + [tok]) == TextTokensOf(d, toks) + (if HasText(d, tok) then 1 else 0)
  {
    assert (toks + [tok])[..|toks|] == toks;
  }

  /** The counters agree with the tokens. */
  ghost predicate Exact(d: Dictionary, toks: seq<Token>, n: Counts, textTokens: nat, textByteLen: int)
    requires |d.tags| == 256
  {
    n == CountsOf(d, toks) && textByteLen == TokensText(d, toks) && textTokens == TextTokensOf(d, toks)
  }

  ghost predicate CountersExact(e: Env, p: Progress)
    requires WfEnv(e)
  {
    Exact(e.d, p.tokens, p.counts, p.textTokens, p.textByteLen)
  }

  lemma {:induction false} FlushExact(e: Env, p: Progress, upto: nat)
    requires WfEnv(e) && CountersExact(e, p) && p.textStart <= upto
    ensures CountersExact(e, Flush(p, upto)) && Flush(p, upto).counts == p.counts
  {
    hide CountsOf, TokensText, TextTokensOf;
    if p.textStart < upto {
      CountsAppend(e.d, p.tokens, TextBetween(p.textStart, upto));
      TextTokensAppend(e.d, p.tokens, TextBetween(p.textStart, upto));
    }
  }

  lemma {:induction false} EmitExact(d: Dictionary, toks: seq<Token>, n: Counts, textTokens: nat, textByteLen: int, tok: Token)
    requires |d.tags| == 256 && Exact(d, toks, n, textTokens, textByteLen)
    requires tok.typ != TextToken && tok.payload.start <= tok.payload.end
    ensures var g := GreedyPayload(d, tok);
      Exact(d, toks + [tok], Add(n, d, tok), textTokens + (if g > 0 then 1 else 0), textByteLen + g)
  {
    hide CountsOf, TokensText, TextTokensOf;
    CountsAppend(d, toks, tok);
    TextTokensAppend(d, toks, tok);
  }

  lemma {:induction false} ActCounts(e: Env, c: Ctx)
    requires WfEnv(e) && c.idx < |e.input| && HasAction(e.d, e.input[c.idx]) && c == Reset(c.idx, c.counts, c.warns)
    ensures var r := Act(e, c);
      r.counts == if r.skip then c.counts else Add(c.counts, e.d, r.token)
  {
    hide ActTag, ActEscape, ActAttribute;
    if e.d.actions[e.input[c.idx]].TagAction? {
      assert ActionOk(e.d, e.input[c.idx]);
      ActTagCounts(e, c);
    }
  }

  lemma {:induction false} TurnExact(e: Env, p: Progress)
    requires ProgressOk(e, p) && p.i < |e.input| && CountersExact(e, p)
    ensures CountersExact(e, Turn(e, p))
  {
    hide Act, Flush, Exact, Add, GreedyPayload;
    if HasAction(e.d, e.input[p.i]) {
      var c := Act(e, Reset(p.i, p.counts, p.warns));
      ActCounts(e, Reset(p.i, p.counts, p.warns));
      if !c.skip {
        FlushExact(e, p, p.i);
        var f := Flush(p, p.i);
        EmitExact(e.d, f.tokens, f.counts, f.textTokens, f.textByteLen, c.token);
      }
    }
  }

  lemma {:induction false} LoopExact(e: Env, p: Progress)
    requires ProgressOk(e, p) && CountersExact(e, p)
    ensures CountersExact(e, Loop(e, p))
    decreases |e.input| - p.i
  {
    hide Turn, CountersExact;
    if p.i < |e.input| {
      TurnExact(e, p);
      LoopExact(e, Turn(e, p));
    }
  }

  /** The tokenizer's tag, attribute and text counters are the counts over the tokens it emits. */
  lemma {:induction false} CountersAreExact(e: Env, warns: seq<Warning>)
    requires WfEnv(e)
    ensures CountersExact(e, Tokenized(e, warns))
  {
    hide Loop;
    LoopExact(e, Begin(warns));
    FlushExact(e, Loop(e, Begin(warns)), |e.input|);
  }
}
