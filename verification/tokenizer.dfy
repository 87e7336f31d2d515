/** The tokenizer as it runs: the context that plan steps update in place, plan assembly and
 *  execution, and the main loop, each proved against its function. */
module Tokenizer {
  import opened Markup
  import opened Plans
  import opened Scanning
  import opened Actions
  import T = TokenizerSpec

  // ---- plan assembly ----

  class Plan {
    var steps: seq<PlanStep>

    constructor ()
      ensures steps == []
    {
      steps := [];
    }

    method AddStep(s: PlanStep)
      modifies this
      ensures steps == old(steps) + [s]
    {
      steps := steps + [s];
    }

    method AddCloseTagCheck(t: Tag)
      modifies this
      ensures steps == old(steps) + CloseTagCheck(t)
    {
      if t.rule == RuleTagVsContent {
        AddStep(CheckTagVsContentStep);
        AddStep(WarnKeyTooLongStep);
      } else {
        AddStep(CheckCloseStep);
      }
      AddStep(WarnPayloadTooLongStep);
    }

    method AddCount(t: Tag)
      modifies this
      ensures steps == old(steps) + CountStep(t)
    {
      if t.IsUniversal() {
        AddStep(CountUniversalTag);
      } else if t.IsOpening() {
        AddStep(CountOpenTag);
      }
    }

    method AddSingleCharNonGreedy(t: Tag)
      requires t.greed == NonGreedy
      modifies this
      ensures steps == old(steps) + SingleCharUniversalPlan(t)
    {
      if t.rule == RuleInfraWord {
        AddStep(InfraWordCheck);
      }
      AddCount(t);
      AddStep(EmitEntireTag);
    }

    method AddSingleCharGreedy(t: Tag)
      requires t.greed == Greedy
      modifies this
      ensures steps == old(steps) + SingleCharUniversalPlan(t)
    {
      AddCloseTagCheck(t);
      AddStep(WarnUnclosedStep);
      AddStep(SkipUnclosedOpen);
      AddStep(CountTag);
      AddStep(EmitEntireTag);
    }

    method AddSingleCharGrasping(t: Tag)
      requires t.greed == Grasping
      modifies this
      ensures steps == old(steps) + SingleCharUniversalPlan(t)
    {
      AddCloseTagCheck(t);
      AddStep(WarnUnclosedStep);
      AddStep(CountTag);
      AddStep(EmitEntireTag);
    }

    method AddSingleCharUniversal(t: Tag)
      modifies this
      ensures steps == old(steps) + SingleCharUniversalPlan(t)
    {
      match t.greed {
        case NonGreedy => AddSingleCharNonGreedy(t);
        case Greedy => AddSingleCharGreedy(t);
        case Grasping => AddSingleCharGrasping(t);
      }
    }

    method AddMultiCharUniversal(t: Tag)
      modifies this
      ensures steps == old(steps) + MultiCharUniversalPlan(t)
    {
      if t.greed != NonGreedy {
        AddStep(CheckCloseStep);
        AddStep(WarnUnclosedStep);
        AddStep(WarnPayloadTooLongStep);
        if t.greed == Greedy {
          AddStep(SkipUnclosedOpen);
        }
      }
      if t.greed == NonGreedy {
        AddCount(t);
      } else {
        AddStep(CountTag);
      }
      AddStep(EmitEntireTag);
    }

    method AddClosing()
      modifies this
      ensures steps == old(steps) + ClosingPlan()
    {
      AddStep(WarnCloseAfterStartStep);
      AddStep(SkipCloseAfterStart);
      AddStep(CountCloseTag);
      AddStep(EmitEntireTag);
    }

    method AddBeforeEOL()
      modifies this
      ensures steps == old(steps) + BEFORE_EOL
    {
      AddStep(WarnOpenBeforeEOLStep);
      AddStep(SkipOpenBeforeEOL);
    }

    method AddSingleChar(t: Tag)
      requires |t.sequence| == 1 && steps == []
      modifies this
      ensures steps == PlanOf(t)
    {
      hide SingleCharUniversalPlan;
      AddStep(PrepareSingleCharStep);
      if t.IsUniversal() {
        AddSingleCharUniversal(t);
      } else if t.IsOpening() {
        AddBeforeEOL();
        AddSingleCharUniversal(t);
      } else if t.IsClosing() {
        AddClosing();
      }
    }

    method AddMultiChar(t: Tag)
      requires |t.sequence| != 1 && steps == []
      modifies this
      ensures steps == PlanOf(t)
    {
      hide MultiCharUniversalPlan;
      AddStep(CheckMultiCharSeqStep);
      AddStep(WarnInvalidSeqStep);
      AddStep(SkipInvalidTrigger);
      if t.IsUniversal() {
        AddMultiCharUniversal(t);
      } else if t.IsOpening() {
        AddBeforeEOL();
        AddMultiCharUniversal(t);
      } else if t.IsClosing() {
        AddClosing();
      }
    }
  }

  /** The action of a tag: the plan its features call for. */
  method CreateAction(t: Tag) returns (a: Action)
    ensures a == TagAction(PlanOf(t))
  {
    var p := new Plan();
    if |t.sequence| == 1 {
      p.AddSingleChar(t);
    } else {
      p.AddMultiChar(t);
    }
    return TagAction(p.steps);
  }

  // ---- the context ----

  class ActionContext {
    const env: Env
    var tag: Tag
    var bounds: Bounds
    var counts: Counts
    var warns: seq<Warning>
    var trigger: Byte
    var idx: nat
    var token: Token
    var stride: int
    var skip: bool

    constructor (env: Env, warns: seq<Warning>)
      ensures this.env == env && this.warns == warns && counts == T.NO_COUNTS
    {
      this.env, this.warns := env, warns;
      tag, bounds, counts := UNREGISTERED, ResetBounds(0), T.NO_COUNTS;
      trigger, idx, token, stride, skip := 0, 0, NO_TOKEN, 0, false;
    }

    ghost function Value(): Ctx
      reads this
    {
      Ctx(idx, bounds, counts, warns, token, stride, skip)
    }

    /** The context stands at a byte of the input. */
    ghost predicate AtByte()
      reads this
    {
      && WfEnv(env) && idx < |env.input| && trigger == env.input[idx] && tag == env.d.tags[trigger]
    }

    /** It stands at a registered tag and its bounds are consistent. */
    ghost predicate Valid()
      reads this
    {
      AtByte() && CtxOk(env, Value()) && tag == TagOf(env, Value())
    }

    method ResetAt(ch: Byte, i: nat)
      requires WfEnv(env) && i < |env.input| && ch == env.input[i]
      modifies this
      ensures AtByte() && Value() == Reset(i, old(counts), old(warns))
      ensures Registered(env.d, ch) ==> Valid()
    {
      tag, idx, token, stride, skip, trigger := env.d.tags[ch], i, NO_TOKEN, 0, false, ch;
      bounds := ResetBounds(i);
    }

    method AddWarning(w: Warning)
      modifies `warns
      ensures warns == old(warns) + [w]
    {
      warns := warns + [w];
    }

    method SkipBytes(n: int)
      modifies `token, `stride, `skip
      ensures Value() == Actions.SkipBytes(old(Value()), n)
    {
      token, stride, skip := NO_TOKEN, n, true;
    }

    // ---- bounds ----

    method PrepareSingleCharTag()
      requires Valid()
      modifies `bounds
      ensures Valid() && Value() == PrepareSingleChar(env, old(Value()))
    {
      bounds := bounds.(width := 1);
      bounds := bounds.(raw := Span(idx, idx + 1));
      bounds := bounds.(inner := Span(idx + 1, idx + 1));
      bounds := bounds.(seqValid := true);
    }

    method CheckMultiCharTagSeq()
      requires Valid()
      modifies `bounds
      ensures Valid() && Value() == CheckMultiCharSeq(env, old(Value()))
    {
      hide Best, Contains, WfEnv, TagOf;
      ghost var c := Value();
      ghost var result := CheckMultiCharSeq(env, c);
      var seqEnd := Min(|env.input|, idx + |tag.sequence|);
      var contained, _, l := LongestCommonSubPrefix(env.input[idx..seqEnd], tag.sequence);
      bounds := bounds.(seqValid := contained, width := l, raw := Span(idx, idx + l), inner := Span(idx + l, idx + l));
      assert Value() == result;
      assert TagOf(env, Value()) == TagOf(env, c) by { SameTag(env, c, Value()); }
    }

    method CheckCloseTag()
      requires Valid()
      modifies `bounds
      ensures Valid() && Value() == CheckClose(env, old(Value()))
    {
      hide Best, Contains, TagOf, WithMatch;
      ghost var c := Value();
      ghost var result := CheckClose(env, c);
      var n, closeTag := |env.input|, env.d.tags[tag.closeID];
      var contentStart := idx + bounds.width;
      if closeTag.sequence == [] {
        bounds := bounds.(closed := false, closeIdx := -1, closeWidth := 0, raw := Span(idx, n), inner := Span(contentStart, n));
      } else {
        var scanEnd := Min(contentStart + env.d.limits.maxPayloadLen + 1, n);
        var contained, relStart, w := LongestCommonSubPrefix(env.input[contentStart..scanEnd], closeTag.sequence);
        assert result == WithMatch(c, n, scanEnd, contained, Match(relStart, w));
        FillClose(contained, relStart, w, scanEnd);
      }
      assert Value() == result;
      assert TagOf(env, Value()) == TagOf(env, c) by { SameTag(env, c, Value()); }
    }

    /** Fills in the closing tag's bounds from the match found before scanEnd. */
    method FillClose(contained: bool, relStart: int, w: nat, scanEnd: int)
      modifies `bounds
      ensures Value() == WithMatch(old(Value()), |env.input|, scanEnd, contained, Match(relStart, w))
    {
      var n, contentStart := |env.input|, idx + bounds.width;
      var absStart := -1;
      if relStart != -1 {
        absStart := contentStart + relStart;
      }
      bounds := bounds.(closed := contained, closeIdx := absStart, closeWidth := w,
                        payloadLimitReached := absStart == -1 && scanEnd < n);
      if contained {
        bounds := bounds.(raw := Span(idx, absStart + w), inner := Span(contentStart, absStart));
        return;
      }
      bounds := bounds.(raw := Span(idx, n), inner := Span(contentStart, n));
    }

    method MutateWithOnlyOpeningTag(w: nat, keyLimitReached: bool, payloadLimitReached: bool)
      requires Valid() && 1 <= w && idx + w <= |env.input|
      modifies `bounds
      ensures Valid() && Value() == OnlyOpening(env, old(Value()), w, keyLimitReached, payloadLimitReached)
    {
      var n := |env.input|;
      bounds := bounds.(closeIdx := -1, closeWidth := 0, closed := false, width := w, inner := Span(idx + w, n),
                        raw := Span(idx, n), keyLenLimitReached := keyLimitReached, payloadLimitReached := payloadLimitReached);
    }

    method CheckTagVsContent()
      requires Valid()
      modifies `bounds
      ensures Valid() && Value() == Actions.CheckTagVsContent(env, old(Value()))
    {
      hide FindClosing;
      var n, ch, i, lim := |env.input|, tag.ID(), idx, env.d.limits.maxKeyLen;
      var openWidth := RunWidth(env.input, ch, i, Min(lim, n - i));
      RunWidthCut(env.input, ch, i, lim);
      assert openWidth == OpenWidth(env, Value());
      if i + openWidth == n {
        MutateWithOnlyOpeningTag(openWidth, false, false);
        return;
      }
      if openWidth == lim && env.input[i + openWidth] == ch {
        MutateWithOnlyOpeningTag(lim, true, false);
        return;
      }
      SearchClosingRun(openWidth);
    }

    /** The search for a closing run, from the byte behind the first differing one. */
    method SearchClosingRun(openWidth: nat)
      requires Valid() && openWidth == OpenWidth(env, Value()) && idx + openWidth < |env.input|
      requires !(openWidth == env.d.limits.maxKeyLen && env.input[idx + openWidth] == tag.ID())
      modifies `bounds
      ensures Valid() && Value() == Actions.CheckTagVsContent(env, old(Value()))
    {
      hide OpenWidth, Actions.CheckTagVsContent, OnlyOpening, FindClosing, WfEnv, TagOf, ClosedBy;
      var n, ch, i := |env.input|, tag.ID(), idx;
      var searchStart := i + openWidth + 1;
      var scanEnd := Min(searchStart + env.d.limits.maxPayloadLen, n - openWidth + 1);
      ghost var c := Value();
      SearchDecides(env, c);
      var found := FindClosingRun(env.input, ch, openWidth, searchStart, scanEnd);
      match found {
        case Unclosed(saw) => MutateWithOnlyOpeningTag(openWidth, false, saw && scanEnd < n - openWidth + 1);
        case ClosesAt(at) =>
          bounds := bounds.(width := openWidth, closeIdx := at, closeWidth := openWidth, closed := true,
                            inner := Span(i + openWidth, at), raw := Span(i, at + openWidth));
          ClosedByIs(c, openWidth, at);
          SameTag(env, c, Value());
      }
    }

    // ---- warnings ----

    method WarnInvalidSequence()
      requires Valid()
      modifies `warns
      ensures Valid() && Value() == WarnInvalidSeq(env, old(Value()))
    {
      var w := bounds.width;
      if bounds.seqValid || w >= MAX_TAG_LEN {
        return;
      }
      AddWarning(Warning(UnexpectedSymbol, idx + w, tag.ID(), 0, ByteAt(tag, w), env.input[idx + w - 1]));
    }

    method WarnOpenTagBeforeEOL()
      requires Valid()
      modifies `warns
      ensures Valid() && Value() == WarnOpenBeforeEOL(env, old(Value()))
    {
      var n := |env.input|;
      if idx + bounds.width < n || !tag.IsOpening() {
        return;
      }
      AddWarning(Warning(UnexpectedEOL, n, tag.ID(), 0, 0, 0));
    }

    method WarnCloseTagAfterStart()
      requires Valid()
      modifies `warns
      ensures Valid() && Value() == WarnCloseAfterStart(env, old(Value()))
    {
      if idx != 0 || !tag.IsClosing() {
        return;
      }
      AddWarning(Warning(MisplacedClosingTag, idx, tag.ID(), 0, 0, 0));
    }

    method WarnTagKeyTooLong()
      requires Valid()
      modifies `warns
      ensures Valid() && Value() == WarnKeyTooLong(old(Value()))
    {
      if bounds.keyLenLimitReached {
        AddWarning(Warn(TagKeyTooLong, idx));
      }
    }

    method WarnTagPayloadTooLong()
      requires Valid()
      modifies `warns
      ensures Valid() && Value() == WarnPayloadTooLong(old(Value()))
    {
      if bounds.payloadLimitReached {
        AddWarning(Warn(TagPayloadTooLong, idx));
      }
    }

    method WarnUnclosedTag()
      requires Valid()
      modifies `warns
      ensures Valid() && Value() == WarnUnclosed(env, old(Value()))
    {
      if bounds.closed || tag.IsClosing() || bounds.payloadLimitReached {
        return;
      }
      AddWarning(Warning(UnclosedTag, idx, tag.ID(), tag.closeID, 0, 0));
    }

    // ---- steps ----

    method StepInfraWordCheck() returns (handled: bool)
      requires Valid()
      modifies `stride, `skip
      ensures handled == InsideWord(env, old(Value()))
      ensures Value() == if handled then Settle(env, InfraWordCheck, old(Value())) else old(Value())
    {
      var leftIsWordPart, rightIsWordPart := false, false;
      if idx > 0 {
        var b := env.input[idx - 1];
        if b < 128 {
          leftIsWordPart := WordByte(env.d, tag.ID(), b);
        } else {
          leftIsWordPart := env.u.endsWithWordRune(env.input[..idx]);
        }
      }
      if idx + 1 < |env.input| {
        var b := env.input[idx + 1];
        if b < 128 {
          rightIsWordPart := WordByte(env.d, tag.ID(), b);
        } else {
          rightIsWordPart := env.u.startsWithWordRune(env.input[idx + 1..]);
        }
      }
      if !leftIsWordPart || !rightIsWordPart {
        return false;
      }
      stride, skip := 1, true;
      return true;
    }

    method StepEmitEntireTagToken() returns (handled: bool)
      requires Valid()
      modifies `token, `stride, `skip
      ensures handled && Value() == Settle(env, EmitEntireTag, old(Value()))
    {
      var w := bounds.raw.end - bounds.raw.start;
      token := Token(TagToken, tag.ID(), idx, w, bounds.inner, Span(0, 0));
      stride, skip := w, false;
      return true;
    }

    method SkipWidth() returns (handled: bool)
      modifies `token, `stride, `skip
      ensures handled && Value() == Actions.SkipBytes(old(Value()), old(bounds.width))
    {
      SkipBytes(bounds.width);
      return true;
    }

    method StepSkipInvalidTriggerTag() returns (handled: bool)
      requires Valid()
      modifies `token, `stride, `skip
      ensures handled == Handles(env, SkipInvalidTrigger, old(Value()))
      ensures Value() == if handled then Settle(env, SkipInvalidTrigger, old(Value())) else old(Value())
    {
      if bounds.seqValid || bounds.width >= MAX_TAG_LEN {
        return false;
      }
      handled := SkipWidth();
    }

    method StepSkipOpenTagBeforeEOL() returns (handled: bool)
      requires Valid()
      modifies `token, `stride, `skip
      ensures handled == Handles(env, SkipOpenBeforeEOL, old(Value()))
      ensures Value() == if handled then Settle(env, SkipOpenBeforeEOL, old(Value())) else old(Value())
    {
      if idx + bounds.width < |env.input| {
        return false;
      }
      handled := SkipWidth();
    }

    method StepSkipCloseTagAfterStart() returns (handled: bool)
      requires Valid()
      modifies `token, `stride, `skip
      ensures handled == Handles(env, SkipCloseAfterStart, old(Value()))
      ensures Value() == if handled then Settle(env, SkipCloseAfterStart, old(Value())) else old(Value())
    {
      if idx != 0 || !tag.IsClosing() {
        return false;
      }
      handled := SkipWidth();
    }

    method StepSkipUnclosedOpenTag() returns (handled: bool)
      requires Valid()
      modifies `token, `stride, `skip
      ensures handled == Handles(env, SkipUnclosedOpen, old(Value()))
      ensures Value() == if handled then Settle(env, SkipUnclosedOpen, old(Value())) else old(Value())
    {
      if bounds.closed {
        return false;
      }
      handled := SkipWidth();
    }

    /** Runs one step; a mutator never settles the case. */
    method Execute(s: PlanStep) returns (handled: bool)
      requires Valid()
      modifies `bounds, `counts, `warns, `token, `stride, `skip
      ensures handled == Handles(env, s, old(Value()))
      ensures Value() == if handled then Settle(env, s, old(Value())) else Mutate(env, s, old(Value()))
      ensures !handled ==> Valid()
    {
      handled := false;
      match s {
        case PrepareSingleCharStep => PrepareSingleCharTag();
        case CheckMultiCharSeqStep => CheckMultiCharTagSeq();
        case CheckCloseStep => CheckCloseTag();
        case CheckTagVsContentStep => CheckTagVsContent();
        case WarnInvalidSeqStep => WarnInvalidSequence();
        case WarnOpenBeforeEOLStep => WarnOpenTagBeforeEOL();
        case WarnCloseAfterStartStep => WarnCloseTagAfterStart();
        case WarnKeyTooLongStep => WarnTagKeyTooLong();
        case WarnPayloadTooLongStep => WarnTagPayloadTooLong();
        case WarnUnclosedStep => WarnUnclosedTag();
        case SkipInvalidTrigger => handled := StepSkipInvalidTriggerTag();
        case SkipOpenBeforeEOL => handled := StepSkipOpenTagBeforeEOL();
        case SkipCloseAfterStart => handled := StepSkipCloseTagAfterStart();
        case SkipUnclosedOpen => handled := StepSkipUnclosedOpenTag();
        case InfraWordCheck => handled := StepInfraWordCheck();
        case EmitEntireTag => handled := StepEmitEntireTagToken();
        case CountTag => counts := counts.(tagsTotal := counts.tagsTotal + 1);
        case CountCloseTag =>
          counts := counts.(tagsTotal := counts.tagsTotal + 1);
          counts := counts.(closeTags := counts.closeTags + 1);
        case CountOpenTag =>
          counts := counts.(tagsTotal := counts.tagsTotal + 1);
          counts := counts.(openTags := counts.openTags + 1);
        case CountUniversalTag =>
          counts := counts.(tagsTotal := counts.tagsTotal + 1);
          counts := counts.(universalTags := counts.universalTags + 1);
      }
    }

    /** Runs the steps until one settles the case. */
    method RunSteps(steps: seq<PlanStep>) returns (tok: Token, width: int, skipped: bool)
      requires Valid()
      modifies `bounds, `counts, `warns, `token, `stride, `skip
      ensures var r := RunPlan(env, steps, old(Value()));
        tok == r.token && width == r.stride && skipped == r.skip && counts == r.counts && warns == r.warns
    {
      hide Handles, Settle, Mutate;
      for k := 0 to |steps|
        invariant Valid() && RunPlan(env, steps, old(Value())) == RunPlan(env, steps[k..], Value())
      {
        assert steps[k..][1..] == steps[k + 1..];
        var handled := Execute(steps[k]);
        if handled {
          return token, stride, skip;
        }
      }
      return NO_TOKEN, 1, true;
    }

    // ---- escape and attribute ----

    method SkipWithWarn(n: int, pos: int, issue: Issue) returns (tok: Token, width: int, skipped: bool)
      modifies `warns
      ensures warns == old(warns) + [Warn(issue, pos)] && tok == NO_TOKEN && width == n && skipped
    {
      AddWarning(Warn(issue, pos));
      return NO_TOKEN, n, true;
    }

    method ActEscape() returns (tok: Token, width: int, skipped: bool)
      requires AtByte()
      modifies `warns
      ensures var r := Actions.ActEscape(env, old(Value()));
        tok == r.token && width == r.stride && skipped == r.skip && counts == r.counts && warns == r.warns
    {
      var i, n := idx, |env.input|;
      if i + 1 == n {
        AddWarning(Warn(UnexpectedEOL, i));
        return NO_TOKEN, 1, true;
      }
      var nextByte := env.input[i + 1];
      var nextWidth := 1;
      if env.d.actions[nextByte] == NoAction {
        var got := nextByte;
        if nextByte > 127 {
          got, nextWidth := env.u.runeLowByte(env.input[i + 1..]), env.u.runeWidth(env.input[i + 1..]);
        }
        AddWarning(Warning(RedundantEscape, i, 0, 0, 0, got));
      }
      return NO_TOKEN, 1 + nextWidth, true;
    }

    method FindAttrEnd(startIdx: nat, scanEnd: nat) returns (at: int)
      requires WfEnv(env) && startIdx <= scanEnd <= |env.input|
      ensures at == AttrEnd(env, startIdx, scanEnd)
    {
      if env.d.escapeTrigger != 0 {
        at := FindPayloadEndWithEscape(env.input, startIdx, scanEnd, env.d.attrPayloadEnd, env.d.escapeTrigger);
      } else {
        at := IndexByte(env.input, env.d.attrPayloadEnd, startIdx, scanEnd);
      }
    }

    method ActAttribute() returns (tok: Token, width: int, skipped: bool)
      requires AtByte()
      modifies `warns, `counts
      ensures var r := Actions.ActAttribute(env, old(Value()));
        skipped == r.skip && width == r.stride && tok == r.token && counts == r.counts && warns == r.warns
    {
      hide AttrEnd, FirstIndex, WfDictionary, WfUnicode;
      var i, n := idx, |env.input|;
      if i + 1 == n {
        tok, width, skipped := SkipWithWarn(1, i, UnexpectedEOL);
        return;
      }
      var scanEnd := Min(i + 1 + env.d.limits.maxAttrKeyLen + 1, n);
      var payloadStart := IndexByte(env.input, env.d.attrPayloadStart, i + 1, scanEnd);
      if payloadStart == -1 {
        if scanEnd < n {
          tok, width, skipped := SkipWithWarn(1, i, AttrKeyTooLong);
        } else {
          tok, width, skipped := SkipWithWarn(1, n, UnexpectedEOL);
        }
        return;
      }
      if payloadStart + 1 == n {
        tok, width, skipped := SkipWithWarn(1, payloadStart, UnexpectedEOL);
        return;
      }
      var startIdx := payloadStart + 1;
      scanEnd := Min(startIdx + env.d.limits.maxAttrPayloadLen + 1, n);
      var payloadEnd := FindAttrEnd(startIdx, scanEnd);
      if payloadEnd == -1 {
        if scanEnd < n {
          tok, width, skipped := SkipWithWarn(1, i, AttrPayloadTooLong);
        } else {
          tok, width, skipped := SkipWithWarn(1, n, UnclosedAttrPayload);
        }
        return;
      }
      if payloadEnd == startIdx {
        tok, width, skipped := SkipWithWarn(1, startIdx, EmptyAttrPayload);
        return;
      }
      width, skipped := payloadEnd - i + 1, false;
      tok := AttributeToken(payloadStart, startIdx, payloadEnd);
    }

    method AttributeToken(payloadStart: nat, startIdx: nat, payloadEnd: nat) returns (tok: Token)
      requires idx < payloadStart
      modifies `counts
      ensures counts == old(counts).(attributes := old(counts).attributes + 1)
      ensures tok == Token(if payloadStart == idx + 1 then AttributeFlag else AttributeKV, trigger, idx, payloadEnd - idx + 1,
                           Span(startIdx, payloadEnd), if payloadStart == idx + 1 then Span(0, 0) else Span(idx + 1, payloadStart))
    {
      tok := Token(AttributeKV, trigger, idx, payloadEnd - idx + 1, Span(startIdx, payloadEnd), Span(0, 0));
      counts := counts.(attributes := counts.attributes + 1);
      if payloadStart - idx - 1 == 0 {
        tok := tok.(typ := AttributeFlag);
        return;
      }
      tok := tok.(attrKey := Span(idx + 1, payloadStart));
    }

    /** Runs the action registered for the context's byte. */
    method Act() returns (tok: Token, width: int, skipped: bool)
      requires AtByte() && HasAction(env.d, trigger) && Value() == Reset(idx, counts, warns)
      requires Registered(env.d, trigger) ==> Valid()
      modifies `bounds, `counts, `warns, `token, `stride, `skip
      ensures var r := Actions.Act(env, old(Value()));
        tok == r.token && width == r.stride && skipped == r.skip && counts == r.counts && warns == r.warns
    {
      hide RunPlan, Actions.ActEscape, Actions.ActAttribute, PlanOf;
      assert ActionOk(env.d, trigger);
      var act := env.d.actions[trigger];
      if act.TagAction? {
        tok, width, skipped := RunSteps(act.plan);
      } else if act.EscapeAction? {
        tok, width, skipped := ActEscape();
      } else {
        tok, width, skipped := ActAttribute();
      }
    }
  }

  /** Looks for a run of exactly w trigger bytes, jumping over every other run and the byte behind it. */
  method FindClosingRun(input: seq<Byte>, ch: Byte, w: nat, lo: nat, scanEnd: nat) returns (found: Closing)
    requires scanEnd <= |input|
    ensures found == FindClosing(input, ch, w, lo, scanEnd)
  {
    hide FindClosing;
    var searchStart := lo;
    while searchStart < scanEnd
      invariant FindClosing(input, ch, w, lo, scanEnd) == FindClosing(input, ch, w, searchStart, scanEnd)
      decreases scanEnd - searchStart
    {
      FindClosingUnfold(input, ch, w, searchStart, scanEnd);
      var at := IndexByte(input, ch, searchStart, scanEnd);
      if at == -1 {
        return Unclosed(true);
      }
      var closeWidth := RunWidth(input, ch, at, |input| - at);
      if closeWidth == w {
        return ClosesAt(at);
      }
      searchStart := at + closeWidth + 1;
    }
    FindClosingWindow(input, ch, w, searchStart, scanEnd);
    return Unclosed(false);
  }

  ghost function ClosedBy(c: Ctx, w: nat, at: nat): Ctx {
    c.(bounds := c.bounds.(width := w, closeIdx := at, closeWidth := w, closed := true, inner := Span(c.idx + w, at),
                           raw := Span(c.idx, at + w)))
  }

  lemma {:induction false} ClosedByIs(c: Ctx, w: nat, at: nat)
    ensures ClosedBy(c, w, at) ==
      Ctx(c.idx, c.bounds.(width := w, closeIdx := at, closeWidth := w, closed := true, inner := Span(c.idx + w, at),
                           raw := Span(c.idx, at + w)), c.counts, c.warns, c.token, c.stride, c.skip)
  {
  }

  /** The closing search decides the outcome once the opening run is within its limit. */
  lemma {:induction false} SearchDecides(e: Env, c: Ctx)
    requires CtxOk(e, c) && c.idx + OpenWidth(e, c) < |e.input|
    requires !(OpenWidth(e, c) == e.d.limits.maxKeyLen && e.input[c.idx + OpenWidth(e, c)] == e.input[c.idx])
    ensures var n, w := |e.input|, OpenWidth(e, c);
      var lo := c.idx + w + 1;
      var hi := Min(lo + e.d.limits.maxPayloadLen, n - w + 1);
      match FindClosing(e.input, e.input[c.idx], w, lo, hi)
      case ClosesAt(at) => Actions.CheckTagVsContent(e, c) == ClosedBy(c, w, at) && CtxOk(e, ClosedBy(c, w, at))
      case Unclosed(saw) => Actions.CheckTagVsContent(e, c) == OnlyOpening(e, c, w, false, saw && hi < n - w + 1)
  {
    hide OpenWidth, FindClosing;
    FindClosingWindow(e.input, e.input[c.idx], OpenWidth(e, c), WindowStart(e, c), WindowEnd(e, c));
  }

  lemma {:induction false} FindClosingWindow(input: seq<Byte>, c: Byte, w: nat, p: nat, hi: nat)
    requires hi <= |input|
    ensures p >= hi ==> FindClosing(input, c, w, p, hi) == Unclosed(false)
  {
  }

  /** Counts the run of ch at p, at most `most` bytes of it. */
  method RunWidth(input: seq<Byte>, ch: Byte, p: nat, most: nat) returns (w: nat)
    requires p < |input| && input[p] == ch && 1 <= most <= |input| - p
    ensures w == Min(RunLen(input, ch, p), most)
  {
    w := 1;
    while w < most && input[p + w] == ch
      invariant 1 <= w <= most && forall k :: p <= k < p + w ==> input[k] == ch
    {
      w := w + 1;
    }
    assert w <= RunLen(input, ch, p);
  }

  lemma {:induction false} RunWidthCut(input: seq<Byte>, ch: Byte, p: nat, lim: nat)
    requires p <= |input|
    ensures Min(RunLen(input, ch, p), Min(lim, |input| - p)) == Min(RunLen(input, ch, p), lim)
  {
  }

  lemma {:induction false} FindClosingUnfold(input: seq<Byte>, c: Byte, w: nat, p: nat, hi: nat)
    requires p < hi <= |input|
    ensures var q := FirstIndex(input, c, p, hi);
      FindClosing(input, c, w, p, hi) ==
        if q == -1 then Unclosed(true)
        else if RunLen(input, c, q) == w then ClosesAt(q)
        else FindClosing(input, c, w, q + RunLen(input, c, q) + 1, hi)
  {
  }

  // ---- the main loop ----

  /** What one turn of the loop adds, read off the byte's tag. */
  lemma {:induction false} TurnCases(e: Env, p: T.Progress)
    requires T.ProgressOk(e, p) && p.i < |e.input|
    ensures HasAction(e.d, e.input[p.i]) ==>
      var b, c := e.input[p.i], Actions.Act(e, Reset(p.i, p.counts, p.warns));
      && c.stride >= 1 && p.i + c.stride <= |e.input|
      && if c.skip then T.Turn(e, p) == p.(i := p.i + c.stride, counts := c.counts, warns := c.warns)
         else
           var f := T.Flush(p, p.i);
           var g := if e.d.tags[b].greed != NonGreedy && c.token.payload.end > c.token.payload.start
                    then c.token.payload.end - c.token.payload.start else 0;
           T.Turn(e, p) == T.Progress(p.i + c.stride, p.i + c.stride, f.tokens + [c.token], c.counts, c.warns,
                                      f.textTokens + (if g > 0 then 1 else 0), f.textByteLen + g)
    ensures !HasAction(e.d, e.input[p.i]) ==> T.Turn(e, p) == p.(i := p.i + 1)
  {
    hide T.Flush, ActTag, Actions.ActEscape, Actions.ActAttribute;
    assert ActionOk(e.d, e.input[p.i]);
  }

  datatype Output = Output(tokens: seq<Token>, textByteLen: int, counts: Counts, textTokens: nat)

  method Tokenize(u: Unicode, d: Dictionary, input: seq<Byte>, warns: seq<Warning>) returns (out: Output, warned: seq<Warning>)
    requires WfEnv(Env(u, d, input))
    ensures var r := T.Tokenized(Env(u, d, input), warns);
      out == Output(r.tokens, r.textByteLen, r.counts, r.textTokens) && warned == r.warns
  {
    hide T.Turn, WfUnicode, WfTags, ActionOk, Actions.Act;
    var e := Env(u, d, input);
    var n := |input|;
    var ac := new ActionContext(e, warns);
    var tokens, textByteLen, textTokens: nat := [], 0, 0;
    var textStart: nat, i: nat := 0, 0;
    ghost var p := T.Begin(warns);
    while i < n
      invariant ac.env == e && T.ProgressOk(e, p) && T.Loop(e, T.Begin(warns)) == T.Loop(e, p)
      invariant p == T.Progress(i, textStart, tokens, ac.counts, ac.warns, textTokens, textByteLen)
      decreases n - i
    {
      var b := input[i];
      ghost var q := T.Turn(e, p);
      TurnCases(e, p);
      assert T.Loop(e, p) == T.Loop(e, q);
      p := q;
      if !HasAction(d, b) {
        i := i + 1;
        continue;
      }
      ac.ResetAt(b, i);
      var token, stride, skip := ac.Act();
      if skip {
        i := i + stride;
        continue;
      }
      if i - textStart > 0 {
        tokens := tokens + [T.TextBetween(textStart, i)];
        textTokens, textByteLen := textTokens + 1, textByteLen + (i - textStart);
      }
      i := i + stride;
      textStart := i;
      tokens := tokens + [token];
      if ac.tag.greed != NonGreedy && token.payload.end > token.payload.start {
        textTokens, textByteLen := textTokens + 1, textByteLen + (token.payload.end - token.payload.start);
      }
    }
    if textStart < n {
      tokens := tokens + [T.TextBetween(textStart, n)];
      textTokens, textByteLen := textTokens + 1, textByteLen + (n - textStart);
    }
    return Output(tokens, textByteLen, ac.counts, textTokens), ac.warns;
  }
}
