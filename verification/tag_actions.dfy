/** Whole actions of tags: what a tag standing in the input makes the tokenizer emit, skip and report. */
module TagActions {
  import opened Markup
  import opened Plans
  import opened Scanning
  import opened Actions
  import opened TokenizerLaws

  // ---- plans, front and back ----

  /** The bounds hold the tag's whole sequence and nothing else. */
  ghost predicate Framed(c: Ctx, w: nat) {
    && c.bounds.width == w && c.bounds.seqValid
    && c.bounds.raw == Span(c.idx, c.idx + w) && c.bounds.inner == Span(c.idx + w, c.idx + w)
  }

  function HeadOf(t: Tag): seq<PlanStep> {
    if |t.sequence| == 1 then [PrepareSingleCharStep] else [CheckMultiCharSeqStep, WarnInvalidSeqStep, SkipInvalidTrigger]
  }

  /** The front of a plan frames the tag, when its sequence stands at the trigger. */
  lemma {:induction false} HeadFrames(e: Env, c: Ctx, rest: seq<PlanStep>) returns (m: Ctx)
    requires CtxOk(e, c) && OccursAt(e.input, TagOf(e, c).sequence, c.idx)
    ensures CtxOk(e, m) && m.idx == c.idx && m.warns == c.warns && m.counts == c.counts && Framed(m, |TagOf(e, c).sequence|)
    ensures m.bounds.payloadLimitReached == c.bounds.payloadLimitReached
    ensures RunPlan(e, HeadOf(TagOf(e, c)) + rest, c) == RunPlan(e, rest, m)
  {
    hide RunPlan, OccursAt, Best, Contains;
    if |TagOf(e, c).sequence| == 1 {
      RunStep(e, PrepareSingleCharStep, rest, c);
      m := PrepareSingleChar(e, c);
    } else {
      m := MultiByteHead(e, c, rest);
    }
  }

  lemma {:induction false} MultiByteHead(e: Env, c: Ctx, rest: seq<PlanStep>) returns (m: Ctx)
    requires CtxOk(e, c) && OccursAt(e.input, TagOf(e, c).sequence, c.idx)
    ensures CtxOk(e, m) && m.idx == c.idx && m.warns == c.warns && m.counts == c.counts && Framed(m, |TagOf(e, c).sequence|)
    ensures m.bounds.payloadLimitReached == c.bounds.payloadLimitReached
    ensures RunPlan(e, [CheckMultiCharSeqStep, WarnInvalidSeqStep, SkipInvalidTrigger] + rest, c) == RunPlan(e, rest, m)
  {
    hide RunPlan, OccursAt, Best, Contains, TagOf;
    m := CheckMultiCharSeq(e, c);
    SequenceStandsAtTrigger(e, c);
    assert [CheckMultiCharSeqStep, WarnInvalidSeqStep, SkipInvalidTrigger] + rest
        == [CheckMultiCharSeqStep] + ([WarnInvalidSeqStep] + ([SkipInvalidTrigger] + rest));
    RunStep(e, CheckMultiCharSeqStep, [WarnInvalidSeqStep] + ([SkipInvalidTrigger] + rest), c);
    RunStep(e, WarnInvalidSeqStep, [SkipInvalidTrigger] + rest, m);
    RunStep(e, SkipInvalidTrigger, rest, m);
  }

  /** An opener that is not the last thing in the input passes the end-of-input check. */
  lemma {:induction false} PassEOL(e: Env, c: Ctx, rest: seq<PlanStep>)
    requires CtxOk(e, c) && c.idx + c.bounds.width < |e.input|
    ensures RunPlan(e, BEFORE_EOL + rest, c) == RunPlan(e, rest, c)
  {
    hide RunPlan, TagOf;
    assert BEFORE_EOL + rest == [WarnOpenBeforeEOLStep] + ([SkipOpenBeforeEOL] + rest);
    RunStep(e, WarnOpenBeforeEOLStep, [SkipOpenBeforeEOL] + rest, c);
    RunStep(e, SkipOpenBeforeEOL, rest, c);
  }

  /** A closer that is not the first thing in the input passes the start check. */
  lemma {:induction false} PassStart(e: Env, c: Ctx, rest: seq<PlanStep>)
    requires CtxOk(e, c) && c.idx > 0
    ensures RunPlan(e, [WarnCloseAfterStartStep, SkipCloseAfterStart] + rest, c) == RunPlan(e, rest, c)
  {
    hide RunPlan, TagOf;
    assert [WarnCloseAfterStartStep, SkipCloseAfterStart] + rest == [WarnCloseAfterStartStep] + ([SkipCloseAfterStart] + rest);
    RunStep(e, WarnCloseAfterStartStep, [SkipCloseAfterStart] + rest, c);
    RunStep(e, SkipCloseAfterStart, rest, c);
  }

  /** Tags whose plan only frames, counts and emits. */
  ghost predicate Simple(t: Tag) {
    t.IsClosing() || ((t.IsUniversal() || t.IsOpening()) && t.greed == NonGreedy && t.rule == RuleNA)
  }

  lemma {:induction false} SimplePlan(t: Tag)
    requires Simple(t) && t.sequence != []
    ensures PlanOf(t) == HeadOf(t) +
      (if t.IsUniversal() then [CountUniversalTag] + [EmitEntireTag]
       else if t.IsOpening() then BEFORE_EOL + ([CountOpenTag] + [EmitEntireTag])
       else [WarnCloseAfterStartStep, SkipCloseAfterStart] + ([CountCloseTag] + [EmitEntireTag]))
  {
    if |t.sequence| == 1 {
      assert t.IsUniversal() || t.IsOpening() ==> SingleCharUniversalPlan(t) == CountStep(t) + [EmitEntireTag];
    } else {
      assert t.IsUniversal() || t.IsOpening() ==> MultiCharUniversalPlan(t) == CountStep(t) + [EmitEntireTag];
    }
  }

  // ---- broken sequences ----

  /** The part of the input the check of a multi-byte tag looks at. */
  function TagWindow(e: Env, c: Ctx): (win: seq<Byte>)
    requires CtxOk(e, c)
    ensures 1 <= |win| <= |TagOf(e, c).sequence| && c.idx + |win| <= |e.input| && win[0] == TagOf(e, c).sequence[0]
    ensures forall k :: 0 <= k < |win| ==> win[k] == e.input[c.idx + k]
  {
    e.input[c.idx..Min(|e.input|, c.idx + |TagOf(e, c).sequence|)]
  }

  /** How far the sequence matches at the trigger, and the longest match anywhere in the window. */
  lemma {:induction false} LongestMatch(e: Env, c: Ctx)
    requires CtxOk(e, c) && !OccursAt(e.input, TagOf(e, c).sequence, c.idx)
    ensures var pat, win := TagOf(e, c).sequence, TagWindow(e, c);
      var w, lead := Best(win, pat, |win|).len, CommonLen(win, 0, pat);
      && 1 <= lead <= w < |pat| && w <= |win| && (forall p :: 0 <= p < |win| ==> CommonLen(win, p, pat) <= w)
      && (exists p :: 0 <= p < |win| && CommonLen(win, p, pat) == w)
      && (w == lead <==> forall p :: 0 < p < |win| ==> CommonLen(win, p, pat) <= lead)
      && !Contains(win, pat) && (lead == |win| ==> c.idx + lead == |e.input|)
  {
    var pat, win := TagOf(e, c).sequence, TagWindow(e, c);
    var m := Best(win, pat, |win|);
    BestIsOptimal(win, pat, |win|);
    assert CommonLen(win, 0, pat) >= 1;
    SequenceStandsAtTrigger(e, c);
    assert !Contains(win, pat);
    assert m.idx >= 0 && CommonLen(win, m.idx, pat) == m.len;
    if forall p :: 0 < p < |win| ==> CommonLen(win, p, pat) <= CommonLen(win, 0, pat) {
      assert CommonLen(win, m.idx, pat) == m.len;
    }
  }

  /** Whether the byte before the w-th is the one that stands where the match at the start breaks off.
   *  With at most four bytes, a match that is longer by more than one rules it out. */
  lemma {:induction false} FoundSymbol(win: seq<Byte>, pat: seq<Byte>)
    requires 1 <= |win| <= |pat| <= MAX_TAG_LEN && win[0] == pat[0] && !Contains(win, pat)
    ensures var w, lead := Best(win, pat, |win|).len, CommonLen(win, 0, pat);
      && 1 <= lead <= w <= |win|
      && (lead < |win| && win[w - 1] == win[lead]
          <==> w == lead + 1 || (w == lead && lead < |win| && win[lead] == pat[lead - 1]))
  {
    hide Best, CommonLen;
    FirstByteMatches(win, pat);
    BestIsOptimal(win, pat, |win|);
    var m, lead := Best(win, pat, |win|), CommonLen(win, 0, pat);
    assert lead >= 1 by { FirstByteCounts(win, pat); }
    if m.len > lead + 1 {
      assert m.idx == 1 && m.len == 3 && lead == 1;
      assert win[1 + 0] == pat[0] && win[1 + 1] == pat[1] && win[0 + 1] != pat[1];
    } else if m.len == lead {
      assert win[0 + (lead - 1)] == pat[lead - 1];
    }
  }

  lemma {:induction false} FirstByteCounts(win: seq<Byte>, pat: seq<Byte>)
    requires win != [] && pat != [] && win[0] == pat[0]
    ensures CommonLen(win, 0, pat) >= 1
  {
  }

  /** The whole action of a multi-byte tag whose sequence is interrupted: it is skipped by the longest
   *  partial match anywhere in its window, w, with one warning. Let `lead` be the match at the trigger:
   *  the sequence breaks off behind it, at a byte of the input unless the input ends there. The place
   *  and the expected symbol are those behind w, so the place is right exactly when no later start in
   *  the window matches longer. The symbol named as found is the one before the place; it is the one
   *  at the break exactly when a later match is longer by one byte, or none is longer and the byte at
   *  the break repeats the one before it. */
  lemma {:induction false} BrokenSequenceAction(e: Env, c: Ctx)
    requires CtxOk(e, c) && |TagOf(e, c).sequence| > 1 && !OccursAt(e.input, TagOf(e, c).sequence, c.idx)
    ensures var r, t, win := ActTag(e, c), TagOf(e, c), TagWindow(e, c);
      var w, lead := r.stride, CommonLen(win, 0, t.sequence);
      && r.skip && 1 <= lead <= w < |t.sequence| && w <= |win|
      && (forall p :: 0 <= p < |win| ==> CommonLen(win, p, t.sequence) <= w)
      && (exists p :: 0 <= p < |win| && CommonLen(win, p, t.sequence) == w)
      && r.warns == c.warns + [Warning(UnexpectedSymbol, c.idx + w, t.ID(), 0, t.sequence[w], win[w - 1])]
      && (w == lead <==> forall p :: 0 < p < |win| ==> CommonLen(win, p, t.sequence) <= lead)
    ensures var r, t, win := ActTag(e, c), TagOf(e, c), TagWindow(e, c);
      var w, lead := r.stride, CommonLen(win, 0, t.sequence);
      && (lead == |win| ==> w == lead && c.idx + lead == |e.input|)
      && (lead < |win| && win[w - 1] == win[lead]
          <==> w == lead + 1 || (w == lead && lead < |win| && win[lead] == t.sequence[lead - 1]))
  {
    hide RunPlan, OccursAt, Best, Contains, CommonLen, PlanOf, TagOf, TagWindow, CheckMultiCharSeq;
    var t := TagOf(e, c);
    LongestMatch(e, c);
    FoundSymbol(TagWindow(e, c), t.sequence);
    SequenceStandsAtTrigger(e, c);
    PlanFront(t);
    BrokenFront(e, c, PlanOf(t)[3..]);
  }

  /** The warning names the place of the break, the symbol expected there and the one found there,
   *  exactly when no later start in the window matches longer and the byte at the break repeats the one
   *  before it. */
  lemma {:induction false} BreakReportedIff(e: Env, c: Ctx)
    requires CtxOk(e, c) && |TagOf(e, c).sequence| > 1 && !OccursAt(e.input, TagOf(e, c).sequence, c.idx)
    ensures var t, win := TagOf(e, c), TagWindow(e, c);
      var lead := CommonLen(win, 0, t.sequence);
      1 <= lead < |win| ==>
        (ActTag(e, c).warns == c.warns + [Warning(UnexpectedSymbol, c.idx + lead, t.ID(), 0, t.sequence[lead], win[lead])]
         <==> win[lead] == t.sequence[lead - 1] && forall p :: 0 < p < |win| ==> CommonLen(win, p, t.sequence) <= lead)
  {
    hide ActTag, TagOf, TagWindow, CommonLen, OccursAt;
    BrokenSequenceAction(e, c);
    var t, win, w := TagOf(e, c), TagWindow(e, c), ActTag(e, c).stride;
    var lead := CommonLen(win, 0, t.sequence);
    if lead < |win| {
      var right := Warning(UnexpectedSymbol, c.idx + lead, t.ID(), 0, t.sequence[lead], win[lead]);
      var given := Warning(UnexpectedSymbol, c.idx + w, t.ID(), 0, t.sequence[w], win[w - 1]);
      assert (c.warns + [right])[|c.warns|] == right && (c.warns + [given])[|c.warns|] == given;
    }
  }

  lemma {:induction false} PlanFront(t: Tag)
    requires |t.sequence| > 1
    ensures |PlanOf(t)| >= 3
    ensures PlanOf(t) == [CheckMultiCharSeqStep] + ([WarnInvalidSeqStep] + ([SkipInvalidTrigger] + PlanOf(t)[3..]))
  {
    hide MultiCharUniversalPlan;
    var head := [CheckMultiCharSeqStep, WarnInvalidSeqStep, SkipInvalidTrigger];
    assert head <= PlanOf(t);
  }

  lemma {:induction false} BrokenFront(e: Env, c: Ctx, rest: seq<PlanStep>)
    requires CtxOk(e, c) && !CheckMultiCharSeq(e, c).bounds.seqValid
    requires Best(TagWindow(e, c), TagOf(e, c).sequence, |TagWindow(e, c)|).len < |TagOf(e, c).sequence|
    ensures var r := RunPlan(e, [CheckMultiCharSeqStep] + ([WarnInvalidSeqStep] + ([SkipInvalidTrigger] + rest)), c);
      var t, win := TagOf(e, c), TagWindow(e, c);
      var w := Best(win, t.sequence, |win|).len;
      && r.skip && r.stride == w && 1 <= w <= |win|
      && r.warns == c.warns + [Warning(UnexpectedSymbol, c.idx + w, t.ID(), 0, t.sequence[w], win[w - 1])]
  {
    hide RunPlan, Best, Contains;
    var m := CheckMultiCharSeq(e, c);
    SameTag(e, c, m);
    RunStep(e, CheckMultiCharSeqStep, [WarnInvalidSeqStep] + ([SkipInvalidTrigger] + rest), c);
    RunStep(e, WarnInvalidSeqStep, [SkipInvalidTrigger] + rest, m);
    RunStep(e, SkipInvalidTrigger, rest, WarnInvalidSeq(e, m));
  }

  // ---- tags with a payload ----

  /** A greedy or grasping tag that takes its payload up to its closing sequence. */
  ghost predicate TakesPayload(t: Tag) {
    (t.IsUniversal() || t.IsOpening()) && t.greed != NonGreedy && t.rule != RuleTagVsContent
  }

  function Complaints(t: Tag): seq<PlanStep> {
    if |t.sequence| == 1 then [WarnPayloadTooLongStep, WarnUnclosedStep] else [WarnUnclosedStep, WarnPayloadTooLongStep]
  }

  lemma {:induction false} PayloadPlan(t: Tag)
    requires TakesPayload(t) && t.sequence != []
    ensures var x := [CheckCloseStep] + (Complaints(t) + Back(t));
      PlanOf(t) == HeadOf(t) + (if t.IsUniversal() then x else BEFORE_EOL + x)
  {
    if |t.sequence| == 1 {
      assert SingleCharUniversalPlan(t) == [CheckCloseStep] + (Complaints(t) + Back(t));
    } else {
      assert MultiCharUniversalPlan(t) == [CheckCloseStep] + (Complaints(t) + Back(t));
    }
  }

  /** A whole closing sequence ends within the payload limit. */
  ghost predicate Closable(e: Env, t: Tag, start: nat)
    requires |e.d.tags| == 256
  {
    && Registered(e.d, t.closeID)
    && exists q: nat :: ClosesIn(e.input, e.d.tags[t.closeID].sequence, start, SearchEnd(e, start), q)
  }

  /** The payload limit cuts the search, and the search notices. */
  ghost predicate LimitNoticed(e: Env, t: Tag, start: nat)
    requires |e.d.tags| == 256
  {
    Registered(e.d, t.closeID) && CutUnseen(e.input, e.d.tags[t.closeID].sequence, start, SearchEnd(e, start))
  }

  /** The leftmost closing sequence is at q. */
  ghost predicate ClosesFirstAt(e: Env, t: Tag, start: nat, q: nat)
    requires |e.d.tags| == 256
  {
    var pat, hi := e.d.tags[t.closeID].sequence, SearchEnd(e, start);
    ClosesIn(e.input, pat, start, hi, q) && forall p: nat :: p < q ==> !ClosesIn(e.input, pat, start, hi, p)
  }

  /** What the close check finds, for any closer. */
  lemma {:induction false} CloseFound(e: Env, c: Ctx)
    requires CtxOk(e, c) && !c.bounds.payloadLimitReached
    ensures var t, start, n, m := TagOf(e, c), c.idx + c.bounds.width, |e.input|, CheckClose(e, c);
      var b := m.bounds;
      && m == c.(bounds := b) && b.width == c.bounds.width
      && b.closed == Closable(e, t, start) && b.payloadLimitReached == LimitNoticed(e, t, start)
      && (b.closed ==>
           && !b.payloadLimitReached && b.inner.end >= 0 && ClosesFirstAt(e, t, start, b.inner.end)
           && b.inner.start == start && b.raw == Span(c.idx, b.inner.end + |e.d.tags[t.closeID].sequence|))
      && (!b.closed ==> b.inner == Span(start, n) && b.raw == Span(c.idx, n))
  {
    hide CheckClose, ClosesIn, CutUnseen;
    CloseKeepsRest(e, c);
    if Registered(e.d, TagOf(e, c).closeID) {
      CloseSearchExact(e, c);
    } else {
      NoCloserNeverCloses(e, c);
    }
  }

  lemma {:induction false} CloseKeepsRest(e: Env, c: Ctx)
    requires CtxOk(e, c) && !c.bounds.payloadLimitReached
    ensures var m := CheckClose(e, c); m == c.(bounds := m.bounds) && m.bounds.width == c.bounds.width
    ensures CheckClose(e, c).bounds.closed ==> !CheckClose(e, c).bounds.payloadLimitReached
  {
    hide Best, Contains;
  }

  /** The warning steps behind the check, in either order. */
  lemma {:induction false} ComplaintsRun(e: Env, t: Tag, c: Ctx, tail: seq<PlanStep>) returns (m: Ctx)
    requires CtxOk(e, c) && t == TagOf(e, c) && TakesPayload(t)
    ensures CtxOk(e, m) && m == c.(warns := m.warns)
    ensures RunPlan(e, Complaints(t) + tail, c) == RunPlan(e, tail, m)
    ensures c.bounds.closed && !c.bounds.payloadLimitReached ==> m.warns == c.warns
    ensures !c.bounds.closed ==> m.warns == c.warns + [UnclosedWarning(t, c.idx, c.bounds.payloadLimitReached)]
  {
    hide RunPlan;
    var a, b := Complaints(t)[0], Complaints(t)[1];
    var k := Mutate(e, a, c);
    m := Mutate(e, b, k);
    SameTag(e, c, k);
    assert RunPlan(e, Complaints(t) + tail, c) == RunPlan(e, tail, m) by {
      hide Mutate, TagOf;
      assert Complaints(t) + tail == [a] + ([b] + tail);
      RunStep(e, a, [b] + tail, c);
      RunStep(e, b, tail, k);
    }
  }

  /** From the framed tag on: check, complain, emit or skip. */
  lemma {:induction false} PayloadBack(e: Env, t: Tag, c: Ctx)
    requires CtxOk(e, c) && !c.bounds.payloadLimitReached && t == TagOf(e, c) && TakesPayload(t)
    ensures PayloadResult(e, t, c, RunPlan(e, [CheckCloseStep] + (Complaints(t) + Back(t)), c), c.bounds.width)
  {
    hide RunPlan, CheckClose, TagOf, ClosesFirstAt, Closable, LimitNoticed;
    var m := CheckClose(e, c);
    CloseFound(e, c);
    RunStep(e, CheckCloseStep, Complaints(t) + Back(t), c);
    SameTag(e, c, m);
    var k := ComplaintsRun(e, t, m, Back(t));
    SameTag(e, c, k);
    BackRuns(e, t, k);
  }

  /** What the action of a tag of width w with a payload comes to. */
  ghost predicate PayloadResult(e: Env, t: Tag, c: Ctx, r: Ctx, w: nat)
    requires |e.d.tags| == 256
  {
    var start, n := c.idx + w, |e.input|;
    && r.skip == (t.greed == Greedy && !Closable(e, t, start))
    && (r.skip ==> r.stride == w)
    && (!r.skip ==> r.token == Token(TagToken, t.ID(), c.idx, r.stride, r.token.payload, Span(0, 0)))
    && (if Closable(e, t, start) then
          && r.warns == c.warns && r.token.payload.start == start && r.token.payload.end >= 0
          && ClosesFirstAt(e, t, start, r.token.payload.end)
          && r.stride == r.token.payload.end + |e.d.tags[t.closeID].sequence| - c.idx
        else
          && r.warns == c.warns + [UnclosedWarning(t, c.idx, LimitNoticed(e, t, start))]
          && (!r.skip ==> r.token.payload == Span(start, n) && r.stride == n - c.idx))
  }

  /** The whole action of a greedy or grasping tag standing in the input, other than an opener at its
   *  very end. It is emitted, silently, with its payload and the leftmost closing sequence, exactly
   *  when one ends within the payload limit. Otherwise there is one warning: of the payload limit if
   *  the closer's first byte is nowhere before the cut, else of the missing closer; a greedy tag then
   *  stays text, a grasping one takes the rest of the input. */
  lemma {:induction false} PayloadTagAction(e: Env, c: Ctx)
    requires CtxOk(e, c) && c == Reset(c.idx, c.counts, c.warns) && TakesPayload(TagOf(e, c))
    requires OccursAt(e.input, TagOf(e, c).sequence, c.idx)
    requires TagOf(e, c).IsOpening() ==> c.idx + |TagOf(e, c).sequence| < |e.input|
    ensures PayloadResult(e, TagOf(e, c), c, ActTag(e, c), |TagOf(e, c).sequence|)
  {
    hide RunPlan, OccursAt, PlanOf, Complaints, Back;
    var t := TagOf(e, c);
    PayloadPlan(t);
    var x := [CheckCloseStep] + (Complaints(t) + Back(t));
    var m;
    if t.IsUniversal() {
      m := HeadFrames(e, c, x);
    } else {
      m := HeadFrames(e, c, BEFORE_EOL + x);
      PassEOL(e, m, x);
    }
    SameTag(e, c, m);
    PayloadBack(e, t, m);
  }

  /** An opener at the very end of the input is left as text, with a warning. */
  lemma {:induction false} OpenerAtEndAction(e: Env, c: Ctx)
    requires CtxOk(e, c) && TagOf(e, c).IsOpening() && OccursAt(e.input, TagOf(e, c).sequence, c.idx)
    requires c.idx + |TagOf(e, c).sequence| == |e.input|
    ensures var r := ActTag(e, c);
      && r.skip && r.stride == |TagOf(e, c).sequence|
      && r.warns == c.warns + [Warning(UnexpectedEOL, |e.input|, TagOf(e, c).ID(), 0, 0, 0)]
  {
    hide RunPlan, OccursAt, SingleCharUniversalPlan, MultiCharUniversalPlan;
    var t := TagOf(e, c);
    var x := if |t.sequence| == 1 then SingleCharUniversalPlan(t) else MultiCharUniversalPlan(t);
    assert PlanOf(t) == HeadOf(t) + (BEFORE_EOL + x);
    var m := HeadFrames(e, c, BEFORE_EOL + x);
    SameTag(e, c, m);
    EndOfInput(e, m, x);
  }

  lemma {:induction false} EndOfInput(e: Env, c: Ctx, rest: seq<PlanStep>)
    requires CtxOk(e, c) && TagOf(e, c).IsOpening() && c.idx + c.bounds.width == |e.input|
    ensures var r := RunPlan(e, BEFORE_EOL + rest, c);
      && r.skip && r.stride == c.bounds.width
      && r.warns == c.warns + [Warning(UnexpectedEOL, |e.input|, TagOf(e, c).ID(), 0, 0, 0)]
  {
    hide RunPlan, TagOf;
    assert BEFORE_EOL + rest == [WarnOpenBeforeEOLStep] + ([SkipOpenBeforeEOL] + rest);
    RunStep(e, WarnOpenBeforeEOLStep, [SkipOpenBeforeEOL] + rest, c);
    RunStep(e, SkipOpenBeforeEOL, rest, WarnOpenBeforeEOL(e, c));
  }
}
