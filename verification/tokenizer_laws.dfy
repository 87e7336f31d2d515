/** What the tokenizer's actions mean: closing searches are exact, escaping makes text plain, and
 *  printed attributes come back. */
module TokenizerLaws {
  import opened Markup
  import opened Plans
  import opened Scanning
  import opened Actions

  // ---- tag sequences and closing tags ----

  lemma {:induction false} OccursInWindow(input: seq<Byte>, pat: seq<Byte>, lo: nat, hi: nat, p: nat)
    requires lo <= hi <= |input|
    ensures OccursAt(input[lo..hi], pat, p) <==> lo + p + |pat| <= hi && OccursAt(input, pat, lo + p)
  {
    if lo + p + |pat| <= hi {
      var a, b := input[lo..hi][p..p + |pat|], input[lo + p..lo + p + |pat|];
      assert |a| == |b| && forall k :: 0 <= k < |a| ==> a[k] == input[lo + p + k] == b[k];
    }
  }

  /** A multi-byte tag is accepted exactly when its whole sequence stands at the trigger. */
  lemma {:induction false} SequenceStandsAtTrigger(e: Env, c: Ctx)
    requires CtxOk(e, c)
    ensures CheckMultiCharSeq(e, c).bounds.seqValid <==> OccursAt(e.input, TagOf(e, c).sequence, c.idx)
  {
    hide Best;
    var pat, i := TagOf(e, c).sequence, c.idx;
    var hi := Min(|e.input|, i + |pat|);
    var win := e.input[i..hi];
    BestMeansSearch(win, pat);
    OccursInWindow(e.input, pat, i, hi, 0);
    if Contains(win, pat) {
      ShortWindow(win, pat);
    }
  }

  /** The close search finds the leftmost whole closing sequence that ends inside the payload window. */
  ghost predicate ClosesIn(input: seq<Byte>, pat: seq<Byte>, start: nat, hi: nat, q: nat) {
    start <= q && q + |pat| <= hi && OccursAt(input, pat, q)
  }

  lemma {:induction false} WindowSearch(input: seq<Byte>, pat: seq<Byte>, lo: nat, hi: nat)
    requires lo <= hi <= |input| && pat != []
    ensures var m := Best(input[lo..hi], pat, hi - lo);
      && (Contains(input[lo..hi], pat) <==> exists q: nat :: ClosesIn(input, pat, lo, hi, q))
      && (Contains(input[lo..hi], pat) ==>
           && m.idx >= 0 && m.len == |pat| && ClosesIn(input, pat, lo, hi, lo + m.idx)
           && forall q: nat :: q < lo + m.idx ==> !ClosesIn(input, pat, lo, hi, q))
  {
    hide Best, OccursAt;
    var win := input[lo..hi];
    BestMeansSearch(win, pat);
    forall q: nat | lo <= q ensures ClosesIn(input, pat, lo, hi, q) <==> OccursAt(win, pat, q - lo) {
      OccursInWindow(input, pat, lo, hi, q - lo);
    }
    if Contains(win, pat) {
      assert ClosesIn(input, pat, lo, hi, lo + Best(win, pat, |win|).idx);
    } else {
      assert forall p: nat :: !OccursAt(win, pat, p);
    }
  }

  /** Nothing matches exactly when the sequence's first byte is nowhere in the window. */
  lemma {:induction false} NoFirstByte(src: seq<Byte>, pat: seq<Byte>)
    requires pat != []
    ensures Best(src, pat, |src|).idx == -1 <==> forall p :: 0 <= p < |src| ==> src[p] != pat[0]
  {
    BestIsOptimal(src, pat, |src|);
    forall p | 0 <= p < |src| ensures CommonLen(src, p, pat) > 0 <==> src[p] == pat[0] {
    }
  }

  /** Where the close search stops: at the payload limit or the end of the input. */
  function SearchEnd(e: Env, start: nat): int {
    Min(start + e.d.limits.maxPayloadLen + 1, |e.input|)
  }

  /** The payload limit cuts the search, and not even the closer's first byte stands before the cut. */
  ghost predicate CutUnseen(input: seq<Byte>, pat: seq<Byte>, start: nat, hi: int)
    requires pat != []
  {
    hi < |input| && forall p :: start <= p < hi ==> input[p] != pat[0]
  }

  lemma {:induction false} WindowFirstByte(input: seq<Byte>, pat: seq<Byte>, lo: nat, hi: nat)
    requires lo <= hi <= |input| && pat != []
    ensures Best(input[lo..hi], pat, hi - lo).idx == -1 <==> forall p :: lo <= p < hi ==> input[p] != pat[0]
  {
    hide Best;
    var win := input[lo..hi];
    NoFirstByte(win, pat);
    forall p | lo <= p < hi ensures input[p] == win[p - lo] {
    }
  }

  /** The search closes exactly when a whole closing sequence ends in the payload window, at the
   *  leftmost one. When nothing closes, the bounds run to the end of the input, and the payload limit
   *  is reported exactly when it cut the search before any first byte of the closer. */
  lemma {:induction false} CloseSearchExact(e: Env, c: Ctx)
    requires CtxOk(e, c) && Registered(e.d, TagOf(e, c).closeID)
    ensures var pat, start := e.d.tags[TagOf(e, c).closeID].sequence, c.idx + c.bounds.width;
      var hi, b := SearchEnd(e, start), CheckClose(e, c).bounds;
      && (b.closed <==> exists q: nat :: ClosesIn(e.input, pat, start, hi, q))
      && (b.closed ==>
           && b.closeIdx >= 0 && ClosesIn(e.input, pat, start, hi, b.closeIdx)
           && b.inner == Span(start, b.closeIdx) && b.raw == Span(c.idx, b.closeIdx + |pat|)
           && forall q: nat :: q < b.closeIdx ==> !ClosesIn(e.input, pat, start, hi, q))
      && (!b.closed ==> b.inner == Span(start, |e.input|) && b.raw == Span(c.idx, |e.input|))
      && (b.payloadLimitReached <==> CutUnseen(e.input, pat, start, hi))
  {
    hide Best, Contains, ClosesIn;
    var pat, start := e.d.tags[TagOf(e, c).closeID].sequence, c.idx + c.bounds.width;
    WindowSearch(e.input, pat, start, SearchEnd(e, start));
    WindowFirstByte(e.input, pat, start, SearchEnd(e, start));
  }

  /** A tag whose closer is not registered never closes, and no limit is reported. */
  lemma {:induction false} NoCloserNeverCloses(e: Env, c: Ctx)
    requires CtxOk(e, c) && !Registered(e.d, TagOf(e, c).closeID)
    ensures var b := CheckClose(e, c).bounds;
      && !b.closed && b.raw == Span(c.idx, |e.input|) && b.inner == Span(c.idx + c.bounds.width, |e.input|)
      && b.payloadLimitReached == c.bounds.payloadLimitReached
  {
  }

  // ---- tag versus content ----

  /** The run at the trigger is longer than the key limit. */
  predicate KeyTooLong(e: Env, c: Ctx)
    requires CtxOk(e, c)
  {
    RunLen(e.input, e.input[c.idx], c.idx) > e.d.limits.maxKeyLen
  }

  /** A maximal run of the opening width starts at q, inside the scan window. */
  ghost predicate ClosingCandidate(e: Env, c: Ctx, q: nat)
    requires CtxOk(e, c)
  {
    WindowStart(e, c) <= q < WindowEnd(e, c) && ClosingRun(e.input, e.input[c.idx], OpenWidth(e, c), q)
  }

  lemma {:induction false} OpeningRun(e: Env, c: Ctx)
    requires CtxOk(e, c)
    ensures var n, i, b, w := |e.input|, c.idx, e.input[c.idx], OpenWidth(e, c);
      && (KeyTooLong(e, c) <==> i + w < n && w == e.d.limits.maxKeyLen && e.input[i + w] == b)
      && (!KeyTooLong(e, c) ==> w == RunLen(e.input, b, i))
      && (!KeyTooLong(e, c) && i + w < n ==> e.input[i + w] != b)
  {
    var r := RunLen(e.input, e.input[c.idx], c.idx);
    assert r >= 1;
  }

  /** The scan stopped at the payload limit, and its last bytes show it did: a trigger byte among
   *  them makes the search jump over the window's end without noticing. */
  ghost predicate CutByLimit(e: Env, c: Ctx)
    requires CtxOk(e, c)
  {
    var lo, hi, b := WindowStart(e, c), WindowEnd(e, c), e.input[c.idx];
    && lo < hi < |e.input| - OpenWidth(e, c) + 1
    && e.input[hi - 1] != b && (hi - 1 == lo || e.input[hi - 2] != b)
  }

  lemma {:induction false} NoRunAt(input: seq<Byte>, b: Byte, w: nat, p: nat)
    requires p < |input| && input[p] != b
    ensures !ClosingRun(input, b, w, p)
  {
  }

  /** How the search ends in the branch that scans the window. */
  lemma {:induction false} ScanResult(e: Env, c: Ctx)
    requires CtxOk(e, c) && !c.bounds.keyLenLimitReached && !c.bounds.payloadLimitReached
    requires !KeyTooLong(e, c) && c.idx + OpenWidth(e, c) < |e.input| && WindowStart(e, c) < WindowEnd(e, c)
    ensures var b, w := CheckTagVsContent(e, c).bounds, OpenWidth(e, c);
      && b.width == w && !b.keyLenLimitReached
      && match FindClosing(e.input, e.input[c.idx], w, WindowStart(e, c), WindowEnd(e, c))
         case ClosesAt(at) =>
           && b.closed && !b.payloadLimitReached && b.closeIdx == at
           && b.inner == Span(c.idx + w, at) && b.raw == Span(c.idx, at + w)
         case Unclosed(saw) =>
           && !b.closed && b.raw == Span(c.idx, |e.input|) && b.inner == Span(c.idx + w, |e.input|)
           && b.payloadLimitReached == (saw && WindowEnd(e, c) < |e.input| - w + 1)
  {
    hide FindClosing, RunLen, KeyTooLong, ClosingRun;
    OpeningRun(e, c);
  }

  lemma {:induction false} NoScanResult(e: Env, c: Ctx)
    requires CtxOk(e, c)
    requires KeyTooLong(e, c) || c.idx + OpenWidth(e, c) == |e.input| || WindowStart(e, c) >= WindowEnd(e, c)
    ensures var b := CheckTagVsContent(e, c).bounds;
      && b.width == OpenWidth(e, c) && !b.closed
      && b.raw == Span(c.idx, |e.input|) && b.inner == Span(c.idx + OpenWidth(e, c), |e.input|)
      && b.keyLenLimitReached == KeyTooLong(e, c) && !b.payloadLimitReached
  {
    hide FindClosing, RunLen, KeyTooLong, ClosingRun;
    OpeningRun(e, c);
  }

  /** The search closes exactly when a maximal run of the opening width starts in the window. */
  lemma {:induction false} TagVsContentExact(e: Env, c: Ctx)
    requires CtxOk(e, c) && !c.bounds.keyLenLimitReached && !c.bounds.payloadLimitReached
    ensures var b, w := CheckTagVsContent(e, c).bounds, OpenWidth(e, c);
      && b.width == w && b.keyLenLimitReached == KeyTooLong(e, c)
      && (b.closed <==> !KeyTooLong(e, c) && exists q: nat :: ClosingCandidate(e, c, q))
      && (b.payloadLimitReached <==> !KeyTooLong(e, c) && !b.closed && CutByLimit(e, c))
      && (!b.closed ==> b.raw == Span(c.idx, |e.input|) && b.inner == Span(c.idx + w, |e.input|))
  {
    hide FindClosing, RunLen, KeyTooLong, ClosingRun, OpenWidth, CheckTagVsContent;
    OpeningRun(e, c);
    var w := OpenWidth(e, c);
    if !KeyTooLong(e, c) && c.idx + w < |e.input| && WindowStart(e, c) < WindowEnd(e, c) {
      ScanResult(e, c);
      FindClosingExact(e.input, e.input[c.idx], w, WindowStart(e, c), WindowEnd(e, c));
      if !CheckTagVsContent(e, c).bounds.closed {
        WindowEndSeen(e.input, e.input[c.idx], w, WindowStart(e, c), WindowEnd(e, c));
      } else {
        var at := CheckTagVsContent(e, c).bounds.closeIdx;
        assert ClosingCandidate(e, c, at);
      }
    } else {
      NoScanResult(e, c);
    }
  }

  /** A closing search picks the leftmost run of the opening width behind the opening run, and leaves
   *  a payload of 1 byte up to the limit. */
  lemma {:induction false} TagVsContentLeftmost(e: Env, c: Ctx)
    requires CtxOk(e, c) && !c.bounds.keyLenLimitReached && !c.bounds.payloadLimitReached
    requires CheckTagVsContent(e, c).bounds.closed
    ensures var b, w := CheckTagVsContent(e, c).bounds, OpenWidth(e, c);
      && b.closeIdx >= 0 && ClosingRun(e.input, e.input[c.idx], w, b.closeIdx)
      && (forall q: nat :: c.idx + w <= q < b.closeIdx ==> !ClosingRun(e.input, e.input[c.idx], w, q))
      && b.inner == Span(c.idx + w, b.closeIdx) && b.raw == Span(c.idx, b.closeIdx + w)
      && 1 <= b.closeIdx - (c.idx + w) <= e.d.limits.maxPayloadLen
  {
    hide FindClosing, RunLen, KeyTooLong, ClosingRun, OpenWidth, CheckTagVsContent;
    OpeningRun(e, c);
    var w := OpenWidth(e, c);
    if !KeyTooLong(e, c) && c.idx + w < |e.input| && WindowStart(e, c) < WindowEnd(e, c) {
      ScanResult(e, c);
      FindClosingExact(e.input, e.input[c.idx], w, WindowStart(e, c), WindowEnd(e, c));
      NoRunAt(e.input, e.input[c.idx], w, c.idx + w);
    } else {
      NoScanResult(e, c);
    }
  }

  /** A tag under the tag-versus-content rule: registration accepts the rule for these alone. */
  predicate IsCodeTag(t: Tag) {
    |t.sequence| == 1 && t.IsUniversal() && t.greed != NonGreedy && t.rule == RuleTagVsContent
  }

  lemma {:induction false} SameWindow(e: Env, c: Ctx, m: Ctx)
    requires CtxOk(e, c) && CtxOk(e, m) && c.idx == m.idx
    ensures OpenWidth(e, m) == OpenWidth(e, c) && (KeyTooLong(e, m) <==> KeyTooLong(e, c))
    ensures CutByLimit(e, m) <==> CutByLimit(e, c)
    ensures forall q: nat :: ClosingCandidate(e, m, q) <==> ClosingCandidate(e, c, q)
  {
    hide RunLen, ClosingRun;
  }

  lemma {:induction false} RunStep(e: Env, s: PlanStep, rest: seq<PlanStep>, c: Ctx)
    requires CtxOk(e, c)
    ensures RunPlan(e, [s] + rest, c) == if Handles(e, s, c) then Settle(e, s, c) else RunPlan(e, rest, Mutate(e, s, c))
  {
    hide Handles, Settle, Mutate;
    assert ([s] + rest)[1..] == rest;
  }

  /** What an unclosed tag warns about: the payload limit, if that was noticed, or the missing closer. */
  function UnclosedWarning(t: Tag, i: nat, payloadLimit: bool): Warning {
    if payloadLimit then Warn(TagPayloadTooLong, i) else Warning(UnclosedTag, i, t.ID(), t.closeID, 0, 0)
  }

  function CodeWarnings(t: Tag, i: nat, keyLimit: bool, payloadLimit: bool): seq<Warning> {
    (if keyLimit then [Warn(TagKeyTooLong, i)] else []) + [UnclosedWarning(t, i, payloadLimit)]
  }

  /** The warning steps of the plan behind the search. */
  lemma {:induction false} CodeWarningSteps(e: Env, c: Ctx, tail: seq<PlanStep>) returns (m: Ctx)
    requires CtxOk(e, c) && IsCodeTag(TagOf(e, c))
    ensures CtxOk(e, m)
    ensures RunPlan(e, [WarnKeyTooLongStep, WarnPayloadTooLongStep, WarnUnclosedStep] + tail, c) == RunPlan(e, tail, m)
    ensures m == c.(warns := m.warns)
    ensures var b := c.bounds;
      && (b.closed && !b.keyLenLimitReached && !b.payloadLimitReached ==> m.warns == c.warns)
      && (!b.closed ==> m.warns == c.warns + CodeWarnings(TagOf(e, c), c.idx, b.keyLenLimitReached, b.payloadLimitReached))
  {
    hide RunPlan;
    var c1 := Mutate(e, WarnKeyTooLongStep, c);
    var c2 := Mutate(e, WarnPayloadTooLongStep, c1);
    m := Mutate(e, WarnUnclosedStep, c2);
    assert c1 == c.(warns := c1.warns) && c2 == c.(warns := c2.warns) && m == c.(warns := m.warns);
    assert RunPlan(e, [WarnKeyTooLongStep, WarnPayloadTooLongStep, WarnUnclosedStep] + tail, c) == RunPlan(e, tail, m) by {
      hide Mutate;
      assert [WarnKeyTooLongStep, WarnPayloadTooLongStep, WarnUnclosedStep] + tail
          == [WarnKeyTooLongStep] + ([WarnPayloadTooLongStep] + ([WarnUnclosedStep] + tail));
      RunStep(e, WarnKeyTooLongStep, [WarnPayloadTooLongStep] + ([WarnUnclosedStep] + tail), c);
      RunStep(e, WarnPayloadTooLongStep, [WarnUnclosedStep] + tail, c1);
      RunStep(e, WarnUnclosedStep, tail, c2);
    }
  }

  const COUNT_AND_EMIT: seq<PlanStep> := [CountTag] + [EmitEntireTag]

  /** Counting and emitting. */
  lemma {:induction false} CountAndEmit(e: Env, count: PlanStep, c: Ctx)
    requires CtxOk(e, c) && (count.CountTag? || count.CountCloseTag? || count.CountOpenTag? || count.CountUniversalTag?)
    ensures var r := RunPlan(e, [count] + [EmitEntireTag], c);
      && !r.skip && r.warns == c.warns && r.stride == c.bounds.raw.end - c.bounds.raw.start
      && r.token == Token(TagToken, TagOf(e, c).ID(), c.idx, r.stride, c.bounds.inner, Span(0, 0))
  {
    hide RunPlan, TagOf;
    RunStep(e, count, [EmitEntireTag], c);
    var m := Mutate(e, count, c);
    SameTag(e, c, m);
    assert [EmitEntireTag] + [] == [EmitEntireTag];
    RunStep(e, EmitEntireTag, [], m);
  }

  /** The back of a greedy or grasping tag's plan: a greedy tag is emitted only when it is closed. */
  function Back(t: Tag): seq<PlanStep> {
    (if t.greed == Greedy then [SkipUnclosedOpen] else []) + COUNT_AND_EMIT
  }

  lemma {:induction false} BackRuns(e: Env, t: Tag, c: Ctx)
    requires CtxOk(e, c) && t.greed != NonGreedy
    ensures var r := RunPlan(e, Back(t), c);
      && r.skip == (t.greed == Greedy && !c.bounds.closed) && r.warns == c.warns
      && (r.skip ==> r.stride == c.bounds.width)
      && (!r.skip ==>
           && r.stride == c.bounds.raw.end - c.bounds.raw.start
           && r.token == Token(TagToken, TagOf(e, c).ID(), c.idx, r.stride, c.bounds.inner, Span(0, 0)))
  {
    hide RunPlan, TagOf;
    CountAndEmit(e, CountTag, c);
    assert [] + COUNT_AND_EMIT == COUNT_AND_EMIT;
    if t.greed == Greedy {
      RunStep(e, SkipUnclosedOpen, COUNT_AND_EMIT, c);
    }
  }

  lemma {:induction false} CodePlan(e: Env, c: Ctx)
    requires CtxOk(e, c) && IsCodeTag(TagOf(e, c))
    ensures ActTag(e, c) == RunPlan(e, [WarnKeyTooLongStep, WarnPayloadTooLongStep, WarnUnclosedStep] + Back(TagOf(e, c)),
                                    CheckTagVsContent(e, PrepareSingleChar(e, c)))
  {
    hide RunPlan, CheckTagVsContent;
    var rest := [WarnKeyTooLongStep, WarnPayloadTooLongStep, WarnUnclosedStep] + Back(TagOf(e, c));
    assert PlanOf(TagOf(e, c)) == [PrepareSingleCharStep] + ([CheckTagVsContentStep] + rest);
    RunStep(e, PrepareSingleCharStep, [CheckTagVsContentStep] + rest, c);
    RunStep(e, CheckTagVsContentStep, rest, PrepareSingleChar(e, c));
  }

  /** The whole action of such a tag. It emits opening run, content and closing run, silently, exactly
   *  when a matching run starts in the window. Otherwise it warns; a greedy tag then leaves the opening
   *  run as text, a grasping one takes the rest of the input. */
  lemma {:induction false} CodeTagAction(e: Env, c: Ctx)
    requires CtxOk(e, c) && c == Reset(c.idx, c.counts, c.warns) && IsCodeTag(TagOf(e, c))
    ensures var r, t, w, n := ActTag(e, c), TagOf(e, c), OpenWidth(e, c), |e.input|;
      var closes := !KeyTooLong(e, c) && exists q: nat :: ClosingCandidate(e, c, q);
      && r.skip == (t.greed == Greedy && !closes)
      && (!r.skip ==> r.token == Token(TagToken, t.ID(), c.idx, r.stride, r.token.payload, Span(0, 0)))
      && (!closes ==>
           && r.warns == c.warns + CodeWarnings(t, c.idx, KeyTooLong(e, c), !KeyTooLong(e, c) && CutByLimit(e, c))
           && (r.skip ==> r.stride == w)
           && (!r.skip ==> r.stride == n - c.idx && r.token.payload == Span(c.idx + w, n)))
    ensures var r, w := ActTag(e, c), OpenWidth(e, c);
      !KeyTooLong(e, c) && (exists q: nat :: ClosingCandidate(e, c, q)) ==>
        var t := r.token.payload;
        && r.warns == c.warns && t.start == c.idx + w && 1 <= t.end - t.start <= e.d.limits.maxPayloadLen
        && r.stride == 2 * w + (t.end - t.start) && ClosingRun(e.input, e.input[c.idx], w, t.end)
        && forall q: nat :: t.start <= q < t.end ==> !ClosingRun(e.input, e.input[c.idx], w, q)
  {
    hide FindClosing, RunLen, KeyTooLong, ClosingRun, ClosingCandidate, CutByLimit, CheckTagVsContent, RunPlan, OpenWidth,
         ActTag, CodeWarnings, WindowStart, WindowEnd;
    var m := PrepareSingleChar(e, c);
    SameWindow(e, c, m);
    TagVsContentExact(e, m);
    CodePlan(e, c);
    SearchKeepsRest(e, m);
    var k := CodeWarningSteps(e, CheckTagVsContent(e, m), Back(TagOf(e, c)));
    SameTag(e, c, k);
    BackRuns(e, TagOf(e, c), k);
    if CheckTagVsContent(e, m).bounds.closed {
      TagVsContentLeftmost(e, m);
    }
  }

  lemma {:induction false} SearchKeepsRest(e: Env, c: Ctx)
    requires CtxOk(e, c)
    ensures var r := CheckTagVsContent(e, c);
      r.idx == c.idx && r.counts == c.counts && r.warns == c.warns && TagOf(e, r) == TagOf(e, c)
  {
    hide FindClosing, RunLen;
  }
}
