/** What the remaining actions do, said of the input alone: attributes, the escape byte, and the tags
 *  that take no payload. */
module ActionRules {
  import opened Markup
  import opened Plans
  import opened Scanning
  import opened Actions
  import opened TokenizerSpec
  import opened TokenizerLaws
  import opened TagActions

  // ---- attributes ----

  /** The first payload-start byte behind the trigger at i stands at q, within the key limit. */
  ghost predicate StartsPayload(e: Env, i: nat, q: nat) {
    && i < q < |e.input| && q - i - 1 <= e.d.limits.maxAttrKeyLen && e.input[q] == e.d.attrPayloadStart
    && forall j :: i < j < q ==> e.input[j] != e.d.attrPayloadStart
  }

  /** The byte at r ends a payload that starts at lo: an end byte, and with an escape byte configured,
   *  one that is not escaped. */
  ghost predicate MayEnd(e: Env, lo: nat, r: nat) {
    && lo <= r < |e.input|
    && if e.d.escapeTrigger == 0 then e.input[r] == e.d.attrPayloadEnd
       else e.d.escapeTrigger != e.d.attrPayloadEnd && IsOpenEnd(e.input, lo, r, e.d.attrPayloadEnd, e.d.escapeTrigger)
  }

  /** The payload that starts at lo ends at r, within its limit. */
  ghost predicate EndsPayload(e: Env, lo: nat, r: nat) {
    MayEnd(e, lo, r) && r - lo <= e.d.limits.maxAttrPayloadLen && forall k: nat :: lo <= k < r ==> !MayEnd(e, lo, k)
  }

  /** A key up to q and a payload up to r. */
  ghost predicate AttributeStands(e: Env, i: nat, q: nat, r: nat) {
    StartsPayload(e, i, q) && q + 1 < r && EndsPayload(e, q + 1, r)
  }

  ghost predicate HasPayloadStart(e: Env, i: nat) {
    exists q: nat :: StartsPayload(e, i, q)
  }

  ghost predicate HasPayloadEnd(e: Env, lo: nat) {
    exists r: nat :: EndsPayload(e, lo, r)
  }

  /** Why no attribute stands at i, and the place the warning names. */
  ghost predicate Objects(e: Env, i: nat, w: Warning) {
    var n := |e.input|;
    && (i + 1 == n ==> w == Warn(UnexpectedEOL, i))
    && (i + 1 < n && !HasPayloadStart(e, i) ==>
          w == if i + 2 + e.d.limits.maxAttrKeyLen < n then Warn(AttrKeyTooLong, i) else Warn(UnexpectedEOL, n))
    && forall q: nat :: StartsPayload(e, i, q) ==> ObjectsTo(e, i, q, w)
  }

  /** Why no payload stands behind its start at q. */
  ghost predicate ObjectsTo(e: Env, i: nat, q: nat, w: Warning) {
    var n := |e.input|;
    && (q + 1 == n ==> w == Warn(UnexpectedEOL, q))
    && (q + 1 < n && !HasPayloadEnd(e, q + 1) ==>
          w == if q + 2 + e.d.limits.maxAttrPayloadLen < n then Warn(AttrPayloadTooLong, i) else Warn(UnclosedAttrPayload, n))
    && (q + 1 < n && EndsPayload(e, q + 1, q + 1) ==> w == Warn(EmptyAttrPayload, q + 1))
  }

  lemma {:induction false} FirstIndexMeans(input: seq<Byte>, b: Byte, lo: nat, hi: nat)
    requires lo <= hi <= |input|
    ensures var r := FirstIndex(input, b, lo, hi);
      if r == -1 then forall j :: lo <= j < hi ==> input[j] != b
      else lo <= r < hi && input[r] == b && forall j :: lo <= j < r ==> input[j] != b
    decreases hi - lo
  {
    if lo < hi && input[lo] != b { FirstIndexMeans(input, b, lo + 1, hi); }
  }

  /** The search for the payload start. */
  lemma {:induction false} StartFound(e: Env, i: nat)
    requires i + 1 < |e.input|
    ensures var r := FirstIndex(e.input, e.d.attrPayloadStart, i + 1, Min(i + 2 + e.d.limits.maxAttrKeyLen, |e.input|));
      && (r == -1 ==> !HasPayloadStart(e, i))
      && (r != -1 ==> r > i && forall q: nat :: StartsPayload(e, i, q) <==> q == r)
  {
    hide FirstIndex;
    FirstIndexMeans(e.input, e.d.attrPayloadStart, i + 1, Min(i + 2 + e.d.limits.maxAttrKeyLen, |e.input|));
    forall q: nat | StartsPayload(e, i, q) ensures FirstIndex(e.input, e.d.attrPayloadStart, i + 1, Min(i + 2 + e.d.limits.maxAttrKeyLen, |e.input|)) == q {
    }
  }

  /** The search for the payload end. */
  lemma {:induction false} EndFound(e: Env, lo: nat)
    requires lo < |e.input|
    ensures var r := AttrEnd(e, lo, Min(lo + e.d.limits.maxAttrPayloadLen + 1, |e.input|));
      && (r == -1 ==> !HasPayloadEnd(e, lo))
      && (r != -1 ==> r >= lo && forall k: nat :: EndsPayload(e, lo, k) <==> k == r)
  {
    hide FirstIndex, PayloadEnd, IsOpenEnd;
    var hi := Min(lo + e.d.limits.maxAttrPayloadLen + 1, |e.input|);
    FirstIndexMeans(e.input, e.d.attrPayloadEnd, lo, hi);
    PayloadEndMeans(e.input, lo, hi, e.d.attrPayloadEnd, e.d.escapeTrigger);
    var r := AttrEnd(e, lo, hi);
    assert forall k: nat :: lo <= k < hi && (r == -1 || k < r) ==> !MayEnd(e, lo, k);
    if r != -1 {
      assert EndsPayload(e, lo, r);
      forall k: nat | EndsPayload(e, lo, k) ensures k == r {
      }
    }
  }

  /** The whole action of an attribute trigger. A token is emitted if and only if a payload start
   *  stands within the key limit and a payload that is not empty ends within its limit behind it; the
   *  token has exactly their spans. In every other case the trigger alone is left as text, with one
   *  warning that fits what is missing. */
  lemma {:induction false} AttributeTriggerAction(e: Env, c: Ctx)
    requires WfEnv(e) && c.idx < |e.input|
    ensures var r := ActAttribute(e, c);
      !r.skip <==> exists q: nat, k: nat :: AttributeStands(e, c.idx, q, k)
    ensures forall q: nat, k: nat :: AttributeStands(e, c.idx, q, k) ==> EmitsAttribute(e, c, ActAttribute(e, c), q, k)
    ensures var r := ActAttribute(e, c);
      r.skip ==> r.stride == 1 && r.counts == c.counts && exists w :: r.warns == c.warns + [w] && Objects(e, c.idx, w)
  {
    hide FirstIndex, AttrEnd, StartsPayload, EndsPayload, HasPayloadStart, HasPayloadEnd;
    var i, n := c.idx, |e.input|;
    var r := ActAttribute(e, c);
    if i + 1 < n {
      StartFound(e, i);
      var q := FirstIndex(e.input, e.d.attrPayloadStart, i + 1, Min(i + 2 + e.d.limits.maxAttrKeyLen, n));
      if q == -1 {
        NoStart(e, i);
        Objection(e, c, r, if i + 2 + e.d.limits.maxAttrKeyLen < n then Warn(AttrKeyTooLong, i) else Warn(UnexpectedEOL, n));
      } else {
        BehindStart(e, c, q);
      }
    } else {
      LastByte(e, i);
      Objection(e, c, r, Warn(UnexpectedEOL, i));
    }
  }

  /** What an emitted attribute looks like. */
  ghost predicate EmitsAttribute(e: Env, c: Ctx, r: Ctx, q: nat, k: nat)
    requires c.idx < |e.input|
  {
    && !r.skip && r.stride == k + 1 - c.idx && r.warns == c.warns
    && r.token.pos == c.idx && r.token.width == k + 1 - c.idx && r.token.trigger == e.input[c.idx]
    && r.token.payload == Span(q + 1, k)
    && (q == c.idx + 1 ==> r.token.typ == AttributeFlag && r.token.attrKey == Span(0, 0))
    && (q > c.idx + 1 ==> r.token.typ == AttributeKV && r.token.attrKey == Span(c.idx + 1, q))
  }

  lemma {:induction false} Objection(e: Env, c: Ctx, r: Ctx, w: Warning)
    requires r.warns == c.warns + [w] && Objects(e, c.idx, w)
    ensures exists w :: r.warns == c.warns + [w] && Objects(e, c.idx, w)
  {
  }

  lemma {:induction false} LastByte(e: Env, i: nat)
    requires i + 1 == |e.input|
    ensures forall q: nat :: !StartsPayload(e, i, q)
    ensures forall q: nat, k: nat :: !AttributeStands(e, i, q, k)
    ensures Objects(e, i, Warn(UnexpectedEOL, i))
  {
  }

  lemma {:induction false} NoStart(e: Env, i: nat)
    requires i + 1 < |e.input| && !HasPayloadStart(e, i)
    ensures forall q: nat, k: nat :: !AttributeStands(e, i, q, k)
    ensures Objects(e, i, if i + 2 + e.d.limits.maxAttrKeyLen < |e.input| then Warn(AttrKeyTooLong, i) else Warn(UnexpectedEOL, |e.input|))
  {
    hide StartsPayload;
    assert forall q: nat :: !StartsPayload(e, i, q);
  }

  /** The action from the payload start on. */
  lemma {:induction false} BehindStart(e: Env, c: Ctx, q: nat)
    requires WfEnv(e) && c.idx + 1 < |e.input| && c.idx < q < |e.input|
    requires q == FirstIndex(e.input, e.d.attrPayloadStart, c.idx + 1, Min(c.idx + 2 + e.d.limits.maxAttrKeyLen, |e.input|))
    requires forall p: nat :: StartsPayload(e, c.idx, p) <==> p == q
    ensures var r := ActAttribute(e, c);
      !r.skip <==> exists q: nat, k: nat :: AttributeStands(e, c.idx, q, k)
    ensures forall q: nat, k: nat :: AttributeStands(e, c.idx, q, k) ==> EmitsAttribute(e, c, ActAttribute(e, c), q, k)
    ensures var r := ActAttribute(e, c);
      r.skip ==> r.stride == 1 && r.counts == c.counts && exists w :: r.warns == c.warns + [w] && Objects(e, c.idx, w)
  {
    hide FirstIndex, AttrEnd, StartsPayload, EndsPayload, HasPayloadEnd;
    var r, n := ActAttribute(e, c), |e.input|;
    assert StartsPayload(e, c.idx, q) && HasPayloadStart(e, c.idx);
    if q + 1 == n {
      AtEnd(e, c.idx, q);
      Objection(e, c, r, Warn(UnexpectedEOL, q));
    } else {
      EndFound(e, q + 1);
      var k := AttrEnd(e, q + 1, Min(q + 1 + e.d.limits.maxAttrPayloadLen + 1, n));
      if k == -1 {
        NoEnd(e, c.idx, q);
        Objection(e, c, r, if q + 2 + e.d.limits.maxAttrPayloadLen < n then Warn(AttrPayloadTooLong, c.idx) else Warn(UnclosedAttrPayload, n));
      } else {
        assert EndsPayload(e, q + 1, k);
        EndExists(e, q + 1, k);
        if k == q + 1 {
          Objection(e, c, r, Warn(EmptyAttrPayload, q + 1));
        } else {
          assert AttributeStands(e, c.idx, q, k);
        }
      }
    }
  }

  lemma {:induction false} EndExists(e: Env, lo: nat, k: nat)
    requires EndsPayload(e, lo, k)
    ensures HasPayloadEnd(e, lo)
  {
  }

  lemma {:induction false} AtEnd(e: Env, i: nat, q: nat)
    requires q + 1 == |e.input| && forall p: nat :: StartsPayload(e, i, p) <==> p == q
    ensures forall q: nat, k: nat :: !AttributeStands(e, i, q, k)
    ensures Objects(e, i, Warn(UnexpectedEOL, q))
  {
    assert StartsPayload(e, i, q);
  }

  lemma {:induction false} NoEnd(e: Env, i: nat, q: nat)
    requires q + 1 < |e.input| && (forall p: nat :: StartsPayload(e, i, p) <==> p == q) && !HasPayloadEnd(e, q + 1)
    ensures forall q: nat, k: nat :: !AttributeStands(e, i, q, k)
    ensures Objects(e, i, if q + 2 + e.d.limits.maxAttrPayloadLen < |e.input| then Warn(AttrPayloadTooLong, i)
                          else Warn(UnclosedAttrPayload, |e.input|))
  {
    assert StartsPayload(e, i, q);
    hide EndsPayload;
    var lo: nat := q + 1;
    assert forall k: nat :: !EndsPayload(e, lo, k);
  }

  /** A trigger without an attribute costs the tokenizer nothing but a warning: it reads on at the very
   *  next byte, and the trigger stays part of the pending text. */
  lemma {:induction false} LoneTrigger(e: Env, p: Progress)
    requires ProgressOk(e, p) && p.i < |e.input| && e.d.actions[e.input[p.i]] == AttributeAction
    requires forall q: nat, k: nat :: !AttributeStands(e, p.i, q, k)
    ensures exists w :: Objects(e, p.i, w) && Turn(e, p) == p.(i := p.i + 1, warns := p.warns + [w])
  {
    hide ActAttribute, AttributeStands, Objects;
    var c := Reset(p.i, p.counts, p.warns);
    AttributeTriggerAction(e, c);
    var r := ActAttribute(e, c);
    assert r.skip;
    var w :| r.warns == c.warns + [w] && Objects(e, c.idx, w);
    assert Turn(e, p) == p.(i := p.i + 1, warns := p.warns + [w]);
  }

  // ---- escape ----

  /** Width of the character at i. */
  function CharWidth(e: Env, i: nat): nat
    requires i < |e.input|
  {
    if e.input[i] <= 127 then 1 else e.u.runeWidth(e.input[i..])
  }

  /** Only printable bytes start an action, as configuration leaves it. */
  ghost predicate ActionsPrintable(d: Dictionary)
    requires |d.actions| == 256
  {
    forall b: Byte :: HasAction(d, b) ==> Printable(b)
  }

  /** The whole action of the escape byte. It leaves itself and exactly the next character as text. At
   *  the end of the input, and before a character that needs no escaping, there is one warning at the
   *  escape byte; before a byte that starts an action there is none. */
  lemma {:induction false} EscapeByteAction(e: Env, c: Ctx)
    requires WfEnv(e) && c.idx < |e.input| && ActionsPrintable(e.d)
    ensures var r, i, n := ActEscape(e, c), c.idx, |e.input|;
      && r.skip && r.counts == c.counts
      && r.stride == 1 + (if i + 1 < n then CharWidth(e, i + 1) else 0)
      && (r.warns == c.warns <==> i + 1 < n && HasAction(e.d, e.input[i + 1]))
      && (i + 1 == n ==> r.warns == c.warns + [Warn(UnexpectedEOL, i)])
      && (i + 1 < n && !HasAction(e.d, e.input[i + 1]) ==>
            exists got: Byte :: r.warns == c.warns + [Warning(RedundantEscape, i, 0, 0, 0, got)]
                                && (e.input[i + 1] <= 127 ==> got == e.input[i + 1])
                                && (e.input[i + 1] > 127 ==> got == e.u.runeLowByte(e.input[i + 1..])))
  {
    var r, i := ActEscape(e, c), c.idx;
    if i + 1 < |e.input| && !HasAction(e.d, e.input[i + 1]) {
      var got := if e.input[i + 1] <= 127 then e.input[i + 1] else e.u.runeLowByte(e.input[i + 1..]);
      assert r.warns == c.warns + [Warning(RedundantEscape, i, 0, 0, 0, got)];
    }
  }

  // ---- tags without a payload ----

  /** The byte has no meaning of its own. */
  predicate Meaningless(d: Dictionary, b: Byte)
    requires |d.actions| == 256
  {
    && d.actions[b] == NoAction
    && b != d.attrTrigger && b != d.attrPayloadStart && b != d.attrPayloadEnd && b != d.escapeTrigger
  }

  /** A visible ASCII byte without a meaning of its own, or the tag's own byte. */
  predicate JoinsWord(d: Dictionary, b: Byte, tag: Byte)
    requires |d.actions| == 256
  {
    b == tag || (33 <= b <= 126 && Meaningless(d, b))
  }

  /** The one-byte tag at i stands between two characters that join a word; beyond ASCII they are
   *  letters, numbers or punctuation. */
  predicate BetweenWordCharacters(e: Env, i: nat)
    requires |e.d.actions| == 256 && i < |e.input|
  {
    && 0 < i < |e.input| - 1
    && (if e.input[i - 1] > 127 then e.u.endsWithWordRune(e.input[..i]) else JoinsWord(e.d, e.input[i - 1], e.input[i]))
    && (if e.input[i + 1] > 127 then e.u.startsWithWordRune(e.input[i + 1..]) else JoinsWord(e.d, e.input[i + 1], e.input[i]))
  }

  /** Inside a word, as the check computes it. */
  lemma {:induction false} InsideWordMeans(e: Env, c: Ctx)
    requires CtxOk(e, c)
    ensures InsideWord(e, c) <==> BetweenWordCharacters(e, c.idx)
  {
  }

  /** The token of the tag itself. */
  ghost predicate EmitsTag(e: Env, c: Ctx, r: Ctx, w: nat)
    requires c.idx < |e.input|
  {
    !r.skip && r.stride == w && r.token == Token(TagToken, e.input[c.idx], c.idx, w, Span(c.idx + w, c.idx + w), Span(0, 0))
  }

  /** The whole action of a tag without greed that can open and whose sequence stands at the trigger,
   *  other than an opener at the very end: silently emitted, unless the intra-word rule is on and it
   *  stands between two characters of a word; then its one byte is silently left as text. */
  lemma {:induction false} NonGreedyTagAction(e: Env, c: Ctx)
    requires CtxOk(e, c) && OccursAt(e.input, TagOf(e, c).sequence, c.idx)
    requires TagOf(e, c).greed == NonGreedy && (TagOf(e, c).IsUniversal() || TagOf(e, c).IsOpening())
    requires TagOf(e, c).IsOpening() ==> c.idx + |TagOf(e, c).sequence| < |e.input|
    ensures var t, r := TagOf(e, c), ActTag(e, c);
      && r.warns == c.warns
      && if |t.sequence| == 1 && t.rule == RuleInfraWord && BetweenWordCharacters(e, c.idx)
         then r.skip && r.stride == 1 && r.counts == c.counts
         else EmitsTag(e, c, r, |t.sequence|)
  {
    hide RunPlan, OccursAt, BetweenWordCharacters, InsideWord;
    var t := TagOf(e, c);
    NonGreedyPlan(t);
    var back := RuleSteps(t) + (CountStep(t) + [EmitEntireTag]);
    var m;
    if t.IsUniversal() {
      m := HeadFrames(e, c, back);
    } else {
      m := HeadFrames(e, c, BEFORE_EOL + back);
      PassEOL(e, m, back);
    }
    SameTag(e, c, m);
    NonGreedyBack(e, m);
  }

  function RuleSteps(t: Tag): seq<PlanStep> {
    if |t.sequence| == 1 && t.rule == RuleInfraWord then [InfraWordCheck] else []
  }

  lemma {:induction false} NonGreedyPlan(t: Tag)
    requires t.sequence != [] && t.greed == NonGreedy && (t.IsUniversal() || t.IsOpening())
    ensures var back := RuleSteps(t) + (CountStep(t) + [EmitEntireTag]);
      PlanOf(t) == HeadOf(t) + (if t.IsUniversal() then back else BEFORE_EOL + back)
  {
    var back := CountStep(t) + [EmitEntireTag];
    assert [] + back == back;
    assert |t.sequence| == 1 ==> SingleCharUniversalPlan(t) == RuleSteps(t) + back;
    assert |t.sequence| > 1 ==> MultiCharUniversalPlan(t) == RuleSteps(t) + back;
  }

  /** The rule, then counting and emitting. */
  lemma {:induction false} NonGreedyBack(e: Env, c: Ctx)
    requires CtxOk(e, c) && (TagOf(e, c).IsUniversal() || TagOf(e, c).IsOpening())
    requires Framed(c, |TagOf(e, c).sequence|)
    ensures var t := TagOf(e, c);
      var r := RunPlan(e, RuleSteps(t) + (CountStep(t) + [EmitEntireTag]), c);
      && r.warns == c.warns
      && if |t.sequence| == 1 && t.rule == RuleInfraWord && BetweenWordCharacters(e, c.idx)
         then r.skip && r.stride == 1 && r.counts == c.counts
         else EmitsTag(e, c, r, |t.sequence|)
  {
    hide RunPlan, InsideWord, BetweenWordCharacters;
    var t := TagOf(e, c);
    var back := CountStep(t) + [EmitEntireTag];
    InsideWordMeans(e, c);
    CountAndEmit(e, CountStep(t)[0], c);
    assert CountStep(t) == [CountStep(t)[0]] && [] + back == back;
    if RuleSteps(t) != [] {
      RunStep(e, InfraWordCheck, back, c);
      assert Mutate(e, InfraWordCheck, c) == c;
    }
  }

  /** The whole action of a closing tag whose sequence stands at the trigger: silently emitted, unless it
   *  is the first thing in the input; then it is left as text, with a warning. */
  lemma {:induction false} ClosingTagAction(e: Env, c: Ctx)
    requires CtxOk(e, c) && OccursAt(e.input, TagOf(e, c).sequence, c.idx) && TagOf(e, c).IsClosing()
    ensures var t, r := TagOf(e, c), ActTag(e, c);
      if c.idx == 0 then
        && r.skip && r.stride == |t.sequence| && r.counts == c.counts
        && r.warns == c.warns + [Warning(MisplacedClosingTag, 0, e.input[0], 0, 0, 0)]
      else r.warns == c.warns && EmitsTag(e, c, r, |t.sequence|)
  {
    hide RunPlan, OccursAt;
    var t := TagOf(e, c);
    ClosingPlanOf(t);
    var m := HeadFrames(e, c, ClosingPlan());
    SameTag(e, c, m);
    var back := [CountCloseTag] + [EmitEntireTag];
    assert ClosingPlan() == [WarnCloseAfterStartStep, SkipCloseAfterStart] + back
        == [WarnCloseAfterStartStep] + ([SkipCloseAfterStart] + back);
    if c.idx > 0 {
      PassStart(e, m, back);
      CountAndEmit(e, CountCloseTag, m);
    } else {
      RunStep(e, WarnCloseAfterStartStep, [SkipCloseAfterStart] + back, m);
      var k := WarnCloseAfterStart(e, m);
      SameTag(e, c, k);
      RunStep(e, SkipCloseAfterStart, back, k);
    }
  }

  lemma {:induction false} ClosingPlanOf(t: Tag)
    requires t.sequence != [] && t.IsClosing()
    ensures PlanOf(t) == HeadOf(t) + ClosingPlan()
  {
  }

  /** A tag that neither opens nor closes anything is never emitted: its first byte is silently left as
   *  text. */
  lemma {:induction false} InertTagAction(e: Env, c: Ctx)
    requires CtxOk(e, c) && OccursAt(e.input, TagOf(e, c).sequence, c.idx)
    requires !TagOf(e, c).IsUniversal() && !TagOf(e, c).IsOpening() && !TagOf(e, c).IsClosing()
    ensures var r := ActTag(e, c); r.skip && r.stride == 1 && r.warns == c.warns && r.counts == c.counts
  {
    hide RunPlan, OccursAt;
    var t := TagOf(e, c);
    assert PlanOf(t) == HeadOf(t) + [];
    var m := HeadFrames(e, c, []);
    NothingLeft(e, m);
  }

  lemma {:induction false} NothingLeft(e: Env, c: Ctx)
    requires CtxOk(e, c)
    ensures RunPlan(e, [], c) == SkipBytes(c, 1)
  {
  }

  // ---- tags under the tag-versus-content rule ----

  /** From p on there are exactly r bytes b. */
  predicate RunOf(input: seq<Byte>, b: Byte, p: nat, r: nat) {
    p + r <= |input| && (forall k :: p <= k < p + r ==> input[k] == b) && (p + r < |input| ==> input[p + r] != b)
  }

  /** A run of the trigger as wide as the opening, w, closes it at q: it is not part of a wider run, and
   *  the content is 1 byte up to the limit. */
  ghost predicate RunCloses(e: Env, i: nat, w: nat, q: nat)
    requires i < |e.input|
  {
    && 1 <= q - (i + w) <= e.d.limits.maxPayloadLen && q < |e.input|
    && RunOf(e.input, e.input[i], q, w) && e.input[q - 1] != e.input[i]
  }

  /** The first closing run. */
  ghost predicate RunClosesFirst(e: Env, i: nat, w: nat, q: nat)
    requires i < |e.input|
  {
    RunCloses(e, i, w, q) && forall p: nat :: p < q ==> !RunCloses(e, i, w, p)
  }

  /** Room for a closing run is left behind the payload limit, and the two bytes before the limit, as far
   *  as they are in reach, are not the trigger. */
  ghost predicate LimitShows(e: Env, i: nat, w: nat)
    requires i < |e.input|
  {
    var last := i + w + e.d.limits.maxPayloadLen;
    && e.d.limits.maxPayloadLen > 0 && last + w < |e.input|
    && e.input[last] != e.input[i] && (e.d.limits.maxPayloadLen == 1 || e.input[last - 1] != e.input[i])
  }

  lemma {:induction false} WindowMeans(e: Env, c: Ctx, run: nat) returns (w: nat)
    requires CtxOk(e, c) && RunOf(e.input, e.input[c.idx], c.idx, run)
    ensures w == OpenWidth(e, c) == if run > e.d.limits.maxKeyLen then e.d.limits.maxKeyLen else run
    ensures var max := e.d.limits.maxKeyLen;
      && 1 <= w && c.idx + w <= |e.input| && (KeyTooLong(e, c) <==> run > max)
      && (run <= max ==> forall q: nat :: ClosingCandidate(e, c, q) <==> RunCloses(e, c.idx, w, q))
      && (run <= max ==> (CutByLimit(e, c) <==> LimitShows(e, c.idx, w)))
  {
    hide RunLen;
    RunLenIs(e.input, e.input[c.idx], c.idx, run);
    w := OpenWidth(e, c);
    if run <= e.d.limits.maxKeyLen {
      forall q: nat ensures ClosingCandidate(e, c, q) <==> RunCloses(e, c.idx, w, q) {
        CandidateMeans(e, c, w, q);
      }
    }
  }

  lemma {:induction false} CandidateMeans(e: Env, c: Ctx, w: nat, q: nat)
    requires CtxOk(e, c) && w == OpenWidth(e, c) && RunOf(e.input, e.input[c.idx], c.idx, w)
    ensures ClosingCandidate(e, c, q) <==> RunCloses(e, c.idx, w, q)
  {
    hide OpenWidth;
    var b := e.input[c.idx];
    if RunCloses(e, c.idx, w, q) {
      RunLenIs(e.input, b, q, w);
    }
    if ClosingCandidate(e, c, q) {
      assert RunLen(e.input, b, q) == w;
    }
  }

  /** The whole action of such a tag at a run of `run` trigger bytes, said of the bytes. The run is the
   *  opening if it keeps the key limit; it is closed by the first run of the same width behind content
   *  within the payload limit. Without one there is a warning for what is missing, after one for the key
   *  limit if that was exceeded; a greedy tag is then left as text, a grasping one takes the rest. */
  lemma {:induction false} CodeTagOverBytes(e: Env, c: Ctx, run: nat)
    requires CtxOk(e, c) && c == Reset(c.idx, c.counts, c.warns) && IsCodeTag(TagOf(e, c))
    requires RunOf(e.input, e.input[c.idx], c.idx, run)
    ensures var r, t, i, n, max := ActTag(e, c), TagOf(e, c), c.idx, |e.input|, e.d.limits.maxKeyLen;
      var w := if run > max then max else run;
      var closes := run <= max && exists q: nat :: RunCloses(e, i, w, q);
      && (r.skip <==> t.greed == Greedy && !closes)
      && (closes ==>
            && r.warns == c.warns && r.token.typ == TagToken && r.token.payload.start == i + w && r.token.payload.end >= 0
            && RunClosesFirst(e, i, w, r.token.payload.end) && r.stride == r.token.payload.end + w - i)
      && (!closes ==>
            && r.warns == c.warns + (if run > max then [Warn(TagKeyTooLong, i)] else [])
                 + [if run <= max && LimitShows(e, i, w) then Warn(TagPayloadTooLong, i)
                    else Warning(UnclosedTag, i, e.input[i], t.closeID, 0, 0)]
            && r.stride == (if r.skip then w else n - i)
            && (!r.skip ==> r.token.typ == TagToken && r.token.payload == Span(i + w, n)))
  {
    hide ActTag, RunOf, RunCloses, ClosingCandidate, CutByLimit, LimitShows, KeyTooLong, OpenWidth, ClosingRun;
    var max := e.d.limits.maxKeyLen;
    var w := WindowMeans(e, c, run);
    CodeTagAction(e, c);
    if run <= max && exists q: nat :: ClosingCandidate(e, c, q) {
      var at := ActTag(e, c).token.payload.end;
      FirstCloses(e, c, w, at);
    }
    CodeWarningsMean(e, c, run);
  }

  lemma {:induction false} CodeWarningsMean(e: Env, c: Ctx, run: nat)
    requires CtxOk(e, c)
    ensures var t, i := TagOf(e, c), c.idx;
      var key, pay := KeyTooLong(e, c), !KeyTooLong(e, c) && CutByLimit(e, c);
      c.warns + CodeWarnings(t, i, key, pay)
      == c.warns + (if key then [Warn(TagKeyTooLong, i)] else [])
         + [if pay then Warn(TagPayloadTooLong, i) else Warning(UnclosedTag, i, e.input[i], t.closeID, 0, 0)]
  {
    hide KeyTooLong, CutByLimit;
  }

  /** The leftmost run of the opening's width is the first that closes. */
  lemma {:induction false} FirstCloses(e: Env, c: Ctx, w: nat, at: int)
    requires CtxOk(e, c) && 1 <= w && c.idx + w <= |e.input|
    requires forall q: nat :: ClosingCandidate(e, c, q) <==> RunCloses(e, c.idx, w, q)
    requires 1 <= at - (c.idx + w) <= e.d.limits.maxPayloadLen && ClosingRun(e.input, e.input[c.idx], w, at)
    requires forall q: nat :: c.idx + w <= q < at ==> !ClosingRun(e.input, e.input[c.idx], w, q)
    ensures RunClosesFirst(e, c.idx, w, at)
  {
    var b := e.input[c.idx];
    assert RunLen(e.input, b, at) == w;
    assert RunCloses(e, c.idx, w, at);
    forall p: nat | p < at ensures !RunCloses(e, c.idx, w, p) {
      if RunCloses(e, c.idx, w, p) {
        RunLenIs(e.input, b, p, w);
      }
    }
  }
}
