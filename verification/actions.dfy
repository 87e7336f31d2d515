/** Tokenizer actions: the steps plans are made of, the escape and the attribute action. */
module Actions {
  import opened Markup
  import opened Plans
  import opened Scanning

  /** What the tokenizer asks of Unicode: rune widths, and whether the rune next to a position is a
   *  letter, number or punctuation. */
  datatype Unicode = Unicode(runeWidth: seq<Byte> -> nat, runeLowByte: seq<Byte> -> Byte,
                             endsWithWordRune: seq<Byte> -> bool, startsWithWordRune: seq<Byte> -> bool)

  /** UTF-8 decoding consumes one to four of the remaining bytes. */
  ghost predicate WfUnicode(u: Unicode) {
    forall s: seq<Byte> :: s != [] ==> 1 <= u.runeWidth(s) <= 4 && u.runeWidth(s) <= |s|
  }

  datatype Env = Env(u: Unicode, d: Dictionary, input: seq<Byte>)

  predicate HasAction(d: Dictionary, b: Byte)
    requires |d.actions| == 256
  {
    d.actions[b] != NoAction
  }

  predicate IsSpecial(d: Dictionary, b: Byte)
    requires |d.actions| == 256
  {
    b != 0 && (b == d.attrTrigger || b == d.attrPayloadStart || b == d.attrPayloadEnd || b == d.escapeTrigger || HasAction(d, b))
  }

  ghost predicate WfEnv(e: Env) {
    WfUnicode(e.u) && WfDictionary(e.d)
  }

  datatype Bounds = Bounds(raw: Span, inner: Span, closed: bool, width: nat, closeWidth: nat, closeIdx: int,
                           seqValid: bool, keyLenLimitReached: bool, payloadLimitReached: bool)

  datatype Counts = Counts(tagsTotal: nat, universalTags: nat, openTags: nat, closeTags: nat, attributes: nat)

  const NO_TOKEN := Token(TextToken, 0, 0, 0, Span(0, 0), Span(0, 0))

  /** The context of one action call. */
  datatype Ctx = Ctx(idx: nat, bounds: Bounds, counts: Counts, warns: seq<Warning>, token: Token, stride: int, skip: bool)

  function ResetBounds(i: nat): Bounds {
    Bounds(Span(i, i + 1), Span(i, i), false, 1, 0, -1, false, false, false)
  }

  function Reset(i: nat, counts: Counts, warns: seq<Warning>): Ctx {
    Ctx(i, ResetBounds(i), counts, warns, NO_TOKEN, 0, false)
  }

  /** The bounds lie in the input, start at the trigger, and are not empty. */
  ghost predicate BoundsOk(n: nat, i: nat, b: Bounds) {
    && 1 <= b.width <= n - i
    && b.raw.start == i && i + 1 <= b.raw.end <= n
    && i <= b.inner.start <= b.inner.end <= b.raw.end
  }

  ghost predicate CtxOk(e: Env, c: Ctx) {
    && WfEnv(e) && c.idx < |e.input| && Registered(e.d, e.input[c.idx])
    && BoundsOk(|e.input|, c.idx, c.bounds)
  }

  /** The contract of an action: a positive stride inside the input; an emitted token starts at the
   *  trigger, is as wide as the stride and contains its payload; its key lies in the input. */
  ghost predicate ResultOk(input: seq<Byte>, c: Ctx) {
    && 1 <= c.stride && c.idx + c.stride <= |input|
    && (!c.skip ==>
         && c.token.pos == c.idx && c.token.width == c.stride
         && c.idx <= c.token.payload.start <= c.token.payload.end <= c.idx + c.stride
         && 0 <= c.token.attrKey.start <= c.token.attrKey.end <= |input|)
  }

  ghost predicate TagResult(e: Env, c: Ctx) {
    && c.idx < |e.input| && ResultOk(e.input, c)
    && (!c.skip ==> c.token.typ == TagToken && c.token.trigger == e.input[c.idx])
  }

  function TagOf(e: Env, c: Ctx): (t: Tag)
    requires CtxOk(e, c)
    ensures 1 <= |t.sequence| <= MAX_TAG_LEN && t.ID() == e.input[c.idx]
  {
    var b := e.input[c.idx];
    assert WfTag(e.d.tags[b], b);
    e.d.tags[b]
  }

  lemma {:induction false} SameTag(e: Env, c: Ctx, m: Ctx)
    requires CtxOk(e, c) && CtxOk(e, m) && c.idx == m.idx
    ensures TagOf(e, c) == TagOf(e, m)
  {
  }

  function AddWarning(c: Ctx, w: Warning): Ctx {
    c.(warns := c.warns + [w])
  }

  function SkipBytes(c: Ctx, n: int): Ctx {
    c.(token := NO_TOKEN, stride := n, skip := true)
  }

  function Min(a: int, b: int): int {
    if a < b then a else b
  }

  // ---- steps that fill the bounds ----

  function PrepareSingleChar(e: Env, c: Ctx): (r: Ctx)
    requires CtxOk(e, c)
    ensures CtxOk(e, r)
  {
    c.(bounds := c.bounds.(width := 1, raw := Span(c.idx, c.idx + 1), inner := Span(c.idx + 1, c.idx + 1), seqValid := true))
  }

  function CheckMultiCharSeq(e: Env, c: Ctx): (r: Ctx)
    requires CtxOk(e, c)
    ensures CtxOk(e, r)
    ensures r.bounds.seqValid ==> r.bounds.width == |TagOf(e, c).sequence|
  {
    var pat := TagOf(e, c).sequence;
    var win := e.input[c.idx..Min(|e.input|, c.idx + |pat|)];
    assert win[0] == pat[0];
    FirstByteMatches(win, pat);
    var l := Best(win, pat, |win|).len;
    c.(bounds := c.bounds.(seqValid := Contains(win, pat), width := l, raw := Span(c.idx, c.idx + l),
                           inner := Span(c.idx + l, c.idx + l)))
  }

  function CheckClose(e: Env, c: Ctx): (r: Ctx)
    requires CtxOk(e, c)
    ensures CtxOk(e, r)
  {
    var n, i := |e.input|, c.idx;
    var pat := e.d.tags[TagOf(e, c).closeID].sequence;
    var start := i + c.bounds.width;
    if pat == [] then
      c.(bounds := c.bounds.(closed := false, closeIdx := -1, closeWidth := 0, raw := Span(i, n), inner := Span(start, n)))
    else
      var scanEnd := Min(start + e.d.limits.maxPayloadLen + 1, n);
      var win := e.input[start..scanEnd];
      WithMatch(c, n, scanEnd, Contains(win, pat), Best(win, pat, |win|))
  }

  /** The bounds for a closing match found, or not, before scanEnd. */
  function WithMatch(c: Ctx, n: nat, scanEnd: int, contained: bool, m: Match): Ctx {
    var start := c.idx + c.bounds.width;
    var at := if m.idx == -1 then -1 else start + m.idx;
    var b := c.bounds.(closed := contained, closeIdx := at, closeWidth := m.len,
                       payloadLimitReached := at == -1 && scanEnd < n);
    if contained then c.(bounds := b.(raw := Span(c.idx, at + m.len), inner := Span(start, at)))
    else c.(bounds := b.(raw := Span(c.idx, n), inner := Span(start, n)))
  }

  function OnlyOpening(e: Env, c: Ctx, w: nat, keyLimit: bool, payloadLimit: bool): (r: Ctx)
    requires CtxOk(e, c) && 1 <= w && c.idx + w <= |e.input|
    ensures CtxOk(e, r)
  {
    var i, n := c.idx, |e.input|;
    c.(bounds := c.bounds.(closeIdx := -1, closeWidth := 0, closed := false, width := w, inner := Span(i + w, n),
                           raw := Span(i, n), keyLenLimitReached := keyLimit, payloadLimitReached := payloadLimit))
  }

  /** Width of the opening run, cut at the key limit. */
  function OpenWidth(e: Env, c: Ctx): (w: nat)
    requires CtxOk(e, c)
    ensures 1 <= w <= e.d.limits.maxKeyLen && c.idx + w <= |e.input|
  {
    var run := RunLen(e.input, e.input[c.idx], c.idx);
    assert run >= 1;
    Min(run, e.d.limits.maxKeyLen)
  }

  /** First and one past the last position where a closing run may start. */
  function WindowStart(e: Env, c: Ctx): nat
    requires CtxOk(e, c)
  {
    c.idx + OpenWidth(e, c) + 1
  }

  function WindowEnd(e: Env, c: Ctx): int
    requires CtxOk(e, c)
  {
    Min(WindowStart(e, c) + e.d.limits.maxPayloadLen, |e.input| - OpenWidth(e, c) + 1)
  }

  function CheckTagVsContent(e: Env, c: Ctx): (r: Ctx)
    requires CtxOk(e, c)
    ensures CtxOk(e, r)
  {
    var n, i, b, w := |e.input|, c.idx, e.input[c.idx], OpenWidth(e, c);
    if i + w == n then OnlyOpening(e, c, w, false, false)
    else if w == e.d.limits.maxKeyLen && e.input[i + w] == b then OnlyOpening(e, c, e.d.limits.maxKeyLen, true, false)
    else if WindowStart(e, c) >= WindowEnd(e, c) then OnlyOpening(e, c, w, false, false)
    else
      match FindClosing(e.input, b, w, WindowStart(e, c), WindowEnd(e, c))
      case ClosesAt(at) =>
        ClosingInside(e.input, b, w, WindowStart(e, c), WindowEnd(e, c));
        c.(bounds := c.bounds.(width := w, closeIdx := at, closeWidth := w, closed := true, inner := Span(i + w, at),
                               raw := Span(i, at + w)))
      case Unclosed(sawEnd) => OnlyOpening(e, c, w, false, sawEnd && WindowEnd(e, c) < n - w + 1)
  }

  lemma {:induction false} ClosingInside(input: seq<Byte>, b: Byte, w: nat, p: nat, hi: nat)
    requires hi <= |input|
    ensures var r := FindClosing(input, b, w, p, hi);
      r.ClosesAt? ==> p <= r.idx < hi && r.idx + w <= |input| && RunLen(input, b, r.idx) == w
    decreases hi - p
  {
    if p < hi {
      var q := FirstIndex(input, b, p, hi);
      if q != -1 && RunLen(input, b, q) != w {
        ClosingInside(input, b, w, q + RunLen(input, b, q) + 1, hi);
      }
    }
  }

  // ---- warnings ----

  function ByteAt(t: Tag, k: nat): Byte {
    if k < |t.sequence| then t.sequence[k] else 0
  }

  function WarnInvalidSeq(e: Env, c: Ctx): (r: Ctx)
    requires CtxOk(e, c)
    ensures CtxOk(e, r)
  {
    var w := c.bounds.width;
    if c.bounds.seqValid || w >= MAX_TAG_LEN then c
    else
      var t := TagOf(e, c);
      AddWarning(c, Warning(UnexpectedSymbol, c.idx + w, t.ID(), 0, ByteAt(t, w), e.input[c.idx + w - 1]))
  }

  function WarnOpenBeforeEOL(e: Env, c: Ctx): (r: Ctx)
    requires CtxOk(e, c)
    ensures CtxOk(e, r)
  {
    var n := |e.input|;
    if c.idx + c.bounds.width < n || !TagOf(e, c).IsOpening() then c
    else AddWarning(c, Warning(UnexpectedEOL, n, TagOf(e, c).ID(), 0, 0, 0))
  }

  function WarnCloseAfterStart(e: Env, c: Ctx): (r: Ctx)
    requires CtxOk(e, c)
    ensures CtxOk(e, r)
  {
    if c.idx != 0 || !TagOf(e, c).IsClosing() then c
    else AddWarning(c, Warning(MisplacedClosingTag, c.idx, TagOf(e, c).ID(), 0, 0, 0))
  }

  function WarnKeyTooLong(c: Ctx): Ctx {
    if c.bounds.keyLenLimitReached then AddWarning(c, Warn(TagKeyTooLong, c.idx)) else c
  }

  function WarnPayloadTooLong(c: Ctx): Ctx {
    if c.bounds.payloadLimitReached then AddWarning(c, Warn(TagPayloadTooLong, c.idx)) else c
  }

  function WarnUnclosed(e: Env, c: Ctx): (r: Ctx)
    requires CtxOk(e, c)
    ensures CtxOk(e, r)
  {
    var t := TagOf(e, c);
    if c.bounds.closed || t.IsClosing() || c.bounds.payloadLimitReached then c
    else AddWarning(c, Warning(UnclosedTag, c.idx, t.ID(), t.closeID, 0, 0))
  }

  // ---- the intra-word rule ----

  predicate Alphanumeric(b: Byte) {
    48 <= b <= 57 || 65 <= b <= 90 || 97 <= b <= 122
  }

  predicate Punctuation(b: Byte) {
    33 <= b <= 47 || 58 <= b <= 64 || 91 <= b <= 96 || 123 <= b <= 126
  }

  predicate WordByte(d: Dictionary, id: Byte, b: Byte)
    requires |d.actions| == 256
  {
    b == id || (!IsSpecial(d, b) && (Alphanumeric(b) || Punctuation(b)))
  }

  predicate InsideWord(e: Env, c: Ctx)
    requires CtxOk(e, c)
  {
    var i, id := c.idx, TagOf(e, c).ID();
    && i > 0 && (if e.input[i - 1] < 128 then WordByte(e.d, id, e.input[i - 1]) else e.u.endsWithWordRune(e.input[..i]))
    && i + 1 < |e.input|
    && (if e.input[i + 1] < 128 then WordByte(e.d, id, e.input[i + 1]) else e.u.startsWithWordRune(e.input[i + 1..]))
  }

  // ---- running a plan ----

  /** What a counting step adds. */
  function Counted(s: PlanStep, n: Counts): Counts {
    match s
    case CountTag => n.(tagsTotal := n.tagsTotal + 1)
    case CountCloseTag => n.(tagsTotal := n.tagsTotal + 1, closeTags := n.closeTags + 1)
    case CountOpenTag => n.(tagsTotal := n.tagsTotal + 1, openTags := n.openTags + 1)
    case CountUniversalTag => n.(tagsTotal := n.tagsTotal + 1, universalTags := n.universalTags + 1)
    case _ => n
  }

  /** Steps that only work on the context. */
  function Mutate(e: Env, s: PlanStep, c: Ctx): (r: Ctx)
    requires CtxOk(e, c)
    ensures CtxOk(e, r) && r.idx == c.idx
  {
    match s
    case PrepareSingleCharStep => PrepareSingleChar(e, c)
    case CheckMultiCharSeqStep => CheckMultiCharSeq(e, c)
    case CheckCloseStep => CheckClose(e, c)
    case CheckTagVsContentStep => CheckTagVsContent(e, c)
    case WarnInvalidSeqStep => WarnInvalidSeq(e, c)
    case WarnOpenBeforeEOLStep => WarnOpenBeforeEOL(e, c)
    case WarnCloseAfterStartStep => WarnCloseAfterStart(e, c)
    case WarnKeyTooLongStep => WarnKeyTooLong(c)
    case WarnPayloadTooLongStep => WarnPayloadTooLong(c)
    case WarnUnclosedStep => WarnUnclosed(e, c)
    case _ => c.(counts := Counted(s, c.counts))
  }

  /** Whether a step settles the case. */
  predicate Handles(e: Env, s: PlanStep, c: Ctx)
    requires CtxOk(e, c)
  {
    match s
    case SkipInvalidTrigger => !c.bounds.seqValid && c.bounds.width < MAX_TAG_LEN
    case SkipOpenBeforeEOL => c.idx + c.bounds.width >= |e.input|
    case SkipCloseAfterStart => c.idx == 0 && TagOf(e, c).IsClosing()
    case SkipUnclosedOpen => !c.bounds.closed
    case InfraWordCheck => InsideWord(e, c)
    case EmitEntireTag => true
    case _ => false
  }

  /** What a settling step returns. */
  function Settle(e: Env, s: PlanStep, c: Ctx): (r: Ctx)
    requires CtxOk(e, c)
    ensures TagResult(e, r) && r.idx == c.idx && r.counts == c.counts && r.warns == c.warns
    ensures r.skip <==> !s.EmitEntireTag?
  {
    match s
    case EmitEntireTag =>
      var w := c.bounds.raw.end - c.bounds.raw.start;
      c.(token := Token(TagToken, TagOf(e, c).ID(), c.idx, w, c.bounds.inner, Span(0, 0)), stride := w, skip := false)
    case InfraWordCheck => c.(stride := 1, skip := true)
    case _ => SkipBytes(c, c.bounds.width)
  }

  /** Runs the steps in order until one settles the case; a plan that runs out skips one byte. */
  function RunPlan(e: Env, steps: seq<PlanStep>, c: Ctx): (r: Ctx)
    requires CtxOk(e, c)
    ensures TagResult(e, r) && r.idx == c.idx
  {
    if steps == [] then SkipBytes(c, 1)
    else if Handles(e, steps[0], c) then Settle(e, steps[0], c)
    else RunPlan(e, steps[1..], Mutate(e, steps[0], c))
  }

  function ActTag(e: Env, c: Ctx): (r: Ctx)
    requires CtxOk(e, c)
    ensures TagResult(e, r) && r.idx == c.idx
  {
    RunPlan(e, PlanOf(TagOf(e, c)), c)
  }

  // ---- escape and attribute ----

  function ActEscape(e: Env, c: Ctx): (r: Ctx)
    requires WfEnv(e) && c.idx < |e.input|
    ensures ResultOk(e.input, r) && r.skip && r.idx == c.idx && r.counts == c.counts
  {
    var i, n := c.idx, |e.input|;
    if i + 1 == n then SkipBytes(AddWarning(c, Warn(UnexpectedEOL, i)), 1)
    else
      var next, rest := e.input[i + 1], e.input[i + 1..];
      if HasAction(e.d, next) then SkipBytes(c, 2)
      else if next > 127 then
        SkipBytes(AddWarning(c, Warning(RedundantEscape, i, 0, 0, 0, e.u.runeLowByte(rest))), 1 + e.u.runeWidth(rest))
      else SkipBytes(AddWarning(c, Warning(RedundantEscape, i, 0, 0, 0, next)), 2)
  }

  /** End of the payload that starts at `start`, or -1. */
  function AttrEnd(e: Env, start: nat, scanEnd: nat): (r: int)
    requires start <= scanEnd <= |e.input|
    ensures r == -1 || start <= r < scanEnd
  {
    if e.d.escapeTrigger != 0 then PayloadEnd(e.input, start, scanEnd, e.d.attrPayloadEnd, e.d.escapeTrigger, false)
    else FirstIndex(e.input, e.d.attrPayloadEnd, start, scanEnd)
  }

  function AttrSkip(c: Ctx, issue: Issue, pos: int): Ctx {
    SkipBytes(AddWarning(c, Warn(issue, pos)), 1)
  }

  function ActAttribute(e: Env, c: Ctx): (r: Ctx)
    requires WfEnv(e) && c.idx < |e.input|
    ensures ResultOk(e.input, r) && r.idx == c.idx
    ensures !r.skip ==> r.token.typ == AttributeKV || r.token.typ == AttributeFlag
    ensures r.counts == if r.skip then c.counts else c.counts.(attributes := c.counts.attributes + 1)
  {
    var i, n := c.idx, |e.input|;
    if i + 1 == n then AttrSkip(c, UnexpectedEOL, i)
    else
      var keyEnd := Min(i + 1 + e.d.limits.maxAttrKeyLen + 1, n);
      var ps := FirstIndex(e.input, e.d.attrPayloadStart, i + 1, keyEnd);
      if ps == -1 then
        if keyEnd < n then AttrSkip(c, AttrKeyTooLong, i) else AttrSkip(c, UnexpectedEOL, n)
      else if ps + 1 == n then AttrSkip(c, UnexpectedEOL, ps)
      else
        var start := ps + 1;
        var scanEnd := Min(start + e.d.limits.maxAttrPayloadLen + 1, n);
        var pe := AttrEnd(e, start, scanEnd);
        if pe == -1 then
          if scanEnd < n then AttrSkip(c, AttrPayloadTooLong, i) else AttrSkip(c, UnclosedAttrPayload, n)
        else if pe == start then AttrSkip(c, EmptyAttrPayload, start)
        else
          var width := pe - i + 1;
          var flag := ps == i + 1;
          c.(token := Token(if flag then AttributeFlag else AttributeKV, e.input[i], i, width, Span(start, pe),
                            if flag then Span(0, 0) else Span(i + 1, ps)),
             stride := width, skip := false, counts := c.counts.(attributes := c.counts.attributes + 1))
  }

  /** The action of the byte at the context's position. */
  function Act(e: Env, c: Ctx): (r: Ctx)
    requires WfEnv(e) && c.idx < |e.input| && HasAction(e.d, e.input[c.idx])
    requires c == Reset(c.idx, c.counts, c.warns)
    ensures ResultOk(e.input, r) && r.idx == c.idx
    ensures !r.skip && r.token.typ == TagToken ==> r.token.trigger == e.input[c.idx] && Registered(e.d, r.token.trigger)
    ensures !r.skip ==> r.token.typ != TextToken
  {
    assert ActionOk(e.d, e.input[c.idx]);
    var act := e.d.actions[e.input[c.idx]];
    if act.TagAction? then ActTag(e, c) else if act.EscapeAction? then ActEscape(e, c) else ActAttribute(e, c)
  }
}
