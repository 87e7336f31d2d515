/** Printing for the tokenizer: escaped text is plain wherever it stands, and a printed attribute is
 *  read back with exactly its spans. */
module Escapes {
  import opened Markup
  import opened Scanning
  import opened Actions
  import opened TokenizerSpec

  // ---- escaped text ----

  /** The escape byte has its own action: no tag was registered over it. */
  predicate EscapeWorks(d: Dictionary)
    requires |d.actions| == 256
  {
    d.actions[d.escapeTrigger] == EscapeAction
  }

  /** A byte as plain text: bytes that start an action are preceded by the escape byte. */
  function EscapedByte(d: Dictionary, b: Byte): seq<Byte>
    requires |d.actions| == 256
  {
    if HasAction(d, b) then [d.escapeTrigger, b] else [b]
  }

  /** The text can be written: escaping works, or nothing in it needs escaping. */
  ghost predicate Spells(d: Dictionary, s: seq<Byte>)
    requires |d.actions| == 256
  {
    EscapeWorks(d) || forall i :: 0 <= i < |s| ==> !HasAction(d, s[i])
  }

  function Escaped(d: Dictionary, s: seq<Byte>): seq<Byte>
    requires |d.actions| == 256
  {
    if s == [] then [] else EscapedByte(d, s[0]) + Escaped(d, s[1..])
  }

  /** `part` stands at position i of the input. */
  ghost predicate StandsAt(input: seq<Byte>, i: nat, part: seq<Byte>) {
    i + |part| <= |input| && forall k :: 0 <= k < |part| ==> input[i + k] == part[k]
  }

  lemma {:induction false} StandsSplit(input: seq<Byte>, i: nat, a: seq<Byte>, b: seq<Byte>)
    requires StandsAt(input, i, a + b)
    ensures StandsAt(input, i, a) && StandsAt(input, i + |a|, b)
  {
    forall k | 0 <= k < |a| ensures input[i + k] == a[k] {
      assert (a + b)[k] == a[k];
    }
    forall k | 0 <= k < |b| ensures input[i + |a| + k] == b[k] {
      assert input[i + (|a| + k)] == (a + b)[|a| + k] == b[k];
    }
  }

  lemma {:induction false} EscapedByteTurn(e: Env, p: Progress, b: Byte)
    requires ProgressOk(e, p) && (EscapeWorks(e.d) || !HasAction(e.d, b)) && StandsAt(e.input, p.i, EscapedByte(e.d, b))
    ensures Turn(e, p) == p.(i := p.i + |EscapedByte(e.d, b)|)
  {
    var enc := EscapedByte(e.d, b);
    assert e.input[p.i] == enc[0];
    if HasAction(e.d, b) {
      assert e.input[p.i + 1] == enc[1] == b;
    }
  }

  /** Escaped text anywhere in an input is read over: no token, no warning, no count. */
  lemma {:induction false} EscapedIsTransparent(e: Env, p: Progress, s: seq<Byte>)
    requires ProgressOk(e, p) && Spells(e.d, s) && StandsAt(e.input, p.i, Escaped(e.d, s))
    ensures Loop(e, p) == Loop(e, p.(i := p.i + |Escaped(e.d, s)|))
    decreases |s|
  {
    hide Turn, EscapedByte, StandsAt;
    if s != [] {
      var enc := EscapedByte(e.d, s[0]);
      StandsSplit(e.input, p.i, enc, Escaped(e.d, s[1..]));
      EscapedByteTurn(e, p, s[0]);
      var q := p.(i := p.i + |enc|);
      InsideInput(e.input, p.i, enc);
      EscapedIsTransparent(e, q, s[1..]);
    } else {
      assert p == p.(i := p.i + |Escaped(e.d, s)|);
    }
  }

  lemma {:induction false} InsideInput(input: seq<Byte>, i: nat, part: seq<Byte>)
    requires StandsAt(input, i, part)
    ensures i + |part| <= |input|
  {
  }

  /** Any string, escaped, tokenizes to one text token (none when empty) without a warning. */
  lemma {:induction false} EscapedIsPlain(e: Env, s: seq<Byte>, warns: seq<Warning>)
    requires WfEnv(e) && Spells(e.d, s) && e.input == Escaped(e.d, s)
    ensures var r := Tokenized(e, warns);
      && r.tokens == (if s == [] then [] else [TextBetween(0, |e.input|)])
      && r.warns == warns && r.counts == NO_COUNTS
  {
    EscapedIsTransparent(e, Begin(warns), s);
    assert s != [] ==> |e.input| > 0;
  }

  // ---- attributes ----

  /** A payload as it is written: its end byte and the escape byte are preceded by the escape byte. */
  function Protected(payload: seq<Byte>, end: Byte, esc: Byte): (r: seq<Byte>)
    ensures |r| >= |payload|
  {
    if payload == [] then []
    else (if payload[0] == end || payload[0] == esc then [esc, payload[0]] else [payload[0]]) + Protected(payload[1..], end, esc)
  }

  lemma {:induction false} ProtectedEnd(input: seq<Byte>, j: nat, hi: nat, payload: seq<Byte>, end: Byte, esc: Byte)
    requires hi <= |input| && end != esc && StandsAt(input, j, Protected(payload, end, esc) + [end])
    requires j + |Protected(payload, end, esc)| < hi
    ensures PayloadEnd(input, j, hi, end, esc, false) == j + |Protected(payload, end, esc)|
    decreases |payload|
  {
    var whole := Protected(payload, end, esc);
    assert input[j] == (whole + [end])[0];
    if payload != [] {
      var rest := Protected(payload[1..], end, esc);
      var head := if payload[0] == end || payload[0] == esc then [esc, payload[0]] else [payload[0]];
      assert whole + [end] == head + (rest + [end]);
      StandsSplit(input, j, head, rest + [end]);
      ProtectedEnd(input, j + |head|, hi, payload[1..], end, esc);
      assert input[j + |head| - 1] == head[|head| - 1] == payload[0];
    }
  }

  /** The payload as the dictionary writes it; without an escape byte it stands for itself. */
  function Payload(d: Dictionary, payload: seq<Byte>): seq<Byte> {
    if d.escapeTrigger != 0 then Protected(payload, d.attrPayloadEnd, d.escapeTrigger) else payload
  }

  /** Attributes the dictionary can print: the key fits its limit and lacks the payload-start byte;
   *  the payload is not empty and fits its limit as written. */
  predicate CanPrint(d: Dictionary, key: seq<Byte>, payload: seq<Byte>)
    requires |d.actions| == 256
  {
    && d.actions[d.attrTrigger] == AttributeAction && |key| <= d.limits.maxAttrKeyLen && d.attrPayloadStart !in key
    && payload != [] && |Payload(d, payload)| <= d.limits.maxAttrPayloadLen
    && (d.escapeTrigger == 0 ==> d.attrPayloadEnd !in payload)
  }

  function PrintedAttribute(d: Dictionary, key: seq<Byte>, payload: seq<Byte>): seq<Byte> {
    ([d.attrTrigger] + key + [d.attrPayloadStart]) + (Payload(d, payload) + [d.attrPayloadEnd])
  }

  function AttributeToken(d: Dictionary, i: nat, key: seq<Byte>, payload: seq<Byte>): Token {
    var start := i + |key| + 2;
    var end := start + |Payload(d, payload)|;
    if key == [] then Token(AttributeFlag, d.attrTrigger, i, end + 1 - i, Span(start, end), Span(0, 0))
    else Token(AttributeKV, d.attrTrigger, i, end + 1 - i, Span(start, end), Span(i + 1, start - 1))
  }

  lemma {:induction false} FirstIndexIs(input: seq<Byte>, b: Byte, lo: nat, hi: nat, k: nat)
    requires lo <= k < hi <= |input| && input[k] == b && forall j :: lo <= j < k ==> input[j] != b
    ensures FirstIndex(input, b, lo, hi) == k
    decreases k - lo
  {
    if lo < k {
      FirstIndexIs(input, b, lo + 1, hi, k);
    }
  }

  /** Whether the written payload can be told from its end byte. */
  predicate EndsApart(d: Dictionary) {
    d.escapeTrigger == 0 || d.escapeTrigger != d.attrPayloadEnd
  }

  /** The key of a printed attribute, and the payload-start byte behind it. */
  lemma {:induction false} KeyBounds(e: Env, i: nat, key: seq<Byte>, rest: seq<Byte>)
    requires e.d.attrPayloadStart !in key && |key| <= e.d.limits.maxAttrKeyLen
    requires StandsAt(e.input, i, ([e.d.attrTrigger] + key + [e.d.attrPayloadStart]) + rest)
    ensures var n, start := |e.input|, i + |key| + 2;
      && i < n && e.input[i] == e.d.attrTrigger && StandsAt(e.input, start, rest)
      && FirstIndex(e.input, e.d.attrPayloadStart, i + 1, Min(i + 1 + e.d.limits.maxAttrKeyLen + 1, n)) == start - 1
  {
    var d, start, n := e.d, i + |key| + 2, |e.input|;
    var front := [d.attrTrigger] + key + [d.attrPayloadStart];
    StandsSplit(e.input, i, front, rest);
    assert e.input[i] == front[0];
    assert e.input[i + (start - 1 - i)] == front[start - 1 - i];
    forall j | i + 1 <= j < start - 1 ensures e.input[j] != d.attrPayloadStart {
      assert e.input[i + (j - i)] == front[j - i] == key[j - i - 1];
    }
    FirstIndexIs(e.input, d.attrPayloadStart, i + 1, Min(i + 1 + d.limits.maxAttrKeyLen + 1, n), start - 1);
  }

  /** A payload without escaping ends at its end byte. */
  lemma {:induction false} BareEnd(input: seq<Byte>, start: nat, hi: nat, payload: seq<Byte>, end: Byte)
    requires hi <= |input| && start + |payload| < hi && end !in payload && StandsAt(input, start, payload + [end])
    ensures FirstIndex(input, end, start, hi) == start + |payload|
  {
    var back := payload + [end];
    forall j | start <= j < start + |payload| ensures input[j] != end {
      assert input[start + (j - start)] == back[j - start] == payload[j - start];
    }
    assert input[start + |payload|] == back[|payload|];
    FirstIndexIs(input, end, start, hi, start + |payload|);
  }

  /** Where the payload starts and ends. */
  lemma {:induction false} PrintedBounds(e: Env, i: nat, key: seq<Byte>, payload: seq<Byte>)
    requires WfEnv(e) && CanPrint(e.d, key, payload) && StandsAt(e.input, i, PrintedAttribute(e.d, key, payload))
    requires EndsApart(e.d)
    ensures var n, start := |e.input|, i + |key| + 2;
      var scanEnd := Min(start + e.d.limits.maxAttrPayloadLen + 1, n);
      && i < n && e.input[i] == e.d.attrTrigger && start + |Payload(e.d, payload)| < n
      && FirstIndex(e.input, e.d.attrPayloadStart, i + 1, Min(i + 1 + e.d.limits.maxAttrKeyLen + 1, n)) == start - 1
      && AttrEnd(e, start, scanEnd) == start + |Payload(e.d, payload)|
  {
    hide StandsAt, FirstIndex, PayloadEnd, Protected;
    var d, start, n := e.d, i + |key| + 2, |e.input|;
    KeyBounds(e, i, key, Payload(d, payload) + [d.attrPayloadEnd]);
    InsideInput(e.input, start, Payload(d, payload) + [d.attrPayloadEnd]);
    var scanEnd := Min(start + d.limits.maxAttrPayloadLen + 1, n);
    if d.escapeTrigger != 0 {
      ProtectedEnd(e.input, start, scanEnd, payload, d.attrPayloadEnd, d.escapeTrigger);
    } else {
      BareEnd(e.input, start, scanEnd, payload, d.attrPayloadEnd);
    }
  }

  /** Wherever a printed attribute stands, its action returns one attribute token with its spans. */
  lemma {:induction false} PrintedAttributeAct(e: Env, c: Ctx, key: seq<Byte>, payload: seq<Byte>)
    requires WfEnv(e) && CanPrint(e.d, key, payload) && StandsAt(e.input, c.idx, PrintedAttribute(e.d, key, payload))
    requires EndsApart(e.d)
    requires c == Reset(c.idx, c.counts, c.warns)
    ensures c.idx < |e.input| && HasAction(e.d, e.input[c.idx])
    ensures var r := Act(e, c);
      && !r.skip && r.token == AttributeToken(e.d, c.idx, key, payload) && r.stride == r.token.width
      && r.warns == c.warns && r.counts == c.counts.(attributes := c.counts.attributes + 1)
  {
    hide AttrEnd, FirstIndex, Protected, StandsAt;
    PrintedBounds(e, c.idx, key, payload);
    PayloadNotEmpty(e.d, payload);
  }

  lemma {:induction false} PayloadNotEmpty(d: Dictionary, payload: seq<Byte>)
    requires payload != []
    ensures |Payload(d, payload)| >= 1
  {
  }

  /** The exception: when the payload-end byte is the escape byte, no attribute ever closes. */
  lemma {:induction false} EscapeAsEndNeverCloses(e: Env, c: Ctx)
    requires WfEnv(e) && c.idx < |e.input| && e.d.escapeTrigger != 0 && e.d.escapeTrigger == e.d.attrPayloadEnd
    ensures ActAttribute(e, c).skip
  {
    hide PayloadEnd, FirstIndex;
    forall start: nat, hi: nat | start <= hi <= |e.input|
      ensures PayloadEnd(e.input, start, hi, e.d.attrPayloadEnd, e.d.escapeTrigger, false) == -1
    {
      EndIsEscape(e.input, start, hi, e.d.escapeTrigger, false);
    }
  }

  /** The first action left its byte as text. */
  ghost predicate StartsAsText(p: Progress) {
    p.i > 0 && if p.tokens == [] then p.textStart == 0 else p.tokens[0].typ == TextToken
  }

  lemma {:induction false} TextFirst(e: Env, p: Progress)
    requires ProgressOk(e, p) && StartsAsText(p)
    ensures StartsAsText(Loop(e, p))
    decreases |e.input| - p.i
  {
    hide Act, GreedyPayload;
    if p.i < |e.input| {
      TextFirst(e, Turn(e, p));
    }
  }

  /** A printed attribute alone tokenizes to exactly one attribute token with its spans, if and only
   *  if the payload-end byte is not the escape byte. */
  lemma {:induction false} AttributeRoundTrip(e: Env, key: seq<Byte>, payload: seq<Byte>, warns: seq<Warning>)
    requires WfEnv(e) && CanPrint(e.d, key, payload) && e.input == PrintedAttribute(e.d, key, payload)
    ensures EndsApart(e.d) <==> Tokenized(e, warns).tokens == [AttributeToken(e.d, 0, key, payload)]
    ensures EndsApart(e.d) ==>
      var r := Tokenized(e, warns);
      r.warns == warns && r.counts == NO_COUNTS.(attributes := 1) && r.textTokens == 0 && r.textByteLen == 0
  {
    hide ActAttribute, Payload, StartsAsText;
    var p := Begin(warns);
    if EndsApart(e.d) {
      hide Act;
      PrintedAttributeAct(e, Reset(0, NO_COUNTS, warns), key, payload);
      assert Turn(e, p).i == |e.input|;
      assert Loop(e, p) == Loop(e, Turn(e, p)) == Turn(e, p);
    } else {
      EscapeAsEndNeverCloses(e, Reset(0, NO_COUNTS, warns));
      FirstLeftAsText(e, p);
    }
  }

  lemma {:induction false} FirstLeftAsText(e: Env, p: Progress)
    requires ProgressOk(e, p) && p.i == p.textStart == 0 && p.tokens == [] && |e.input| > 0
    requires e.d.actions[e.input[0]] == AttributeAction && ActAttribute(e, Reset(0, p.counts, p.warns)).skip
    ensures var r := Flush(Loop(e, p), |e.input|);
      r.tokens != [] && r.tokens[0].typ == TextToken
  {
    hide ActAttribute;
    assert Turn(e, p).tokens == [];
    TextFirst(e, Turn(e, p));
  }
}
