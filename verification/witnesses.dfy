/** Concrete inputs, with dictionaries built by registration, at which a documented property fails. */
module Witnesses {
  import opened Markup
  import opened Plans
  import opened Scanning
  import opened Actions
  import opened TokenizerSpec
  import opened TokenizerLaws
  import opened TagActions
  import opened Escapes
  import opened Registration
  import opened ParserSpec
  import opened SourceRoundTrip
  import opened TextAccounting
  import Parsing
  import S = SharedClosers

  /** One byte per rune, and no word runes: the inputs here are plain ASCII. */
  function Ascii(): (u: Unicode)
    ensures WfUnicode(u)
  {
    Unicode(s => if s == [] then 0 else 1, s => 0, s => false, s => false)
  }

  function Requested(limits: Limits, requests: seq<Request>): (d: Dictionary)
    ensures |d.tags| == |d.actions| == 256
  {
    ConfiguredBy(Fresh(limits), requests)
  }

  lemma {:induction false} RequestedMore(limits: Limits, requests: seq<Request>, r: Request)
    ensures Requested(limits, requests + [r]) == Configured(Requested(limits, requests), r)
  {
    assert (requests + [r])[..|requests|] == requests;
  }

  lemma {:induction false} RequestedNone(limits: Limits)
    ensures Requested(limits, []) == Fresh(limits)
  {
  }

  /** One accepted request. */
  lemma {:induction false} RequestedOne(limits: Limits, a: Request)
    requires Verdict(Fresh(limits), a) == Accepted
    ensures Requested(limits, [a]) == Granted(Fresh(limits), a)
  {
    hide Verdict, Granted;
    RequestedNone(limits);
    RequestedMore(limits, [], a);
    assert [] + [a] == [a];
  }

  /** Two accepted requests. */
  lemma {:induction false} RequestedTwo(limits: Limits, a: Request, b: Request)
    requires Verdict(Fresh(limits), a) == Accepted && Verdict(Granted(Fresh(limits), a), b) == Accepted
    ensures Requested(limits, [a, b]) == Granted(Granted(Fresh(limits), a), b)
  {
    hide Verdict, Granted;
    RequestedOne(limits, a);
    RequestedMore(limits, [a], b);
    assert [a] + [b] == [a, b];
  }

  // ---- payload limits that are not reported ----

  const SMALL_PAYLOAD := Limits(128, 512, 3, 128, 0, 0, 0)

  const CODE := Tag("CODE", [96], Greedy, RuleTagVsContent, 96, 96)

  function CodeDictionary(): Dictionary {
    Requested(SMALL_PAYLOAD, [AddTagRequest(CODE)])
  }

  lemma {:induction false} CodeRegistered()
    ensures var d := CodeDictionary(); WfDictionary(d) && d.limits == SMALL_PAYLOAD && d.tags[96] == CODE
  {
    hide WfDictionary, PlanOf;
    EveryDictionaryIsWf(SMALL_PAYLOAD, [AddTagRequest(CODE)]);
    RequestedOne(SMALL_PAYLOAD, AddTagRequest(CODE));
  }

  /** The bytes of "`ab``cdefg". */
  const CODE_INPUT: seq<Byte> := [96, 97, 98, 96, 96, 99, 100, 101, 102, 103]

  lemma {:induction false} CodeRuns()
    ensures RunLen(CODE_INPUT, 96, 0) == 1 && RunLen(CODE_INPUT, 96, 3) == 2
    ensures forall q: nat :: 2 <= q < 5 ==> !ClosingRun(CODE_INPUT, 96, 1, q)
  {
    hide RunLen;
    var n := CODE_INPUT;
    assert n[0] == 96 && n[1] != 96 && n[2] != 96 && n[3] == 96 && n[4] == 96 && n[5] != 96;
    RunLenIs(n, 96, 0, 1);
    RunLenIs(n, 96, 3, 2);
    assert !ClosingRun(n, 96, 1, 2) && !ClosingRun(n, 96, 1, 3) && !ClosingRun(n, 96, 1, 4);
    forall q: nat | 2 <= q < 5 ensures !ClosingRun(CODE_INPUT, 96, 1, q) {
      assert q == 2 || q == 3 || q == 4;
    }
  }

  /** With room for a payload of 3 bytes, the scan is cut at the limit, yet the tag is reported as
   *  unclosed: the run of two at the window's end hides the cut. */
  lemma {:induction false} RunHidesLimit() returns (e: Env, c: Ctx)
    ensures e.d == CodeDictionary() && e.input == CODE_INPUT && c == Reset(0, NO_COUNTS, []) && CtxOk(e, c)
    ensures WindowEnd(e, c) < |e.input| - OpenWidth(e, c) + 1 && !KeyTooLong(e, c) && !CutByLimit(e, c)
    ensures ActTag(e, c).skip && ActTag(e, c).warns == [Warning(UnclosedTag, 0, 96, 96, 0, 0)]
  {
    hide RunLen, ClosingRun, ActTag, PlanOf;
    CodeRegistered();
    CodeRuns();
    e, c := Env(Ascii(), CodeDictionary(), CODE_INPUT), Reset(0, NO_COUNTS, []);
    CodeTagAction(e, c);
  }

  const OPENER := Tag("OPEN", [40], Greedy, RuleNA, 0, 41)
  const CLOSER := Tag("CLOSE", [41, 41], NonGreedy, RuleNA, 40, 0)

  function RoundDictionary(): Dictionary {
    Requested(SMALL_PAYLOAD, [AddTagRequest(OPENER), AddTagRequest(CLOSER)])
  }

  lemma {:induction false} RoundRegistered()
    ensures var d := RoundDictionary();
      WfDictionary(d) && d.limits == SMALL_PAYLOAD && d.tags[40] == OPENER && d.tags[41] == CLOSER
  {
    hide WfDictionary, PlanOf;
    EveryDictionaryIsWf(SMALL_PAYLOAD, [AddTagRequest(OPENER), AddTagRequest(CLOSER)]);
    RequestedTwo(SMALL_PAYLOAD, AddTagRequest(OPENER), AddTagRequest(CLOSER));
  }

  /** The bytes of "(a)bcdefgh". */
  const ROUND_INPUT: seq<Byte> := [40, 97, 41, 98, 99, 100, 101, 102, 103, 104]

  lemma {:induction false} RoundOccurs(p: nat)
    ensures !OccursAt(ROUND_INPUT, [41, 41], p)
    ensures OccursAt(ROUND_INPUT, [40], 0)
  {
    if p + 2 <= 10 {
      var cut := ROUND_INPUT[p..p + 2];
      assert cut[0] == ROUND_INPUT[p] && cut[1] == ROUND_INPUT[p + 1];
    }
  }

  /** Under the plain rule the first byte of the closer `))` is enough to hide the cut. */
  lemma {:induction false} CloserByteHidesLimit() returns (e: Env, c: Ctx)
    ensures e.d == RoundDictionary() && e.input == ROUND_INPUT && c == Reset(0, NO_COUNTS, []) && CtxOk(e, c)
    ensures SearchEnd(e, 1) < |e.input| && !Closable(e, OPENER, 1) && !LimitNoticed(e, OPENER, 1)
    ensures ActTag(e, c).skip && ActTag(e, c).warns == [Warning(UnclosedTag, 0, 40, 41, 0, 0)]
  {
    hide OccursAt, ActTag, PlanOf;
    RoundRegistered();
    e, c := Env(Ascii(), RoundDictionary(), ROUND_INPUT), Reset(0, NO_COUNTS, []);
    RoundOccurs(0);
    assert !Closable(e, OPENER, 1) by {
      forall q: nat ensures !ClosesIn(e.input, CLOSER.sequence, 1, 5, q) { RoundOccurs(q); }
    }
    assert e.input[2] == CLOSER.sequence[0];
    PayloadTagAction(e, c);
  }

  // ---- an interrupted sequence reported elsewhere ----

  const KNOT := Tag("KNOT", [35, 97, 35, 98], NonGreedy, RuleNA, 35, 35)

  function KnotDictionary(): Dictionary {
    Requested(SCAN_DEFAULTS, [AddTagRequest(KNOT)])
  }

  lemma {:induction false} KnotRegistered()
    ensures var d := KnotDictionary(); WfDictionary(d) && d.tags[35] == KNOT
  {
    hide WfDictionary, PlanOf;
    EveryDictionaryIsWf(SCAN_DEFAULTS, [AddTagRequest(KNOT)]);
    RequestedOne(SCAN_DEFAULTS, AddTagRequest(KNOT));
  }

  /** The bytes of "##a#", as the tag `#a#b` sees them: 1 byte matches at the start, 3 behind it. */
  const KNOT_INPUT: seq<Byte> := [35, 35, 97, 35]

  lemma {:induction false} KnotMatches()
    ensures CommonLen(KNOT_INPUT, 0, KNOT.sequence) == 1 && CommonLen(KNOT_INPUT, 1, KNOT.sequence) == 3
    ensures !OccursAt(KNOT_INPUT, KNOT.sequence, 0)
  {
    hide CommonLen, OccursAt;
    var n, t := KNOT_INPUT, KNOT.sequence;
    assert n[0] == t[0] && n[1] != t[1];
    CommonLenIs(n, 0, t, 1);
    assert n[1] == t[0] && n[2] == t[1] && n[3] == t[2];
    CommonLenIs(n, 1, t, 3);
    CommonLenFull(n, 0, t);
  }

  /** The sequence breaks off at index 1, where `#` stands for `a`; the warning says index 3, expects
   *  `b`, and calls the `a` at index 2 unexpected. */
  lemma {:induction false} LaterMatchMovesReport() returns (e: Env, c: Ctx)
    ensures e.d == KnotDictionary() && e.input == KNOT_INPUT && c == Reset(0, NO_COUNTS, []) && CtxOk(e, c)
    ensures ActTag(e, c).skip && ActTag(e, c).warns == [Warning(UnexpectedSymbol, 3, 35, 0, 98, 97)]
  {
    hide CommonLen, OccursAt, ActTag, PlanOf, WfUnicode;
    KnotRegistered();
    KnotMatches();
    e, c := Env(Ascii(), KnotDictionary(), KNOT_INPUT), Reset(0, NO_COUNTS, []);
    BrokenSequenceAction(e, c);
    var win := TagWindow(e, c);
    assert win == KNOT_INPUT;
  }

  const PAIR := Tag("PAIR", [97, 98], NonGreedy, RuleNA, 97, 97)
  const FOUR := Tag("FOUR", [97, 98, 99, 100], NonGreedy, RuleNA, 97, 97)

  /** A dictionary with one tag, and an input that begins with the tag's first byte. */
  lemma {:induction false} OneTag(t: Tag, input: seq<Byte>) returns (e: Env, c: Ctx)
    requires Verdict(Fresh(SCAN_DEFAULTS), AddTagRequest(t)) == Accepted && input != [] && t.ID() == input[0]
    ensures e.d == Requested(SCAN_DEFAULTS, [AddTagRequest(t)]) && e.input == input && c == Reset(0, NO_COUNTS, [])
    ensures CtxOk(e, c) && TagOf(e, c) == t
  {
    hide WfDictionary, PlanOf;
    EveryDictionaryIsWf(SCAN_DEFAULTS, [AddTagRequest(t)]);
    RequestedOne(SCAN_DEFAULTS, AddTagRequest(t));
    e, c := Env(Ascii(), Requested(SCAN_DEFAULTS, [AddTagRequest(t)]), input), Reset(0, NO_COUNTS, []);
  }

  /** The tag `ab` in "aa": the second `a` is found where `b` is expected, and the warning says so. */
  lemma {:induction false} FoundSymbolRight() returns (e: Env, c: Ctx)
    ensures e.d == Requested(SCAN_DEFAULTS, [AddTagRequest(PAIR)]) && e.input == [97, 97] && c == Reset(0, NO_COUNTS, [])
    ensures CtxOk(e, c) && ActTag(e, c).warns == [Warning(UnexpectedSymbol, 1, 97, 0, 98, 97)]
  {
    hide CommonLen, OccursAt, ActTag, PlanOf, TagOf, WfUnicode, Requested, WfDictionary;
    e, c := OneTag(PAIR, [97, 97]);
    CommonLenIs([97, 97], 0, PAIR.sequence, 1);
    CommonLenFull([97, 97], 0, PAIR.sequence);
    BrokenSequenceAction(e, c);
  }

  /** The same tag in "ax": `x` is found, and the warning says `a`. */
  lemma {:induction false} FoundSymbolWrong() returns (e: Env, c: Ctx)
    ensures e.d == Requested(SCAN_DEFAULTS, [AddTagRequest(PAIR)]) && e.input == [97, 120] && c == Reset(0, NO_COUNTS, [])
    ensures CtxOk(e, c) && ActTag(e, c).warns == [Warning(UnexpectedSymbol, 1, 97, 0, 98, 97)]
  {
    hide CommonLen, OccursAt, ActTag, PlanOf, TagOf, WfUnicode, Requested, WfDictionary;
    e, c := OneTag(PAIR, [97, 120]);
    CommonLenIs([97, 120], 0, PAIR.sequence, 1);
    CommonLenFull([97, 120], 0, PAIR.sequence);
    BrokenSequenceAction(e, c);
  }

  /** The bytes of "axab", as the tag `abcd` sees them: 1 byte matches at the start, 2 at index 2. */
  lemma {:induction false} FourMatches(n: seq<Byte>)
    requires n == [97, 120, 97, 98]
    ensures CommonLen(n, 0, FOUR.sequence) == 1 && CommonLen(n, 2, FOUR.sequence) == 2
    ensures CommonLen(n, 1, FOUR.sequence) == 0 && CommonLen(n, 3, FOUR.sequence) == 0
    ensures !OccursAt(n, FOUR.sequence, 0)
  {
    hide CommonLen, OccursAt;
    var t := FOUR.sequence;
    CommonLenIs(n, 0, t, 1);
    CommonLenIs(n, 1, t, 0);
    assert n[2] == t[0] && n[3] == t[1];
    CommonLenIs(n, 2, t, 2);
    CommonLenIs(n, 3, t, 0);
    CommonLenFull(n, 0, t);
  }

  /** The later match is longer by one byte: the warning finds the right `x`, and misses the place. */
  lemma {:induction false} FoundSymbolRightElsewhere() returns (e: Env, c: Ctx)
    ensures e.d == Requested(SCAN_DEFAULTS, [AddTagRequest(FOUR)]) && e.input == [97, 120, 97, 98] && c == Reset(0, NO_COUNTS, [])
    ensures CtxOk(e, c) && ActTag(e, c).warns == [Warning(UnexpectedSymbol, 2, 97, 0, 99, 120)]
  {
    hide CommonLen, OccursAt, ActTag, PlanOf, TagOf, WfUnicode, Requested, WfDictionary;
    e, c := OneTag(FOUR, [97, 120, 97, 98]);
    FourMatches(e.input);
    BrokenSequenceAction(e, c);
    var win := TagWindow(e, c);
    assert win == e.input;
    forall p | 0 <= p < |win| ensures CommonLen(win, p, FOUR.sequence) <= 2 {
      assert p == 0 || p == 1 || p == 2 || p == 3;
    }
  }

  // ---- configurations that are accepted and disable something ----

  const BACKSLASH := Tag("BACKSLASH", [92], NonGreedy, RuleNA, 92, 92)
  const BANG := Tag("BANG", [33], NonGreedy, RuleNA, 33, 33)

  /** A tag on the escape byte is accepted behind the escape byte, and disables it. */
  lemma {:induction false} EscapeDisabled()
    ensures Verdict(Fresh(SCAN_DEFAULTS), EscapeRequest(92)) == Accepted
    ensures var d := Requested(SCAN_DEFAULTS, [EscapeRequest(92)]);
      EscapeWorks(d) && Verdict(d, AddTagRequest(BACKSLASH)) == Accepted
    ensures var d := Requested(SCAN_DEFAULTS, [EscapeRequest(92), AddTagRequest(BACKSLASH)]);
      d.escapeTrigger == 92 && !EscapeWorks(d)
  {
    hide PlanOf;
    RequestedOne(SCAN_DEFAULTS, EscapeRequest(92));
    RequestedTwo(SCAN_DEFAULTS, EscapeRequest(92), AddTagRequest(BACKSLASH));
  }

  /** A tag on the attribute trigger is accepted too, and disables attributes. */
  lemma {:induction false} AttributesDisabled()
    ensures var d := Requested(SCAN_DEFAULTS, [AttributeRequest(33, 123, 125)]);
      AttributesWork(d) && Verdict(d, AddTagRequest(BANG)) == Accepted
    ensures var d := Requested(SCAN_DEFAULTS, [AttributeRequest(33, 123, 125), AddTagRequest(BANG)]);
      d.attrTrigger == 33 && !AttributesWork(d)
  {
    hide PlanOf;
    RequestedOne(SCAN_DEFAULTS, AttributeRequest(33, 123, 125));
    RequestedTwo(SCAN_DEFAULTS, AttributeRequest(33, 123, 125), AddTagRequest(BANG));
  }

  const END_IS_ESCAPE := [AttributeRequest(33, 123, 92), EscapeRequest(92)]

  /** The payload-end byte may be made the escape byte; then the attribute `!{a\` is not recognised. */
  lemma {:induction false} EscapeAsEnd() returns (e: Env)
    ensures e.d == Requested(SCAN_DEFAULTS, END_IS_ESCAPE) && e.d.attrPayloadEnd == 92 == e.d.escapeTrigger
    ensures WfEnv(e) && CanPrint(e.d, [], [97]) && e.input == [33, 123, 97, 92] == PrintedAttribute(e.d, [], [97])
    ensures Tokenized(e, []).tokens != [AttributeToken(e.d, 0, [], [97])]
  {
    hide WfDictionary, Tokenized;
    EveryDictionaryIsWf(SCAN_DEFAULTS, END_IS_ESCAPE);
    RequestedTwo(SCAN_DEFAULTS, AttributeRequest(33, 123, 92), EscapeRequest(92));
    e := Env(Ascii(), Requested(SCAN_DEFAULTS, END_IS_ESCAPE), [33, 123, 97, 92]);
    assert Protected([97][1..], 92, 92) == [];
    assert Payload(e.d, [97]) == [97];
    AttributeRoundTrip(e, [], [97], []);
  }

  // ---- the document `[!{a}x!{b}]!{c}` ----

  /** Its bytes. */
  const EARLY_INPUT: seq<Byte> := [91, 33, 123, 97, 125, 120] + [33, 123, 98, 125, 93] + [33, 123, 99, 125]

  lemma {:induction false} EarlyAttributeStands()
    ensures var d, n := L.LinkDictionary(), EARLY_INPUT;
      && StandsAt(n, 0, Sequence(d, 91)) && StandsAt(n, 5, Escaped(d, [120])) && StandsAt(n, 10, Sequence(d, 93))
      && PrintedAttribute(d, [], [97]) == [33, 123, 97, 125] && StandsAt(n, 1, [33, 123, 97, 125])
      && PrintedAttribute(d, [], [98]) == [33, 123, 98, 125] && StandsAt(n, 6, [33, 123, 98, 125])
      && PrintedAttribute(d, [], [99]) == [33, 123, 99, 125] && StandsAt(n, 11, [33, 123, 99, 125])
  {
    hide PlanOf;
    FlagIs(97);
    FlagIs(98);
    FlagIs(99);
    assert [120][1..] == [] && Escaped(L.LinkDictionary(), []) == [];
    assert Escaped(L.LinkDictionary(), [120]) == [120];
  }

  lemma {:induction false} FlagIs(b: Byte)
    requires b != 125 && b != 92
    ensures var d := L.LinkDictionary();
      && CanPrint(d, [], [b]) && Payload(d, [b]) == [b] && PrintedAttribute(d, [], [b]) == [33, 123, b, 125]
  {
    hide PlanOf;
    assert Protected([b][1..], 125, 92) == [];
    assert Protected([b], 125, 92) == [b];
  }

  lemma {:induction false} EarlyAttributePieces()
    ensures var d := L.LinkDictionary();
      L.EarlyAttribute() ==
        ([TagTok(d, 91, 0)] + ([AttributeToken(d, 1, [], [97])] + [TextBetween(5, 6)]))
        + ([AttributeToken(d, 6, [], [98])] + ([TagTok(d, 93, 10)] + [AttributeToken(d, 11, [], [99])]))
  {
    hide PlanOf;
    FlagIs(97);
    FlagIs(98);
    FlagIs(99);
  }

  /** The first three tokens: opener, its early attribute, text. */
  lemma {:induction false} EarlyHalf(e: Env, p: Progress) returns (q: Progress)
    requires WfEnv(e) && e.d == L.LinkDictionary() && e.input == EARLY_INPUT && p == Begin([])
    ensures Reads(e, p, q, [TagTok(e.d, 91, 0)] + ([AttributeToken(e.d, 1, [], [97])] + [TextBetween(5, 6)]), 6)
    ensures ProgressOk(e, q) && q.i == 6 && q.warns == []
  {
    hide Reads, StandsAt, CanPrint, Escaped, PrintedAttribute, AttributeToken, TagTok, TextBetween, WfEnv;
    EarlyAttributeStands();
    LinkTags();
    FlagIs(97);
    var f := TagRead(e, p, 91);
    ReadsTo(e, p, f, [TagTok(e.d, 91, 0)], 1);
    var g := AttributeRead(e, f, Attr([], [97]));
    ReadsTo(e, f, g, [AttributeToken(e.d, 1, [], [97])], 4);
    q := WordsRead(e, g, [120]);
    ReadsElement(e, p, f, g, q, TagTok(e.d, 91, 0), [AttributeToken(e.d, 1, [], [97])], [TextBetween(5, 6)], 1, 4, 1);
    ReadsTo(e, g, q, [TextBetween(5, 6)], 1);
  }

  lemma {:induction false} LinkTags()
    ensures var d := L.LinkDictionary();
      && EscapeWorks(d) && EndsApart(d) && Registered(d, 91) && Registered(d, 93)
      && Simple(d.tags[91]) && Simple(d.tags[93]) && !d.tags[91].IsClosing() && !d.tags[93].IsOpening()
      && |Sequence(d, 91)| == |Sequence(d, 93)| == 1 && |Escaped(d, [120])| == 1
  {
    hide PlanOf;
    assert [120][1..] == [] && Escaped(L.LinkDictionary(), []) == [];
  }

  /** The last three: the text's attribute, closer, the tag's late attribute. */
  lemma {:induction false} LateHalf(e: Env, p: Progress) returns (q: Progress)
    requires ProgressOk(e, p) && e.d == L.LinkDictionary() && e.input == EARLY_INPUT && p.i == 6 && p.warns == []
    ensures Reads(e, p, q, [AttributeToken(e.d, 6, [], [98])] + ([TagTok(e.d, 93, 10)] + [AttributeToken(e.d, 11, [], [99])]), 9)
    ensures ProgressOk(e, q) && q.i == 15 && q.warns == []
  {
    hide Reads, StandsAt, CanPrint, Escaped, PrintedAttribute, AttributeToken, TagTok, WfEnv;
    EarlyAttributeStands();
    LinkTags();
    FlagIs(98);
    FlagIs(99);
    var f := AttributeRead(e, p, Attr([], [98]));
    ReadsTo(e, p, f, [AttributeToken(e.d, 6, [], [98])], 4);
    var g := TagRead(e, f, 93);
    ReadsTo(e, f, g, [TagTok(e.d, 93, 10)], 1);
    q := AttributeRead(e, g, Attr([], [99]));
    ReadsElement(e, p, f, g, q, AttributeToken(e.d, 6, [], [98]), [TagTok(e.d, 93, 10)], [AttributeToken(e.d, 11, [], [99])], 4, 1, 4);
    ReadsTo(e, g, q, [AttributeToken(e.d, 11, [], [99])], 4);
  }

  /** The token list whose ranges are not exact is what the tokenizer makes of that document. */
  lemma {:induction false} EarlyAttributeTokens() returns (e: Env)
    ensures WfEnv(e) && e.d == L.LinkDictionary() && e.input == EARLY_INPUT
    ensures Tokenized(e, []).tokens == L.EarlyAttribute() && Tokenized(e, []).warns == []
  {
    hide Loop, Reads, L.EarlyAttribute, TagTok, AttributeToken, TextBetween;
    e := Env(Ascii(), L.LinkDictionary(), EARLY_INPUT);
    var p := Begin([]);
    var q := EarlyHalf(e, p);
    var r := LateHalf(e, q);
    EarlyAttributePieces();
    ReadsChain(e, p, q, r,
               [TagTok(e.d, 91, 0)] + ([AttributeToken(e.d, 1, [], [97])] + [TextBetween(5, 6)]),
               [AttributeToken(e.d, 6, [], [98])] + ([TagTok(e.d, 93, 10)] + [AttributeToken(e.d, 11, [], [99])]), 6, 9);
    AllRead(e, r, L.EarlyAttribute());
  }

  /** A run that read the whole input has its tokens. */
  lemma {:induction false} AllRead(e: Env, q: Progress, toks: seq<Token>)
    requires WfEnv(e) && Reads(e, Begin([]), q, toks, |e.input|)
    ensures Tokenized(e, []).tokens == toks && Tokenized(e, []).warns == []
  {
    hide Loop;
    AtEnd(e, q);
    assert Settled(Begin([])) + toks == toks;
  }

  // ---- text that is counted and lost ----

  const ONE_NODE := Limits(128, 512, 1024, 128, 1, 0, 0)

  /** With room for the root alone, "ab" is counted and dropped: two bytes reported, no text. */
  lemma {:induction false} NodeLimitDropsText() returns (e: Env)
    ensures WfEnv(e) && e.d == Requested(ONE_NODE, []) && e.input == [97, 98]
    ensures var toks := Tokenized(e, []).tokens;
      toks == [TextBetween(0, 2)] && TokensOk(e.d, toks) && NodesFull(e.d.limits, Start()) && UnplacedText(e.d, toks) == 2
    ensures |LinearText(e.input, Parsed(e.d, Tokenized(e, []).tokens).labels)| == Parsing.ReportedTextLen(e, []) - 2
  {
    hide Tokenized, Parsed, LinearText, WfDictionary;
    EveryDictionaryIsWf(ONE_NODE, []);
    RequestedNone(ONE_NODE);
    e := Env(Ascii(), Requested(ONE_NODE, []), [97, 98]);
    NothingEscaped(e.d, [97, 98]);
    EscapedIsPlain(e, [97, 98], []);
    Parsing.TextHasReportedLength(e, []);
    OneUnplaced(e.d, TextBetween(0, 2));
  }

  lemma {:induction false} NothingEscaped(d: Dictionary, s: seq<Byte>)
    requires |d.actions| == 256 && forall i :: 0 <= i < |s| ==> !HasAction(d, s[i])
    ensures Escaped(d, s) == s
  {
    if s != [] {
      NothingEscaped(d, s[1..]);
    }
  }

  lemma {:induction false} OneUnplaced(d: Dictionary, tok: Token)
    requires |d.tags| == 256 && TokenOk(d, tok)
    ensures TokensOk(d, [tok]) && UnplacedText(d, [tok]) == Unplaced(d, Start(), tok)
  {
    assert [tok][..0] == [] && UnplacedText(d, []) == 0 && Run(d, Start(), []) == Start();
  }

  const BACKTICKED := Tag("BACKTICKED", [91], NonGreedy, RuleNA, 0, 96)
  const BACKTICK := Tag("BACKTICK", [96], Greedy, RuleNA, 96, 96)

  lemma {:induction false} BackticksRegistered()
    ensures var d := Requested(SCAN_DEFAULTS, [AddTagRequest(BACKTICKED), AddTagRequest(BACKTICK)]);
      WfDictionary(d) && d.limits == SCAN_DEFAULTS && d.tags[91] == BACKTICKED && d.tags[96] == BACKTICK
  {
    hide WfDictionary, PlanOf;
    EveryDictionaryIsWf(SCAN_DEFAULTS, [AddTagRequest(BACKTICKED), AddTagRequest(BACKTICK)]);
    RequestedTwo(SCAN_DEFAULTS, AddTagRequest(BACKTICKED), AddTagRequest(BACKTICK));
  }

  /** The bytes of "[[`x`". */
  const SWALLOWED_INPUT: seq<Byte> := [91, 91, 96, 120, 96]

  lemma {:induction false} BacktickPieces(d: Dictionary)
    requires |d.tags| == 256 && d.limits == SCAN_DEFAULTS && d.tags[91] == BACKTICKED && d.tags[96] == BACKTICK
    ensures Registered(d, 91) && Simple(d.tags[91]) && RawOk(d, 96, [120]) && Sequence(d, Closer(d, 96)) == [96] == Sequence(d, 96)
    ensures StandsAt(SWALLOWED_INPUT, 0, [91]) && StandsAt(SWALLOWED_INPUT, 1, [91]) && StandsAt(SWALLOWED_INPUT, 2, [96] + ([120] + [96]))
  {
    assert !OccursAt([120] + [96], [96], 0) by {
      assert ([120] + [96])[0..1] == [120 as Byte];
    }
  }

  function SwallowedTokens(d: Dictionary): seq<Token>
    requires |d.tags| == 256
  {
    [TagTok(d, 91, 0)] + ([TagTok(d, 91, 1)] + [RawTok(d, 96, [120], 2)])
  }

  lemma {:induction false} SwallowedRead(e: Env)
    requires WfEnv(e) && e.d == Requested(SCAN_DEFAULTS, [AddTagRequest(BACKTICKED), AddTagRequest(BACKTICK)])
    requires e.input == SWALLOWED_INPUT
    ensures Tokenized(e, []).tokens == SwallowedTokens(e.d)
  {
    hide Reads, StandsAt, RawOk, TagTok, RawTok, WfEnv, Tokenized, Requested, Simple;
    BackticksRegistered();
    BacktickPieces(e.d);
    NotClosing();
    var p := Begin([]);
    assert ProgressOk(e, p);
    var f := TagRead(e, p, 91);
    ReadsTo(e, p, f, [TagTok(e.d, 91, 0)], 1);
    var g := TagRead(e, f, 91);
    ReadsTo(e, f, g, [TagTok(e.d, 91, 1)], 1);
    var h := RawRead(e, g, 96, [120]);
    ReadsElement(e, p, f, g, h, TagTok(e.d, 91, 0), [TagTok(e.d, 91, 1)], [RawTok(e.d, 96, [120], 2)], 1, 1, 3);
    AllRead(e, h, SwallowedTokens(e.d));
  }

  lemma {:induction false} NotClosing()
    ensures !BACKTICKED.IsClosing()
  {
  }

  /** After the repeated opener the greedy tag is taken for its closer. */
  lemma {:induction false} SwallowedSkips(d: Dictionary) returns (s: State)
    requires |d.tags| == 256 && d.limits == SCAN_DEFAULTS && d.tags[91] == BACKTICKED && d.tags[96] == BACKTICK
    ensures TokensOk(d, SwallowedTokens(d)) && TokensOk(d, [TagTok(d, 91, 0), TagTok(d, 91, 1)])
    ensures s == Run(d, Start(), [TagTok(d, 91, 0), TagTok(d, 91, 1)]) && Shape(s) && s.skip[96] == 1
    ensures UnplacedText(d, [TagTok(d, 91, 0), TagTok(d, 91, 1)]) == 0
  {
    hide Run;
    var a, b := TagTok(d, 91, 0), TagTok(d, 91, 1);
    RunOne(d, Start(), a);
    RunSnoc(d, Start(), [a], b);
    assert [a] + [b] == [a, b];
    var r := Step(d, Start(), a);
    assert r.isOpen[91] && r.skip[96] == 0 && r.skip[91] == 0;
    s := Step(d, r, b);
    OneUnplaced(d, a);
    assert [a, b][..1] == [a];
  }

  /** In "[[`x`" the repeated `[` waits for a closer, and swallows the greedy tag: `x` is reported, and lost. */
  lemma {:induction false} SwallowedTagLosesText() returns (e: Env)
    ensures WfEnv(e) && e.d == Requested(SCAN_DEFAULTS, [AddTagRequest(BACKTICKED), AddTagRequest(BACKTICK)])
    ensures e.input == SWALLOWED_INPUT && e.d.limits.maxNodes == 0
    ensures var toks := Tokenized(e, []).tokens;
      toks == SwallowedTokens(e.d) && TokensOk(e.d, toks) && UnplacedText(e.d, toks) == 1
    ensures |LinearText(e.input, Parsed(e.d, Tokenized(e, []).tokens).labels)| == Parsing.ReportedTextLen(e, []) - 1
  {
    hide Tokenized, Parsed, LinearText, WfDictionary, Run, Requested, PlanOf, TagTok, RawTok, UnplacedText, Parsing.ReportedTextLen;
    BackticksRegistered();
    e := Env(Ascii(), Requested(SCAN_DEFAULTS, [AddTagRequest(BACKTICKED), AddTagRequest(BACKTICK)]), SWALLOWED_INPUT);
    SwallowedRead(e);
    var s := SwallowedSkips(e.d);
    SwallowedUnplaced(e.d, s);
    Parsing.TextHasReportedLength(e, []);
  }

  lemma {:induction false} SwallowedUnplaced(d: Dictionary, s: State)
    requires |d.tags| == 256 && d.tags[96] == BACKTICK && TokensOk(d, SwallowedTokens(d)) && Shape(s) && s.skip[96] == 1
    requires TokensOk(d, [TagTok(d, 91, 0), TagTok(d, 91, 1)]) && s == Run(d, Start(), [TagTok(d, 91, 0), TagTok(d, 91, 1)])
    requires UnplacedText(d, [TagTok(d, 91, 0), TagTok(d, 91, 1)]) == 0
    ensures UnplacedText(d, SwallowedTokens(d)) == 1
  {
    hide Run, TagTok;
    assert SwallowedTokens(d)[..2] == [TagTok(d, 91, 0), TagTok(d, 91, 1)];
  }

  // ---- the document `[[(x]y]]` ----

  const SQUARE := Tag("SQUARE", [91], NonGreedy, RuleNA, 0, 93)
  const ROUND := Tag("ROUND", [40], NonGreedy, RuleNA, 0, 93)
  const END := Tag("END", [93], NonGreedy, RuleNA, 91, 0)

  function SharedRequests(): seq<Request> {
    [EscapeRequest(92), AddTagRequest(SQUARE)] + [AddTagRequest(ROUND)] + [AddTagRequest(END)]
  }

  lemma {:induction false} SharedRegistered()
    ensures var d := Requested(SCAN_DEFAULTS, SharedRequests());
      && WfDictionary(d) && d.limits == SCAN_DEFAULTS && EscapeWorks(d) && EndsApart(d)
      && d.tags[91] == SQUARE && d.tags[40] == ROUND && d.tags[93] == END
      && d.actions[120] == NoAction == d.actions[121]
  {
    hide WfDictionary, PlanOf;
    EveryDictionaryIsWf(SCAN_DEFAULTS, SharedRequests());
    RequestedTwo(SCAN_DEFAULTS, EscapeRequest(92), AddTagRequest(SQUARE));
    var two := [EscapeRequest(92), AddTagRequest(SQUARE)];
    RequestedMore(SCAN_DEFAULTS, two, AddTagRequest(ROUND));
    RequestedMore(SCAN_DEFAULTS, two + [AddTagRequest(ROUND)], AddTagRequest(END));
  }

  function RoundPart(): Source {
    Tagged(Nothing, 40, Words(Nothing, [120], []), [])
  }

  function SquarePart(): Source {
    Tagged(Nothing, 91, Words(RoundPart(), [121], []), [])
  }

  function SharedSource(): Source {
    Tagged(Nothing, 91, SquarePart(), [])
  }

  lemma {:induction false} NoAttributes(d: Dictionary)
    requires |d.actions| == 256
    ensures AttrsOk(d, []) && WriteAttrs(d, []) == [] && forall pos: nat :: AttrToks(d, [], pos) == []
  {
  }

  lemma {:induction false} SharedWritable(d: Dictionary)
    requires d == Requested(SCAN_DEFAULTS, SharedRequests())
    ensures |d.tags| == |d.actions| == 256 && Writable(d, SharedSource(), false)
  {
    SharedRegistered();
    hide Requested, PlainTag, WfDictionary, AttrsOk;
    NoAttributes(d);
    assert PlainTag(d, 91) && PlainTag(d, 40) by { SharedPlain(d); }
    assert Writable(d, Nothing, false) && Writable(d, Words(Nothing, [120], []), false);
    assert Writable(d, RoundPart(), false);
    assert Writable(d, Words(RoundPart(), [121], []), false);
    assert Writable(d, SquarePart(), false);
  }

  lemma {:induction false} SharedPlain(d: Dictionary)
    requires |d.tags| == 256 && d.tags[91] == SQUARE && d.tags[40] == ROUND && d.tags[93] == END
    ensures PlainTag(d, 91) && PlainTag(d, 40)
  {
  }

  /** Its bytes. */
  lemma {:induction false} SharedBytes(d: Dictionary)
    requires |d.tags| == |d.actions| == 256 && d.tags[91] == SQUARE && d.tags[40] == ROUND && d.tags[93] == END
    requires d.actions[120] == NoAction == d.actions[121]
    ensures Write(d, RoundPart()) == [40, 120, 93] && Write(d, SquarePart()) == [91, 40, 120, 93, 121, 93]
    ensures Write(d, Words(Nothing, [120], [])) == [120] && Write(d, Words(RoundPart(), [121], [])) == [40, 120, 93, 121]
    ensures Write(d, SharedSource()) == [91, 91, 40, 120, 93, 121, 93, 93]
  {
    hide Escaped, WriteAttrs;
    NoAttributes(d);
    WordIs(d, 120);
    WordIs(d, 121);
    assert Write(d, Nothing) == [];
    assert Write(d, Words(Nothing, [120], [])) == [120];
    assert Write(d, RoundPart()) == [40, 120, 93];
    assert Write(d, Words(RoundPart(), [121], [])) == [40, 120, 93, 121];
    assert Write(d, SquarePart()) == [91, 40, 120, 93, 121, 93];
  }

  function SharedTokens(d: Dictionary): seq<Token>
    requires |d.tags| == 256
  {
    [TagTok(d, 91, 0), TagTok(d, 91, 1), TagTok(d, 40, 2), TextBetween(3, 4)]
    + [TagTok(d, 93, 4), TextBetween(5, 6), TagTok(d, 93, 6), TagTok(d, 93, 7)]
  }

  /** Its token tree. */
  lemma {:induction false} SharedTree(d: Dictionary)
    requires |d.tags| == |d.actions| == 256 && d.tags[91] == SQUARE && d.tags[40] == ROUND && d.tags[93] == END
    requires d.actions[120] == NoAction == d.actions[121]
    ensures DocsOf(d, SharedSource(), 0) == S.Doubled(SharedTokens(d))
  {
    hide Escaped, WriteAttrs, AttrToks, Write, TagTok, TextBetween;
    NoAttributes(d);
    WordIs(d, 120);
    WordIs(d, 121);
    SharedBytes(d);
    var t := SharedTokens(d);
    assert Write(d, Nothing) == [] by { NothingWritten(d); }
    assert DocsOf(d, Words(Nothing, [120], []), 3) == R.Text(R.End, t[3], []);
    var round := R.Element(R.End, t[2], R.Text(R.End, t[3], []), t[4], []);
    assert DocsOf(d, RoundPart(), 2) == round;
    assert DocsOf(d, Words(RoundPart(), [121], []), 2) == R.Text(round, t[5], []);
    assert DocsOf(d, SquarePart(), 1) == R.Element(R.End, t[1], R.Text(round, t[5], []), t[6], []);
  }

  lemma {:induction false} NothingWritten(d: Dictionary)
    requires |d.tags| == |d.actions| == 256
    ensures Write(d, Nothing) == []
  {
  }

  lemma {:induction false} SharedFits(d: Dictionary)
    requires |d.tags| == 256 && d.tags[91] == SQUARE && d.tags[40] == ROUND && d.tags[93] == END
    ensures S.Fits(d, 91, 40, SharedTokens(d)) && R.ShareCloser(d, 91, 40)
  {
  }

  /** Written as bytes and parsed, the document comes back with `y` inside the round brackets. */
  lemma {:induction false} SharedSourceMisplaced() returns (e: Env)
    ensures WfEnv(e) && e.d == Requested(SCAN_DEFAULTS, SharedRequests()) && e.input == [91, 91, 40, 120, 93, 121, 93, 93]
    ensures e.input == Write(e.d, SharedSource()) && Writable(e.d, SharedSource(), false)
    ensures var docs, toks := DocsOf(e.d, SharedSource(), 0), Tokenized(e, []).tokens;
      && R.WfDocs(e.d, docs) && R.CanSplice(e.d, {}, 0, docs) && P.TokensOk(e.d, toks)
      && P.Parsed(e.d, toks).par == [-1, 0, 1, 2, 2]
      && !R.ParseIs(P.Parsed(e.d, toks), R.Spliced({}, docs), R.ParseWarnings({}, 0, docs))
  {
    hide Requested, WfDictionary, Write, Writable, DocsOf, Tokenized, P.Parsed, R.ParseIs, R.WfDocs, R.CanSplice,
         R.Spliced, R.ParseWarnings, S.Doubled, S.Fits, SharedTokens, R.Print, R.ShareCloser;
    var d := Requested(SCAN_DEFAULTS, SharedRequests());
    SharedRegistered();
    SharedWritable(d);
    SharedBytes(d);
    SharedTree(d);
    SharedFits(d);
    e := Env(Ascii(), d, [91, 91, 40, 120, 93, 121, 93, 93]);
    TokensOfWritten(e, SharedSource());
    WfTagsToo(d);
    S.SharedCloserMisplaces(d, 91, 40, SharedTokens(d));
  }

  lemma {:induction false} WfTagsToo(d: Dictionary)
    requires WfDictionary(d)
    ensures WfTags(d)
  {
  }

  lemma {:induction false} WordIs(d: Dictionary, b: Byte)
    requires |d.actions| == 256 && d.actions[b] == NoAction
    ensures Escaped(d, [b]) == [b]
  {
    assert [b][1..] == [] && Escaped(d, []) == [];
  }
}
