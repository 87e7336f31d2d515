/** Building a dictionary: every accepted registration keeps it well-formed, a refused one changes nothing. */
module Registration {
  import opened Markup
  import opened Plans
  import opened Escapes
  import opened Tokenizer

  const MAX_TAG_NAME_LEN: nat := 20
  const SCAN_DEFAULTS := Limits(128, 512, 1024, 128, 0, 0, 0)

  datatype ConfigIssue =
    | InvalidTagNameLen | InvalidTagSeqLen | UnprintableChar | DuplicateTagID | RuleInapplicable | InvalidRule
    | InvalidAttrSymbol | NegativeLimit

  datatype Outcome = Accepted | Refused(issue: ConfigIssue)

  // ---- limits ----

  /** Limits as the caller gives them. */
  datatype RawLimits = RawLimits(maxAttrKeyLen: int, maxAttrPayloadLen: int, maxPayloadLen: int, maxKeyLen: int,
                                 maxNodes: int, maxAttributes: int, maxParseDepth: int)
  {
    predicate NonNegative() {
      && maxAttrKeyLen >= 0 && maxAttrPayloadLen >= 0 && maxPayloadLen >= 0 && maxKeyLen >= 0
      && maxNodes >= 0 && maxAttributes >= 0 && maxParseDepth >= 0
    }
  }

  function OrDefault(value: int, default: nat): (n: nat)
    requires value >= 0
  {
    if value == 0 then default else value
  }

  /** Zero scanning limits take their defaults; zero resource limits stay unlimited. */
  function Populated(raw: RawLimits): Limits
    requires raw.NonNegative()
  {
    Limits(OrDefault(raw.maxAttrKeyLen, SCAN_DEFAULTS.maxAttrKeyLen),
           OrDefault(raw.maxAttrPayloadLen, SCAN_DEFAULTS.maxAttrPayloadLen),
           OrDefault(raw.maxPayloadLen, SCAN_DEFAULTS.maxPayloadLen), OrDefault(raw.maxKeyLen, SCAN_DEFAULTS.maxKeyLen),
           raw.maxNodes, raw.maxAttributes, raw.maxParseDepth)
  }

  function Fresh(limits: Limits): Dictionary {
    Dictionary(seq(256, _ => UNREGISTERED), seq(256, _ => NoAction), limits, 0, 0, 0, 0)
  }

  // ---- the registrations as functions ----

  /** The first objection to a tag sequence. */
  function SequenceOutcome(sequence: seq<Byte>): Outcome {
    if |sequence| > MAX_TAG_LEN || sequence == [] then Refused(InvalidTagSeqLen)
    else if forall i :: 0 <= i < |sequence| ==> Printable(sequence[i]) then Accepted
    else Refused(UnprintableChar)
  }

  function ConsistencyOutcome(isSingle: bool, isUniversal: bool, rule: Rule, greed: Greed): Outcome {
    if rule != RuleNA && !(isSingle && isUniversal) then Refused(RuleInapplicable)
    else if rule == RuleInfraWord && greed != NonGreedy then Refused(InvalidRule)
    else if rule == RuleTagVsContent && greed == NonGreedy then Refused(InvalidRule)
    else Accepted
  }

  function TagOutcome(d: Dictionary, t: Tag): Outcome
    requires |d.tags| == 256
  {
    if t.name == "" || |t.name| > MAX_TAG_NAME_LEN then Refused(InvalidTagNameLen)
    else if SequenceOutcome(t.sequence) != Accepted then SequenceOutcome(t.sequence)
    else if d.tags[t.ID()].ID() != 0 then Refused(DuplicateTagID)
    else ConsistencyOutcome(|t.sequence| == 1, t.IsUniversal(), t.rule, t.greed)
  }

  function EscapeOutcome(d: Dictionary, b: Byte): Outcome
    requires |d.actions| == 256
  {
    if !Printable(b) then Refused(UnprintableChar)
    else if d.actions[b] != NoAction then Refused(DuplicateTagID)
    else Accepted
  }

  function AttributeOutcome(d: Dictionary, trigger: Byte, start: Byte, end: Byte): Outcome
    requires |d.actions| == 256
  {
    if d.actions[trigger] != NoAction then Refused(DuplicateTagID)
    else if trigger == start || trigger == end then Refused(InvalidAttrSymbol)
    else if !Printable(trigger) || !Printable(start) || !Printable(end) then Refused(UnprintableChar)
    else Accepted
  }

  datatype Request =
    | AddTagRequest(tag: Tag)
    | EscapeRequest(escape: Byte)
    | AttributeRequest(trigger: Byte, start: Byte, end: Byte)

  function Verdict(d: Dictionary, r: Request): Outcome
    requires |d.tags| == |d.actions| == 256
  {
    match r
    case AddTagRequest(t) => TagOutcome(d, t)
    case EscapeRequest(b) => EscapeOutcome(d, b)
    case AttributeRequest(t, s, e) => AttributeOutcome(d, t, s, e)
  }

  function Granted(d: Dictionary, r: Request): Dictionary
    requires |d.tags| == |d.actions| == 256
  {
    match r
    case AddTagRequest(t) =>
      d.(tags := d.tags[t.ID() := t], actions := d.actions[t.ID() := TagAction(PlanOf(t))])
    case EscapeRequest(b) => d.(escapeTrigger := b, actions := d.actions[b := EscapeAction])
    case AttributeRequest(t, s, e) =>
      d.(attrTrigger := t, attrPayloadStart := s, attrPayloadEnd := e, actions := d.actions[t := AttributeAction])
  }

  function Configured(d: Dictionary, r: Request): Dictionary
    requires |d.tags| == |d.actions| == 256
  {
    if Verdict(d, r) == Accepted then Granted(d, r) else d
  }

  /** The dictionary after a list of requests, refused ones included. */
  function ConfiguredBy(d: Dictionary, requests: seq<Request>): (r: Dictionary)
    requires |d.tags| == |d.actions| == 256
    ensures |r.tags| == |r.actions| == 256
  {
    if requests == [] then d
    else Configured(ConfiguredBy(d, requests[..|requests| - 1]), requests[|requests| - 1])
  }

  // ---- what configuration guarantees ----

  lemma {:induction false} ConfiguredKeepsWf(d: Dictionary, r: Request)
    requires WfDictionary(d)
    ensures WfDictionary(Configured(d, r))
  {
    hide PlanOf;
    var m := Configured(d, r);
    forall b: Byte ensures m.tags[b] == UNREGISTERED || WfTag(m.tags[b], b) {
      assert d.tags[b] == UNREGISTERED || WfTag(d.tags[b], b);
    }
    forall b: Byte ensures ActionOk(m, b) {
      assert ActionOk(d, b);
      assert d.tags[b] == UNREGISTERED || WfTag(d.tags[b], b);
    }
  }

  /** Whatever is requested, in whatever order, the dictionary stays well-formed. */
  lemma {:induction false} EveryDictionaryIsWf(limits: Limits, requests: seq<Request>)
    requires limits.maxKeyLen >= 1
    ensures WfDictionary(ConfiguredBy(Fresh(limits), requests))
  {
    hide Configured, WfDictionary;
    if requests == [] {
      FreshIsWf(limits);
    } else {
      EveryDictionaryIsWf(limits, requests[..|requests| - 1]);
      ConfiguredKeepsWf(ConfiguredBy(Fresh(limits), requests[..|requests| - 1]), requests[|requests| - 1]);
    }
  }

  lemma {:induction false} FreshIsWf(limits: Limits)
    requires limits.maxKeyLen >= 1
    ensures WfDictionary(Fresh(limits))
  {
    EmptyIsWf(Fresh(limits));
  }

  lemma {:induction false} EmptyIsWf(d: Dictionary)
    requires |d.tags| == |d.actions| == 256 && d.limits.maxKeyLen >= 1
    requires forall b: Byte :: d.tags[b] == UNREGISTERED && d.actions[b] == NoAction
    ensures WfDictionary(d)
  {
    hide PlanOf;
    forall b: Byte ensures ActionOk(d, b) {
    }
  }

  /** A registered tag's rule fits its kind. */
  ghost predicate RuleFits(t: Tag) {
    && (t.rule != RuleNA ==> |t.sequence| == 1 && t.IsUniversal())
    && (t.rule == RuleInfraWord ==> t.greed == NonGreedy)
    && (t.rule == RuleTagVsContent ==> t.greed != NonGreedy)
  }

  /** No tag is ever replaced, and every registered tag carries a rule that fits it. */
  lemma {:induction false} TagsArePermanent(limits: Limits, requests: seq<Request>, k: nat, b: Byte)
    requires limits.maxKeyLen >= 1 && k <= |requests|
    ensures var d, old' := ConfiguredBy(Fresh(limits), requests), ConfiguredBy(Fresh(limits), requests[..k]);
      && RuleFits(d.tags[b])
      && (Registered(old', b) ==> d.tags[b] == old'.tags[b])
    decreases |requests|
  {
    hide PlanOf;
    if k == |requests| {
      assert requests[..k] == requests;
      if k > 0 {
        TagsArePermanent(limits, requests[..k - 1], k - 1, b);
        assert requests[..k - 1][..k - 1] == requests[..k - 1];
      }
    } else {
      var front := requests[..|requests| - 1];
      assert front[..k] == requests[..k];
      TagsArePermanent(limits, front, k, b);
      EveryDictionaryIsWf(limits, front);
      var d := ConfiguredBy(Fresh(limits), front);
      assert d.tags[b] == UNREGISTERED || WfTag(d.tags[b], b);
    }
  }

  /** Registering a tag looks at the tags alone: one that starts with the working escape byte is
   *  accepted and takes the byte over; any other leaves escaping alone. */
  lemma {:induction false} TagTakesEscape(d: Dictionary, t: Tag)
    requires WfDictionary(d) && EscapeWorks(d) && TagOutcome(d, t) == Accepted
    ensures EscapeWorks(Configured(d, AddTagRequest(t))) <==> t.ID() != d.escapeTrigger
    ensures !Registered(d, d.escapeTrigger)
  {
    assert ActionOk(d, d.escapeTrigger);
  }

  /** The attribute trigger has its own action. */
  predicate AttributesWork(d: Dictionary)
    requires |d.actions| == 256
  {
    d.actions[d.attrTrigger] == AttributeAction
  }

  /** Likewise for the attribute trigger: a tag that starts with it is accepted and takes it over. */
  lemma {:induction false} TagTakesAttributes(d: Dictionary, t: Tag)
    requires WfDictionary(d) && AttributesWork(d) && TagOutcome(d, t) == Accepted
    ensures AttributesWork(Configured(d, AddTagRequest(t))) <==> t.ID() != d.attrTrigger
    ensures !Registered(d, d.attrTrigger)
  {
    assert ActionOk(d, d.attrTrigger);
  }

  // ---- the dictionary as it is updated ----

  class Registry {
    const tags: array<Tag>
    const actions: array<Action>
    const limits: Limits
    var attrTrigger: Byte
    var attrPayloadStart: Byte
    var attrPayloadEnd: Byte
    var escapeTrigger: Byte

    ghost function Value(): Dictionary
      reads this, tags, actions
    {
      Dictionary(tags[..], actions[..], limits, attrTrigger, attrPayloadStart, attrPayloadEnd, escapeTrigger)
    }

    ghost predicate Valid()
      reads this, tags, actions
    {
      tags.Length == actions.Length == 256 && WfDictionary(Value())
    }

    constructor (limits: Limits)
      requires limits.maxKeyLen >= 1
      ensures Valid() && fresh(tags) && fresh(actions) && Value() == Fresh(limits)
    {
      this.limits := limits;
      tags := new Tag[256](_ => UNREGISTERED);
      actions := new Action[256](_ => NoAction);
      attrTrigger, attrPayloadStart, attrPayloadEnd, escapeTrigger := 0, 0, 0, 0;
      new;
      FreshIsWf(limits);
      assert Value() == Fresh(limits);
    }

    method AddTag(name: string, sequence: seq<Byte>, greed: Greed, rule: Rule, openID: Byte, closeID: Byte)
      returns (outcome: Outcome)
      requires Valid()
      modifies tags, actions
      ensures Valid()
      ensures var r := AddTagRequest(Tag(name, sequence, greed, rule, openID, closeID));
        outcome == Verdict(old(Value()), r) && Value() == Configured(old(Value()), r)
    {
      hide WfDictionary, PlanOf;
      ghost var r := AddTagRequest(Tag(name, sequence, greed, rule, openID, closeID));
      ConfiguredKeepsWf(Value(), r);
      if name == "" || |name| > MAX_TAG_NAME_LEN {
        return Refused(InvalidTagNameLen);
      }
      outcome := NewTagSequence(sequence);
      if outcome != Accepted {
        return;
      }
      var id := sequence[0];
      if tags[id].ID() != 0 {
        return Refused(DuplicateTagID);
      }
      outcome := ConsistencyOutcome(|sequence| == 1, openID == id && closeID == id, rule, greed);
      if outcome != Accepted {
        return;
      }
      var t := Tag(name, sequence, greed, rule, openID, closeID);
      var act := CreateAction(t);
      tags[id] := t;
      actions[id] := act;
      assert Value() == Granted(old(Value()), r);
    }

    method SetEscapeTrigger(b: Byte) returns (outcome: Outcome)
      requires Valid()
      modifies this, actions
      ensures Valid() && outcome == Verdict(old(Value()), EscapeRequest(b))
      ensures Value() == Configured(old(Value()), EscapeRequest(b))
    {
      hide WfDictionary;
      ConfiguredKeepsWf(Value(), EscapeRequest(b));
      if !Printable(b) {
        return Refused(UnprintableChar);
      }
      if actions[b] != NoAction {
        return Refused(DuplicateTagID);
      }
      escapeTrigger := b;
      actions[b] := EscapeAction;
      assert Value() == Granted(old(Value()), EscapeRequest(b));
      return Accepted;
    }

    method SetAttributeSignature(trigger: Byte, start: Byte, end: Byte) returns (outcome: Outcome)
      requires Valid()
      modifies this, actions
      ensures Valid() && outcome == Verdict(old(Value()), AttributeRequest(trigger, start, end))
      ensures Value() == Configured(old(Value()), AttributeRequest(trigger, start, end))
    {
      hide WfDictionary;
      ConfiguredKeepsWf(Value(), AttributeRequest(trigger, start, end));
      if actions[trigger] != NoAction {
        return Refused(DuplicateTagID);
      }
      if trigger == start || trigger == end {
        return Refused(InvalidAttrSymbol);
      }
      var chars := [trigger, start, end];
      for i := 0 to 3
        invariant forall k :: 0 <= k < i ==> Printable(chars[k])
      {
        if !Printable(chars[i]) {
          return Refused(UnprintableChar);
        }
      }
      assert Printable(chars[0]) && Printable(chars[1]) && Printable(chars[2]);
      attrTrigger, attrPayloadStart, attrPayloadEnd := trigger, start, end;
      actions[trigger] := AttributeAction;
      assert Value() == Granted(old(Value()), AttributeRequest(trigger, start, end));
      return Accepted;
    }
  }

  method NewTagSequence(src: seq<Byte>) returns (outcome: Outcome)
    ensures outcome == SequenceOutcome(src)
  {
    if |src| > MAX_TAG_LEN || |src| == 0 {
      return Refused(InvalidTagSeqLen);
    }
    for i := 0 to |src|
      invariant forall k :: 0 <= k < i ==> Printable(src[k])
    {
      if !Printable(src[i]) {
        return Refused(UnprintableChar);
      }
    }
    return Accepted;
  }

  /** A new dictionary, unless a limit is negative. */
  method NewDictionary(raw: RawLimits) returns (outcome: Outcome, registry: Registry?)
    ensures outcome == if raw.NonNegative() then Accepted else Refused(NegativeLimit)
    ensures registry != null <==> outcome == Accepted
    ensures registry != null ==> fresh(registry) && registry.Valid() && registry.Value() == Fresh(Populated(raw))
  {
    if !raw.NonNegative() {
      return Refused(NegativeLimit), null;
    }
    registry := new Registry(Populated(raw));
    return Accepted, registry;
  }
}
