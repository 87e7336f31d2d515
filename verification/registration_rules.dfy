/** Which registrations a dictionary accepts, and what an accepted one changes. */
module RegistrationRules {
  import opened Markup
  import opened Plans
  import opened Actions
  import opened Registration
  import ActionRules

  // ---- tags ----

  /** A tag that can be registered: a name of 1 to 20 characters, 1 to 4 printable bytes of which the
   *  first is not taken, and a rule only where it applies. */
  ghost predicate MayRegister(d: Dictionary, t: Tag)
    requires |d.tags| == 256
  {
    && 1 <= |t.name| <= 20 && 1 <= |t.sequence| <= 4 && (forall b :: b in t.sequence ==> 32 <= b < 127)
    && !Registered(d, t.sequence[0]) && RuleFits(t)
  }

  lemma {:induction false} RegisteredById(d: Dictionary, b: Byte)
    requires WfTags(d)
    ensures Registered(d, b) <==> d.tags[b].ID() != 0
  {
    assert d.tags[b] == UNREGISTERED || WfTag(d.tags[b], b);
  }

  /** A tag is accepted exactly when it may be registered; the objection otherwise is the first of:
   *  name, length of the sequence, unprintable byte, taken byte, misplaced rule. */
  lemma {:induction false} TagAcceptedIff(d: Dictionary, t: Tag)
    requires WfDictionary(d)
    ensures var v := Verdict(d, AddTagRequest(t));
      var named, sized := 1 <= |t.name| <= 20, 1 <= |t.sequence| <= 4;
      var printable := forall b :: b in t.sequence ==> 32 <= b < 127;
      && (v == Accepted <==> MayRegister(d, t))
      && (v == Refused(InvalidTagNameLen) <==> !named)
      && (v == Refused(InvalidTagSeqLen) <==> named && !sized)
      && (v == Refused(UnprintableChar) <==> named && sized && !printable)
      && (v == Refused(DuplicateTagID) <==> named && sized && printable && Registered(d, t.sequence[0]))
      && (v == Refused(RuleInapplicable) || v == Refused(InvalidRule)
          <==> named && sized && printable && !Registered(d, t.sequence[0]) && !RuleFits(t))
      && (v == Refused(InvalidRule) ==> |t.sequence| == 1 && t.IsUniversal())
      && (v == Refused(RuleInapplicable) ==> |t.sequence| != 1 || !t.IsUniversal())
  {
    hide WfDictionary;
    assert WfTags(d) by { TagsWf(d); }
    RegisteredById(d, t.ID());
    if forall i :: 0 <= i < |t.sequence| ==> Printable(t.sequence[i]) {
      assert forall b :: b in t.sequence ==> 32 <= b < 127;
    } else {
      var i :| 0 <= i < |t.sequence| && !Printable(t.sequence[i]);
      assert t.sequence[i] in t.sequence;
    }
  }

  lemma {:induction false} TagsWf(d: Dictionary)
    requires WfDictionary(d)
    ensures WfTags(d)
  {
  }

  /** An escape byte is accepted exactly when it is printable and starts no action yet. */
  lemma {:induction false} EscapeAcceptedIff(d: Dictionary, b: Byte)
    requires |d.tags| == |d.actions| == 256
    ensures var v := Verdict(d, EscapeRequest(b));
      && (v == Accepted <==> 32 <= b < 127 && !HasAction(d, b))
      && (v == Refused(UnprintableChar) <==> !(32 <= b < 127))
      && (v == Accepted || v == Refused(UnprintableChar) || v == Refused(DuplicateTagID))
  {
  }

  /** An attribute signature is accepted exactly when its three bytes are printable, the trigger is
   *  neither of the others, and starts no action yet; payload start and end may be the same, and taken. */
  lemma {:induction false} AttributeAcceptedIff(d: Dictionary, trigger: Byte, start: Byte, end: Byte)
    requires |d.tags| == |d.actions| == 256
    ensures var v := Verdict(d, AttributeRequest(trigger, start, end));
      && (v == Accepted <==>
            && 32 <= trigger < 127 && 32 <= start < 127 && 32 <= end < 127
            && !HasAction(d, trigger) && trigger != start && trigger != end)
      && (v == Refused(DuplicateTagID) <==> HasAction(d, trigger))
      && (v == Refused(InvalidAttrSymbol) <==> !HasAction(d, trigger) && (trigger == start || trigger == end))
      && (v != Accepted ==> v == Refused(DuplicateTagID) || v == Refused(InvalidAttrSymbol) || v == Refused(UnprintableChar))
  {
  }

  // ---- what a request changes ----

  /** The byte a request is about. */
  function About(r: Request): Byte {
    match r
    case AddTagRequest(t) => t.ID()
    case EscapeRequest(b) => b
    case AttributeRequest(t, _, _) => t
  }

  /** An accepted request gives its own byte the requested meaning; no other byte's tag or action
   *  changes, nor do the limits, nor any byte of a signature that was not requested. */
  lemma {:induction false} AcceptedRequestChanges(d: Dictionary, r: Request, b: Byte)
    requires |d.tags| == |d.actions| == 256
    ensures var m := Configured(d, r);
      && m.limits == d.limits
      && (Verdict(d, r) != Accepted ==> m == d)
      && (b != About(r) ==> m.tags[b] == d.tags[b] && m.actions[b] == d.actions[b])
      && (!r.AttributeRequest? ==> (m.attrTrigger, m.attrPayloadStart, m.attrPayloadEnd)
                                   == (d.attrTrigger, d.attrPayloadStart, d.attrPayloadEnd))
      && (!r.EscapeRequest? ==> m.escapeTrigger == d.escapeTrigger)
    ensures var m := Configured(d, r);
      Verdict(d, r) == Accepted ==>
        match r
        case AddTagRequest(t) => m.tags[t.ID()] == t && m.actions[t.ID()] == TagAction(PlanOf(t))
        case EscapeRequest(x) => m.escapeTrigger == x && m.actions[x] == EscapeAction && m.tags == d.tags
        case AttributeRequest(t, s, e) =>
          m.attrTrigger == t && m.attrPayloadStart == s && m.attrPayloadEnd == e && m.actions[t] == AttributeAction && m.tags == d.tags
  {
    hide PlanOf;
  }

  /** In every dictionary that configuration produces, only printable bytes start an action. */
  lemma {:induction false} ActionsArePrintable(limits: Limits, requests: seq<Request>)
    ensures ActionRules.ActionsPrintable(ConfiguredBy(Fresh(limits), requests))
  {
    hide PlanOf, ConsistencyOutcome;
    if requests != [] {
      var front, r := requests[..|requests| - 1], requests[|requests| - 1];
      ActionsArePrintable(limits, front);
      var d := ConfiguredBy(Fresh(limits), front);
      forall b: Byte | HasAction(Configured(d, r), b) ensures Printable(b) {
        AcceptedRequestChanges(d, r, b);
        if r.AddTagRequest? && r.tag.sequence != [] {
          assert SequenceOutcome(r.tag.sequence) == Accepted ==> Printable(r.tag.sequence[0]);
        }
      }
    }
  }

  /** A limit as given, or the default for zero. */
  ghost predicate LimitIs(given: int, default: nat, limit: nat) {
    limit > 0 && (given > 0 ==> limit == given) && (given == 0 ==> limit == default)
  }

  /** A new dictionary has no tag and no action; its scanning limits are positive, zero standing for 128,
   *  512, 1024 and 128 bytes, and its resource limits are those given. */
  lemma {:induction false} NewDictionaryMeans(raw: RawLimits, b: Byte)
    requires raw.NonNegative()
    ensures var d := Fresh(Populated(raw));
      && LimitIs(raw.maxAttrKeyLen, 128, d.limits.maxAttrKeyLen) && LimitIs(raw.maxAttrPayloadLen, 512, d.limits.maxAttrPayloadLen)
      && LimitIs(raw.maxPayloadLen, 1024, d.limits.maxPayloadLen) && LimitIs(raw.maxKeyLen, 128, d.limits.maxKeyLen)
      && d.limits.maxNodes == raw.maxNodes && d.limits.maxAttributes == raw.maxAttributes
      && d.limits.maxParseDepth == raw.maxParseDepth
      && !Registered(d, b) && !HasAction(d, b) && d.escapeTrigger == 0
  {
  }
}
