/** The plans behind tag actions, and the dictionaries that configuration can produce. */
module Plans {
  import opened Markup

  function CloseTagCheck(t: Tag): seq<PlanStep> {
    (if t.rule == RuleTagVsContent then [CheckTagVsContentStep, WarnKeyTooLongStep] else [CheckCloseStep])
    + [WarnPayloadTooLongStep]
  }

  function CountStep(t: Tag): seq<PlanStep> {
    if t.IsUniversal() then [CountUniversalTag] else if t.IsOpening() then [CountOpenTag] else []
  }

  function ClosingPlan(): seq<PlanStep> {
    [WarnCloseAfterStartStep, SkipCloseAfterStart] + [CountCloseTag, EmitEntireTag]
  }

  function SingleCharUniversalPlan(t: Tag): seq<PlanStep> {
    match t.greed
    case NonGreedy => (if t.rule == RuleInfraWord then [InfraWordCheck] else []) + (CountStep(t) + [EmitEntireTag])
    case Greedy => CloseTagCheck(t) + [WarnUnclosedStep, SkipUnclosedOpen] + [CountTag, EmitEntireTag]
    case Grasping => CloseTagCheck(t) + [WarnUnclosedStep] + [CountTag, EmitEntireTag]
  }

  function MultiCharUniversalPlan(t: Tag): seq<PlanStep> {
    match t.greed
    case NonGreedy => CountStep(t) + [EmitEntireTag]
    case Greedy => [CheckCloseStep, WarnUnclosedStep, WarnPayloadTooLongStep, SkipUnclosedOpen] + [CountTag, EmitEntireTag]
    case Grasping => [CheckCloseStep, WarnUnclosedStep, WarnPayloadTooLongStep] + [CountTag, EmitEntireTag]
  }

  const BEFORE_EOL: seq<PlanStep> := [WarnOpenBeforeEOLStep, SkipOpenBeforeEOL]

  /** The plan `CreateAction` assembles for a tag. */
  function PlanOf(t: Tag): seq<PlanStep> {
    if |t.sequence| == 1 then
      [PrepareSingleCharStep]
      + (if t.IsUniversal() then SingleCharUniversalPlan(t)
         else if t.IsOpening() then BEFORE_EOL + SingleCharUniversalPlan(t)
         else if t.IsClosing() then ClosingPlan()
         else [])
    else
      [CheckMultiCharSeqStep, WarnInvalidSeqStep, SkipInvalidTrigger]
      + (if t.IsUniversal() then MultiCharUniversalPlan(t)
         else if t.IsOpening() then BEFORE_EOL + MultiCharUniversalPlan(t)
         else if t.IsClosing() then ClosingPlan()
         else [])
  }

  // ---- configured dictionaries ----

  /** A byte has a tag action exactly when a tag is registered for it, and then that tag's plan. */
  ghost predicate ActionOk(d: Dictionary, b: Byte)
    requires |d.tags| == |d.actions| == 256
  {
    && (d.actions[b].TagAction? <==> Registered(d, b))
    && (d.actions[b].TagAction? ==> d.actions[b].plan == PlanOf(d.tags[b]))
  }

  ghost predicate WfDictionary(d: Dictionary) {
    && WfTags(d) && |d.actions| == 256 && d.limits.maxKeyLen >= 1
    && forall b: Byte {:trigger ActionOk(d, b)} :: ActionOk(d, b)
  }
}
