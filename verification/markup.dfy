/** Data model of the scum markup engine: tags, dictionary, tokens, arena nodes, warnings. */
module Markup {

  type Byte = b: int | 0 <= b < 256

  const MAX_TAG_LEN: nat := 4

  /** Half-open byte range of the input. */
  datatype Span = Span(start: int, end: int)

  datatype Greed = NonGreedy | Greedy | Grasping
  datatype Rule = RuleNA | RuleInfraWord | RuleTagVsContent

  /** A tag; one whose sequence is empty is not registered. */
  datatype Tag = Tag(name: string, sequence: seq<Byte>, greed: Greed, rule: Rule, openID: Byte, closeID: Byte) {
    function ID(): Byte {
      if sequence == [] then 0 else sequence[0]
    }

    predicate IsUniversal() {
      closeID == ID() && openID == ID()
    }

    predicate IsOpening() {
      closeID != 0 && openID == 0
    }

    predicate IsClosing() {
      openID != 0 && closeID == 0
    }
  }

  const UNREGISTERED := Tag("", [], NonGreedy, RuleNA, 0, 0)

  /** Zero resource limits (nodes, attributes, depth) mean unlimited. */
  datatype Limits = Limits(maxAttrKeyLen: nat, maxAttrPayloadLen: nat, maxPayloadLen: nat, maxKeyLen: nat,
                           maxNodes: nat, maxAttributes: nat, maxParseDepth: nat)

  /** One part of a tag's action. */
  datatype PlanStep =
    | PrepareSingleCharStep | CheckMultiCharSeqStep | CheckCloseStep | CheckTagVsContentStep
    | WarnInvalidSeqStep | WarnOpenBeforeEOLStep | WarnCloseAfterStartStep | WarnKeyTooLongStep
    | WarnPayloadTooLongStep | WarnUnclosedStep
    | SkipInvalidTrigger | SkipOpenBeforeEOL | SkipCloseAfterStart | SkipUnclosedOpen | InfraWordCheck
    | CountTag | CountCloseTag | CountOpenTag | CountUniversalTag
    | EmitEntireTag

  /** What a byte makes the tokenizer do; a tag runs the plan built when it was registered. */
  datatype Action = NoAction | TagAction(plan: seq<PlanStep>) | EscapeAction | AttributeAction

  datatype Dictionary = Dictionary(tags: seq<Tag>, actions: seq<Action>, limits: Limits, attrTrigger: Byte,
                                   attrPayloadStart: Byte, attrPayloadEnd: Byte, escapeTrigger: Byte)

  predicate Printable(b: Byte) {
    32 <= b <= 126
  }

  /** A table indexed by tag ID whose registered tags carry their index as ID. */
  ghost predicate WfTags(d: Dictionary) {
    && |d.tags| == 256
    && forall b: Byte :: d.tags[b] == UNREGISTERED || WfTag(d.tags[b], b)
  }

  ghost predicate WfTag(t: Tag, b: Byte) {
    && 1 <= |t.sequence| <= MAX_TAG_LEN && t.sequence[0] == b
    && forall i :: 0 <= i < |t.sequence| ==> Printable(t.sequence[i])
  }

  predicate Registered(d: Dictionary, b: Byte)
    requires |d.tags| == 256
  {
    d.tags[b].sequence != []
  }

  datatype TokenType = TextToken | TagToken | AttributeKV | AttributeFlag

  datatype Token = Token(typ: TokenType, trigger: Byte, pos: int, width: int, payload: Span, attrKey: Span)

  datatype Attribute = Attribute(name: Span, payload: Span, isFlag: bool)

  datatype NodeType = RootNode | TextNode | TagNode

  /** Part of the attribute arena. */
  datatype Range = Range(start: nat, len: nat)

  /** What a node says apart from its links. */
  datatype Label = Label(typ: NodeType, tagID: Byte, span: Span, attrs: Range)

  /** A node of the arena; -1 stands for a missing link. */
  datatype Node = Node(info: Label, firstChild: int, lastChild: int, nextSibling: int, childCount: nat)

  datatype Issue =
    | UnexpectedEOL | RedundantEscape | UnclosedTag | MisplacedClosingTag | UnexpectedSymbol
    | TagKeyTooLong | TagPayloadTooLong | AttrKeyTooLong | AttrPayloadTooLong | UnclosedAttrPayload | EmptyAttrPayload
    | OpenCloseTagMismatch | DuplicateNestedTag | MaxNodesExceeded | MaxAttributesExceeded | MaxParseDepthExceeded

  datatype Warning = Warning(issue: Issue, pos: int, tagID: Byte, closeTagID: Byte, expected: Byte, got: Byte)

  function Warn(issue: Issue, pos: int): Warning {
    Warning(issue, pos, 0, 0, 0, 0)
  }
}
