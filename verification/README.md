# Verified model of the markup engine, comment threads and link filter

This project models three parts of the repository and proves what they are for.

**The markup engine (`scum/`).** A user-built dictionary drives a tokenizer, a single-pass parser that
grows an index-linked arena, and a serializer. `registration.dfy` builds dictionaries; `plans.dfy`,
`actions.dfy` and `scanning.dfy` hold the steps, plans and byte scanners as functions;
`tokenizer.dfy` is the tokenizer as it runs, step by step on a mutable context;
`tokenizer_spec.dfy`, `tokenizer_laws.dfy`, `tag_actions.dfy`, `action_rules.dfy` and `escapes.dfy` say
what it guarantees; `registration_rules.dfy` says the same of registrations.
`parser_spec.dfy` is the parser's state machine on values and `parser.dfy` the mutable parser state
refined against it; `arena.dfy` relates links to trees. Over the state machine stand the invariants
and results: `parser_rules.dfy`, `statistics.dfy`, `nesting.dfy`, `widths.dfy`, `finished_spans.dfy`, `resource_limits.dfy`,
`text_accounting.dfy`, `round_trip.dfy`, `shared_closers.dfy`. `serializer.dfy` refines the work-stack serializer against
the recursive reading. `parse.dfy` puts the pipeline together; `source_round_trip.dfy` goes from a
document to bytes and back, `written_serialized.dfy` and `written_text.dfy` to the serialized nodes and
the text. `witnesses.dfy` holds concrete inputs for the points below.

**Comment threads (`api/`, `db/`).** `comment_tree.dfy` rebuilds a forest from depth-annotated rows
with node objects and a stack; `comment_store.dfy` models the tables and the insert, delete and vote
transactions; `threads.dfy` proves that the popularity query's rank paths give a preorder, so the two
fit together in every reachable state; `pages.dfy` says which rows an answer holds, and
`comment_rules.dfy` what each transaction accepts and changes; `post_votes.dfy` is the post side of voting.
`forests.dfy` is the theory of parent vectors and rose trees that arena and threads share.

**Link attributes (`sml/`).** `link_filter.dfy` is the filter as a function, `link_rules.dfy` says what it
keeps and refuses, and `normalize_link.dfy` models the in-place filter with its shared array.

Specifications over values and the programs that refine them are kept apart: a method's `ensures`
ties its result or new state to a function, and the lemmas about that function say what it means.

## Where the code and its comments differ

The model follows the code. Each point is proved with the exact condition for all inputs, and shown at
a concrete input where it fails.

- `scum/append_attribute.go:3-6` says a node's attributes are always contiguous. They are exactly when
  no other node's attribute came between them (`ResourceLimits.RangeIsOwnIff`). In `[!{a}x!{b}]!{c}`
  they are not (`ResourceLimits.EarlyAttributeBreaksRange`, `Witnesses.EarlyAttributeTokens`).
- `scum/serialize.go:49` says content is the exact slice a node covers. A tag's span is shortened by the bytes
  of tokens dropped since it started (`FinishedSpans.ElementSpans`); the tag of the same document misses
  its own text. In a written document it is shortened by the attributes inside it
  (`WrittenSerialized.SerializeWritten`).
- `scum/parser_state.go:18-19` says the three stacks have the same length; the tag stack is one shorter
  (`ParserSpec.Step` keeps it so).
- `scum/dictionary.go:214` says a payload that runs past its limit without a closer is reported. It is
  reported as an unclosed tag instead, under the tag-versus-content rule, when one of the last two bytes of
  the scan window is the trigger (`TokenizerLaws.CodeTagAction` with `CutByLimit`, `Witnesses.RunHidesLimit`),
  and under the other rules when the closer's first byte stands before the cut, or no closer is registered
  (`TagActions.PayloadTagAction` with `LimitNoticed`, `Witnesses.CloserByteHidesLimit`,
  `TokenizerLaws.NoCloserNeverCloses`).
- `scum/warnings.go:22-26` says a warning of an interrupted sequence names the symbol expected next and the one
  found instead. The place named is that of the break exactly when no later start in the window matches
  longer, and the expected symbol is the sequence's at that place. The symbol named as found is the byte just
  before the place named. It is the one at the break exactly when a later start matches longer by one byte, or
  none does and the byte at the break repeats the one before it; when the input ends at the break, nothing was
  found there, and a symbol is named all the same (`TagActions.BrokenSequenceAction`,
  `TagActions.BreakReportedIff`; right in `Witnesses.FoundSymbolRight` and `FoundSymbolRightElsewhere`, wrong in
  `Witnesses.FoundSymbolWrong` and `LaterMatchMovesReport`).
- `scum/text.go:11` sizes the text by the reported byte length. The text is shorter exactly by the bytes the
  node limit leaves out and the payloads of greedy tags swallowed in place of a closer
  (`Parsing.TextHasReportedLength`, `Witnesses.NodeLimitDropsText`, `Witnesses.SwallowedTagLosesText`).
- `scum/ast.go:91-92` says the total of text nodes counts those in the input. It also counts the texts that
  reach no node (`Statistics.TextNodesExact`).
- `scum/add_tag.go:23-26` checks the tag table only, so a tag may take over the escape byte and disable
  escaping, or the attribute trigger and disable attributes (`Registration.TagTakesEscape`,
  `Registration.TagTakesAttributes`, `Witnesses.EscapeDisabled`, `Witnesses.AttributesDisabled`).
- `scum/set_attribute_signature.go:11` allows the payload-end byte to be the escape byte; then no
  attribute is ever recognised (`Escapes.AttributeRoundTrip`, an if-and-only-if; `Witnesses.EscapeAsEnd`).
- `scum/dictionary.go:14-15` says tags nested in a tag of the same ID have no effect and leave their children
  in place. For all documents with repetitions as in `RoundTrip.CanSplice` that holds if and only if no two
  brackets share a closer, which registration does not check (`SharedClosers.ElisionIff`,
  `Witnesses.SharedSourceMisplaced`).
- `sml/link.go:128-133` can overwrite the attribute behind an accepted blank target before it is read
  (`NormalizeLink.AheadShows`, `NormalizeLink.LostHref`).
- `vote_post` moves the counters wrongly when it replaces a vote and one of the two is neither +1 nor -1
  (`PostVotes.CastKeepsBalance`, an if-and-only-if; `PostVotes.NeutralVoteBreaksBalance`).

## Model

The table lists the main results first, then what they rest on, module by module, and last the single steps
of the two programs: the members of `Tokenizer` are refinement steps of `Tokenizer.Tokenize`, those of
`Parser` of `Parser.ParseTokens`. A step's contract ties it to the function of the specification that the
results above speak of.

| member | source | states |
|---|---|---|
| SourceRoundTrip.SourceComesBack | scum/parse.go:41-97 | Writing a document to bytes, tokenizing and parsing it gives the document back, repetitions spliced out |
| RoundTrip.ParsePrinted | scum/process_opening_tag.go:14-23 | If no two brackets share a closer, a document with repeated tags that can be spliced parses to the document with each repetition replaced by its content and its attributes put on the piece before them, and each stray closer left in place as text, one warning each in the order of the tokens |
| SharedClosers.ElisionIff | scum/process_opening_tag.go:14-23 | Every document whose repetitions can be spliced parses to the document with them spliced out, if and only if no two brackets share a closer |
| RoundTrip.ParseOfPrintIsIdentity | scum/parse.go:41-97 | A document without repetitions comes back exactly, attributes and spans included, with empty stacks and zero skips; closers that fit the innermost tag in neither direction come back as text in place, with one warning each that names that tag, and there is no other warning |
| ParserRules.RunFollows | scum/parse.go:52-64 | The same for each token of any run |
| ParserRules.ClosesIff | scum/process_closing_tag.go:12-49 | A token takes the innermost tag off if and only if it is neither swallowed nor greedy and is that universal tag itself, or a closing tag whose ID is that tag's closeID or whose openID is that tag |
| Parsing.EveryParseIsSound | scum/parse.go:41-97 | For every dictionary and input: tree, spans, limits, ranges and text order of the whole pipeline |
| Parsing.ParseAndSerialize | sml/eater.go:100-103 | Parsing and serializing any input leaves the parsed tree, recursively, in the child slots; what the nodes then show is WrittenSerialized.SerializeWritten |
| WrittenSerialized.SerializeWritten | scum/serialize.go:19-147 | Parsing and serializing the bytes of a written document gives one node per piece, in order: a tag under its registered name, a text under TEXT, with type, ID and content, and as attributes exactly the keys and payloads written, in order and with their flags; no warning. A tag's content is cut short by the bytes of the attributes written inside it |
| WrittenText.TextOfWritten | scum/text.go:5-20 | Scanning the parsed arena for text gives exactly the texts and raw contents written, in order |
| Parsing.TextHasReportedLength | scum/parse.go:87-88 | For every dictionary and input the text is as long as reported less the bytes that reach no text node, so as long as reported if and only if every token's text was placed |
| Serializer.Serialize | scum/serialize.go:76-147 | The work-stack loop ends with the tree of the recursive reading; every slot is used exactly once; every slice it takes lies in the input; what a slot shows is WrittenSerialized.ShowsWritten |
| Nesting.ParsedTree | scum/parse.go:41-97 | A finished parse is one tree in preorder in which no tag node has an ancestor with its own tag, and nothing is left open |
| Widths.WidthConservation | scum/parser_state.go:131-147 | At any point, the widths from any frame upwards are the bytes read since it started less the bytes dropped since |
| FinishedSpans.ElementSpans | scum/parse.go:41-97 | In every finished tree, every opened tag starts at the token that made its node and ends where its closing token ends, or else with the input, less the bytes dropped since it started |
| Widths.ParsedSpans | scum/parse.go:66-85 | Finished spans lie inside the input; the root's is the input less the dropped bytes, so all of it if and only if nothing was dropped |
| ResourceLimits.RunLimits | scum/parser_limits.go:3-55 | The three limits hold in every reachable state and each is reported at most once |
| ResourceLimits.RangeIsOwnIff | scum/append_attribute.go:3-18 | A range holds exactly its node's attributes if and only if no other node's attribute came between them |
| TokenizerSpec.TokensTileInput | scum/tokenize.go:36-124 | For every dictionary and input the tokens cover the input without gap or overlap, carry registered tags, and contain their payloads; keys lie in the input |
| TokenizerSpec.CountersAreExact | scum/tokenize.go:80-130 | The tag, attribute and text counters equal the counts over the emitted tokens |
| Scanning.LongestCommonSubPrefix | scum/utils.go:128-203 | The early-cut-off search equals the exhaustive one, in containment, index and length |
| TagActions.PayloadTagAction | scum/create_action.go:95-146 | The whole action of every other greedy or grasping tag: emitted silently with the leftmost closer if and only if one ends within the limit; otherwise one warning, of the payload limit if and only if the closer is registered, the limit cut the search, and the closer's first byte is nowhere before the cut; a greedy tag is then skipped, a grasping one takes the rest of the input |
| ActionRules.CodeTagOverBytes | scum/check_tag_vs_content.go:6-105 | The whole action of a tag under the tag-versus-content rule, over the bytes: closed by the first run of exactly the opening's width behind 1 byte of content up to the limit; otherwise the exact warnings, and what is skipped or taken |
| TokenizerLaws.CodeTagAction | scum/create_action.go:95-119 | The whole action of a tag under the tag-versus-content rule, greedy or grasping: when it closes, what the token holds, what is skipped, and exactly which warnings it adds |
| TagActions.BrokenSequenceAction | scum/warn_invalid_sequence.go:5-24 | The whole action of a multi-byte tag whose sequence is interrupted: skipped by the longest partial match in its window, with one warning; its place is that of the break if and only if no later start in the window matches longer; the symbol it names as found is the one at the break if and only if a later match is longer by exactly one byte, or none is longer and the byte at the break repeats the one before it; if the input ends at the break, nothing was found there |
| ActionRules.AttributeTriggerAction | scum/set_attribute_signature.go:46-134 | The whole action of an attribute trigger, over the bytes: a token is emitted, with exact spans, type and width, if and only if a payload start stands within the key limit and a payload that is not empty ends within its limit; in every other case the stride is 1 and there is one warning whose issue and place are given for each thing that is missing |
| ActionRules.NonGreedyTagAction | scum/create_action.go:76-155 | The whole action of a tag without greed that can open: silently emitted with its exact bounds, unless the intra-word rule is on and it stands inside a word; then its one byte is left as text |
| Escapes.EscapedIsPlain | scum/set_escape_trigger.go:29-88 | Any string with its special bytes escaped tokenizes to one text token (none when empty) without warnings |
| Escapes.AttributeRoundTrip | scum/set_attribute_signature.go:46-134 | A printed attribute alone tokenizes to its one token if and only if the payload-end byte is not the escape byte |
| Registration.EveryDictionaryIsWf | scum/dictionary.go:305-331 | Every dictionary any list of requests can build satisfies what the tokenizer theorems assume |
| RegistrationRules.TagAcceptedIff | scum/add_tag.go:5-33 | A tag is accepted if and only if its name, sequence and first byte may be registered and its rule fits; each objection has its exact condition, in the code's order |
| Tokenizer.Tokenize | scum/tokenize.go:36-133 | Tokens, counters and warnings of the loop are those of the specification TokensTileInput and CountersAreExact speak of |
| Parser.ParseTokens | scum/parse.go:50-92 | The imperative parse of any token list links exactly the tree of the specification, with its attributes, counters and warnings |
| Threads.ThreadsRebuild | db/migration/000001_init.up.sql:214-271 | In every reachable state the tree builder never fails on an answer, every tree parent is the ParentID, and siblings come by popularity |
| Pages.PageOfRoots | db/migration/000001_init.up.sql:223-230 | An answer lists min(limit, max(0, roots - offset)) roots of the post; exactly as many roots as the offset skips outrank all of them by points and age, and they outrank all the others |
| Pages.OnePageEach | db/migration/000001_init.up.sql:223-230 | Turning pages of any fixed length, every root of the post is met on exactly one |
| Pages.ListedIff | db/migration/000001_init.up.sql:247-265 | A comment is listed, exactly once and as it is stored, if and only if the root of its thread is |
| CommentTree.BuildsIffDepthsFit | api/comments_utils.go:30-71 | Succeeds if and only if the first depth is 0 and no depth exceeds its predecessor by more than 1; each node then lies at its depth |
| CommentTree.RebuildReturnsForest | api/comments_utils.go:26-71 | Rebuilding the listing of any forest returns that forest |
| CommentTree.PrepareCommentTree | api/comments_utils.go:26-71 | Node objects linked exactly as the forest, or the first row whose depth does not fit |
| CommentStore.RunInv | db/sqlc/tx_insert_comment.go:42-161 | In every reachable state replies lie one level below an existing parent of the same post by another user, below the maximum depth; one live reply per user and parent; roots within their limit |
| CommentStore.OnlyLeavesGo | db/sqlc/tx_delete_comment.go:40-136 | A row disappears only when its author deletes it alive and without replies |
| CommentStore.VoteConservation | db/sqlc/tx_vote_comment.go:61-128 | As long as a comment exists, its counters less their initial values are the numbers of its stored +1 and -1 votes |
| CommentRules.InsertMeans | db/sqlc/tx_insert_comment.go:38-165 | An insertion succeeds if and only if user and post exist and, for a reply, the parent is live, of the same post and another user, not too deep and without a live reply of the user, or, for a root, the user has roots left; then there is exactly one new row with the fields requested; otherwise no row and no vote changes |
| CommentRules.DeletedAreMasked | db/query/comment.sql:76-84 | In every reachable state no deleted comment shows its old body |
| CommentRules.VoteMeans | db/sqlc/tx_vote_comment.go:61-128 | A vote succeeds if and only if it is +1 or -1, user and live comment exist, and it is not the one stored; then it is the one stored, the counters have moved by the difference it makes, and nothing else has changed |
| PostVotes.CastKeepsBalance | db/migration/000001_init.up.sql:332-389 | Casting keeps counters less votes if and only if it replaces no vote or old and new vote are +1 or -1 |
| PostVotes.RunBalance | db/migration/000001_init.up.sql:332-421 | Over any run of +1 and -1 votes and removals, counters move exactly with the stored votes |
| NormalizeLink.NormalizeLink | sml/link.go:102-149 | The in-place filter's result: the plain filter, or, when it runs ahead of its reader, the plain filter of the attributes without the overwritten one. In the output every href has a value without control characters that parses, with scheme http, https, mailto, or none and no leading //; every target is _blank or _self, every title at most 65 characters; rel stands only behind a blank target. It is exactly the first good attribute of each name, in order, and the issues are exactly those that fit the refused ones |
| LinkFilter.KeptAttributes | sml/link.go:102-149 | Output names are distinct and allowed, every kept attribute passed its validator, and rel stands directly behind an accepted blank target and nowhere else |
| NormalizeLink.AheadShows | sml/link.go:128-133 | Where it runs ahead, the kept attributes are still those of the plain filter if and only if the following attribute is rejected or an identical one is accepted next |
| LinkRules.KeptIsWanted | sml/link.go:102-149 | The attributes kept are exactly the first good one of each name, in order, a blank target followed by its rel |
| LinkRules.SiftedIssuesFit | sml/link.go:14-100 | The issues are exactly those of the refused attributes of names not yet kept, in order, each fitting what is wrong |
| Scanning.BestIsOptimal | scum/utils.go:120-203 | The reported partial match is the leftmost of the longest common prefixes with the sequence, over every start position |
| Scanning.BestMeansSearch | scum/utils.go:120-203 | Containment is reported if and only if the sequence occurs in the source, and then at its leftmost occurrence |
| Scanning.MatchedBytes | scum/utils.go:176-184 | Counts exactly the bytes that match from a first-byte hit on |
| Scanning.ShortWindow | scum/check_multi_char_tag_seq.go:4-16 | In a window no longer than the tag, containment is a match at the trigger |
| Scanning.IndexByte | scum/utils.go:142-142 | First index of a byte in a window, or -1 |
| Scanning.FindClosingExact | scum/check_tag_vs_content.go:47-86 | The search closes if and only if a maximal run of the opening width starts in the window, at the leftmost one |
| Scanning.WindowEndSeen | scum/check_tag_vs_content.go:47-89 | When nothing closes, the payload limit is noticed if and only if neither of the last two window bytes is the trigger |
| Scanning.FindPayloadEndWithEscape | scum/set_attribute_signature.go:139-160 | The loop returns what the recursive scan does, whose meaning is PayloadEndMeans |
| Scanning.PayloadEndMeans | scum/set_attribute_signature.go:139-160 | The scan finds the first end byte with an even number of escape bytes directly before it, and -1 if and only if there is none; an end byte that is the escape byte is never found |
| Scanning.NoEscapesNoDifference | scum/set_attribute_signature.go:139-170 | Without escape bytes in the window the escape-aware scan equals the plain one |
| Actions.TagOf | scum/plan.go:83-91 | The tag of the context's byte has 1 to 4 bytes and starts with it |
| Actions.CheckMultiCharSeq | scum/check_multi_char_tag_seq.go:4-16 | The bounds stay inside the input; a valid sequence has the tag's width |
| Actions.CheckClose | scum/check_close_tag.go:5-81 | The bounds stay inside the input, closed or not |
| Actions.OpenWidth | scum/check_tag_vs_content.go:10-23 | The opening width is at least 1, at most the key limit, and inside the input |
| Actions.CheckTagVsContent | scum/check_tag_vs_content.go:6-105 | The bounds stay inside the input in every branch |
| Actions.Settle | scum/step_emit_entire_tag_token.go:4-19 | A settling step returns a positive stride inside the input; an emitted token starts at the trigger, is as wide as the stride and holds its payload |
| Actions.RunPlan | scum/plan.go:130-143 | Any list of steps, run from consistent bounds, keeps the action contract |
| Actions.ActEscape | scum/set_escape_trigger.go:31-88 | Always skips, by a stride inside the input, and counts nothing |
| Actions.ActAttribute | scum/set_attribute_signature.go:46-134 | Keeps the action contract; counts one attribute exactly when it emits one; which it emits, and what it says otherwise, is ActionRules.AttributeTriggerAction |
| Actions.Act | scum/plan.go:3-7 | Every registered action keeps the contract, and a tag token carries a registered tag |
| TokenizerSpec.Turn | scum/tokenize.go:52-109 | Every turn of the loop moves forward and stays inside the input |
| TokenizerSpec.Loop | scum/tokenize.go:52-109 | The loop terminates at the end of the input |
| TokenizerSpec.SilentFront | scum/plan.go:130-143 | Steps that neither count nor emit either end in a skip with the counters untouched or hand over to the rest of the plan |
| TokenizerSpec.PlanShape | scum/create_action.go:22-155 | Every plan is a silent front followed by one counting step and the emission, or by nothing |
| TokenizerSpec.ActTagCounts | scum/create_action.go:157-178 | A tag action counts exactly the token it emits, and nothing when it skips |
| TokenizerLaws.SequenceStandsAtTrigger | scum/check_multi_char_tag_seq.go:4-16 | A multi-byte tag is accepted if and only if its whole sequence stands at the trigger |
| TokenizerLaws.CloseSearchExact | scum/check_close_tag.go:47-80 | The close search succeeds if and only if a whole closing sequence ends in the payload window, and takes the leftmost; otherwise the bounds run to the end of the input; the payload limit is flagged if and only if it cut the search before any first byte of the closer |
| TokenizerLaws.NoCloserNeverCloses | scum/check_close_tag.go:19-45 | A tag whose closer is not registered stays open to the end of the input, with no limit flagged |
| TokenizerLaws.TagVsContentExact | scum/check_tag_vs_content.go:6-105 | Closed if and only if the key fits and a maximal run of the opening width starts in the window; both limit flags are characterised exactly |
| TokenizerLaws.TagVsContentLeftmost | scum/check_tag_vs_content.go:67-79 | The closing run is the first of its width behind the opener, and the payload has between 1 byte and the limit |
| TagActions.OpenerAtEndAction | scum/step_open_tag_before_eol.go:5-20 | An opening tag at the very end of the input is skipped with one warning |
| TagActions.BreakReportedIff | scum/warn_invalid_sequence.go:14-22 | Place, expected and found symbol are all those of the break if and only if no later start in the window matches longer and the byte at the break repeats the one before it |
| Escapes.EscapedIsTransparent | scum/set_escape_trigger.go:29-88 | Escaped text anywhere in an input is read over without token, warning or count |
| Escapes.PrintedBounds | scum/set_attribute_signature.go:57-98 | The payload of a printed attribute starts and ends where it was written |
| Escapes.PrintedAttributeAct | scum/set_attribute_signature.go:46-134 | A printed attribute anywhere in the input yields exactly one attribute token with its spans |
| Escapes.EscapeAsEndNeverCloses | scum/set_attribute_signature.go:91-95 | If the payload-end byte is the escape byte, no attribute is ever recognised |
| ActionRules.LoneTrigger | scum/tokenize.go:52-109 | Behind a trigger without an attribute the loop reads on at the very next byte, with one warning; the trigger stays part of the pending text |
| ActionRules.EscapeByteAction | scum/set_escape_trigger.go:31-88 | The whole action of the escape byte: it skips itself and exactly the next character; it warns at the end of the input and before a character that needs no escaping, and only then |
| ActionRules.InsideWordMeans | scum/step_infra_word_check.go:11-65 | The intra-word check holds if and only if both neighbours join a word: visible ASCII bytes without a meaning of their own, the tag's own byte, or word runes |
| ActionRules.ClosingTagAction | scum/create_action.go:69-74 | The whole action of a closing tag: silently emitted, or left as text with a warning if it is the first thing in the input |
| ActionRules.InertTagAction | scum/create_action.go:22-49 | A tag that neither opens nor closes is never emitted; its first byte is left as text |
| Registration.ConfiguredKeepsWf | scum/add_tag.go:5-48 | Every accepted registration keeps the dictionary well-formed |
| Registration.TagsArePermanent | scum/add_tag.go:23-33 | No registered tag is ever replaced, and each carries a rule that fits its kind |
| Registration.TagTakesEscape | scum/add_tag.go:23-46 | A tag starting with the escape byte is accepted and disables escaping; any other leaves it working |
| Registration.TagTakesAttributes | scum/add_tag.go:23-46 | A tag starting with the attribute trigger is accepted and disables attributes; any other leaves them working |
| Registration.NewTagSequence | scum/tag_sequence.go:23-53 | Accepts exactly 1 to 4 printable bytes, with the code's order of objections |
| Registration.NewDictionary | scum/dictionary.go:299-331 | Refuses negative limits; zero scanning limits take their defaults |
| Registration.Registry.constructor | scum/dictionary.go:330-330 | Starts empty and well-formed |
| Registration.Registry.AddTag | scum/add_tag.go:3-48 | Accepts or refuses as specified; a refusal changes nothing; the tables stay well-formed |
| Registration.Registry.SetEscapeTrigger | scum/set_escape_trigger.go:7-27 | The same for the escape byte |
| Registration.Registry.SetAttributeSignature | scum/set_attribute_signature.go:8-41 | The same for the attribute bytes |
| RegistrationRules.EscapeAcceptedIff | scum/set_escape_trigger.go:10-22 | An escape byte is accepted if and only if it is printable and starts no action yet |
| RegistrationRules.AttributeAcceptedIff | scum/set_attribute_signature.go:13-33 | An attribute signature is accepted if and only if its bytes are printable, the trigger is neither of the others, and starts no action yet |
| RegistrationRules.AcceptedRequestChanges | scum/add_tag.go:35-46 | An accepted request gives its own byte the requested meaning and changes no other byte's tag or action, nor the limits |
| RegistrationRules.ActionsArePrintable | scum/dictionary.go:305-331 | In every dictionary that configuration produces only printable bytes start an action |
| RegistrationRules.NewDictionaryMeans | scum/dictionary.go:299-331 | A new dictionary is empty; its scanning limits are positive, zero standing for the defaults; its resource limits are those given |
| ParserSpec.Step | scum/parse.go:52-64 | Any token keeps the three stacks in step and every index inside the arena |
| ParserSpec.ForceClose | scum/parse.go:66-82 | Force-closing terminates with nothing open |
| ParserSpec.RunAppend | scum/parse.go:52-64 | Parsing a concatenation is parsing one part after the other |
| Nesting.StepInv | scum/parse.go:52-64 | Every token keeps the invariant: preorder tree, breadcrumbs its rightmost path, stack mirrored in tag IDs, no tag open twice |
| Nesting.OpeningInv | scum/process_opening_tag.go:13-51 | The same for an opener |
| Nesting.CloseInv | scum/close_tag.go:9-19 | The same for a close |
| Nesting.GreedyInv | scum/append_greedy_node.go:8-27 | The same for a greedy tag |
| Nesting.RunInv | scum/parse.go:52-64 | The invariant holds after any token list |
| Nesting.DepthBoundedByDictionary | scum/process_opening_tag.go:13-51 | Open tags never exceed the number of tags that can open, and the recorded depth never the larger of that and 1, even without a depth limit |
| Widths.StepAccounts | scum/parser_state.go:125-147 | A token adds its width to every open frame's total, or to none when it is dropped |
| Widths.ClosedSpan | scum/close_tag.go:9-19 | The span one closing token gives its tag: to the token's end, less what was dropped since the tag's start |
| Widths.RunSpans | scum/close_tag.go:9-19 | All spans lie inside the bytes read |
| Widths.ParsedSpansNest | scum/parse.go:66-85 | With nothing dropped, every span lies inside its parent's |
| FinishedSpans.StepGrows | scum/parse.go:52-64 | A token either closes the innermost tag or keeps every span and adds nodes, the innermost of which it may leave open |
| FinishedSpans.RunElements | scum/close_tag.go:9-19 | After any tokens every tag that was opened starts at the token that made its node and is still open, or was closed by a token and has the span that token gave it |
| FinishedSpans.ForceCloseFrames | scum/parse.go:66-82 | Force-closing gives each open tag the width of its frames and changes no other node |
| FinishedSpans.OpenTagSpan | scum/parse.go:66-82 | A tag left open ends, in the finished tree, at the end of the input less the bytes dropped since it started |
| FinishedSpans.ClosedTagSpan | scum/close_tag.go:9-19 | A tag closed by a token keeps that span to the end of the parse |
| RoundTrip.RunDocs | scum/process_tag.go:12-37 | From any ready state, the tokens of a document lay its spliced tree below the innermost open node |
| RoundTrip.CloserInsideStays | scum/process_closing_tag.go:29-46 | As in `[a$b]c$]`, under any dictionary: a closer of the outer tag inside another tag stays there as text, with one warning, and both tags end at their own closers |
| ParserRules.StepFollows | scum/process_tag.go:12-37 | Every token, in every state of the nesting invariant: what it does to the open tags, the skip counters, the arena, the attributes and the warnings, by what the token is, the innermost tag and the room left, and not by the branch taken |
| ParserRules.DropsIff | scum/parser_state.go:125-147 | The bytes of a token lie in no frame if and only if it is an attribute, swallowed, a repeated opener, a closer with nothing open, or a tag that neither starts nor closes |
| Statistics.ForceCloseWarns | scum/parse.go:66-82 | Force-closing warns of each open tag once, innermost first, at the tag's start, and changes no counter |
| Statistics.FinishedWarnings | scum/parse.go:66-92 | A finished parse has the warnings of its tokens, and then one for each tag left open |
| Statistics.TagNodesExact | scum/parse.go:84-92 | The reported number of tag nodes is the number of nodes of tags that open and close; greedy ones are not among them |
| Statistics.MaxDepthExact | scum/parse.go:84-92 | The reported depth is that of the deepest such node, and 1 without any |
| Statistics.TextNodesExact | scum/parse.go:84-92 | The reported number of text nodes is the number of nodes that hold text plus the texts that reach no node |
| RoundTrip.SplicedHasNoRepeats | scum/dictionary.go:14-15 | Splicing leaves no tag inside itself |
| SharedClosers.SharedCloserMisplaces | scum/process_opening_tag.go:14-23 | For any two brackets with one closer, under any dictionary, a document of eight tokens does not come back: text written behind an element lands inside it |
| TextAccounting.LinearScanIsTreeText | scum/text.go:5-20 | The linear scan of the arena reads the text in tree order |
| TextAccounting.TextByteLenIsExact | scum/parse.go:87-88 | The text nodes hold exactly the bytes counted less those that reach no text node: left out for the node limit, or in a greedy tag swallowed in place of a closer |
| TextAccounting.AllPlacedIff | scum/parse.go:87-88 | The difference is never negative, and zero if and only if every token's text is placed |
| TextAccounting.RunPlaces | scum/process_tag.go:12-37 | Without a node limit, and if no non-greedy tag is closed by a greedy tag's ID, all text is placed |
| TextAccounting.LinearTextLen | scum/text.go:9-20 | The text is as long as its nodes' spans say |
| ResourceLimits.RunRanges | scum/append_attribute.go:7-18 | A range starts at its node's first attribute and is as long as the node has attributes, in every reachable state |
| ResourceLimits.RangesPartitionArena | scum/append_attribute.go:7-18 | Range lengths add up to the attribute arena and every range lies inside it |
| ResourceLimits.RangesExactWithoutEarlyAttributes | scum/close_tag.go:11-11 | All ranges are exact when no attribute follows an opener directly |
| ResourceLimits.EarlyAttributeBreaksRange | scum/append_attribute.go:3-6 | A concrete token list whose tag range holds another node's attribute and whose tag span misses its own text |
| Arena.AppendLinks | scum/append_node.go:7-25 | Relinking parent and previous sibling gives the arena of the extended tree |
| Arena.RelabelLinks | scum/close_tag.go:9-19 | Changing a node's span leaves all links right |
| Arena.ReadByLinks | scum/serialize.go:96-101 | Following first-child and next-sibling links reads exactly the tree |
| Serializer.PushChildren | scum/serialize.go:134-143 | Pushes one task per child, in order, by the sibling chain |
| Serializer.TaskSlot | scum/serialize.go:103-107 | A task's slot is inside the array, free, and its own |
| Serializer.Turn | scum/serialize.go:103-144 | One turn writes one node into its slot and keeps the bookkeeping, with fewer nodes left |
| Serializer.TreesHeld | scum/serialize.go:76-147 | Once every node is written, the slots of a node hold its subtree |
| Serializer.ExactlyFilled | scum/serialize.go:80-82 | Slots handed out are exactly the nodes below the root |
| Serializer.ChildSlicesDisjoint | scum/serialize.go:109-111 | Children of different nodes never share a slot |
| Parsing.ParsedLimitsAndRanges | scum/parse.go:66-92 | Limits and ranges survive force-closing |
| Parsing.RunAttributesIn | scum/process_attribute.go:6-18 | Attribute spans lie in the input |
| Parsing.SoundReadable | scum/serialize.go:76-147 | In a sound parse, every span, range and attribute span serialization reads lies where it reads |
| Parsing.TextPlacedWithoutLimits | scum/parse.go:87-88 | Without a node limit, and if no non-greedy tag is closed by a greedy tag's ID, the text has exactly the reported length |
| Parsing.ParseInto | scum/parse.go:41-97 | Tokenizer and parser together return an arena that links the specified tree, is sound, and is ready to serialize |
| Parsing.Text | scum/text.go:9-20 | The loop returns the linear text; every slice it takes lies in the input |
| SourceRoundTrip.SimpleAct | scum/create_action.go:22-155 | A non-greedy tag without rule, standing at the trigger, is emitted with its exact bounds and no warning |
| SourceRoundTrip.RawAct | scum/create_action.go:95-155 | A greedy tag around content in which its closer does not occur is emitted with exactly that payload |
| SourceRoundTrip.SourceRead | scum/tokenize.go:52-109 | Wherever a written document stands, the loop reads it as its tokens, without a warning |
| SourceRoundTrip.TokensOfWritten | scum/tokenize.go:36-133 | Tokenizing a written document gives the tokens of its tree |
| SourceRoundTrip.SampleComesBack | scum/dictionary.go:98-118 | A concrete dictionary and document that meet everything the round trip asks for |
| WrittenSerialized.ShowsWritten | scum/serialize.go:76-147 | Slots that hold the tree of a written document show it: each node the tag's name, type, ID, bytes, and the attributes written, in order |
| WrittenSerialized.WrittenIsShown | scum/serialize.go:76-147 | The same for whatever ParseAndSerialize delivers of a written input, with the root and without a warning |
| WrittenText.TreeTextIsWritten | scum/text.go:5-20 | The text of the tree of a written document is its texts and raw contents in order |
| Witnesses.RunHidesLimit | scum/check_tag_vs_content.go:47-91 | A concrete dictionary and input under the tag-versus-content rule whose payload limit is passed but not reported |
| Witnesses.CloserByteHidesLimit | scum/check_close_tag.go:47-60 | The same for a plain greedy tag with a two-byte closer |
| Witnesses.LaterMatchMovesReport | scum/warn_invalid_sequence.go:14-22 | A concrete interrupted sequence whose warning names the wrong place and symbols |
| Witnesses.FoundSymbolRight | scum/warn_invalid_sequence.go:14-22 | A concrete interrupted sequence whose warning is right in place and both symbols |
| Witnesses.FoundSymbolWrong | scum/warn_invalid_sequence.go:14-22 | A concrete one whose warning names the wrong symbol as found |
| Witnesses.FoundSymbolRightElsewhere | scum/warn_invalid_sequence.go:14-22 | A concrete one whose warning names the right symbol and the wrong place |
| Witnesses.EscapeDisabled | scum/add_tag.go:23-46 | Two accepted registrations after which escaping does not work |
| Witnesses.AttributesDisabled | scum/add_tag.go:23-46 | Two accepted registrations after which attributes do not work |
| Witnesses.EscapeAsEnd | scum/set_attribute_signature.go:11-41 | Two accepted registrations after which a printed attribute is not recognised |
| Witnesses.EarlyAttributeTokens | scum/tokenize.go:36-133 | The bytes whose tokens are those of EarlyAttributeBreaksRange |
| Witnesses.SharedSourceMisplaced | scum/process_opening_tag.go:14-23 | Four accepted registrations and eight bytes that parse to another tree than the one written |
| Witnesses.NodeLimitDropsText | scum/parser_limits.go:30-37 | A node limit and two bytes of text that are reported and missing from the text |
| Witnesses.SwallowedTagLosesText | scum/process_tag.go:12-37 | Two accepted registrations and five bytes with one byte of text that is reported and missing, without any limit |
| Forests.ListingInIndexOrder | scum/text.go:5-8 | Appending below the rightmost path makes index order the preorder |
| Forests.FlattenInjective | api/comments_utils.go:26-71 | A depth-annotated preorder listing determines its forest |
| Forests.LayRoundTrip | scum/append_node.go:7-25 | Laying a forest out node by node and reading it back returns it |
| LinkFilter.SiftedIsSelected | sml/link.go:102-149 | The plain filter keeps exactly the first valid attribute of each name |
| LinkRules.PassesIff | sml/link.go:14-100 | The validators accept an attribute if and only if it is good: a value that is not blank and has no control characters, and for an href an address that parses with an allowed scheme or none and no leading //, for a target _blank or _self, for a title at most 65 characters |
| LinkRules.KeptAreGood | sml/link.go:102-149 | Everything kept is good, or the rel of the blank target directly before it; the first good attribute of each name is kept |
| NormalizeLink.Slice.Append | sml/link.go:118-118 | Appending writes behind the slice's end into shared memory, or moves to a larger array |
| NormalizeLink.Keep | sml/link.go:128-133 | What keeping an attribute leaves for the loop to read |
| NormalizeLink.LostHref | sml/link.go:128-133 | A concrete link that loses its address |
| CommentTree.FlattenReturnsRows | api/comments_utils.go:26-71 | Flattening the built forest returns the rows with their depths |
| CommentTree.ParentIsLatest | api/comments_utils.go:50-68 | A reply's parent is the last row before it one level up |
| CommentTree.Hang | api/comments_utils.go:57-58 | Appending to a parent's replies changes exactly that node |
| CommentStore.ApplyInv | db/sqlc/tx_insert_comment.go:42-161 | Every transaction keeps the table invariant |
| CommentStore.ApplyBalance | db/sqlc/tx_vote_comment.go:61-128 | No transaction, committed or rolled back, changes counters less stored votes of a comment that stays |
| CommentStore.RunBalance | db/sqlc/tx_vote_comment.go:61-128 | The same over any run |
| CommentStore.Store.InsertCommentTx | db/sqlc/tx_insert_comment.go:38-165 | Guards in the code's order; the new tables and row are the specification's |
| CommentStore.Store.DeleteCommentTx | db/sqlc/tx_delete_comment.go:37-140 | Hard, soft and refused deletions; the corrupted branch is never taken |
| CommentStore.Store.VoteCommentTx | db/sqlc/tx_vote_comment.go:20-135 | Commits the deltas or restores the tables |
| CommentStore.Store.CreateComment | db/query/comment.sql:1-12 | Inserts a row unless a foreign key or the unique reply index objects |
| CommentStore.Store.DeleteCommentIfLeaf | db/migration/000011_fix_delete_comment_leaf.up.sql:5-76 | Removes the row and its votes exactly when owner and post match, it is alive and has no replies |
| CommentStore.Store.UpsertCommentVote | db/migration/000009_fix_upsert_comment_vote.up.sql:1-50 | Stores the vote and returns the one it replaces, or 0 |
| CommentStore.Store.UpdateCommentPopularity | db/query/comment.sql:86-93 | Adds the deltas unless the comment is deleted or missing |
| CommentStore.Store.RootCommentCountForUser | db/query/comment.sql:99-104 | Counts a user's roots under a post |
| Threads.SiblingRanks | db/migration/000001_init.up.sql:228-263 | Siblings' rank paths differ and compare as popularity, then age |
| Threads.PathsDiffer | db/migration/000001_init.up.sql:228-263 | Different rows have different rank paths |
| Threads.ParentListed | db/migration/000001_init.up.sql:228-270 | A reply's parent is listed before it, with only deeper rows between |
| Threads.AnswerFits | db/migration/000001_init.up.sql:214-271 | Any answer of the query has depths the tree builder accepts |
| Threads.AnswerExists | db/migration/000001_init.up.sql:214-271 | The query has an answer in every such state; which rows it holds is Pages.PageOfRoots and Pages.ListedIff |
| Pages.PlacesSize | db/migration/000001_init.up.sql:223-230 | Of any set of comments each place in the order is taken by exactly one |
| Pages.AdjacentPages | db/migration/000001_init.up.sql:223-230 | Adjacent pages share no root, and together are the page of both lengths |
| Pages.WholePost | db/migration/000001_init.up.sql:214-271 | A first page with room for all roots lists exactly the comments of the post |
| Pages.RowsRanked | db/migration/000001_init.up.sql:239-270 | Under one parent, and among the roots, rows come by upvotes less downvotes, equal ones by age |
| CommentRules.DeleteMeans | db/sqlc/tx_delete_comment.go:37-140 | A deletion succeeds if and only if the comment is the user's own under that post; one with replies stays with its body masked, one without goes with its votes, and nothing else changes |
| CommentRules.RemoveVoteMeans | db/sqlc/tx_vote_comment.go:61-128 | A vote taken back is neither stored nor counted any more |
| CommentRules.VoteAndBack | db/sqlc/tx_vote_comment.go:61-128 | A vote and its removal leave everything as it was |
| CommentRules.SecondVoteCounts | db/sqlc/tx_vote_comment.go:61-128 | Changing one's vote leaves the tables as if only the second had been cast |
| CommentRules.VoteStands | db/sqlc/tx_vote_comment.go:61-128 | A stored vote stands until its user votes again or takes it back, or the comment is gone |
| PostVotes.CastStores | db/migration/000001_init.up.sql:332-389 | Casting stores the vote cast and touches no other vote and no other post |
| PostVotes.CastAndBack | db/migration/000001_init.up.sql:332-421 | A vote and its removal leave everything as it was |
| PostVotes.RemoveDrops | db/migration/000001_init.up.sql:405-421 | Removing takes that vote away and no other |
| PostVotes.NeutralVoteBreaksBalance | db/migration/000001_init.up.sql:332-389 | A concrete run of two votes after which the counters no longer fit the stored votes |
| PostVotes.RemoveKeepsBalance | db/migration/000001_init.up.sql:405-421 | Taking a vote back always keeps them |
| PostVotes.PostStore.VotePost | db/migration/000001_init.up.sql:332-389 | The statement's new tables |
| PostVotes.PostStore.DeletePostVote | db/migration/000001_init.up.sql:405-421 | The statement's new tables |
| Tokenizer.Plan.constructor | scum/create_action.go:5-6 | A new plan has no steps |
| Tokenizer.Plan.AddStep | scum/plan.go:145-148 | Appends one step |
| Tokenizer.Plan.AddCloseTagCheck | scum/create_action.go:109-119 | Appends the closing check of the tag's rule |
| Tokenizer.Plan.AddCount | scum/create_action.go:84-89 | Appends the counter that fits the tag's kind |
| Tokenizer.Plan.AddSingleCharNonGreedy | scum/create_action.go:76-93 | Appends the non-greedy one-byte steps |
| Tokenizer.Plan.AddSingleCharGreedy | scum/create_action.go:95-101 | Appends the greedy one-byte steps |
| Tokenizer.Plan.AddSingleCharGrasping | scum/create_action.go:103-108 | Appends the grasping one-byte steps |
| Tokenizer.Plan.AddSingleCharUniversal | scum/create_action.go:58-67 | Chooses them by greed |
| Tokenizer.Plan.AddMultiCharUniversal | scum/create_action.go:121-146 | Appends the multi-byte steps for the tag's greed |
| Tokenizer.Plan.AddClosing | scum/create_action.go:69-74 | Appends the closing tag's steps |
| Tokenizer.Plan.AddBeforeEOL | scum/create_action.go:51-53 | Appends the end-of-input steps of an opener |
| Tokenizer.Plan.AddSingleChar | scum/create_action.go:22-34 | Assembles the plan of a one-byte tag |
| Tokenizer.Plan.AddMultiChar | scum/create_action.go:36-49 | Assembles the plan of a multi-byte tag |
| Tokenizer.CreateAction | scum/create_action.go:3-18 | The action of a tag is the plan its features call for |
| Tokenizer.ActionContext.ResetAt | scum/plan.go:83-91 | The context stands at the byte with fresh bounds; counters and warnings are kept |
| Tokenizer.ActionContext.PrepareSingleCharTag | scum/prepare_single_char_tag.go:4-10 | Frames a one-byte tag |
| Tokenizer.ActionContext.CheckMultiCharTagSeq | scum/check_multi_char_tag_seq.go:4-16 | The in-place bounds are those of the specification, over which SequenceStandsAtTrigger is proved |
| Tokenizer.ActionContext.CheckCloseTag | scum/check_close_tag.go:5-81 | The in-place bounds are those of the specification, over which CloseSearchExact is proved |
| Tokenizer.ActionContext.FillClose | scum/check_close_tag.go:50-80 | Fills in the bounds for the match found |
| Tokenizer.ActionContext.MutateWithOnlyOpeningTag | scum/check_tag_vs_content.go:93-105 | Marks the tag unclosed, with the given limit flags |
| Tokenizer.ActionContext.CheckTagVsContent | scum/check_tag_vs_content.go:6-91 | The loops compute the bounds over which TagVsContentExact is proved |
| Tokenizer.ActionContext.SearchClosingRun | scum/check_tag_vs_content.go:40-91 | The search behind the opening run, with both its outcomes |
| Tokenizer.RunWidth | scum/check_tag_vs_content.go:12-23 | Counts a run of the trigger byte up to a bound |
| Tokenizer.FindClosingRun | scum/check_tag_vs_content.go:47-86 | The loop finds what the recursive search finds |
| Tokenizer.ActionContext.WarnInvalidSequence | scum/warn_invalid_sequence.go:5-24 | Warns of a broken sequence and of nothing else |
| Tokenizer.ActionContext.WarnOpenTagBeforeEOL | scum/warn_open_tag_before_eol.go:4-20 | Warns of an opener at the end of the input only |
| Tokenizer.ActionContext.WarnCloseTagAfterStart | scum/warn_close_tag_after_start.go:5-15 | Warns of a closer at index 0 only |
| Tokenizer.ActionContext.WarnTagKeyTooLong | scum/warn_tag_key_too_long.go:4-13 | Warns when the key limit was reached |
| Tokenizer.ActionContext.WarnTagPayloadTooLong | scum/warn_tag_payload_too_long.go:5-14 | Warns when the payload limit was reached |
| Tokenizer.ActionContext.WarnUnclosedTag | scum/warn_unclosed_tag.go:5-17 | Warns of an unclosed tag unless the payload limit explains it |
| Tokenizer.ActionContext.StepInfraWordCheck | scum/step_infra_word_check.go:11-65 | Skips one byte when both neighbours are word parts, otherwise changes nothing |
| Tokenizer.ActionContext.StepEmitEntireTagToken | scum/step_emit_entire_tag_token.go:4-19 | Emits the token of the bounds |
| Tokenizer.ActionContext.StepSkipInvalidTriggerTag | scum/step_skip_invalid_trigger_tag.go:4-15 | Skips a broken sequence, otherwise changes nothing |
| Tokenizer.ActionContext.StepSkipOpenTagBeforeEOL | scum/step_open_tag_before_eol.go:5-20 | Skips an opener at the end of the input, otherwise changes nothing |
| Tokenizer.ActionContext.StepSkipCloseTagAfterStart | scum/step_close_tag_after_start.go:5-14 | Skips a closer at index 0, otherwise changes nothing |
| Tokenizer.ActionContext.StepSkipUnclosedOpenTag | scum/step_skip_unclosed_open_tag.go:4-17 | Skips an unclosed opener, otherwise changes nothing |
| Tokenizer.ActionContext.Execute | scum/plan.go:157-165 | One step either settles the case or only works on the context |
| Tokenizer.ActionContext.RunSteps | scum/plan.go:130-143 | The loop over the steps returns what the specification's recursion returns, with the same counters and warnings |
| Tokenizer.ActionContext.ActEscape | scum/set_escape_trigger.go:31-88 | The action as it runs equals its specification |
| Tokenizer.ActionContext.ActAttribute | scum/set_attribute_signature.go:46-134 | The action as it runs equals its specification, over which AttributeTriggerAction is proved, in every error branch |
| Tokenizer.ActionContext.FindAttrEnd | scum/set_attribute_signature.go:91-95 | Chooses the scan by whether an escape byte is configured |
| Tokenizer.ActionContext.Act | scum/tokenize.go:54-63 | Dispatches to the registered action |
| Parser.ParserState.constructor | scum/parser_state.go:154-187 | A fresh state is the specification's start: one root node, empty stacks |
| Parser.ParserState.AppendArenaNode | scum/append_node.go:7-25 | Appending relinks the arena to exactly the tree with one more child |
| Parser.ParserState.AppendStateNode | scum/parser_limits.go:30-37 | Appends, or warns once when the node limit is reached |
| Parser.ParserState.WarnMaxNodesOnce | scum/parser_limits.go:3-28 | Warns of the node limit once |
| Parser.ParserState.WarnMaxAttributesOnce | scum/parser_limits.go:3-28 | Warns of the attribute limit once |
| Parser.ParserState.WarnMaxParseDepthOnce | scum/parser_limits.go:3-28 | Warns of the depth limit once |
| Parser.ParserState.IncrementCumWidth | scum/parser_state.go:125-129 | Adds to the innermost frame's width only |
| Parser.ParserState.ProcessTextToken | scum/process_text.go:6-14 | The state after a text token is the specification's |
| Parser.ParserState.ProcessAttributeToken | scum/process_attribute.go:6-18 | The state after an attribute token is the specification's, range included |
| Parser.ParserState.AppendGreedyNode | scum/append_greedy_node.go:8-27 | Tag and payload nodes, or what the node limit leaves of them |
| Parser.ParserState.OmitOpeningTag | scum/process_opening_tag.go:25-40 | An omitted opener is counted into the width and its closer into the skips |
| Parser.ParserState.ProcessOpeningTag | scum/process_opening_tag.go:13-51 | All four outcomes of an opener |
| Parser.ParserState.EnterTag | scum/process_opening_tag.go:42-50 | Pushes the stacks for a new node |
| Parser.ParserState.CloseInnermost | scum/close_tag.go:9-19 | Pops the stacks together, fixes the span and folds the width into the parent |
| Parser.ParserState.ProcessClosingTag | scum/process_closing_tag.go:12-49 | Misplaced, mismatched (demoted to text) and matching closers; which is which is ParserRules.ClosesIff |
| Parser.ParserState.ProcessUniversalTag | scum/process_universal_tag.go:11-18 | The same byte opens or closes |
| Parser.ParserState.ProcessTagToken | scum/process_tag.go:12-37 | Skips first, then dispatches by kind |
| Parser.ParserState.ProcessToken | scum/parse.go:52-64 | Dispatch by token type |
| Parser.ParserState.ForceCloseInnermost | scum/parse.go:66-82 | One turn of the force-close loop, with its warning |
| Parser.ParserState.ForceCloseAll | scum/parse.go:66-82 | The loop ends with everything closed |
| Parser.ParserState.Finished | scum/parse.go:84-92 | Root span and statistics; the arena still links the tree |

## Left out

- Warning overflow policies, descriptions and serialization: warnings are an unbounded log.
- Unicode tables and rune decoding: `Actions.Unicode` is a parameter; only a width of 1 to 4 within the remaining bytes is assumed (section 3 of RFC 3629).
- URL parsing, trimming and lower-casing in link validation: parameters of `LinkFilter.Library`; only that lower-casing leaves "rel" alone is assumed.
- Recursion into children in `normalizeLink` and the other node normalisers: each node is filtered on its own.
- Slice capacities, the state pool and reuse of a destination AST, except the memory shared inside `normalizeLink`.
- Enum range checks of `checkTagConsistency`: greed and rule are datatypes, so out-of-range values do not exist.
- Tag names are measured in characters; encodings of names are not modelled.
- Markup sources with intra-word or tag-versus-content tags in `SourceRoundTrip`: whether such a tag is one depends on its neighbours; `ActionRules.NonGreedyTagAction` and `ActionRules.CodeTagOverBytes` state the rules by themselves.
- Documents of `RoundTrip.Docs` with unclosed openers or with closers outside all tags: what the parser makes of them is said token by token (`ParserRules.RunFollows`, `Statistics.FinishedWarnings`), not as a document.
- What the parser makes of repetitions outside `RoundTrip.CanSplice`: a universal tag directly inside itself, which closes, or inside its own repetition, where its opener passes for its closer; and attributes of a repetition with no node before them at its level, which go to the node of an enclosing level.
- The three oldest/newest/popularity queries differ in their sort key only; the popularity one is modelled.
- Concurrent interleavings of transactions, locks and isolation levels: transactions run one after the other.
- Timestamps, comment bodies' validation, user accounts and soft deletion of users, HTTP handlers, sessions, WebAuthn, Redis and generated query code.
- The unreachable nil-parent check of `PrepareCommentTree`: stack entries are objects, never null.
- The order of rows in the sort of the popularity query is a property of its answers (`Threads.IsAnswer`); no sorting algorithm is modelled.
