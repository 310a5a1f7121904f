# Stress interview engine — a Dafny model

This project models the interview orchestration engine of *stree_dost_system*.
That system is a Flask service. It interviews an exam student about what
stresses them, one short question at a time. It fills a two-level slot
dictionary (domain → slot → answer) and, when the interview ends, turns the
answers into short "intrusive thought" pop-ups for a practice test. The model
also covers the deterministic helpers around the engine:

- the question formatter for practice questions;
- the question mutator's post-processing;
- the browser script's pop-up queue, HTML escaping and question panel.

Every call to the language model, the database or the network is an
*oracle*. An oracle is an object whose `asked` and `answered` logs grow by one
entry per call (`Oracles.Oracle`). The model consumes the replies as
parameters, so each operation's result is stated as a function of the replies
it received.

Modules, one per source file or per group of closely related files:

| file | module | models |
|---|---|---|
| text.dfy | Text | Python/JS string helpers: strip, split, join, whitespace collapse, lower-casing |
| json.dfy | Json | JSON-like values and Python truthiness (`None`, `""`, `[]`, `{}`, `0`, `False` are falsy) |
| schema.dfy | Schema | `SLOT_SCHEMA`, `PRIORITY_ORDER`, generic questions, canned questions, combo specs, forbidden combos |
| slots.dfy | Slots | the slot store of slot_manager.py, with an imperative `Store` class |
| stop.dfy | Stop | the stop rule and the configured budgets |
| relevance.dfy | Relevance | denial patterns and negation-aware whole-word keyword matching |
| detect.dfy | Detect | keyword fallback, denial filter, component extraction and cause detection |
| planner.dfy | Planner | domain activation and the three-tier slot picker with its memoised gate |
| combo.dfy | Combo | combo question composer and the two combo answer parsers |
| validators.dfy | Validators | the generated-question validator |
| questions.dfy | QuestionWriter | generate_question's accept-or-fallback loop |
| prefill.dfy | Prefill | the prefill clean-up and retry loop |
| oracles.dfy | Oracles | the oracle objects and their reply type |
| interview.dfy | Interview | the session record and the start / answer / next-question / complete controller |
| popup_validator.dfy | PopupValidator | the pop-up message guard |
| popup_schemas.dfy | PopupSchemas | type and message normalisers and the `Popup` record checks |
| popup_fallback.dfy | PopupFallback | fallback templates, their sequencing and the padding to a minimum |
| popup_generator.dfy | PopupGenerator | two-line normalisation, splitting, ttl clamping and generate_popups |
| mutator.dfy | Mutator | `_safe_options`, `_nudge_first_number`, `_deterministic_nudge`, the merge in mutate_question |
| formatter.dfy | Formatter | QuestionFormatter: option extraction from HTML, sub-concepts, the three layouts |
| client.dfy | Client | static/app.js: escaping, the pop-up FIFO, display duration, question panel, log box |

## Notes on the code as written

The model follows the code. Four behaviours of the code differ from what its
comments or names suggest. Each is stated as a lemma about the code as it is.
No corrected variant replaces it.

- `friend_compare_emotion` is never offered. Its categories hold a forbidden
  pair (`Combo.FriendCompareNeverOffered`). `next_question` still selects it
  first, so on that call it also keeps `distraction_time_combo` from being
  offered (`Interview.FriendChoiceOffersNothing`).
- `_nudge_first_number` never changes anything. Its raw-string pattern matches
  a backslash followed by letters `d`, and int()/float() reject every such
  match (`Mutator.NudgeNeverChanges`, `Mutator.NudgedUnchanged`).
- The sentence-count branch of `validate_popup_message` is dead. A non-blank
  message always has a non-blank line (`PopupValidator.NonBlankHasLine`,
  `PopupValidator.ValidateVerdict`).
- `next_question` has a crash path at app/api/session_routes.py:182-194. It
  calls an unimported `extract_components` and reads `meta` before assigning
  it. `start` always leaves a non-empty domain list, and the model keeps that
  as the session invariant `Interview.Session.Consistent`, so the path is never
  taken. Likewise, app/api/session_routes.py:338-349 is never reached, because
  generate_question never returns an empty question
  (`QuestionWriter.GenerateQuestion`).

## Model

| member | source | states |
|---|---|---|
| Schema.SchemaDomainsExact | app/constants.py:4-40 | the schema's keys are exactly the seven domains, in order and without repeats; "demotivation" is not a domain |
| Schema.PriorityOrderIsPermutation | app/constants.py:4-50 | `PRIORITY_ORDER` has no repeats, has the schema's length and holds exactly the schema's domains |
| Schema.SlotListsWellFormed | app/constants.py:4-40 | every slot list is non-empty and duplicate-free, and no slot name is listed under two domains |
| Schema.SchemaSlotsExact | app/constants.py:4-40 | a name is a schema slot exactly when it is one of the 21 listed slots |
| Schema.GenericLookups | app/services/generic_questions.py:4-27 | a generic question exists exactly for distractions and academic_confidence; the generic slot name is the first component of that question, and None otherwise; the two names are general_distraction and exam_feeling |
| Schema.GenericSlotsOutsideSchema | app/services/generic_questions.py:4-13 | a generic slot is neither in its domain's slot list nor any schema slot |
| Schema.CannedQuestionsMatchSchema | app/services/fallbacks.py:4-40 | the canned table has the schema's domains in schema order, and under each domain exactly that domain's slots in order |
| Schema.CannedQuestionsWellFormed | app/services/fallbacks.py:4-40 | a canned question exists exactly for the schema's (domain, slot) pairs, and each has one "?", as its last character, and no ";" or "/" |
| Schema.ComboSpecKeys | app/services/combo_specs.py:4-35 | the spec table holds exactly friend_compare_emotion and distraction_time_combo, in that order |
| Schema.ComboSpecsWellFormed | app/services/combo_specs.py:4-35 | every spec names only schema slots, lists the distinct domains of its slots in first-appearance order, has three slots and answer format "3 lines", and probes emotion exactly when it is friend_compare_emotion |
| Schema.ForbiddenCombosArePairs | app/services/combo_specs.py:38-42 | three distinct forbidden sets, each a two-element subset of {emotion, comparison, distraction} |
| Slots.DomainDict | app/services/slot_manager.py:10-15 | the copy reads every slot as the store does, and is empty when the entry is missing or not a dictionary |
| Slots.SlotAllowedIff | app/services/slot_manager.py:18-21 | a pair is allowed exactly when the slot is in the domain's schema list or is the domain's generic slot |
| Slots.SlotsAfterSet | app/services/slot_manager.py:44-49 | a disallowed pair leaves the store unchanged; an allowed pair reads back the value; every other (domain, slot) reads as before |
| Slots.Assign | app/services/slot_manager.py:47-49 | after the write the pair reads the value, every other pair reads as before and every other domain entry is untouched |
| Slots.SetSlotValueShaped | app/services/slot_manager.py:44-49 | a write keeps the store well-shaped and leaves the negation list as it was |
| Slots.Store.SetSlotValue | app/services/slot_manager.py:44-49 | the in-place update leaves the store equal to `SlotsAfterSet` of the old store |
| Slots.AppendNames | app/services/slot_manager.py:32-41 | the old list is kept as a prefix |
| Slots.AppendNamesHas | app/services/slot_manager.py:32-41 | every non-blank candidate ends up in the list |
| Slots.AppendNamesFrom | app/services/slot_manager.py:32-41 | nothing but old entries and candidates is listed |
| Slots.AppendNamesNoDup | app/services/slot_manager.py:32-41 | a duplicate-free list stays duplicate-free |
| Slots.WithNegated | app/services/slot_manager.py:32-33 | an empty argument leaves the store unchanged |
| Slots.NegateIdempotent | app/services/slot_manager.py:32-41 | applying add_negated_slots twice with the same names equals applying it once, and the store stays well-shaped |
| Slots.NegatedAfterHas | app/services/slot_manager.py:32-56 | afterwards every non-blank stripped argument name is negated |
| Slots.NegatedAfterOnly | app/services/slot_manager.py:32-56 | what was negated stays negated, and only stripped argument names become negated |
| Slots.NegatedIn | app/services/slot_manager.py:52-56 | a name is negated exactly when the "__negated__" list holds it as a string |
| Slots.AppendStripped | app/services/slot_manager.py:35-40 | the loop's final list equals `AppendNames` over the stripped names |
| Slots.Store.AddNegatedSlots | app/services/slot_manager.py:32-41 | the in-place update leaves the store equal to `WithNegated` of the old store |
| Slots.MissingSlotsMembers | app/services/slot_manager.py:59-65 | a pair is missing exactly when its domain is active, it is a schema slot of that domain and its value is None, "", [] or {} |
| Slots.MissingSlotsSchemaOnly | app/services/slot_manager.py:59-65 | every missing pair is a schema pair of a schema domain and never a generic slot |
| Slots.CollectMissing | app/services/slot_manager.py:62-64 | the inner loop collects exactly one domain's missing pairs |
| Slots.ComputeMissingIn | app/services/slot_manager.py:59-65 | the loop's list equals the specification `MissingIn` |
| Slots.ComputeMissingSlots | app/services/slot_manager.py:59-65 | get_missing_slots over `SLOT_SCHEMA` equals `MissingSlots` |
| Slots.InferEmotionSignals | app/services/slot_manager.py:68-92 | the signals are distinct, and a signal is listed exactly when it is one of the four names and its substring rule fires |
| Slots.Store.constructor | app/services/slot_manager.py:10-15 | the store holds the given slot dictionary |
| Slots.MissingOfMembers | app/services/slot_manager.py:62-64 | one domain's missing pairs are exactly its schema slots with an empty value |
| Stop.ShouldStop | app/services/stop_engine.py:5-19 | true when asked reaches the ceiling; true when asked reaches the floor with nothing missing; false in every other case |
| Stop.BelowFloorContinues | app/services/stop_engine.py:13-19 | below both floor and ceiling the answer is false, whatever is missing |
| Stop.StopMonotone | app/services/stop_engine.py:13-19 | a stop at `asked` is still a stop at `asked + 1` |
| Stop.DefaultBudgets | app/config.py:17-19 | with floor 3 and ceiling 6, six questions stop for any missing count, two never stop, and three stop when nothing is missing |
| Relevance.Norm | app/services/relevance.py:92-93 | the result is lower-cased and whitespace-collapsed: no leading, trailing or doubled space |
| Relevance.NormIdempotent | app/services/relevance.py:92-93 | normalising twice equals normalising once |
| Relevance.DenialsOf | app/services/relevance.py:21-33 | only distractions and social_comparison have denial patterns |
| Relevance.KeywordPositiveIff | app/services/relevance.py:104-114 | positive exactly when some whole-word occurrence of the lower-cased keyword in the normalised text has no negator as a substring of the last five words of the 80 characters before it |
| Relevance.ScanSound | app/services/relevance.py:107-113 | an occurrence the scan reports is whole-word and not negated |
| Relevance.ScanComplete | app/services/relevance.py:107-113 | every whole-word, non-negated occurrence at or after the scan position is found |
| Relevance.DomainRelevance | app/services/relevance.py:117-129 | a denial makes the domain irrelevant; without one, relevance is exactly some keyword occurring positively; a domain missing from the keyword table is never relevant |
| Relevance.FriendComboDenied | app/services/relevance.py:132-141 | a distractions denial makes friend_compare_emotion irrelevant, whatever the keyword table |
| Relevance.NotDistractedByPhone | app/services/relevance.py:21-33 | "I am not distracted by my phone" makes distractions irrelevant |
| Relevance.DenialDomains | app/services/relevance.py:21-33 | a domain with a denial pattern is distractions or social_comparison |
| Relevance.WordKeywordNoOverlap | app/services/relevance.py:104-114 | a keyword of word characters only never overlaps itself, so the scan's steps past a match miss no occurrence |
| Detect.AddHitsMembers | app/services/gpt_client.py:95-114 | a component is added exactly when one of its tokens is a substring of the lower-cased text |
| Detect.AddHitsOrder | app/services/gpt_client.py:99-114 | the added components follow the token table's order |
| Detect.KeywordFallback | app/services/gpt_client.py:91-116 | the fallback has no repeats |
| Detect.KeywordFallbackSpec | app/services/gpt_client.py:91-116 | a component is reported exactly when one of its tokens occurs and no denial removes it; before filtering the list is a subsequence of the fixed component order |
| Detect.Denied | app/services/gpt_client.py:126-146 | distractions is denied exactly when one of its phrases occurs, social_comparison likewise, and nothing else is denied |
| Detect.FilterDenials | app/services/gpt_client.py:119-147 | the filtered list is the input without the denied domains |
| Detect.FilterDenialsSpec | app/services/gpt_client.py:119-147 | every kept element is an input element that is not denied; every undenied input element is kept; no phrase means no change; a duplicate-free input stays duplicate-free |
| Detect.ComponentsFrom | app/services/gpt_client.py:74-80 | the ids of an accepted reply come out without repeats |
| Detect.FirstComponents | app/services/gpt_client.py:63-86 | a list it yields passes the component schema and was one of the replies; no accepted reply yields none |
| Detect.FirstComponentsAfterRetries | app/services/gpt_client.py:63-86 | after replies that all asked for a retry, the next reply decides: its list if accepted, otherwise none |
| Detect.ComponentsOutcome | app/services/gpt_client.py:53-88 | the ids never repeat; with no accepted reply they are the keyword fallback of the stripped text; otherwise an id is kept exactly when the accepted list holds it and no denial in the text removes it |
| Detect.AskComponents | app/services/gpt_client.py:63-86 | one or two calls, all with the same text; a second call exactly when the first reply asked for a retry; the result is `FirstComponents` of the replies received |
| Detect.ExtractComponents | app/services/gpt_client.py:53-88 | blank text makes no call and gives []; otherwise every call sends the stripped text cut to 1500 characters, a second call happens exactly when the first reply asked for a retry, and the ids are `ComponentsOutcome` of the replies received; the ids never repeat |
| Detect.DefaultCauses | app/services/gpt_client.py:153 | every cause key, all false |
| Detect.CausesFrom | app/services/gpt_client.py:166-170 | every cause key, each true exactly when the reply held boolean true for it |
| Detect.CausesOutcome | app/services/gpt_client.py:150-176 | exactly the cause keys; all false when no reply decoded to an object; a cause is true only when some reply held boolean true for it |
| Detect.CausesAfterMalformed | app/services/gpt_client.py:156-176 | after malformed replies only, the next reply decides: its object shapes the map, anything else gives all false |
| Detect.DetectCauses | app/services/gpt_client.py:150-176 | an empty cut makes no call and gives all false; otherwise one or two calls, a second exactly when the first reply was malformed, and the map is `CausesOutcome` of the replies received |
| Detect.CausesOnlyFromTrue | app/services/gpt_client.py:166-170 | a cause is true only when the reply held boolean true for it |
| Planner.DomainCauseIff | app/services/planner.py:8-30 | each of the five mapped domains is allowed exactly by its own cause; motivation and backlog_stress never are |
| Planner.ActivateIn | app/services/planner.py:17-23 | the activated domains are exactly the cause-allowed ones, in the given order |
| Planner.ActivateDomainsSpec | app/services/planner.py:17-30 | activated exactly when in `PRIORITY_ORDER` and allowed by its cause; motivation and backlog_stress are never activated |
| Planner.SlotsForMembers | app/services/planner.py:47-49 | a domain's group holds exactly its missing pairs |
| Planner.FirstEligible | app/services/planner.py:73-81 | a found pair is in the list and eligible; no result means no pair of the list is eligible |
| Planner.GenericPick | app/services/planner.py:83-96 | a found pair is (active domain, "__generic__") that passes tier three's checks; no result means no active domain passes them |
| Planner.Tier1Members | app/services/planner.py:68-75 | tier one tries exactly the missing pairs of active, prioritised domains under their cap |
| Planner.Tier2Members | app/services/planner.py:77-81 | tier two tries exactly the missing pairs whose domain is under its cap |
| Planner.PickTiers | app/services/planner.py:68-96 | the pick is tier one's first eligible pair, else tier two's, else tier three's |
| Planner.PickSound | app/services/planner.py:58-96 | a named pick is missing, under its cap, not negated, cause-allowed and approved by the gate; a generic pick passes tier three; no pick means every tier failed |
| Planner.GenericIgnoresNegation | app/services/planner.py:83-94 | tier three gives the same answer whatever names are negated |
| Planner.GateAnswer | app/services/slot_gate_llm.py:29-40 | any failure says ask; a JSON object says ask exactly when its "ask" value is truthy |
| Planner.CheckEligible | app/services/planner.py:58-66 | the verdict is `Eligible` under the extended memo; the gate is called only for a pair it has not answered, and the call is logged |
| Planner.GroupByDomain | app/services/planner.py:47-49 | the groups are the missing pairs by domain, in order |
| Planner.PickGeneric | app/services/planner.py:83-96 | the scan returns `GenericPick` |
| Planner.ScanTier1 | app/services/planner.py:68-75 | the scan returns tier one's first eligible pair under the gate's answers; that pair comes after tier-one pairs that were all rejected by the negation list, the causes or the gate (`Decided`), and no hit means every tier-one pair was rejected |
| Planner.ScanTier2 | app/services/planner.py:77-81 | the scan returns tier two's first eligible pair under the gate's answers; that pair comes after tier-two pairs that were all rejected (`Decided`), and no hit means every tier-two pair was rejected |
| Planner.PickNextSlotIn | app/services/planner.py:37-96 | the result is `Pick` for exactly the verdicts the gate gave, and the search is `Searched`: a named pick follows only rejected pairs, and a generic pick or none comes only after every tier-one and tier-two pair was rejected; each pair goes to the gate at most once, always with the user's text |
| Planner.PickNextSlot | app/services/planner.py:37-96 | the same, over `PRIORITY_ORDER` and the source's cause map: `Pick` for the gate's verdicts, reached only after every earlier candidate was rejected |
| Planner.SearchedPick | app/services/planner.py:58-96 | for a searched memo: no tier-one or tier-two hit means the pick is tier three's and the gate answered "no" for every pair that passed the negation and cause checks; a hit is an eligible pair preceded only by rejected pairs |
| Planner.ActivateDomains | app/services/planner.py:17-30 | the activated domains are a subsequence of `PRIORITY_ORDER`; a domain is activated exactly when its cause allows it; motivation and backlog_stress never are |
| Planner.Memo | app/services/planner.py:55-66 | the memo answers exactly the pairs the gate was asked |
| Planner.CheckGeneric | app/services/planner.py:83-94 | the domain passes exactly when `GenericOpen` holds: under its cap, allowed by the causes, with a generic slot whose stored value is falsy; the gate is never asked |
| Planner.ScanDomain | app/services/planner.py:68-75 | the scan returns the domain's first eligible pair; every pair before it was rejected by the negation list, the causes or the gate (`Decided`), and no hit means all its pairs were rejected |
| Planner.FirstEligibleAppend | app/services/planner.py:68-81 | the first eligible pair of two lists is the first list's, else the second's |
| Planner.GenericOpenIgnoresNegation | app/services/planner.py:83-94 | one domain's tier-three test does not read the negation list |
| Combo.ComboMissingIff | app/services/combo_question_generator.py:8-17 | a combo slot is open exactly when its value is None or a whitespace-only string |
| Combo.MissingFrom | app/services/combo_question_generator.py:8-17 | the open pairs, as a subsequence of the spec's slots in spec order |
| Combo.Categories | app/services/combo_question_generator.py:20-29 | "distraction" exactly for a distractions slot, "comparison" exactly for a social_comparison slot, "emotion" exactly when the spec probes emotion |
| Combo.BlockedIff | app/services/combo_specs.py:38-42 | a category set is blocked exactly when it holds two of the three categories |
| Combo.GenerateComboQuestion | app/services/combo_question_generator.py:32-36 | an unknown combo key yields None |
| Combo.GenerateFor | app/services/combo_question_generator.py:38-41 | a blocked spec never yields a question |
| Combo.NoneIff | app/services/combo_question_generator.py:38-46 | no question exactly when the spec is blocked or none of its slots is open |
| Combo.SingleMissing | app/services/combo_question_generator.py:48-56 | with one open slot the question is one of the three hand-written questions or the generic detail question |
| Combo.MultiLines | app/services/combo_question_generator.py:58-72 | with two or more open slots the question's lines are the header, one prompt line per open slot in spec order, then the emotion line when the spec probes emotion |
| Combo.FriendCompareNeverOffered | app/services/combo_question_generator.py:38-41 | friend_compare_emotion never yields a question, whatever is stored |
| Combo.DistractionTimeNeverBlocked | app/services/combo_question_generator.py:20-41 | distraction_time_combo touches only the distraction category and is never blocked |
| Combo.DistractionTimeOffered | app/services/combo_question_generator.py:32-72 | distraction_time_combo yields a question exactly when one of its three slots is open |
| Combo.NormalizeGap | app/services/combo_answer_parser.py:7-13 | "big" in any case gives "big gap"; otherwise "small" gives "small gap"; otherwise the result is the first 30 characters (or all) of the lower-cased, stripped text |
| Combo.NormalizeEmotion | app/services/combo_answer_parser.py:16-20 | the result is an allowed emotion; when the text contains one, the result is one it contains |
| Combo.EmotionCues | app/services/combo_answer_parser.py:21-29 | without an allowed emotion word, the cues decide in order: anx gives panic, doubt or worth gives self_doubt, expect gives pressure, motivat or hope gives motivation, otherwise None |
| Combo.SplitSlotKey | app/services/combo_answer_parser.py:80-83 | splitting a "domain.slot" key at its first "." gives back the pair |
| Combo.ParseFriendCompareEmotion | app/services/combo_answer_parser.py:32-57 | None exactly with fewer than three non-blank lines, no bar in line 2, or an unclassifiable line 3; otherwise the three spec keys with values of at most 50, 50 and 30 characters and an allowed emotion |
| Combo.FriendCompareFields | app/services/combo_answer_parser.py:38-57 | the friend is line 1 cut to 50; the person is the trimmed text before the first bar, cut to 50; the gap is the normalised rest; the emotion is line 3's; later lines are ignored |
| Combo.FriendCompareExample | app/services/combo_answer_parser.py:32-57 | "Raj", "Amit \| big", "panic" parse to Raj, Amit, "big gap" and panic |
| Combo.ParseDistractionTime | app/services/combo_answer_parser.py:60-77 | None exactly with fewer than three non-blank lines; otherwise the three spec keys and no emotion |
| Combo.DistractionTimeFields | app/services/combo_answer_parser.py:60-77 | the values are the first three non-blank lines, trimmed and cut to 80; later lines are ignored |
| Combo.ParsersMatchSpecs | app/services/combo_answer_parser.py:80-83 | the parser table has exactly the spec keys, and each parser reports its spec's "domain.slot" keys in order |
| Combo.FriendLines | app/services/combo_answer_parser.py:34-57 | over the non-blank lines: None exactly with fewer than three lines, no bar in line 2 or an unclassifiable line 3; otherwise the three friend-compare slots, at most 50, 50 and 30 characters long, and an allowed emotion |
| Combo.FriendLinesFields | app/services/combo_answer_parser.py:38-57 | with line 2 equal to left + bar + right and no bar in left, the fields are line 1 cut to 50, left trimmed and cut to 50, and the normalised right |
| Validators.AcceptedShape | app/services/validators.py:17-42 | an accepted question is non-empty; once collapsed it has one "?", as its last character, no ";" or "/", and at most 24 words |
| Validators.BannedWordCovered | app/services/validators.py:6-14 | each spelled-out banned word is matched by one of the patterns |
| Validators.AcceptedHasNoBannedWord | app/services/validators.py:6-33 | no banned word occurs as a whole word, in any case, in an accepted question |
| Validators.CommaAndRejected | app/services/validators.py:35-36 | ", and" or ", also" followed by a space rejects the question |
| Validators.AndThenVerbRejected | app/services/validators.py:38-39 | the word "and" followed later by tell, share, explain, describe or mention rejects the question |
| Validators.CollapseInvariant | app/services/validators.py:22 | collapsing the whitespace first does not change the verdict |
| QuestionWriter.NegatedNames | app/services/question_generator.py:40-42 | exactly the names that count as negated in the store |
| QuestionWriter.MakeRequest | app/services/question_generator.py:43-58 | the text is a prefix of the student's text of at most 1200 characters; the negated names are the store's; the last question is stripped |
| QuestionWriter.FallbackIn | app/services/question_generator.py:46-48 | the fallback is never empty, and is the table's question for the pair whenever that is non-empty |
| QuestionWriter.Fallback | app/services/question_generator.py:46-48 | the fallback over FALLBACK_QUESTIONS always has the question shape |
| QuestionWriter.FallbackIsCanned | app/services/question_generator.py:46-48 | for a schema pair the fallback is its canned question, otherwise the generic detail question |
| QuestionWriter.Candidate | app/services/question_generator.py:61-73 | a non-empty candidate comes from a parsed object whose "question" is a string; every failure gives "" |
| QuestionWriter.CandidateCollapsed | app/services/question_generator.py:70-75 | the candidate is already collapsed, so the validator's verdict on it is its verdict on the raw text |
| QuestionWriter.FirstAccepted | app/services/question_generator.py:60-78 | a found question is non-empty, differs from the last question, passes the validator and is some reply's candidate; none is found exactly when no candidate qualifies |
| QuestionWriter.Outcome | app/services/question_generator.py:60-80 | never empty when the fallback is not; either the fallback or a candidate that is non-empty, differs from the last question and passes the validator; the fallback when no candidate qualifies, even if it equals the last question |
| QuestionWriter.AskTwice | app/services/question_generator.py:60-78 | at most two calls with the same request; the result is the first accepted of the replies received |
| QuestionWriter.GenerateQuestion | app/services/question_generator.py:31-80 | the question is never empty and is the `Outcome` of the replies received to at most two identical requests, with the table's fallback |
| Prefill.CleanValue | app/services/slot_prefill_llm.py:72-74 | at most 80 characters, a prefix of the collapsed text, empty exactly for a blank value |
| Prefill.KeptSlots | app/services/slot_prefill_llm.py:66-74 | exactly the slots that name a schema slot of the domain with a non-blank string, each cleaned |
| Prefill.CleanPrefill | app/services/slot_prefill_llm.py:61-74 | a domain appears exactly when one of its slots is kept |
| Prefill.CleanPrefillSound | app/services/slot_prefill_llm.py:61-74 | every kept entry is a schema pair with a non-empty cleaned value of at most 80 characters; every acceptable proposal is kept |
| Prefill.CleanNegatedMembers | app/services/slot_prefill_llm.py:76-81 | a negated name is kept exactly when, stripped, it is non-blank and names a slot of some schema domain, in original order |
| Prefill.Clean | app/services/slot_prefill_llm.py:61-87 | the domain list passes through as parsed; prefill and negated names are cleaned |
| Prefill.Outcome | app/services/slot_prefill_llm.py:50-94 | when no reply parsed, the result is the empty response |
| Prefill.OutcomeAfterMalformed | app/services/slot_prefill_llm.py:50-92 | after malformed replies, the next reply decides: cleaned if parsed, empty otherwise |
| Prefill.PrefillSlots | app/services/slot_prefill_llm.py:40-94 | blank text gives the empty response without a call; otherwise at most two calls, and the result is the `Outcome` of the replies |
| Prefill.PrefillRound | app/services/slot_prefill_llm.py:50-92 | one call with the payload; a parsed or crashed reply ends the loop with the `Outcome` so far, a malformed reply lets it go on with the empty result |
| Oracles.Oracle.Ask | app/services/openai_client.py:1 | each call appends the question and the reply to the logs |
| Interview.StartDomains | app/api/session_routes.py:47-58 | never empty: the prefill's domains, else the cause-derived domains, else time_pressure, distractions, academic_confidence |
| Interview.Session.constructor | app/db/repo.py:8-21 | an active session whose history is the text, with no domains, an empty store, the initial meta and no popups |
| Interview.ApplyPrefill | app/api/session_routes.py:50-56 | every allowed prefilled slot holds its value, every other slot is absent, and the negation list is built from the names |
| Interview.Configure | app/api/session_routes.py:45-58 | the meta records the causes; the session stays consistent, with a non-empty domain list |
| Interview.Controller.Start | app/api/session_routes.py:35-70 | blank text is rejected without a call or a session; otherwise a fresh active session holds the stripped text, the prefill `Outcome`'s writes and negations, the causes `CausesOutcome` of the detector's replies, and the start domains those give |
| Interview.SlotAnswerEffects | app/api/session_routes.py:115-159 | a rejection changes nothing; a clarifier records its key and writes nothing; a recorded answer is stored at its target only and clears the pending question |
| Interview.ClarifierAtMostOnce | app/api/session_routes.py:129-159 | after a clarifier, any non-empty answer to the same key is stored, so a key is clarified at most once |
| Interview.ComboAnswerEffects | app/api/session_routes.py:85-113 | an unparsed combo answer asks for the format and changes nothing; a parsed one clears the prompt, appends its emotion and leaves unnamed slots as they were |
| Interview.WithEmotion | app/api/session_routes.py:103-107 | a non-empty emotion is appended, anything else leaves the signals as they were |
| Interview.WriteAllUntouched | app/api/session_routes.py:99-101 | a pair no parsed entry names keeps its value |
| Interview.WriteAllWrites | app/api/session_routes.py:99-101 | an allowed pair named by an entry, and by no later entry, holds that entry's text |
| Interview.WriteParsed | app/api/session_routes.py:99-101 | the loop leaves the store equal to `WriteAll` of the entries |
| Interview.Controller.AnswerSlot | app/api/session_routes.py:115-159 | the session's response, meta, slots and history become `SlotAnswer` of the old ones |
| Interview.Controller.AnswerCombo | app/api/session_routes.py:85-113 | the session's response, meta, slots and history become `ComboAnswerStep` of the old ones |
| Interview.Controller.Answer | app/api/session_routes.py:73-159 | an unknown or inactive session is rejected and left unchanged; an active one steps by `AnswerStep` on the stripped answer, and the domains, status and popups are kept |
| Interview.ComboChoiceSound | app/api/session_routes.py:207-233 | a combo is chosen only while at most two questions were asked, only if not offered before, and only if it is relevant |
| Interview.FriendChoiceOffersNothing | app/api/session_routes.py:210-261 | once friend_compare_emotion is chosen, the combo branch offers nothing on that call |
| Interview.Excerpt | app/api/session_routes.py:294-310 | only academic_confidence, family_pressure and distractions ever get an excerpt |
| Interview.EmotionSignals | app/api/session_routes.py:433-438 | the signals are distinct, and are the stored ones without repeats followed by the inferred ones not already stored |
| Interview.Controller.ChooseCombo | app/api/session_routes.py:207-237 | an offer is the chosen combo with its generated question |
| Interview.Controller.OfferCombo | app/api/session_routes.py:235-261 | no offer leaves the session as it was; an offer is asked: the count goes up by one, the prompt is pending, the id joins the history, and the question joins the turns |
| Interview.Controller.GenericRound | app/api/session_routes.py:321-332 | no generic question retries with nothing changed; a generic question equal to the last one negates its slot and retries; otherwise it is chosen, with no writer call; slot values never change |
| Interview.Controller.Settle | app/api/session_routes.py:281-349 | no pick settles on nothing; a generic pick settles on the generic question or retries; a named pick settles on the writer's `Outcome` for the replies received, with the canned fallback; the writer is called only for a named pick |
| Interview.Controller.NamedRound | app/api/session_routes.py:294-336 | the named pair is chosen with the writer's `Outcome` for the replies received, at most two calls |
| Interview.Controller.PickSlot | app/api/session_routes.py:276-290 | the pick is the planner's `Pick` over the priority order for the verdicts the gate gave on this call, and `PlannerSearched`: every candidate before it was rejected by the negation list, the causes or the gate; a named pick is an allowed pair whose domain is under the cap |
| Interview.Controller.PlanRound | app/api/session_routes.py:276-349 | one pass: the pick is `Pick` for the gate's verdicts on this pass, reached only after every earlier candidate was rejected (`PlannerSearched`); no pick ends the loop, a chosen round is what the pick settles on; slot values never change; no chosen round means no writer call |
| Interview.Controller.Plan | app/api/session_routes.py:271-352 | the loop changes no slot value; a chosen round is what the last pass's pick settles on, that pick being `Pick` for the gate's verdicts on that pass and reached only after every earlier candidate was rejected (`PlannerSearched`); the writer is asked at most twice, and only for a chosen round |
| Interview.Controller.Ask | app/api/session_routes.py:354-372 | the question joins the history, the total and the domain count go up by one, and it becomes the pending and the last question |
| Interview.Controller.AskSettled | app/api/session_routes.py:354-360 | the settled question is asked unchanged and stays the one settled on; the meta becomes `AfterAsk` of the old one |
| Interview.Controller.AskPlanned | app/api/session_routes.py:271-372 | an asked question is what the last pass's `Pick` settles on, reached only after every earlier candidate was rejected (`PlannerSearched`); the meta becomes `AfterAsk` and the question joins the history; otherwise the session completes with `Generated` popups for its profile and merged signals, meta and history kept |
| Interview.Controller.Signals | app/api/session_routes.py:435-438 | the signals are distinct, and are the stored ones without repeats followed by the inferred ones not already stored |
| Interview.Controller.Popups | app/api/session_routes.py:433-440 | the popups are `Generated` from the profile, the merged signals and the replies received |
| Interview.Controller.Finish | app/api/session_routes.py:433-450 | the session is completed, keeps its meta, history, domains and slots, holds the popups `Generated` for its profile and merged signals, and the response counts them |
| Interview.Controller.Proceed | app/api/session_routes.py:263-372 | a stop from should_stop completes without a gate call; an asked question is what the last pass's `Pick` settles on, after every earlier candidate was rejected (`PlannerSearched`), with `AfterAsk` meta; a completion holds the `Generated` popups and keeps the meta; slot values never change |
| Interview.Controller.NextQuestion | app/api/session_routes.py:163-372 | an unknown or inactive session is rejected unchanged; a pending question is returned unchanged; the total rises by at most one and never past a ceiling of 3 or more; combo ids never repeat; an asked slot is what the last pass's `Pick` settles on, after every earlier candidate was rejected (`PlannerSearched`), with `AfterAsk` meta; a completion holds the `Generated` popups |
| Interview.Controller.constructor | app/config.py:17-19 | the controller holds the given budgets, the emotion order, the oracles, PRIORITY_ORDER, FALLBACK_QUESTIONS and validate_question |
| Interview.Controller.Proposals | app/services/slot_prefill_llm.py:40-94 | the proposal is the prefill `Outcome` of the replies received on this call |
| Interview.Controller.Causes | app/services/gpt_client.py:150-176 | the map is `CausesOutcome` of the replies received on this call |
| Interview.Controller.NextCombo | app/api/session_routes.py:207-237 | an offer is made only while at most two questions were asked, for a combo not offered before |
| Interview.Controller.WriteQuestion | app/api/session_routes.py:294-336 | the question is non-empty and is the writer's `Outcome` for the replies received, judged by validate_question against the stripped last question and falling back on the canned question; at most two calls |
| Interview.GenericQuestionNonEmpty | app/services/generic_questions.py:4-13 | a generic question is never empty |
| Interview.KeySplitsBack | app/api/session_routes.py:99-100 | the parser's "domain.slot" keys recover the pairs they were made from |
| Interview.WriteText | app/api/session_routes.py:151-153 | set_slot_value of a string: the pair reads the string when allowed, every other pair and the negation list are unchanged |
| Interview.WriteDomain | app/api/session_routes.py:52-56 | each allowed proposed slot of the domain reads its value; other slots and domains are unchanged |
| Interview.WritePrefill | app/api/session_routes.py:52-56 | every allowed proposed pair reads its value; every other pair and the negation list are unchanged |
| Interview.WriteEntry | app/api/session_routes.py:99-101 | one write at the entry's key: the key reads the text when allowed, every other pair is unchanged |
| PopupValidator.AllowedFriendNames | app/services/popup_validator.py:29-44 | exactly "friend", "friends" and the non-empty stripped, lower-cased friend name and comparison person |
| PopupValidator.FriendLabel | app/services/popup_validator.py:60-62 | no label exactly when the pattern matches nowhere; a label is the stripped, lower-cased group at any end the pattern allows |
| PopupValidator.LabelEndsAgree | app/services/popup_validator.py:60-62 | any two ends the pattern allows give the same stripped group |
| PopupValidator.ValidatePopupMessage | app/services/popup_validator.py:47-78 | an accepted message is non-blank |
| PopupValidator.NonBlankHasLine | app/services/popup_validator.py:69-78 | a non-blank message has a non-blank line, so the sentence branch is never reached |
| PopupValidator.ValidateVerdict | app/services/popup_validator.py:47-78 | accepted exactly when non-blank, a family prefix comes with a family member, and no chat label is rejected |
| PopupValidator.AcceptedLabel | app/services/popup_validator.py:60-67 | the label of an accepted message is a family root or an allowed friend name |
| PopupSchemas.TypeMapValues | app/services/popup_schemas.py:8-23 | every `TYPE_MAP` value is one of the five popup types |
| PopupSchemas.TypeKeyShape | app/services/popup_schemas.py:36 | a key has no upper-case letter, no "-" or " ", and no whitespace at its ends |
| PopupSchemas.NormalizeType | app/services/popup_schemas.py:33-37 | a non-string passes unchanged; a string is keyed and mapped through the table, and an unmapped key passes through |
| PopupSchemas.NormalizeTypeIdempotent | app/services/popup_schemas.py:33-37 | normalising a normalised type changes nothing |
| PopupSchemas.NormalizeMessageLines | app/services/popup_schemas.py:41-46 | the result splits into its kept lines: none blank, none with whitespace at its ends or doubled, and no other whitespace |
| PopupSchemas.NormalizeMessageIdempotent | app/services/popup_schemas.py:41-46 | normalize_message is idempotent |
| PopupSchemas.ValidatePopup | app/services/popup_schemas.py:26-46 | a validated popup has a popup type, ttl in 3000..15000 and a message of 5..180 characters before normalisation |
| PopupSchemas.ValidatedMessageNormal | app/services/popup_schemas.py:39-46 | a validated popup's message is already normal |
| PopupFallback.FallbackTemplatesWellFormed | app/services/popup_generator.py:12-21 | each template is two distinct clean lines, and those lines are the cards it makes |
| PopupFallback.TemplateTypesArePopupTypes | app/services/popup_generator.py:12-21 | every type with a template is a popup type |
| PopupFallback.FallbackSequence | app/services/popup_generator.py:24-32 | the loops return `FallbackOrder` |
| PopupFallback.FallbackOrderShape | app/services/popup_generator.py:24-32 | the order holds each type that has a template and is a signal or a default, once; first the signals, then the remaining defaults |
| PopupFallback.FallbackOrderTwo | app/services/popup_generator.py:24-32 | there are always at least two types to draw from |
| PopupFallback.FallbackPopups | app/services/popup_generator.py:35-62 | the cards and the seen set are `FallbackFrom` over the order |
| PopupFallback.FallbackExtends | app/services/popup_generator.py:35-62 | only fresh template cards with distinct keys are added; nothing is added once `count` cards exist; `count` is passed by at most one card |
| PopupFallback.FallbackOvershoot | app/services/popup_generator.py:41-61 | with nothing seen, asking for 3 cards gives 4 |
| PopupFallback.EnsureMinimumPopups | app/services/popup_generator.py:65-76 | the steps give `EnsureMinimum` |
| PopupFallback.EnsureMinimumShape | app/services/popup_generator.py:65-76 | at most 15 cards; the input (up to 15) is kept as a prefix; three or more pass through; added cards are fresh template cards with distinct keys |
| PopupGenerator.NormalizeTwoLinesShape | app/services/popup_generator.py:143-175 | one "\n" between two lines, each at most `max_line` long with no whitespace at its ends, the whole at most `max_total` |
| PopupGenerator.NormalizeKeepsShortLines | app/services/popup_generator.py:145-147 | short first two non-blank lines come back exactly |
| PopupGenerator.NormalizeTwoLinesFixed | app/services/popup_generator.py:143-175 | a result with two non-empty lines is a fixed point |
| PopupGenerator.Exploded | app/services/popup_generator.py:79-93 | one card per non-blank line (one when there is at most one), each with the original type and ttl, trimmed and without "\n" |
| PopupGenerator.ExplodePopup | app/services/popup_generator.py:79-93 | the loop returns `Exploded` |
| PopupGenerator.ClampTtl | app/services/popup_generator.py:209 | the ttl is clamped into 10000..14000 |
| PopupGenerator.ScreenPopup | app/services/popup_generator.py:204-223 | a non-dictionary is skipped; an entry raises exactly when its message or ttl cannot be read; kept cards are shown cards |
| PopupGenerator.GeneratedShape | app/services/popup_generator.py:178-247 | an empty profile gives []; otherwise 1 to 15 cards, each of a popup type with ttl in 10000..14000 and one trimmed line, keys distinct |
| PopupGenerator.GeneratePopups | app/services/popup_generator.py:178-247 | at most two calls with the same payload and none for an empty profile; the result is `Generated` from the replies |
| PopupGenerator.AskRound | app/services/popup_generator.py:187-201 | one call with the payload, and the outcome of its reply |
| Mutator.SafeOptions | app/services/question_mutator.py:33-44 | None for a non-list or a list that keeps nothing; it raises exactly when an entry raises; kept choices are non-empty, clean and no more than the entries |
| Mutator.CleanOptions | app/services/question_mutator.py:36-44 | the loop returns `SafeOptions` |
| Mutator.NoBackslashNoMatch | app/services/question_mutator.py:51 | a text without a backslash never matches the pattern, whatever digits it holds |
| Mutator.NudgeFirstNumber | app/services/question_mutator.py:47-50 | a non-string comes back unchanged |
| Mutator.NudgeNeverChanges | app/services/question_mutator.py:47-74 | every text comes back unchanged, with no change and no delta |
| Mutator.UnchangedMeansSame | app/services/question_mutator.py:52-72 | no change means the same text and no delta |
| Mutator.NudgedInteger | app/services/question_mutator.py:83-99 | an integer question comes back with options [] and nothing else changed |
| Mutator.NudgedScq | app/services/question_mutator.py:101-115 | an scq question gets one {label, text} option per dictionary entry, or keeps its options when there is none |
| Mutator.NudgedOther | app/services/question_mutator.py:77-117 | any other type comes back as it is |
| Mutator.DeterministicNudge | app/services/question_mutator.py:77-117 | the copy-and-assign steps give `Nudged` |
| Mutator.MergeAnswer | app/services/question_mutator.py:158-161 | only the answer changes, and a changed answer is a non-empty label that the options carry |
| Mutator.MutationShape | app/services/question_mutator.py:120-184 | other types and failed calls give the question back; the flag is exactly "the question changed"; a changed scq answer is a carried label; an integer question ends with options [] |
| Mutator.MutateQuestion | app/services/question_mutator.py:120-184 | one call with the base payload for scq and integer, none otherwise; the result is `MutationOf` the reply |
| Mutator.NudgedUnchanged | app/services/question_mutator.py:77-117 | the nudge never reports a change |
| Mutator.TypeOf | app/services/question_mutator.py:125 | the lower-cased type exists exactly when the question_type field is text-like |
| Mutator.NudgeInteger | app/services/question_mutator.py:83-99 | the integer branch returns `IntegerNudged` of the question |
| Mutator.NudgeScq | app/services/question_mutator.py:101-115 | the scq branch returns `ScqNudged` of the question |
| Mutator.MergeReply | app/services/question_mutator.py:150-168 | the field-by-field merge returns `Merged` of the question and the reply |
| Mutator.CleanLoop | app/services/question_mutator.py:36-44 | the loop stops at the first entry that raises and otherwise returns the kept choices: the result is `CleanAll` of the entries |
| Formatter.Lookup | app/api/question_routes.py:155-165 | a present key keeps its value, even null; an absent key gives the default |
| Formatter.MatchAt | app/api/question_routes.py:239-240 | a match starts with "(", a letter A-D and ")", and its content is non-empty, ends where the match ends and has no "(" after its first character |
| Formatter.Matches | app/api/question_routes.py:239-240 | every match has a letter A-D and non-empty content |
| Formatter.NoParenNoMatches | app/api/question_routes.py:239-240 | a text without "(" has no options |
| Formatter.StripTags | app/api/question_routes.py:242 | the result is no longer than the input and has only its characters |
| Formatter.StripTagsTagFree | app/api/question_routes.py:242 | no "<...>" tag with content is left |
| Formatter.CleanOptionShape | app/api/question_routes.py:242-243 | an option text is at most 200 characters, with no leading whitespace and no tag |
| Formatter.HtmlText | app/api/question_routes.py:240 | the text exists exactly for a falsy value or a string |
| Formatter.OptionsFromHtml | app/api/question_routes.py:235-252 | a result has at least four options |
| Formatter.OptionsShape | app/api/question_routes.py:235-252 | fails exactly for a truthy non-string; fewer than four matches give the four placeholders; otherwise option k comes from match k, with a letter A-D and a clean text |
| Formatter.NoParenPlaceholders | app/api/question_routes.py:245-251 | HTML without "(" gets the placeholders |
| Formatter.ExtractOptions | app/api/question_routes.py:235-252 | the loop returns `OptionsFromHtml` |
| Formatter.SubconceptsMembers | app/api/question_routes.py:257-259 | exactly the sub-concepts of dict tags that carry one |
| Formatter.SubconceptsAppend | app/api/question_routes.py:257-259 | tags are read in order |
| Formatter.SubconceptsInCases | app/api/question_routes.py:255-260 | a missing or falsy tag list gives []; a list gives its dict tags' sub-concepts; a string or dict gives []; a truthy number or boolean raises |
| Formatter.ExtractSubconcepts | app/api/question_routes.py:255-260 | the loop returns `SubconceptsIn` |
| Formatter.FormatQuestion | app/api/question_routes.py:145-232 | the index is idx + 1; the id is `_id` or "unknown"; mcq exactly for "mcq", integer exactly for "integerQuestion", scq otherwise |
| Formatter.ScqFailure | app/api/question_routes.py:154-180 | an scq layout fails exactly when the scq part is not a dict, its HTML is truthy but not a string, or the tag list is a truthy number or boolean |
| Formatter.ScqDefaults | app/api/question_routes.py:154-170 | without an scq part: the placeholder question, the four placeholder options and answer "A" |
| Formatter.McqFailure | app/api/question_routes.py:183-203 | the mcq layout fails exactly when its mcq or scq part is not a dict |
| Formatter.IntegerTexts | app/api/question_routes.py:206-217 | question and solution are never empty, taken from the integer part, then the scq part, then the placeholder |
| Formatter.IntegerIgnoresScq | app/api/question_routes.py:206-232 | a complete integer part makes the scq part irrelevant |
| Client.EscapeHtmlIsEach | static/app.js:298-305 | the replaceAll chain, "&" first, equals escaping each character independently |
| Client.EscapeHtmlSafe | static/app.js:298-305 | the output has no raw <, >, " or ' |
| Client.UnescapeEscape | static/app.js:298-305 | unescaping the output recovers the input |
| Client.Duration | static/app.js:291 | the duration is in [2000, 7000], 3500 for a falsy ttl, and the ttl itself inside the range |
| Client.NonBlankTrimmed | static/app.js:242-245 | the parts are non-empty and trimmed |
| Client.EntriesShape | static/app.js:239-259 | a null payload queues nothing; at most one non-blank line queues the payload unchanged; otherwise one popup per trimmed non-blank line, in order, with the same kind and the split ttl |
| Client.PartTtlShare | static/app.js:250-251 | a part's ttl is 2500 when the ttl (4000 when unset) is under 2500 per part; otherwise it is the largest q with q * parts <= ttl |
| Client.PopupQueue.Push | static/app.js:247-259 | the queue grows by exactly the payload's entries; nothing else changes |
| Client.PopupQueue.Enqueue | static/app.js:239-261 | the entries are enqueued; a card already up keeps the screen; otherwise the first entry goes on screen |
| Client.PopupQueue.Process | static/app.js:263-271 | nothing happens while a card is up or the queue is empty; otherwise the head is dequeued and shown |
| Client.PopupQueue.Done | static/app.js:267-270 | the next popup, if any, is dequeued and shown |
| Client.ShownInOrder | static/app.js:239-271 | what has been shown is the oldest part of what was queued, in order |
| Client.ShouldMutate | static/app.js:450-459 | true exactly for scq or integer questions not yet mutated with a digit in the stem or an option text |
| Client.MutatedStaysPut | static/app.js:450-459 | a question already marked mutated is never mutated again |
| Client.QuestionPanel.Load | static/app.js:421-423 | a new list starts at index 0 |
| Client.QuestionPanel.Render | static/app.js:313-327 | the index is clamped into the list when there is one |
| Client.QuestionPanel.Goto | static/app.js:441-448 | no-op on an empty list; otherwise the index moves by delta, clamped to the list |
| Client.QuestionPanel.ReplaceMutated | static/app.js:470-485 | a present, unmutated question is replaced by its mutated form; otherwise nothing changes; the index stays |
| Client.Appended | static/app.js:68 | at most 15000 characters, ending with "\n", a suffix of text + line + "\n", and all of it when short enough |
| Client.LogBox.Log | static/app.js:63-69 | the log text becomes `Appended` of the old text and the line |
| Client.Clamp | static/app.js:327 | the result lies in [lo, hi]; it is x inside the range, lo below it and hi above it |
| Client.HasDigit | static/app.js:450-459 | true exactly when some character is a decimal digit |
| Client.PopupQueue.constructor | static/app.js:13-14 | the queue starts empty with nothing on screen |
| Client.PopupQueue.PushParts | static/app.js:247-259 | the queue grows by one popup per part, in order, each with the split ttl; nothing else changes |
| Client.QuestionPanel.constructor | static/app.js:55-56 | the panel starts with no questions at index 0 |
| Client.LogBox.constructor | static/app.js:10 | the log starts empty |

## Left out

- HTTP plumbing: Flask blueprints, request parsing, `jsonify` and status codes. Each route's reply is the `Response` datatype.
- Persistence: the SQLAlchemy session and its commits. A stored session is the `Session` object itself, and its initial meta is the one app/db/repo.py:14-21 writes.
- Language-model calls (app/services/openai_client.py, the chat calls inside the services): foreign network calls. Each is an `Oracles.Oracle` whose replies are arbitrary; JSON decoding and pydantic validation are the reply datatypes and the `Readable`/`Parsed` checks.
- Realtime delivery, the scheduler thread, sockets, timers and logging setup: transport and concurrency.
- `QuestionIDLoader` and `AcadzaQuestionFetcher` of app/api/question_routes.py, and flask-caching: file I/O, randomness and HTTP. Only `QuestionFormatter` is modelled.
- The `status`, `debug`, `start-simulation` and `test-popup` routes: they only read or forward state the modelled routes produce.
- The DOM, fetch, sockets and timers of static/app.js: only the pop-up FIFO, escaping, display duration, question-panel index, mutation check and log text are modelled.
- Floating point: the integer grading tolerance and the progress percentage of static/app.js are left out.
- Mutator.Nudged: the `integer_answer` update uses exact integers instead of Python floats and rounding. The branch is unreachable, because `_nudge_first_number` never reports a change (`Mutator.NudgeNeverChanges`).
- Client.Duration, Client.PartTtl: a ttl is an integer, with 0 standing for every falsy value. JavaScript's non-integer and NaN ttls are not modelled.
- Client.Appended: `slice(-15000)` counts UTF-16 code units; the model counts characters.
- Text.ParseInt: Python's `int()` also accepts "_" between digits ("1_000") and non-ASCII decimal digits; the model returns None for both.
- PopupGenerator.TtlOf: JSON numbers are integers in this model, so a fractional ttl, which `int()` truncates at app/services/popup_generator.py:208, cannot be represented.
- Interview.Controller.constructor: PRIORITY_ORDER, FALLBACK_QUESTIONS and validate_question are constants of the controller that the constructor fixes; the methods use the constants and do not restate their values.
- Text and Relevance: lower-casing, whitespace and the regex word class `\w` are ASCII only. Unicode case folding and Unicode word characters are not modelled.
- Regular expressions: every concrete pattern (denials, banned words, whole-word keyword search, the option pattern, the nudge pattern, the chat-label pattern) is a hand-written predicate. No regex engine is modelled.
- Slots.InferEmotionSignals: `list(set(...))` has no specified order, so the contract states membership and distinctness, not order.
- Combo.NormalizeEmotion: which of several contained emotions is returned depends on set iteration order; the model takes that order as a parameter, and the contract states only that the result is one of the contained emotions.
- Schema.CannedQuestionsWellFormed: proves the shape of every canned question (one final "?", no ";" or "/"). It does not prove that each canned question passes `is_valid_question` (word count, banned words, phrasing).
- Interview.Controller.Plan: the contract states what the last pass settled on and keeps slot values, but does not state which slots the earlier passes negated. The pass limit `len(missing) + 3` is the `maxAttempts` argument, which `Interview.Controller.Proceed` computes.
- The crash path at app/api/session_routes.py:182-194: unreachable under `Interview.Session.Consistent`, see the notes above.
- The fallback after an empty written question (app/api/session_routes.py:338-349): not modelled, because generate_question never returns an empty question. The same generic-question logic for a tier-three pick is `Interview.Controller.GenericRound`.
- showPopupCard's rendering without an overlay and its hide timer: the timer's expiry is the `Client.PopupQueue.Done` call.
- mutateQuestionAt's await: the reply is applied as if no other navigation happened meanwhile; the race between the request and user navigation is not modelled.
- Pop-up payload fields other than kind, message and ttl are not modelled; they are copied unchanged in the source.
