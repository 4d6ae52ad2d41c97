# A verified model of the voice tutor's core logic

The voice tutor is an AI tutor the learner talks to. A Node server holds the conversation with a
language model. A browser client plays the speech, captures the microphone and shows the lesson
on a paged dashboard. This project models the parts of both sides that are data-shaped and
sequential, and proves properties about them in Dafny:

- **The assistant's directive parser** (`parseResponseForContent`). It scans the completion text
  for `{section: "…"}`, `{highlight: "…"}`, `{question: "…", options: […]}`, `{page_break}`,
  `{mermaid: ```…```}` and `{image: "…"}`. Each tag becomes a content action and is deleted from
  the text; what is left, trimmed, is the speech.
- **The rest of the assistant**: the `[endCall]` short cut of `createResponse`, the two-message
  prompt of `_assemblePrompt`, and the tool text chosen by the constructor.
- **The conversation session.** It holds the transcript (`history`), the call log, the learning
  phase machine (`initial → assessment → preparation → learning`), the `sections` and
  `userResponses` accumulators, the interrupt marker, and the two topic patterns.
- **The client's audio pipeline**: the `Playback` frame queue with its drain step, `clear`,
  `stop` and `addSamples`; the `Streamer` speaking gate; and the dispatch of the control tokens
  `RDY`, `EOS`, `INT` and `CLR`.
- **The `ResponseSynchronizer`**, which fires timestamped whiteboard actions at most once each.
- **The dashboard's data logic**: page slicing, page navigation, content-action intake,
  prefix stripping, the answer counter and the end of a session. Also the content pane's
  grouping by sections and its escaping of the highlight pattern.

Code that mutates objects is modelled as Dafny classes whose methods are proved against
specification functions. These are `Session.Conversation`, `ClientAudio.Playback`,
`ClientAudio.Streamer`, `ClientAudio.Client` and `Synchronizer.ResponseSynchronizer`. The
source's loops are modelled as methods with loop invariants: the six extraction loops,
`getLatestTopic`, `getCurrentPageContent`, `groupContentBySections` and the filter-then-fire loop
of the synchroniser. Pure code and React state updates are functions, and the properties are
lemmas about them.

Modules, one per concern:

- wrappers.dfy (module `Wrappers`): `Option`
- js_string.dfy (module `JsString`): the JavaScript string operations used: `\s`, `trim`, `indexOf`, `includes`, `startsWith`, `replace` with a string pattern, `split`
- actions.dfy (module `Actions`): the content action records shared by server and client
- directive_parser.dfy (module `DirectiveParser`): `parseResponseForContent`
- parser_facts.dfy (module `ParserFacts`): properties of the parser
- parser_tags.dfy (module `ParserTags`): what each expression matches when a tag is written out in full, and the section loop and parse on such a tag
- assistant.dfy (module `Assistant`): the constructor's tool choice, `_assemblePrompt`, `createResponse`
- topic.dfy (module `Topic`): `extractTopicFromMessage` and the pattern of `getLatestTopic`
- conversation.dfy (module `Session`): the `Conversation` class
- client_audio.dfy (module `ClientAudio`): `Playback`, `Streamer` and the token dispatch of `app.tsx`
- response_synchronizer.dfy (module `Synchronizer`): the `ResponseSynchronizer` class
- learning_dashboard.dfy (module `Dashboard`): `LearningDashboard`'s state updates and page loop
- content_display.dfy (module `ContentDisplay`): `groupContentBySections` and the highlight escape

Where the model follows the JavaScript semantics of the code rather than a simpler reading:

- `\s` and `trim` use the whole ECMAScript white-space and line-terminator set, not only ASCII
  white space.
- `.` does not match line terminators.
- `String.prototype.replace` with a string pattern replaces only the first occurrence, and
  `$`-patterns in the replacement are expanded (section 22.1.3.19.1 of ECMA-262, GetSubstitution).
- Each global expression's `lastIndex` is not rewound after the text shrinks, and the model
  keeps that behaviour: `ParserFacts.AdjacentPageBreakSkipped` shows that a `{page_break}`
  directly after another is left in the speech.

## Model

| member | source | states |
|---|---|---|
| JsString.SkipSpaces | server/lib/assistant.js:117-122 | `\s*` from `i` stops at the first index that is not white space, and everything it spans is white space |
| JsString.TrimStart | server/lib/assistant.js:184 | the result is a suffix of the input that does not start with white space |
| JsString.TrimStartRemovesSpace | server/lib/assistant.js:184 | every character that `trimStart` drops is white space |
| JsString.TrimEnd | server/lib/assistant.js:184 | the result is a prefix of the input that does not end with white space |
| JsString.TrimEndRemovesSpace | server/lib/assistant.js:184 | every character that `trimEnd` drops is white space |
| JsString.Trim | server/lib/assistant.js:184 | `trim()` gives a text no longer than the input that neither starts nor ends with white space |
| JsString.TrimPosition | server/lib/assistant.js:184 | the trimmed text is the slice of the input after the leading white space |
| JsString.TrimRemovesSpace | server/lib/assistant.js:184 | everything before and after the trimmed slice is white space |
| JsString.TrimEmpty | web/src/components/LearningDashboard.jsx:210 | `s.trim()` is empty exactly when `s` is all white space |
| JsString.TrimOfTrimmed | server/lib/assistant.js:148 | trimming a text with no white space at either end leaves it unchanged |
| JsString.FindFrom | server/lib/assistant.js:92 | the search finds the first occurrence at or after `from`, or proves there is none |
| JsString.IndexOf | server/lib/assistant.js:92 | `indexOf` gives an occurrence with none before it, and none only when the text does not occur |
| JsString.IndexOfFirst | server/lib/assistant.js:93 | an occurrence with none before it is exactly what `indexOf` returns |
| JsString.SubstitutionLiteral | server/lib/assistant.js:51-55 | a replacement text without `$` is inserted literally |
| JsString.RemoveFirst | server/lib/assistant.js:93 | `replace(t, "")` deletes exactly the first occurrence of `t`, keeps everything around it, and shortens the text by the length of `t` |
| JsString.ReplaceLiteral | server/lib/assistant.js:51-55 | `replace` with a `$`-free text puts it in place of the first occurrence and keeps the rest |
| JsString.Split | server/lib/assistant.js:148 | `split(c)` gives at least one part, no part holds `c`, and joining the parts with `c` gives the input back |
| JsString.SplitJoin | server/lib/assistant.js:148 | splitting a join of separator-free parts gives the parts back |
| Actions.AppendKindMajor | server/lib/assistant.js:128-181 | appending a block of one kind after actions of earlier kinds keeps the actions grouped by kind in extraction order |
| Actions.FirstOfKind | web/src/components/LearningDashboard.jsx:121-132 | the action returned by `filter(...)[0]` is of the requested kind |
| Actions.FirstOfKindIsFirst | web/src/components/LearningDashboard.jsx:121-132 | `filter(...)[0]` is the earliest action of the kind, and is missing exactly when the batch has no action of that kind |
| Actions.SectionTitlesAppend | web/src/components/LearningDashboard.jsx:111-114 | the section titles of two batches are those of the first followed by those of the second |
| Actions.CountPageBreaksAppend | web/src/components/LearningDashboard.jsx:117-120 | page breaks of two batches add up |
| DirectiveParser.Prefix | server/lib/assistant.js:117-122 | each expression's leading literal starts with `{` and has at least 7 characters |
| DirectiveParser.PrefixIdentifiesKind | server/lib/assistant.js:117-122 | two expressions' leading literals share their second character exactly when they are the same expression, so at most one kind can match at a place |
| DirectiveParser.RegexOfWellFormed | server/lib/assistant.js:117-122 | each of the six expressions starts with a non-empty literal and captures as many groups as its action needs |
| DirectiveParser.FindChar | server/lib/assistant.js:117 | `[^c]+` stops at the first `c` at or after `i`, and no character it spans is `c` |
| DirectiveParser.LazyFind | server/lib/assistant.js:119 | `(.*?)` followed by a literal ends at the first place the literal stands, without crossing a line terminator |
| DirectiveParser.StepAt | server/lib/assistant.js:117-122 | a step matched at `i` ends within the text, and captures a group exactly when it is a capture step |
| DirectiveParser.Prepend | server/lib/assistant.js:117-122 | a step's group, if it has one, comes before the groups of the steps after it |
| DirectiveParser.Run | server/lib/assistant.js:117-122 | a run of steps ends within the text and captures one group per capture step, in the order of the steps |
| DirectiveParser.ActionOfKind | server/lib/assistant.js:130-178 | each loop builds an action of its own expression's kind |
| DirectiveParser.MatchAt | server/lib/assistant.js:129 | a match starts with its expression's leading literal, lies inside the text, and gives an action of the expression's kind |
| DirectiveParser.Exec | server/lib/assistant.js:129 | `exec` with `lastIndex == from` finds the leftmost match at or after `from`, or proves there is none |
| DirectiveParser.DeleteMatch | server/lib/assistant.js:134 | deleting the matched text shortens the text by the match's length |
| DirectiveParser.DeleteMatchRemovesFirst | server/lib/assistant.js:134 | `replace(match[0], '')` deletes the first occurrence of the matched text, which starts at or before the match, and keeps everything else |
| DirectiveParser.DeleteMatchItself | server/lib/assistant.js:134 | when the matched text does not occur earlier, the match itself is deleted |
| DirectiveParser.SearchFor | server/lib/assistant.js:129 | the search of each kind is `Exec` of its expression, and every match it returns fits the text and has that kind |
| DirectiveParser.ExtractOne | server/lib/assistant.js:129-135 | one loop turn shrinks the text and leaves the rest of the loop's outcome unchanged |
| DirectiveParser.Extract | server/lib/assistant.js:129-135 | the `while (exec)` loop ends with the text and the actions of `Scan`, which searches on from the pre-deletion end of each match |
| DirectiveParser.ParseResponseForContent | server/lib/assistant.js:110-187 | the six loops in order, then the trimmed remainder as speech, give exactly `Parse` |
| DirectiveParser.Parse | server/lib/assistant.js:184 | the speech neither starts nor ends with white space |
| DirectiveParser.StripQuotes | server/lib/assistant.js:148 | an option is kept unchanged exactly when it neither starts nor ends with `"`, and cleaning adds no character |
| DirectiveParser.OptionsCommaFree | server/lib/assistant.js:148 | cleaning a part without a comma gives an option without a comma |
| DirectiveParser.Options | server/lib/assistant.js:148 | there is one option per comma-separated part, so no option holds a comma, quoted or not |
| ParserFacts.ScanFromKind | server/lib/assistant.js:129-135 | a loop only collects actions of its own kind |
| ParserFacts.ScanKind | server/lib/assistant.js:129-135 | every action one extraction loop returns has its expression's kind |
| ParserFacts.BlocksKindMajor | server/lib/assistant.js:128-181 | six blocks, one per kind in extraction order, concatenate to kind-major actions |
| ParserFacts.ParseKindMajor | server/lib/assistant.js:128-181 | every section comes before any highlight, every highlight before any question, and so on through page breaks, diagrams and images |
| ParserFacts.MatchStartsAtBrace | server/lib/assistant.js:117-122 | every match starts at a `{` with its expression's leading literal |
| ParserFacts.NoMatchAtBraces | server/lib/assistant.js:129 | `exec` finds nothing when no `{` from `lastIndex` on starts a match |
| ParserFacts.ScanNothing | server/lib/assistant.js:129-135 | a loop whose first search fails leaves the text alone and collects nothing |
| ParserFacts.ParseWithoutMatches | server/lib/assistant.js:110-187 | text in which no expression matches gives no actions, and all of it, trimmed, is the speech |
| ParserFacts.ParseWithoutBraces | server/lib/assistant.js:110-187 | text without a `{` gives no actions and speech equal to the text trimmed |
| ParserFacts.StepEndsWithBrace | server/lib/assistant.js:117-122 | a closing literal step ends right after a `}` |
| ParserFacts.RunEndsWithBrace | server/lib/assistant.js:117-122 | steps that end with a closing literal match text that ends with `}` |
| ParserFacts.RegexClosesWithBrace | server/lib/assistant.js:117-122 | every expression's last step ends with `}` |
| ParserFacts.MatchOfClosingRegex | server/lib/assistant.js:117-122 | a match of an expression whose last step closes with `}` is non-empty and ends with `}` |
| ParserFacts.MatchEndsWithBrace | server/lib/assistant.js:117-122 | every match of the six expressions ends with a `}` |
| ParserFacts.ParseWithoutClosingBrace | server/lib/assistant.js:110-187 | text without a `}`, such as `{section: unterminated`, gives no actions and speech equal to the text trimmed |
| ParserFacts.QuotedBodyRun | server/lib/assistant.js:117 | after `{section:` and white space, a match needs a `"` followed by a character other than `"` |
| ParserFacts.QuotedKindBody | server/lib/assistant.js:117-122 | the section, highlight and image expressions share the body `\s*"([^"]+)"}` |
| ParserFacts.RunAfterLiteral | server/lib/assistant.js:117-122 | a match continues right after its leading literal |
| ParserFacts.EmptySectionNoMatch | server/lib/assistant.js:117 | `{section: ""}` is no section: the title group needs at least one character |
| ParserFacts.PrefixMismatch | server/lib/assistant.js:117-122 | a text whose second character differs from an expression's has no match of it at 0 |
| ParserFacts.EmptySectionAlone | server/lib/assistant.js:117-122 | no expression matches a text that opens with `{section: ""}` and has no other `{` |
| ParserFacts.ParseEmptySection | server/lib/assistant.js:110-187 | `{section: ""}` followed by text without a `{` gives no actions and the whole text, trimmed, as speech |
| ParserFacts.PageBreakMatch | server/lib/assistant.js:120 | `{page_break}` matches wherever its text stands, as a 12-character page break |
| ParserFacts.AdjacentFirstTurn | server/lib/assistant.js:158-163 | on two page breaks in a row the first search finds the first tag at 0 and deletes it |
| ParserFacts.AdjacentSecondTurn | server/lib/assistant.js:158 | the next search starts at 12, past the remaining tag, and finds nothing |
| ParserFacts.AdjacentPageBreakSkipped | server/lib/assistant.js:158-163 | because `lastIndex` is not rewound, the second of two adjacent page breaks stays in the text and only one action is collected |
| ParserFacts.StripQuotesQuoted | server/lib/assistant.js:148 | a quoted option loses exactly its two quotes |
| ParserFacts.StripQuotesUnquoted | server/lib/assistant.js:148 | an option that neither starts nor ends with a quote is kept as it is |
| ParserFacts.OptionsOfQuoted | server/lib/assistant.js:148 | options written as comma-free quoted parts come out as the quoted texts, in order |
| ParserTags.SpacesStep | server/lib/assistant.js:117 | `\s*` from `i` ends at the first character that is not white space and captures nothing |
| ParserTags.CaptureStep | server/lib/assistant.js:117 | `([^c]+)` ends at the first `c` after at least one other character and captures what lies before it |
| ParserTags.LazyFindAt | server/lib/assistant.js:119 | `(.*?)` before a literal ends at the first place the literal stands, when no line terminator comes before it |
| ParserTags.RunThen | server/lib/assistant.js:117-122 | a step followed by more steps matches where the step and then the rest match, its group first |
| ParserTags.DelimitedThen | server/lib/assistant.js:117-122 | white space, an opening literal, a text without the closing character and the closing literal match and capture exactly that text |
| ParserTags.TagRun | server/lib/assistant.js:117-122 | a match is the leading literal followed by a run of the body, and it builds the action from the run's groups |
| ParserTags.DelimitedMatch | server/lib/assistant.js:117-122 | a one-group expression matches its tag written out with any white space and any text without the closing character, and the action holds that text |
| ParserTags.SectionTagMatch | server/lib/assistant.js:117 | `{section:` white space `"t"}` with `t` non-empty and quote-free matches as a section titled `t`, of the tag's length |
| ParserTags.HighlightTagMatch | server/lib/assistant.js:118 | `{highlight:` white space `"t"}` matches as a highlight of `t`, of the tag's length |
| ParserTags.ImageTagMatch | server/lib/assistant.js:122 | `{image:` white space `"u"}` matches as an image at `u`, of the tag's length |
| ParserTags.MermaidTagMatch | server/lib/assistant.js:121 | `{mermaid:` white space, three backquotes, a backquote-free `d`, three backquotes and `}` match as the diagram `d` |
| ParserTags.LazyLast | server/lib/assistant.js:119 | `(.*?)\]}` captures the text before the first `]}` when no line terminator comes before it |
| ParserTags.BracketRun | server/lib/assistant.js:119 | `\s*\[(.*?)\]}` captures the text between the `[` and the first `]}` |
| ParserTags.NoEarlierClose | server/lib/assistant.js:119 | an options text without `]}` and line terminators holds no earlier place for the lazy capture to stop |
| ParserTags.OptionsAt | server/lib/assistant.js:119 | `,\s*options:\s*\[` … `]}` written out with white space captures the options text exactly |
| ParserTags.QuestionBodyAt | server/lib/assistant.js:119 | the question body written out captures the question text and then the options text |
| ParserTags.QuestionRun | server/lib/assistant.js:119 | a run of the question body after `{question:` is a match with two groups |
| ParserTags.QuestionTagMatch | server/lib/assistant.js:119-152 | a written-out question tag matches as a question holding its text and the options cleaned from its bracket text, of the tag's length |
| ParserTags.SectionFirstMatch | server/lib/assistant.js:129 | a text that opens with a section tag has its first section match at 0 |
| ParserTags.SectionLoopOnTag | server/lib/assistant.js:129-135 | the section loop on a section tag followed by text without `{` collects that one section and leaves the text after the tag |
| ParserTags.ParseSection | server/lib/assistant.js:110-187 | a section tag followed by text without `{` parses to that section and the rest of the text, trimmed, as speech |
| Assistant.NewAssistant | server/lib/assistant.js:29-32 | the tools are `"N/A"` exactly when `canHangUp === false` and the hang-up text otherwise; the system prompt is the given one or the default |
| Assistant.AssemblePrompt | server/lib/assistant.js:49-69 | the prompt is exactly two messages: the system prompt first, then a user message |
| Assistant.Prompt | server/lib/assistant.js:71-77 | the `prompt` getter is two messages, the first being the assistant's system prompt |
| Assistant.NoBraceNoSlot | server/lib/assistant.js:267-273 | a placeholder cannot start at a character that is not `{` |
| Assistant.InstructionsSlotFirst | server/lib/assistant.js:51-54 | `{instructions}` first stands right after the template's head |
| Assistant.FirstReplacement | server/lib/assistant.js:51-54 | the first replacement puts the instructions in place of `{instructions}` and keeps the rest of the template |
| Assistant.ToolsSlotFirst | server/lib/assistant.js:55 | after it, `{tools}` first stands at the template's own slot, unless the instructions contain `{tools}` |
| Assistant.AssembledPrompt | server/lib/assistant.js:49-69 | the user message is the template with the instructions and then the tools each substituted once |
| Assistant.CreateResponse | server/lib/assistant.js:92-107 | with `[endCall]` the tool is `endCall`, no parsing runs and the text loses one token's length; otherwise the content and actions are those of the parser and no tool is selected |
| Assistant.EndCallRemovesFirst | server/lib/assistant.js:92-93 | on the hang-up path only the first `[endCall]` is cut out and the rest is kept verbatim |
| Topic.LazyEnd | server/lib/conversation.js:207 | the lazy topic capture ends at the first `.`, `?` or end of text from the shortest capture on, without crossing a line terminator |
| Topic.LazyEndFinds | server/lib/conversation.js:207 | the lazy capture ends exactly at the first stop when no line terminator comes before it |
| Topic.CaptureBacktracking | server/lib/conversation.js:207 | a capture found while `\s+` gives back characters is non-empty |
| Topic.CaptureAfter | server/lib/conversation.js:207 | the capture after `\s+` is non-empty |
| Topic.PatternAt | server/lib/conversation.js:207 | a match at an index has a non-empty capture |
| Topic.PatternAtPhrase | server/lib/conversation.js:207 | a match starts with one of the pattern's phrases, ignoring ASCII case |
| Topic.FirstMatch | server/lib/conversation.js:208 | `match` gives the capture of the leftmost matching index, or proves no index matches |
| Topic.ExtractTopicFromMessage | server/lib/conversation.js:205-215 | the topic never starts or ends with white space |
| Topic.LatestTopicIn | server/lib/conversation.js:115-119 | a topic is found only in a message that contains "learn about" in some case, and it is trimmed |
| Topic.TopicWithoutPhrase | server/lib/conversation.js:213-214 | without either phrase the topic is the whole message trimmed |
| Topic.CaptureOfTopic | server/lib/conversation.js:207 | a phrase, one space and a topic without stops or line terminators, then a stop or the end, capture exactly the topic |
| Topic.FirstMatchAt | server/lib/conversation.js:208 | the leftmost match is the first index at which the pattern matches |
| Topic.CaptureAfterPhrase | server/lib/conversation.js:207 | a phrase, one space, a topic without stops or line terminators, then a stop or the end, capture exactly the topic |
| Topic.LearnAboutTopic | server/lib/conversation.js:207-210 | "learn about X" anywhere in the message, with neither phrase earlier, followed by the end, `.` or `?`, gives X, trimmed, as the topic |
| Topic.LatestLearnAboutTopic | server/lib/conversation.js:115-119 | "learn about X" with no "learn about" earlier gives X, trimmed, as the latest topic |
| Topic.TeachMeAboutTopic | server/lib/conversation.js:207-210 | "teach me about X" anywhere in the message, with neither phrase earlier, gives X to `extractTopicFromMessage`, while the pattern of `getLatestTopic` does not match there |
| Topic.TopicRequest | web/src/components/LearningDashboard.jsx:195-196 | the request the dashboard sends for a picked topic, "I want to learn about X. …", gives X, trimmed, to both topic functions of the server |
| Session.Start | server/lib/conversation.js:15-35 | a new conversation's history is the assistant's two-message prompt, its log holds only `INIT`, its phase is `initial` and its accumulators are empty |
| Session.ExtendsTrans | server/lib/conversation.js:234 | growing only at the end is transitive |
| Session.PhaseUpdatedExtends | server/lib/conversation.js:82-105 | a phase change sets the phase, logs one phase-change entry and pushes one `learning_phase` notice; entering `assessment` pushes a second notice with the given topic, or else the latest topic of the history, when that is not empty |
| Session.AssessmentTopicNotice | server/lib/conversation.js:94-104 | entering `assessment` announces the given topic if it is not empty, else the latest topic of the history if that is not empty, else nothing |
| Session.PhaseAdvancedExtends | server/lib/conversation.js:134-151 | a user message's phase step moves `initial` to `assessment` on a non-empty message with its notices, `assessment` to `preparation` from three answers with the phase notice and then `preparation_started`, and otherwise changes nothing |
| Session.RespondedExtends | server/lib/conversation.js:157-196 | handling a response adds its non-empty text to the history and its section titles to `sections`, and leaves the phase and answers alone |
| Session.UserMessageHistory | server/lib/conversation.js:129-197 | a user message adds exactly that message, then the non-empty reply, to the history, and one answer; nothing is removed or reordered |
| Session.UserMessagePhase | server/lib/conversation.js:134-151 | the phase moves only from `initial` on a non-empty message and from `assessment` once there are three answers, and the client is sent the message's line and then those phase notices before anything of the response |
| Session.UserMessageSections | server/lib/conversation.js:157-170 | `sections` grows by the response's section titles in order, and only when the content is not empty |
| Session.RespondedHangUp | server/lib/conversation.js:179-189 | `endCall` logs the tool, then pushes the hang-up notice and ends the call; no other response ends it |
| Session.UserMessageHangUp | server/lib/conversation.js:185-188 | a completion holding `[endCall]` ends the call after the user message that prompted it |
| Session.InterruptNoted | server/lib/conversation.js:25-27 | an interruption appends the marker to the history as a user message, one transcript entry to the log and the marker's line to the client's effects, and leaves the phase, sections and answers alone |
| Session.TimerAndEndExtend | server/lib/conversation.js:21-24 | the end of the call only adds to the log and effects; the preparation timer only adds and sets `learning` |
| Session.NewestFirstFinds | server/lib/conversation.js:113-122 | the backward search answers with the newest message that has an answer, and with nothing only when none has |
| Session.LatestTopicNewest | server/lib/conversation.js:111-123 | `getLatestTopic` gives the topic of the newest user message that has one, and `null` only when no user message has a topic |
| Session.Conversation.constructor | server/lib/conversation.js:15-35 | the new object's state is `Start` |
| Session.Conversation.AddToCallLog | server/lib/conversation.js:222-225 | exactly one entry is appended to the call log |
| Session.Conversation.NoteWhatWasSaid | server/lib/conversation.js:232-238 | one transcript log entry, one history message and one `"<speaker>: <message>"` meta push |
| Session.Conversation.GetLatestTopic | server/lib/conversation.js:111-123 | the index loop from the newest message back returns `LatestTopic(history)` |
| Session.Conversation.UpdateLearningPhase | server/lib/conversation.js:82-105 | the phase, the notice and the log entry of `PhaseUpdated`, with the extra assessment notice when a topic is known |
| Session.Conversation.AdvancePhase | server/lib/conversation.js:133-151 | the user message's phase step is `PhaseAdvanced` |
| Session.Conversation.SendContentActions | server/lib/conversation.js:69-76 | a non-empty action list is pushed once; an empty one is not |
| Session.Conversation.Speak | server/lib/conversation.js:157-176 | a non-empty reply is noted, its actions and section titles recorded, and its audio pushed |
| Session.Conversation.Respond | server/lib/conversation.js:157-196 | the response is spoken, its tool logged and `endCall` honoured, as `Responded` |
| Session.Conversation.OnUserMessage | server/lib/conversation.js:129-197 | the handler's new state is `HandleUserMessage` with the response `createResponse` makes of the completion |
| Session.Conversation.OnInterrupt | server/lib/conversation.js:25-27 | the handler notes the interrupt marker as a user message |
| Session.Conversation.OnPreparationElapsed | server/lib/conversation.js:148-150 | the timer moves the phase to `learning` |
| Session.Conversation.OnCallEnded | server/lib/conversation.js:21-24 | `CALL_ENDED` is logged, then the whole log is handed to `onEnd` |
| ClientAudio.SilenceFrame | web/src/app.tsx:216 | the silence block is 1024 zero samples |
| ClientAudio.Drain | web/src/app.tsx:203-219 | with frames queued the front one is played and removed, `playbackStart` exactly after silence; otherwise silence is played, `playbackEnd` exactly after sound |
| ClientAudio.RunOpsAlternate | web/src/app.tsx:203-219 | over drain steps and `addSamples` calls, `playbackStart` and `playbackEnd` keep alternating and agree with the last frame played |
| ClientAudio.FreshRunAlternates | web/src/app.tsx:196-219 | from a new playback, the drain events alternate, `playbackStart` first |
| ClientAudio.Flushed | web/src/app.tsx:227-235 | `clear` reports true exactly when frames were queued, empties the queue, resumes, returns to silence and emits no `playbackEnd` |
| ClientAudio.ClearBreaksAlternation | web/src/app.tsx:227-235 | clearing during sound loses the `playbackEnd`, so two `playbackStart` events follow each other |
| ClientAudio.Playback.constructor | web/src/app.tsx:199-201 | a new playback is empty, silent and suspended |
| ClientAudio.Playback.OnAudioProcess | web/src/app.tsx:203-219 | the callback's frame and new state are those of `Drain` |
| ClientAudio.Playback.Clear | web/src/app.tsx:227-235 | the answer and new state are those of `Flushed` |
| ClientAudio.Playback.Start | web/src/app.tsx:237-239 | `start()` only resumes the audio context |
| ClientAudio.Playback.Stop | web/src/app.tsx:241-251 | a graceful stop with frames queued re-schedules itself, with none does nothing; otherwise the context is suspended |
| ClientAudio.Playback.AddSamples | web/src/app.tsx:253-255 | the frame joins the tail of the queue and nothing else changes |
| ClientAudio.Socket.Send | web/src/app.tsx:144 | a send appends exactly one message to what was sent |
| ClientAudio.Streamer.constructor | web/src/app.tsx:123-134 | a new streamer is bound to its socket and the user is not speaking |
| ClientAudio.Streamer.OnSpeechStart | web/src/app.tsx:136-140 | `speechStart` is emitted and the user is speaking |
| ClientAudio.Streamer.OnSpeechEnd | web/src/app.tsx:141-146 | `EOS` is sent and the user no longer speaks |
| ClientAudio.Streamer.OnAudioProcess | web/src/app.tsx:168-172 | a captured block is sent exactly when the socket is open and the user is speaking |
| ClientAudio.Dispatch | web/src/app.tsx:49-66 | a binary message is queued and changes nothing else, `CLR` empties the queue and returns to silence as `clear` does, `RDY` arms one voice-detection start and leaves the playback alone, other texts are ignored, and `INT` goes back exactly when a `CLR` found frames queued |
| ClientAudio.Client.constructor | web/src/app.tsx:69-78 | the client's streamer shares its socket, and the playback is created empty and silent and then started, so it is not suspended |
| ClientAudio.Client.OnMessage | web/src/app.tsx:49-66 | the socket handler's effect on the playback, the armed listeners and the socket is `Dispatch` |
| ClientAudio.Client.OnSpeechStart | web/src/app.tsx:79-86 | on `speechStart` the playback is cleared and `INT` is sent exactly when frames were queued |
| ClientAudio.Client.OnPlaybackProcess | web/src/app.tsx:60-63 | a `playbackEnd` fires every armed `once` listener, each starting voice detection once |
| Synchronizer.Due | web/src/utils/ResponseSynchronizer.js:127-129 | the filtered cues are untriggered cues of the list whose time has come |
| Synchronizer.MarkDue | web/src/utils/ResponseSynchronizer.js:132-139 | each cue is marked triggered when it was due and is otherwise unchanged |
| Synchronizer.PendingSome | web/src/utils/ResponseSynchronizer.js:142 | the pending count is positive exactly when `some(action => !action.triggered)` |
| Synchronizer.FiredAndPending | web/src/utils/ResponseSynchronizer.js:127-139 | a step fires exactly the cues it marks: fired plus still pending equals pending before |
| Synchronizer.FiresOnce | web/src/utils/ResponseSynchronizer.js:128 | a cue that fired is never due again, whatever the time |
| Synchronizer.AllTriggeredQuiet | web/src/utils/ResponseSynchronizer.js:127-139 | once every cue has fired, a step fires and changes nothing |
| Synchronizer.Processed | web/src/utils/ResponseSynchronizer.js:36-58 | a message is taken exactly when it is `whiteboard_actions` with actions; the list is then replaced by copies of them, and otherwise nothing changes |
| Synchronizer.ProcessReplaces | web/src/utils/ResponseSynchronizer.js:41-50 | the list is replaced, not appended to, and a new cue is triggered exactly when there is a callback and its time is at most 1 |
| Synchronizer.IdleStep | web/src/utils/ResponseSynchronizer.js:122 | a loop step when not playing does nothing and does not re-arm |
| Synchronizer.PlayingStep | web/src/utils/ResponseSynchronizer.js:124-144 | a step while playing marks every cue whose time has come, even without a callback, and re-arms exactly while some cue is untriggered |
| Synchronizer.ResetIsQuiet | web/src/utils/ResponseSynchronizer.js:150-158 | after `reset` the list is empty, nothing plays, and a restart fires nothing |
| Synchronizer.ResponseSynchronizer.constructor | web/src/utils/ResponseSynchronizer.js:6-13 | a new synchroniser has no actions, is not playing, and has no start time or callbacks |
| Synchronizer.ResponseSynchronizer.SetActionCallback | web/src/utils/ResponseSynchronizer.js:19-21 | only the action callback changes |
| Synchronizer.ResponseSynchronizer.SetSpeakingCallback | web/src/utils/ResponseSynchronizer.js:27-29 | only the speaking callback changes |
| Synchronizer.ResponseSynchronizer.NotifySpeaking | web/src/utils/ResponseSynchronizer.js:89-91 | the speaking callback, if set, receives the value |
| Synchronizer.ResponseSynchronizer.FireDue | web/src/utils/ResponseSynchronizer.js:127-139 | the filter-then-`forEach` loop marks the due cues and reports them in list order, as `Fired` |
| Synchronizer.ResponseSynchronizer.TriggerImmediateActions | web/src/utils/ResponseSynchronizer.js:64-77 | with actions and a callback the cues of time at most 1 fire; otherwise nothing happens |
| Synchronizer.ResponseSynchronizer.ProcessMessage | web/src/utils/ResponseSynchronizer.js:36-58 | the answer and new state are those of `Processed` |
| Synchronizer.ResponseSynchronizer.SyncLoop | web/src/utils/ResponseSynchronizer.js:121-145 | one loop step is `Stepped`, and it re-arms exactly when `Rearms` holds afterwards |
| Synchronizer.ResponseSynchronizer.StartSync | web/src/utils/ResponseSynchronizer.js:83-97 | playing from `now`, speaking notified, immediate cues fired, then one loop step |
| Synchronizer.ResponseSynchronizer.StopSync | web/src/utils/ResponseSynchronizer.js:111-116 | playing stops and `false` is notified |
| Synchronizer.ResponseSynchronizer.Reset | web/src/utils/ResponseSynchronizer.js:150-158 | the actions, playing flag and start time are cleared and `false` is notified |
| Dashboard.PageContent | web/src/components/LearningDashboard.jsx:288-307 | a page holds no page breaks |
| Dashboard.NonBreaksFilter | web/src/components/LearningDashboard.jsx:294-304 | the actions outside page breaks hold no page break and every action of the text that is not one |
| Dashboard.CountStep | web/src/components/LearningDashboard.jsx:295-296 | the page counter goes up by one exactly at a page break |
| Dashboard.CountPrefix | web/src/components/LearningDashboard.jsx:295-297 | a prefix has no more page breaks than the whole |
| Dashboard.PageContentStops | web/src/components/LearningDashboard.jsx:297 | once the page's closing break is passed, the rest adds nothing to the page, so stopping early is right |
| Dashboard.PageBeyond | web/src/components/LearningDashboard.jsx:288-307 | a page beyond the last page break is empty |
| Dashboard.AllPagesAgree | web/src/components/LearningDashboard.jsx:288-307 | texts whose pages agree concatenate those pages to the same actions |
| Dashboard.PagesCover | web/src/components/LearningDashboard.jsx:294-304 | pages 0 to the number of page breaks, concatenated, are exactly the actions that are not page breaks, in order |
| Dashboard.CoverAfterBreak | web/src/components/LearningDashboard.jsx:295-298 | a final page break opens an empty page and keeps the cover |
| Dashboard.CoverAfterAction | web/src/components/LearningDashboard.jsx:301-303 | a final action that is not a page break ends the last page and keeps the cover |
| Dashboard.PageZero | web/src/components/LearningDashboard.jsx:288-307 | page 0 is everything before the first page break |
| Dashboard.NoBreaksOnePage | web/src/components/LearningDashboard.jsx:288-307 | without page breaks everything is page 0 |
| Dashboard.GetCurrentPageContent | web/src/components/LearningDashboard.jsx:288-307 | the loop with its early `break` returns exactly the actions of page `currentPage` |
| Dashboard.ProcessContentActions | web/src/components/LearningDashboard.jsx:107-139 | all actions are appended, `sections` grows by the batch's section titles in order and `totalPages` by its page breaks, while the page, messages, phase, selected topic and answer counter stay |
| Dashboard.ProcessedQuestionAndHighlight | web/src/components/LearningDashboard.jsx:121-132 | the current question and highlight become the first of their kind in the batch when there is one, and stay otherwise |
| Dashboard.ProcessInBatches | web/src/components/LearningDashboard.jsx:109-120 | two batches in a row collect the same actions, sections and page count as their concatenation at once |
| Dashboard.NextPage | web/src/components/LearningDashboard.jsx:250-259 | the page moves forward only below `totalPages`, so the range is kept |
| Dashboard.PrevPage | web/src/components/LearningDashboard.jsx:261-270 | the page moves back only above 0, so the range is kept |
| Dashboard.StripAssistantPrefix | web/src/components/LearningDashboard.jsx:69-71 | a leading `"assistant: "` is removed and any other text kept |
| Dashboard.StripsOnce | web/src/components/LearningDashboard.jsx:69-71 | only one prefix is removed |
| Dashboard.AddMessage | web/src/components/LearningDashboard.jsx:88-92 | one message with the given role and content is appended, and nothing else changes |
| Dashboard.HandleMessage | web/src/components/LearningDashboard.jsx:35-76 | a text message sends nothing and keeps the page range |
| Dashboard.HandleMessageEffects | web/src/components/LearningDashboard.jsx:50-65 | JSON of no known type becomes one assistant message, and `preparation_started` changes no modelled state |
| Dashboard.HandleLearningPhaseChange | web/src/components/LearningDashboard.jsx:95-104 | the phase is taken as sent, and in `assessment` a non-empty topic becomes the selected one |
| Dashboard.NotJsonMessage | web/src/components/LearningDashboard.jsx:66-74 | a non-JSON text joins the conversation as one assistant message without its prefix |
| Dashboard.HandleUserInput | web/src/components/LearningDashboard.jsx:209-218 | only what is sent and the messages can change, and they change exactly when the socket is open and the input is not all white space |
| Dashboard.UserInputIgnoresSpace | web/src/components/LearningDashboard.jsx:209-218 | white-space-only input changes nothing; other input reaches an open socket and the conversation unchanged |
| Dashboard.HandleSelectTopic | web/src/components/LearningDashboard.jsx:183-201 | the topic is selected and the phase becomes `assessment`; the request is sent only on an open socket |
| Dashboard.HandleAnswerQuestion | web/src/components/LearningDashboard.jsx:221-247 | with the socket closed nothing changes; otherwise the answer is sent and shown as the user's; the content and page counters stay |
| Dashboard.AnswerCounts | web/src/components/LearningDashboard.jsx:221-247 | in `assessment` each answer counts one and the phase is `preparation` from the third; elsewhere the counter and phase stay |
| Dashboard.ThreeAnswers | web/src/components/LearningDashboard.jsx:233-244 | three answers in `assessment` from zero reach `preparation` |
| Dashboard.HandleEndSession | web/src/components/LearningDashboard.jsx:273-285 | messages, actions, sections, page counters, counter, phase, topic, question and highlight return to their initial values |
| Dashboard.HighlightExpired | web/src/components/LearningDashboard.jsx:135-137 | the timer clears the current highlight and nothing else |
| Dashboard.HandleKeepsPagesInRange | web/src/components/LearningDashboard.jsx:250-270 | every dashboard event keeps `0 <= currentPage <= totalPages` |
| Dashboard.RunKeepsPagesInRange | web/src/components/LearningDashboard.jsx:250-270 | the page range holds over any run of events |
| ContentDisplay.ScanKeepsInvariant | web/src/components/ContentDisplay.jsx:141-150 | after each item the closed groups are non-empty, all titles come from the content, and the grouped items are the shown items so far |
| ContentDisplay.NoEmptyGroup | web/src/components/ContentDisplay.jsx:143-154 | no returned group is empty, so a section with nothing after it is dropped |
| ContentDisplay.GroupsKeepOrder | web/src/components/ContentDisplay.jsx:141-154 | the groups' items, concatenated, are the content without sections and highlights, in order |
| ContentDisplay.GroupTitles | web/src/components/ContentDisplay.jsx:139-146 | every group is titled `Introduction` or after a section of the content |
| ContentDisplay.ScanWithoutSections | web/src/components/ContentDisplay.jsx:141-150 | items that are not sections only add their shown items to the current group |
| ContentDisplay.SectionOpensGroup | web/src/components/ContentDisplay.jsx:139-154 | a section closes the groups before it and opens a group under its own title holding the shown items up to the next section, and is dropped when there are none |
| ContentDisplay.NoSectionsOneGroup | web/src/components/ContentDisplay.jsx:136-154 | without sections the shown items form one `Introduction` group, or none at all |
| ContentDisplay.NoSectionsScan | web/src/components/ContentDisplay.jsx:139-150 | without sections every item stays in the `Introduction` group |
| ContentDisplay.GroupContentBySections | web/src/components/ContentDisplay.jsx:135-157 | the `forEach` with its final push returns exactly `Grouped(content)`, and empty content gives no groups |
| ContentDisplay.EscapePattern | web/src/components/ContentDisplay.jsx:57 | escaping never shortens the text |
| ContentDisplay.EscapeRoundTrip | web/src/components/ContentDisplay.jsx:57 | the escaped text is a literal pattern and stands for the original text, whatever it holds |
| ContentDisplay.EscapePlain | web/src/components/ContentDisplay.jsx:57 | text without special characters passes through unchanged |

## Left out

- The language-model completion, speech synthesis and speech-to-text are inputs. The completion
  text is a parameter of `Session.Conversation.OnUserMessage` and of `Assistant.CreateResponse`.
  Speech audio is recorded as the text it speaks.
- The `call` object is an append-only list of effects: meta pushes, audio pushes, hang-up and
  `onEnd`. The `call.off("userMessage", …)` at server/lib/conversation.js:188 only detaches a
  listener and is not modelled.
- `begin` and `createConversation` (server/lib/conversation.js:41-63, server/lib/assistant.js:199-203)
  wire services and timers. They are not part of this model.
- Handlers run to completion one at a time. The interleavings that `await` allows, such as a
  second user message arriving while a response is pending, are not modelled.
- Timestamps of the call log, `Date.now`, `setTimeout` and `requestAnimationFrame` are not
  modelled as clocks. The synchroniser takes the current time in milliseconds as a parameter;
  the preparation timer, the highlight timer and a re-armed loop step are separate operations.
- `JSON.parse` and `JSON.stringify` are left out: messages arrive already parsed
  (`Synchronizer.Incoming`, `Dashboard.Inbound`), and the `INIT` log entry holds the assistant's
  configuration, not its JSON text.
- The default system prompt's text is a parameter of `Assistant.NewAssistant`. The model, voice
  and speech-to-text settings of the constructor are passed on to services and are left out.
- Strings are sequences of Dafny characters, which are Unicode scalar values, whereas
  JavaScript strings are sequences of UTF-16 code units: a character outside the Basic
  Multilingual Plane is one character here and two code units in JavaScript, and a lone
  surrogate cannot be written at all. Every length and index in the model, such as the
  `|completion| - |EndCallToken|` of `Assistant.CreateResponse` or the lengths of the tag
  matches, counts characters, and equals JavaScript's count only for text within the Basic
  Multilingual Plane. Case folding covers ASCII letters only, which is exact for the all-ASCII
  topic patterns.
- Web Audio, `getUserMedia`, the voice-activity detector, the socket's lifecycle, and
  `startRecording`/`stopRecording`, `Streamer.start`, `Streamer.stop` and
  `startVoiceDetection` are device and socket I/O and are left out. Voice-detection starts are
  counted; the `speechEnd` listener that records the time of the last `EOS` is left out.
- Audio sample values are floating point numbers and are not modelled: a frame is a sequence of
  integers, and only the silence frame's contents are stated.
- `app.tsx` and `LearningDashboard.jsx` both assign `ws.onmessage`. Which handler ends up
  receiving messages depends on render timing, so each handler is modelled on its own.
- A whiteboard action's `time` is taken to be a number, modelled as a real. A missing `time`
  compares as false in JavaScript and is not modelled.
- The synchroniser's `currentAudio` and the `ended` listener each `startSync` adds are not
  modelled. The listener's effect is `Synchronizer.ResponseSynchronizer.StopSync`, and repeated
  listeners on the same element are not tracked.
- React rendering, scrolling, the audio element of the dashboard (`isAiSpeaking`), the DOM
  text-node highlighting and the mermaid rendering of ContentDisplay.jsx are left out. Of the
  highlighting, the escape of the pattern is modelled; the case-insensitive DOM search is not.
- `startPreparationProgress` and `forceSetPhase` (web/src/components/LearningDashboard.jsx:142-180)
  use random numbers, floating point and animation frames. They are left out, including the
  `learning` phase the animation sets at its end.
- `ClientAudio.Playback.Stop`: the re-scheduled stop is counted, not run, and is modelled as
  written: a graceful stop with an empty queue leaves the context running.
- `Assistant.AssembledPrompt`: the exact text of the user message is stated only for
  instructions and tools without `$` and instructions that do not contain `{tools}`. In other
  cases `Assistant.AssemblePrompt` still models `replace`'s `$`-patterns and first-occurrence
  rule.
- `Topic.ExtractTopicFromMessage`: its contract states only that the topic is trimmed. What the
  topic is, is stated by `Topic.TopicWithoutPhrase`, `Topic.LearnAboutTopic`,
  `Topic.TeachMeAboutTopic` and `Topic.TopicRequest` for messages of those shapes, not for every
  message.
- `Session.LatestTopicNewest`: the `toLowerCase().includes('learn about')` pre-check of
  `getLatestTopic` is not modelled separately. A message the pattern matches always passes it.
