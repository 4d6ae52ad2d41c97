/** The learning dashboard of the client (web/src/components/LearningDashboard.jsx): the content
    actions it collects into pages, its page navigation, the chat messages it keeps, and the
    assessment counter. React state updates are modelled as functions from the old dashboard
    state to the new one; `getCurrentPageContent`, a loop, is a method. */
module Dashboard {
  import opened Wrappers
  import opened JsString
  import opened Actions

  // ---------------------------------------------------------------------------------------------
  // Pages

  /** The actions of page `p`: those that are not page breaks and have exactly `p` page breaks
      before them. */
  function PageContent(s: seq<Action>, p: nat): (page: seq<Action>)
    ensures forall i :: 0 <= i < |page| ==> !page[i].PageBreak?
  {
    if s == [] then []
    else
      var n := |s| - 1;
      PageContent(s[..n], p) + (if !s[n].PageBreak? && CountPageBreaks(s[..n]) == p then [s[n]] else [])
  }

  /** The actions that are not page breaks, in order. */
  function NonBreaks(s: seq<Action>): seq<Action> {
    if s == [] then []
    else NonBreaks(s[..|s| - 1]) + (if s[|s| - 1].PageBreak? then [] else [s[|s| - 1]])
  }

  /** `NonBreaks` holds no page break, and every action that is not a page break. */
  lemma {:induction false} NonBreaksFilter(s: seq<Action>)
    ensures forall i :: 0 <= i < |NonBreaks(s)| ==> !NonBreaks(s)[i].PageBreak? && NonBreaks(s)[i] in s
    ensures forall i :: 0 <= i < |s| && !s[i].PageBreak? ==> s[i] in NonBreaks(s)
  {
    if s != [] {
      var n := |s| - 1;
      NonBreaksFilter(s[..n]);
      forall i | 0 <= i < |s| && !s[i].PageBreak? ensures s[i] in NonBreaks(s) {
        if i < n { assert s[i] == s[..n][i]; }
      }
      forall i | 0 <= i < |NonBreaks(s)| ensures NonBreaks(s)[i] in s {
        if i < |NonBreaks(s[..n])| {
          assert NonBreaks(s)[i] == NonBreaks(s[..n])[i];
          assert forall x :: x in s[..n] ==> x in s;
        }
      }
    }
  }

  /** Pages `0` to `n - 1`, one after the other. */
  function AllPages(s: seq<Action>, n: nat): seq<Action> {
    if n == 0 then [] else AllPages(s, n - 1) + PageContent(s, n - 1)
  }

  /** Counting page breaks one action further. */
  lemma CountStep(s: seq<Action>, i: nat)
    requires i < |s|
    ensures CountPageBreaks(s[..i + 1]) == CountPageBreaks(s[..i]) + if s[i].PageBreak? then 1 else 0
  {
    assert s[..i + 1] == s[..i] + [s[i]];
    CountPageBreaksAppend(s[..i], [s[i]]);
  }

  /** A prefix has no more page breaks than the whole. */
  lemma CountPrefix(s: seq<Action>, k: nat)
    requires k <= |s|
    ensures CountPageBreaks(s[..k]) <= CountPageBreaks(s)
  {
    assert s == s[..k] + s[k..];
    CountPageBreaksAppend(s[..k], s[k..]);
  }

  /** Once `p` page breaks have been passed, the rest adds nothing to page `p`: this is what lets
      the loop stop early. */
  lemma {:induction false} PageContentStops(s: seq<Action>, k: nat, p: nat)
    requires k <= |s| && CountPageBreaks(s[..k]) > p
    ensures PageContent(s, p) == PageContent(s[..k], p)
    decreases |s|
  {
    if |s| > k {
      var n := |s| - 1;
      assert s[..n][..k] == s[..k];
      CountPrefix(s[..n], k);
      PageContentStops(s[..n], k, p);
    } else {
      assert s[..k] == s;
    }
  }

  /** A page beyond the last page break is empty. */
  lemma {:induction false} PageBeyond(s: seq<Action>, p: nat)
    requires p > CountPageBreaks(s)
    ensures PageContent(s, p) == []
  {
    if s != [] {
      var n := |s| - 1;
      CountPrefix(s, n);
      PageBeyond(s[..n], p);
    }
  }

  /** Pages that agree up to `m` concatenate to the same text. */
  lemma {:induction false} AllPagesAgree(s: seq<Action>, t: seq<Action>, m: nat)
    requires forall p :: 0 <= p < m ==> PageContent(s, p) == PageContent(t, p)
    ensures AllPages(s, m) == AllPages(t, m)
  {
    if m > 0 {
      AllPagesAgree(s, t, m - 1);
    }
  }

  /** Pages `0` to the number of page breaks, concatenated, are exactly the actions that are not
      page breaks, in their order: paging loses and repeats nothing. */
  lemma {:induction false} PagesCover(s: seq<Action>)
    ensures AllPages(s, CountPageBreaks(s) + 1) == NonBreaks(s)
  {
    if s == [] {
      assert AllPages(s, 1) == [] + PageContent(s, 0);
    } else {
      var n := |s| - 1;
      PagesCover(s[..n]);
      if s[n].PageBreak? {
        CoverAfterBreak(s);
      } else {
        CoverAfterAction(s);
      }
    }
  }

  /** The step of `PagesCover` for a final page break: it opens an empty page. */
  lemma CoverAfterBreak(s: seq<Action>)
    requires s != [] && s[|s| - 1].PageBreak?
    requires var t := s[..|s| - 1]; AllPages(t, CountPageBreaks(t) + 1) == NonBreaks(t)
    ensures AllPages(s, CountPageBreaks(s) + 1) == NonBreaks(s)
  {
    var n := |s| - 1;
    var t := s[..n];
    var k := CountPageBreaks(t);
    CountStep(s, n);
    assert s[..n + 1] == s;
    assert forall p :: PageContent(s, p) == PageContent(t, p) + [];
    AllPagesAgree(s, t, k + 1);
    PageBeyond(t, k + 1);
    assert AllPages(s, k + 2) == AllPages(t, k + 1) + PageContent(t, k + 1) + [];
  }

  /** The step of `PagesCover` for a final action that is not a page break: it ends the last
      page. */
  lemma CoverAfterAction(s: seq<Action>)
    requires s != [] && !s[|s| - 1].PageBreak?
    requires var t := s[..|s| - 1]; AllPages(t, CountPageBreaks(t) + 1) == NonBreaks(t)
    ensures AllPages(s, CountPageBreaks(s) + 1) == NonBreaks(s)
  {
    var n := |s| - 1;
    var t := s[..n];
    var k := CountPageBreaks(t);
    CountStep(s, n);
    assert s[..n + 1] == s;
    assert CountPageBreaks(s) == k;
    forall p | p != k ensures PageContent(s, p) == PageContent(t, p) {
      assert PageContent(s, p) == PageContent(t, p) + [];
    }
    AllPagesAgree(s, t, k);
    assert PageContent(s, k) == PageContent(t, k) + [s[n]];
    assert NonBreaks(s) == NonBreaks(t) + [s[n]];
    calc {
      AllPages(s, k + 1);
      AllPages(s, k) + PageContent(s, k);
      AllPages(t, k) + (PageContent(t, k) + [s[n]]);
      (AllPages(t, k) + PageContent(t, k)) + [s[n]];
    }
  }

  /** Page 0 is everything before the first page break. */
  lemma {:induction false} PageZero(s: seq<Action>, k: nat)
    requires k <= |s| && (k == |s| || s[k].PageBreak?)
    requires forall i :: 0 <= i < k ==> !s[i].PageBreak?
    ensures PageContent(s, 0) == s[..k]
  {
    if k < |s| {
      CountStep(s, k);
      NoBreaksOnePage(s[..k]);
      PageContentStops(s, k + 1, 0);
      assert s[..k + 1][..k] == s[..k];
    } else {
      assert s[..k] == s;
      NoBreaksOnePage(s);
    }
  }

  lemma {:induction false} NoBreaksOnePage(s: seq<Action>)
    requires forall i :: 0 <= i < |s| ==> !s[i].PageBreak?
    ensures PageContent(s, 0) == s && CountPageBreaks(s) == 0
  {
    if s != [] {
      var n := |s| - 1;
      NoBreaksOnePage(s[..n]);
      CountStep(s, n);
      assert s[..n + 1] == s;
      assert s[..n] + [s[n]] == s;
    }
  }

  /** `getCurrentPageContent`: the actions of page `currentPage`. */
  method GetCurrentPageContent(contentActions: seq<Action>, currentPage: nat) returns (pageContent: seq<Action>)
    ensures pageContent == PageContent(contentActions, currentPage)
  {
    if |contentActions| == 0 {
      return [];
    }
    pageContent := [];
    var currentPageIndex := 0;
    var i := 0;
    while i < |contentActions|
      invariant 0 <= i <= |contentActions|
      invariant currentPageIndex == CountPageBreaks(contentActions[..i]) <= currentPage
      invariant pageContent == PageContent(contentActions[..i], currentPage)
    {
      CountStep(contentActions, i);
      assert contentActions[..i + 1][..i] == contentActions[..i];
      if contentActions[i].PageBreak? {
        currentPageIndex := currentPageIndex + 1;
        if currentPageIndex > currentPage {
          PageContentStops(contentActions, i + 1, currentPage);
          return;
        }
        i := i + 1;
        continue;
      }
      if currentPageIndex == currentPage {
        pageContent := pageContent + [contentActions[i]];
      }
      i := i + 1;
    }
    assert contentActions[..i] == contentActions;
  }

  // ---------------------------------------------------------------------------------------------
  // The dashboard state

  /** One chat message shown in the conversation pane. */
  datatype ChatMessage = ChatMessage(role: string, content: string)

  /** The dashboard's React state, and the texts it sent on the socket. */
  datatype DashState = DashState(
    selectedTopic: Option<string>,
    messages: seq<ChatMessage>,
    contentActions: seq<Action>,
    learningPhase: string,
    currentPage: nat,
    totalPages: nat,
    sections: seq<string>,
    currentQuestion: Option<Action>,
    currentHighlight: Option<string>,
    assessmentQuestions: nat,
    sent: seq<string>)

  /** The state of a fresh dashboard. */
  function Initial(): DashState {
    DashState(None, [], [], "initial", 0, 0, [], None, None, 0, [])
  }

  /** The page counters in range: `0 <= currentPage <= totalPages`. */
  predicate PagesInRange(st: DashState) {
    st.currentPage <= st.totalPages
  }

  /** `processContentActions(actions)`. */
  function ProcessContentActions(st: DashState, actions: seq<Action>): (r: DashState)
    ensures r.contentActions == st.contentActions + actions
    ensures r.totalPages == st.totalPages + CountPageBreaks(actions) && r.currentPage == st.currentPage
    ensures r.sections == st.sections + SectionTitles(actions)
    ensures r.messages == st.messages && r.learningPhase == st.learningPhase && r.sent == st.sent
    ensures r.selectedTopic == st.selectedTopic && r.assessmentQuestions == st.assessmentQuestions
  {
    st.(contentActions := st.contentActions + actions,
        sections := st.sections + SectionTitles(actions),
        totalPages := st.totalPages + CountPageBreaks(actions),
        currentQuestion := match FirstOfKind(actions, QuestionKind) case Some(q) => Some(q) case None => st.currentQuestion,
        currentHighlight := match FirstOfKind(actions, HighlightKind) case Some(h) => Some(h.content) case None => st.currentHighlight)
  }

  /** `q` is the earliest question of `actions`. */
  predicate FirstAt(actions: seq<Action>, q: Option<Action>) {
    exists i :: 0 <= i < |actions| && actions[i].Question? && q == Some(actions[i])
      && forall j :: 0 <= j < i ==> !actions[j].Question?
  }

  /** `h` is the content of the earliest highlight of `actions`. */
  predicate FirstHighlightAt(actions: seq<Action>, h: Option<string>) {
    exists i :: 0 <= i < |actions| && actions[i].Highlight? && h == Some(actions[i].content)
      && forall j :: 0 <= j < i ==> !actions[j].Highlight?
  }

  /** The current question becomes the first question of the batch, if it has one, and stays
      as it was otherwise; likewise the current highlight with the first highlight's content. */
  lemma ProcessedQuestionAndHighlight(st: DashState, actions: seq<Action>)
    ensures var r := ProcessContentActions(st, actions);
      ((exists i :: 0 <= i < |actions| && actions[i].Question?) ==> FirstAt(actions, r.currentQuestion))
      && ((forall i :: 0 <= i < |actions| ==> !actions[i].Question?) ==> r.currentQuestion == st.currentQuestion)
    ensures var r := ProcessContentActions(st, actions);
      ((exists i :: 0 <= i < |actions| && actions[i].Highlight?) ==> FirstHighlightAt(actions, r.currentHighlight))
      && ((forall i :: 0 <= i < |actions| ==> !actions[i].Highlight?) ==> r.currentHighlight == st.currentHighlight)
  {
    FirstOfKindIsFirst(actions, QuestionKind);
    FirstOfKindIsFirst(actions, HighlightKind);
  }

  /** Two batches in a row collect what their concatenation collects at once. */
  lemma ProcessInBatches(st: DashState, a: seq<Action>, b: seq<Action>)
    ensures var two := ProcessContentActions(ProcessContentActions(st, a), b);
      var one := ProcessContentActions(st, a + b);
      two.contentActions == one.contentActions && two.sections == one.sections && two.totalPages == one.totalPages
  {
    SectionTitlesAppend(a, b);
    CountPageBreaksAppend(a, b);
  }

  /** `handleNextPage`. */
  function NextPage(st: DashState): (r: DashState)
    ensures PagesInRange(st) ==> PagesInRange(r)
    ensures r.currentPage == if st.currentPage < st.totalPages then st.currentPage + 1 else st.currentPage
  {
    if st.currentPage < st.totalPages then st.(currentPage := st.currentPage + 1) else st
  }

  /** `handlePrevPage`. */
  function PrevPage(st: DashState): (r: DashState)
    ensures PagesInRange(st) ==> PagesInRange(r)
    ensures r.currentPage == if st.currentPage > 0 then st.currentPage - 1 else 0
  {
    if st.currentPage > 0 then st.(currentPage := st.currentPage - 1) else st
  }

  /** `addMessageToConversation(role, content)`. */
  function AddMessage(st: DashState, role: string, content: string): (r: DashState)
    ensures r.messages == st.messages + [ChatMessage(role, content)]
    ensures r.(messages := st.messages) == st
  {
    st.(messages := st.messages + [ChatMessage(role, content)])
  }

  const AssistantPrefix: string := "assistant: "

  /** The chat text of a socket message that is not JSON: one leading `"assistant: "` removed. */
  function StripAssistantPrefix(data: string): (content: string)
    ensures StartsWith(data, AssistantPrefix) ==> AssistantPrefix + content == data
    ensures !StartsWith(data, AssistantPrefix) ==> content == data
  {
    if StartsWith(data, AssistantPrefix) then data[|AssistantPrefix|..] else data
  }

  /** Only the first prefix goes: a message that repeats it keeps the second one. */
  lemma StripsOnce(rest: string)
    ensures StripAssistantPrefix(AssistantPrefix + rest) == rest
  {
  }

  /** A text socket message once the JSON parse has been tried: the message types the
      dashboard knows, another JSON value (as its text), or a text that is not JSON. */
  datatype Inbound =
    | ContentActions(actions: seq<Action>)
    | LearningPhase(phase: string, topic: Option<string>)
    | PreparationStarted
    | OtherJson(text: string)
    | NotJson(data: string)

  /** `handleMessage` for a text message. */
  function HandleMessage(st: DashState, m: Inbound): (r: DashState)
    ensures r.sent == st.sent
    ensures PagesInRange(st) ==> PagesInRange(r)
  {
    match m
    case ContentActions(actions) => ProcessContentActions(st, actions)
    case LearningPhase(phase, topic) => HandleLearningPhaseChange(st, phase, topic)
    case PreparationStarted => st
    case OtherJson(text) => AddMessage(st, "assistant", text)
    case NotJson(data) => AddMessage(st, "assistant", StripAssistantPrefix(data))
  }

  /** A JSON value of no known type becomes one assistant message, and `preparation_started`
      changes no state kept here. */
  lemma HandleMessageEffects(st: DashState, m: Inbound)
    ensures m.OtherJson? ==> HandleMessage(st, m).messages == st.messages + [ChatMessage("assistant", m.text)]
    ensures m.PreparationStarted? ==> HandleMessage(st, m) == st
  {
  }

  /** `handleLearningPhaseChange`: the phase is taken as sent; in `assessment` a non-empty topic
      becomes the selected topic. */
  function HandleLearningPhaseChange(st: DashState, phase: string, topic: Option<string>): (r: DashState)
    ensures r.learningPhase == phase
    ensures r.selectedTopic == if phase == "assessment" && topic.Some? && topic.value != "" then topic else st.selectedTopic
  {
    var st1 := st.(learningPhase := phase);
    if phase == "assessment" && topic.Some? && topic.value != "" then st1.(selectedTopic := topic) else st1
  }

  /** A non-JSON text reaches the conversation as one assistant message, prefix removed. */
  lemma NotJsonMessage(st: DashState, data: string)
    ensures HandleMessage(st, NotJson(data)).messages
         == st.messages + [ChatMessage("assistant", if StartsWith(data, AssistantPrefix) then data[|AssistantPrefix|..] else data)]
  {
  }

  /** `handleUserInput(message)`: white-space-only input is ignored; otherwise, if the socket is
      open, the text is sent and shown as a user message. */
  function HandleUserInput(st: DashState, message: string, wsOpen: bool): (r: DashState)
    ensures r.(sent := st.sent, messages := st.messages) == st
    ensures r != st <==> wsOpen && !AllSpace(message)
  {
    TrimEmpty(message);
    if Trim(message) == [] then st
    else if wsOpen then AddMessage(st.(sent := st.sent + [message]), "user", message)
    else st
  }

  /** Input that is nothing but white space changes nothing, and any other input reaches an
      open socket unchanged. */
  lemma UserInputIgnoresSpace(st: DashState, message: string, wsOpen: bool)
    ensures AllSpace(message) ==> HandleUserInput(st, message, wsOpen) == st
    ensures !AllSpace(message) && wsOpen ==>
      HandleUserInput(st, message, wsOpen).sent == st.sent + [message]
      && HandleUserInput(st, message, wsOpen).messages == st.messages + [ChatMessage("user", message)]
  {
    TrimEmpty(message);
  }

  /** `handleSelectTopic(topic)`: the topic is selected and the phase becomes `assessment`; with
      the socket open the request is sent and a shorter version of it shown. */
  function HandleSelectTopic(st: DashState, topic: string, wsOpen: bool): (r: DashState)
    ensures r.selectedTopic == Some(topic) && r.learningPhase == "assessment"
    ensures wsOpen ==> r.sent == st.sent + ["I want to learn about " + topic + ". Please teach me step by step, explaining concepts clearly."]
    ensures !wsOpen ==> r.sent == st.sent && r.messages == st.messages
  {
    var st1 := st.(selectedTopic := Some(topic), learningPhase := "assessment");
    if wsOpen then
      AddMessage(st1.(sent := st1.sent + ["I want to learn about " + topic + ". Please teach me step by step, explaining concepts clearly."]),
                 "user", "I want to learn about " + topic)
    else st1
  }

  /** `handleAnswerQuestion(question, answer)`: nothing unless the socket is open; otherwise the
      answer is sent and shown, the question cleared, and in `assessment` the counter goes up,
      moving to `preparation` once it reaches 3. */
  function HandleAnswerQuestion(st: DashState, question: string, answer: string, wsOpen: bool): (r: DashState)
    ensures !wsOpen ==> r == st
    ensures wsOpen ==>
      r.sent == st.sent + ["My answer to \"" + question + "\": " + answer]
      && r.messages == st.messages + [ChatMessage("user", "My answer: " + answer)]
    ensures r.contentActions == st.contentActions && r.currentPage == st.currentPage && r.totalPages == st.totalPages
  {
    if !wsOpen then st
    else
      var st1 := AddMessage(st.(sent := st.sent + ["My answer to \"" + question + "\": " + answer]), "user", "My answer: " + answer);
      var st2 := st1.(currentQuestion := None);
      if st.learningPhase == "assessment" then
        var count := st.assessmentQuestions + 1;
        if count >= 3 then st2.(assessmentQuestions := count, learningPhase := "preparation")
        else st2.(assessmentQuestions := count)
      else st2
  }

  /** In `assessment` each answer counts one, and the phase is `preparation` from the third on;
      outside `assessment` the counter and the phase stay. */
  lemma AnswerCounts(st: DashState, question: string, answer: string)
    ensures var r := HandleAnswerQuestion(st, question, answer, true);
      r.currentQuestion.None? && |r.sent| == |st.sent| + 1
      && (st.learningPhase == "assessment" ==>
            r.assessmentQuestions == st.assessmentQuestions + 1
            && (r.learningPhase == "preparation" <==> st.assessmentQuestions + 1 >= 3)
            && (r.learningPhase != "preparation" ==> r.learningPhase == "assessment"))
      && (st.learningPhase != "assessment" ==>
            r.assessmentQuestions == st.assessmentQuestions && r.learningPhase == st.learningPhase)
  {
  }

  /** Three answers in `assessment` from a fresh counter reach `preparation`. */
  lemma ThreeAnswers(st: DashState, a1: string, a2: string, a3: string)
    requires st.learningPhase == "assessment" && st.assessmentQuestions == 0
    ensures var r := HandleAnswerQuestion(HandleAnswerQuestion(HandleAnswerQuestion(st, "", a1, true), "", a2, true), "", a3, true);
      r.learningPhase == "preparation" && r.assessmentQuestions == 3
  {
  }

  /** `handleEndSession`: everything back to its initial value; only what was sent stays sent. */
  function HandleEndSession(st: DashState): (r: DashState)
    ensures r.messages == [] && r.contentActions == [] && r.sections == [] && r.currentPage == 0 && r.totalPages == 0
    ensures r.learningPhase == "initial" && r.selectedTopic.None? && r.currentQuestion.None?
    ensures r.currentHighlight.None? && r.assessmentQuestions == 0 && r.sent == st.sent
  {
    Initial().(sent := st.sent)
  }

  /** The highlight's three-second timer. */
  function HighlightExpired(st: DashState): (r: DashState)
    ensures r.currentHighlight.None? && r.(currentHighlight := st.currentHighlight) == st
  {
    st.(currentHighlight := None)
  }

  /** What the user or the server can do to the dashboard. */
  datatype UiEvent =
    | Received(m: Inbound)
    | UserInput(message: string)
    | SelectTopic(topic: string)
    | AnswerQuestion(question: string, answer: string)
    | NextPageClicked
    | PrevPageClicked
    | EndSession
    | HighlightTimeout

  function Handle(st: DashState, e: UiEvent, wsOpen: bool): DashState {
    match e
    case Received(m) => HandleMessage(st, m)
    case UserInput(message) => HandleUserInput(st, message, wsOpen)
    case SelectTopic(topic) => HandleSelectTopic(st, topic, wsOpen)
    case AnswerQuestion(q, a) => HandleAnswerQuestion(st, q, a, wsOpen)
    case NextPageClicked => NextPage(st)
    case PrevPageClicked => PrevPage(st)
    case EndSession => HandleEndSession(st)
    case HighlightTimeout => HighlightExpired(st)
  }

  /** Every event keeps `0 <= currentPage <= totalPages`. */
  lemma HandleKeepsPagesInRange(st: DashState, e: UiEvent, wsOpen: bool)
    requires PagesInRange(st)
    ensures PagesInRange(Handle(st, e, wsOpen))
  {
  }

  /** The page counters stay in range over any run of events from a fresh dashboard. */
  lemma {:induction false} RunKeepsPagesInRange(st: DashState, events: seq<UiEvent>, wsOpen: seq<bool>)
    requires PagesInRange(st) && |wsOpen| == |events|
    ensures PagesInRange(Run(st, events, wsOpen))
    decreases |events|
  {
    if events != [] {
      HandleKeepsPagesInRange(st, events[0], wsOpen[0]);
      RunKeepsPagesInRange(Handle(st, events[0], wsOpen[0]), events[1..], wsOpen[1..]);
    }
  }

  /** The events in order, each with whether the socket was open at the time. */
  function Run(st: DashState, events: seq<UiEvent>, wsOpen: seq<bool>): DashState
    requires |wsOpen| == |events|
    decreases |events|
  {
    if events == [] then st else Run(Handle(st, events[0], wsOpen[0]), events[1..], wsOpen[1..])
  }
}
