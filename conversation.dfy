/** One voice call's conversation state (server/lib/conversation.js, class `Conversation`): the
    chat transcript handed to the language model, the call log, the learning phase and the
    accumulated sections and user answers. The call transport is modelled as the sequence of
    effects the conversation asks of it; the language model's completion and the speech audio are
    inputs, and every handler runs to completion before the next event. */
module Session {
  import opened Wrappers
  import opened JsString
  import opened Actions
  import opened Assistant
  import opened Topic

  /** `learningPhase`. */
  datatype Phase = Initial | Assessment | Preparation | Learning

  /** What an entry of the call log records beside its event name. */
  datatype LogMeta =
    | NoMeta
    | InitMeta(assistant: Config)
    | TranscriptMeta(speaker: Role, message: string)
    | PhaseMeta(phase: Phase, topic: Option<string>)
    | ToolMeta(tool: string)

  /** One `{timestamp, event, meta}` entry of `callLog`; the timestamp is a clock reading and is
      not modelled. */
  datatype LogEntry = LogEntry(event: string, meta: LogMeta)

  /** What the conversation asks of the call object. */
  datatype Effect =
    | Meta(text: string)                                // `pushMeta` of a plain text
    | PhaseNotice(phase: Phase, topic: Option<string>)  // `pushMeta` of a `learning_phase` object
    | PreparationNotice                                 // `pushMeta` of `preparation_started`
    | ContentNotice(actions: seq<Action>)               // `pushMeta` of `content_actions`
    | Audio(speech: string)                             // `pushAudio` of the speech of a text
    | HangUp                                            // `end`
    | Ended(log: seq<LogEntry>)                         // `onEnd(callLog)`

  /** The marker written into the transcript when the user interrupts the assistant. */
  const InterruptMarker: string := "[Interrupted your last message]"

  /** The text pushed when the assistant ends the call. */
  const HungUpNotice: string := "---- Assistant Hung Up ----"

  /** The whole state of a conversation. */
  datatype State = State(
    history: seq<Message>,
    callLog: seq<LogEntry>,
    phase: Phase,
    sections: seq<string>,
    userResponses: seq<string>,
    effects: seq<Effect>)

  // ---------------------------------------------------------------------------------------------
  // The specification, one function per operation

  /** The state right after construction: the history is the assistant's prompt and the log
      holds the `INIT` entry. */
  function Start(a: Config): (st: State)
    ensures st.history == Prompt(a) && |st.history| == 2
    ensures st.callLog == [LogEntry("INIT", InitMeta(a))] && st.phase == Initial
    ensures st.sections == [] && st.userResponses == [] && st.effects == []
  {
    State(Prompt(a), [LogEntry("INIT", InitMeta(a))], Initial, [], [], [])
  }

  /** `addToCallLog(event, meta)`. */
  function WithLogEntry(st: State, entry: LogEntry): State {
    st.(callLog := st.callLog + [entry])
  }

  /** `noteWhatWasSaid(speaker, message)`: a transcript entry in the log, the message in the
      history, and `"<speaker>: <message>"` pushed to the client. */
  function Noted(st: State, speaker: Role, message: string): State {
    var logged := WithLogEntry(st, LogEntry("TRANSCRIPT", TranscriptMeta(speaker, message)));
    logged.(history := logged.history + [Message(speaker, message)],
            effects := logged.effects + [Meta(RoleName(speaker) + ": " + message)])
  }

  /** A topic as JavaScript tests it: present and not the empty string. */
  predicate Truthy(topic: Option<string>) {
    topic.Some? && topic.value != ""
  }

  /** The topic a message of the history offers `getLatestTopic`: only user messages do. */
  function TopicOf(m: Message): Option<string> {
    if m.role == UserRole then LatestTopicIn(m.content) else None
  }

  /** The first answer `find` gives, searching the history from its newest message back. */
  function NewestFirst(history: seq<Message>, find: Message -> Option<string>): Option<string>
    decreases |history|
  {
    if history == [] then None
    else
      var found := find(history[|history| - 1]);
      if found.Some? then found else NewestFirst(history[..|history| - 1], find)
  }

  /** The topic `getLatestTopic` returns: that of the newest user message that mentions
      "learn about" and matches the topic pattern. */
  function LatestTopic(history: seq<Message>): Option<string> {
    NewestFirst(history, TopicOf)
  }

  /** `updateLearningPhase(phase, additionalInfo)`, with `topic` the `topic` field of
      `additionalInfo` if it has one. Entering the assessment phase also announces a topic: the
      given one, or else the latest one in the history, if it is not empty. */
  function PhaseUpdated(st: State, phase: Phase, topic: Option<string>): State {
    var changed := st.(phase := phase, effects := st.effects + [PhaseNotice(phase, topic)]);
    var logged := WithLogEntry(changed, LogEntry("LEARNING_PHASE_CHANGE", PhaseMeta(phase, topic)));
    if phase == Assessment then
      var announced := Announced(topic, logged.history);
      if Truthy(announced) then logged.(effects := logged.effects + [PhaseNotice(Assessment, announced)])
      else logged
    else logged
  }

  /** `additionalInfo.topic || this.getLatestTopic()`. */
  function Announced(topic: Option<string>, history: seq<Message>): Option<string> {
    if Truthy(topic) then topic else LatestTopic(history)
  }

  /** The phase change a user message causes, once it is in `userResponses`. */
  function PhaseAdvanced(st: State, message: string): State {
    if st.phase == Initial && |message| > 0 then
      PhaseUpdated(st, Assessment, Some(ExtractTopicFromMessage(message)))
    else if st.phase == Assessment && |st.userResponses| >= 3 then
      var prepared := PhaseUpdated(st, Preparation, None);
      prepared.(effects := prepared.effects + [PreparationNotice])
    else st
  }

  /** `sendContentActions(actions)`. */
  function ContentSent(st: State, actions: seq<Action>): State {
    if |actions| > 0 then st.(effects := st.effects + [ContentNotice(actions)]) else st
  }

  /** What the handler does with a non-empty response text: it joins the history, its actions go
      to the client and its section titles to `sections`, and its audio is pushed. */
  function Spoken(st: State, r: Response): State {
    var noted := Noted(st, AssistantRole, r.content);
    var shown := match r.contentActions
      case Some(actions) =>
        if |actions| > 0 then
          var sent := ContentSent(noted, actions);
          var titles := SectionTitles(actions);
          if |titles| > 0 then sent.(sections := sent.sections + titles) else sent
        else noted
      case None => noted;
    shown.(effects := shown.effects + [Audio(r.content)])
  }

  /** What the handler does with the response: speak it if its text is not empty, then log the
      selected tool, and end the call if the tool is `endCall`. */
  function Responded(st: State, r: Response): State {
    var spoken := if r.content != "" then Spoken(st, r) else st;
    match r.selectedTool
    case None => spoken
    case Some(tool) =>
      var logged := WithLogEntry(spoken, LogEntry("TOOL_SELECTED", ToolMeta(tool)));
      if tool == "endCall" then logged.(effects := logged.effects + [Meta(HungUpNotice), HangUp])
      else logged
  }

  /** The `USER_MESSAGE` handler: the user's message is noted and kept as an answer, the phase
      may advance, and the assistant's response `r` to the updated history is handled. */
  function HandleUserMessage(st: State, message: string, r: Response): State {
    var noted := Noted(st, UserRole, message);
    var kept := noted.(userResponses := noted.userResponses + [message]);
    Responded(PhaseAdvanced(kept, message), r)
  }

  /** The `INTERRUPT` handler. */
  function HandleInterrupt(st: State): State {
    Noted(st, UserRole, InterruptMarker)
  }

  /** The timer the preparation phase starts: three seconds later the phase becomes `learning`. */
  function PreparationElapsed(st: State): State {
    PhaseUpdated(st, Learning, None)
  }

  /** The `CALL_ENDED` handler: the event is logged and the whole log handed to `onEnd`. */
  function HandleCallEnded(st: State): State {
    var logged := WithLogEntry(st, LogEntry("CALL_ENDED", NoMeta));
    logged.(effects := logged.effects + [Ended(logged.callLog)])
  }

  // ---------------------------------------------------------------------------------------------
  // Properties

  /** `b` extends `a`: every list of the state only grew at its end. */
  predicate Extends(a: State, b: State) {
    a.history <= b.history && a.callLog <= b.callLog && a.effects <= b.effects
    && a.sections <= b.sections && a.userResponses <= b.userResponses
  }

  lemma ExtendsTrans(a: State, b: State, c: State)
    requires Extends(a, b) && Extends(b, c)
    ensures Extends(a, c)
  {
  }

  /** The reply of the assistant that a handled completion adds to the history: its text, when
      that is not empty. */
  function Reply(r: Response): seq<Message> {
    if r.content != "" then [Message(AssistantRole, r.content)] else []
  }

  /** Changing the phase touches only the phase, the log and the effects, which only grow: one
      phase-change entry is logged and one `learning_phase` notice pushed, followed, on entering
      `assessment`, by a second notice naming the topic when the given one or else the latest
      one in the history is not empty. */
  lemma PhaseUpdatedExtends(st: State, phase: Phase, topic: Option<string>)
    ensures var after := PhaseUpdated(st, phase, topic);
      after.phase == phase && after.history == st.history && after.sections == st.sections
      && after.userResponses == st.userResponses && Extends(st, after)
    ensures var after := PhaseUpdated(st, phase, topic);
      after.callLog == st.callLog + [LogEntry("LEARNING_PHASE_CHANGE", PhaseMeta(phase, topic))]
    ensures var after := PhaseUpdated(st, phase, topic);
      phase != Assessment ==> after.effects == st.effects + [PhaseNotice(phase, topic)]
    ensures var after := PhaseUpdated(st, phase, topic);
      phase == Assessment && Truthy(topic) ==>
        after.effects == st.effects + [PhaseNotice(Assessment, topic), PhaseNotice(Assessment, topic)]
    ensures var after := PhaseUpdated(st, phase, topic); var latest := LatestTopic(st.history);
      phase == Assessment && !Truthy(topic) ==>
        after.effects == st.effects + [PhaseNotice(Assessment, topic)] + (if Truthy(latest) then [PhaseNotice(Assessment, latest)] else [])
  {
  }

  /** The second `learning_phase` notice on entering `assessment`: the given topic if it is not
      empty, or else the latest topic of the history if that is not empty, or none. */
  function AssessmentTopicNotice(topic: Option<string>, history: seq<Message>): (r: seq<Effect>)
    ensures Truthy(topic) ==> r == [PhaseNotice(Assessment, topic)]
    ensures !Truthy(topic) && Truthy(LatestTopic(history)) ==> r == [PhaseNotice(Assessment, LatestTopic(history))]
    ensures !Truthy(topic) && !Truthy(LatestTopic(history)) ==> r == []
  {
    var announced := Announced(topic, history);
    if Truthy(announced) then [PhaseNotice(Assessment, announced)] else []
  }

  /** The phase step of a user message: from `initial` on a non-empty message to `assessment`
      with the message's topic, from `assessment` with three answers to `preparation` followed
      by the `preparation_started` notice, and otherwise nothing. */
  lemma PhaseAdvancedExtends(st: State, message: string)
    ensures var after := PhaseAdvanced(st, message);
      after.history == st.history && after.sections == st.sections
      && after.userResponses == st.userResponses && Extends(st, after)
    ensures PhaseAdvanced(st, message).phase ==
      if st.phase == Initial && |message| > 0 then Assessment
      else if st.phase == Assessment && |st.userResponses| >= 3 then Preparation
      else st.phase
    ensures st.phase == Initial && |message| > 0 ==>
      PhaseAdvanced(st, message).effects
        == st.effects + [PhaseNotice(Assessment, Some(ExtractTopicFromMessage(message)))]
           + AssessmentTopicNotice(Some(ExtractTopicFromMessage(message)), st.history)
    ensures st.phase == Assessment && |st.userResponses| >= 3 ==>
      PhaseAdvanced(st, message).effects == st.effects + [PhaseNotice(Preparation, None), PreparationNotice]
    ensures !(st.phase == Initial && |message| > 0) && !(st.phase == Assessment && |st.userResponses| >= 3) ==>
      PhaseAdvanced(st, message) == st
  {
    if st.phase == Initial && |message| > 0 {
      PhaseUpdatedExtends(st, Assessment, Some(ExtractTopicFromMessage(message)));
    } else if st.phase == Assessment && |st.userResponses| >= 3 {
      PhaseUpdatedExtends(st, Preparation, None);
    }
  }

  /** Handling a response adds its non-empty text to the history and its section titles to
      `sections`, and leaves the phase and the answers alone. */
  lemma RespondedExtends(st: State, r: Response)
    ensures var after := Responded(st, r);
      after.history == st.history + Reply(r)
      && after.sections == st.sections + (if r.content != "" && r.contentActions.Some? then SectionTitles(r.contentActions.value) else [])
      && after.phase == st.phase && after.userResponses == st.userResponses && Extends(st, after)
  {
    if r.contentActions.Some? && r.contentActions.value == [] {
      assert SectionTitles(r.contentActions.value) == [];
    }
  }

  /** A user message adds exactly that message and then the assistant's non-empty reply to the
      history, and one answer to `userResponses`; nothing is removed or reordered. */
  lemma UserMessageHistory(st: State, message: string, r: Response)
    ensures var after := HandleUserMessage(st, message, r);
      after.history == st.history + [Message(UserRole, message)] + Reply(r)
      && after.userResponses == st.userResponses + [message]
      && Extends(st, after)
  {
    var kept := Noted(st, UserRole, message).(userResponses := st.userResponses + [message]);
    var advanced := PhaseAdvanced(kept, message);
    PhaseAdvancedExtends(kept, message);
    RespondedExtends(advanced, r);
    ExtendsTrans(kept, advanced, Responded(advanced, r));
  }

  /** The phase moves on a user message only from `initial`, on a non-empty message, to
      `assessment`, and from `assessment`, once there are at least three answers, to
      `preparation`. */
  lemma UserMessagePhase(st: State, message: string, r: Response)
    ensures HandleUserMessage(st, message, r).phase ==
      if st.phase == Initial && |message| > 0 then Assessment
      else if st.phase == Assessment && |st.userResponses| + 1 >= 3 then Preparation
      else st.phase
    ensures var t := Some(ExtractTopicFromMessage(message));
      st.phase == Initial && |message| > 0 ==>
        st.effects + [Meta(RoleName(UserRole) + ": " + message), PhaseNotice(Assessment, t)]
          + AssessmentTopicNotice(t, st.history + [Message(UserRole, message)])
        <= HandleUserMessage(st, message, r).effects
    ensures st.phase == Assessment && |st.userResponses| + 1 >= 3 ==>
      st.effects + [Meta(RoleName(UserRole) + ": " + message), PhaseNotice(Preparation, None), PreparationNotice]
        <= HandleUserMessage(st, message, r).effects
  {
    var kept := Noted(st, UserRole, message).(userResponses := st.userResponses + [message]);
    assert kept.effects == st.effects + [Meta(RoleName(UserRole) + ": " + message)];
    assert kept.history == st.history + [Message(UserRole, message)];
    PhaseAdvancedExtends(kept, message);
    RespondedExtends(PhaseAdvanced(kept, message), r);
  }

  /** `sections` grows by the titles of the response's section actions, in order, and only when
      the response text is not empty. */
  lemma UserMessageSections(st: State, message: string, r: Response)
    ensures HandleUserMessage(st, message, r).sections ==
      st.sections + (if r.content != "" && r.contentActions.Some? then SectionTitles(r.contentActions.value) else [])
  {
    var kept := Noted(st, UserRole, message).(userResponses := st.userResponses + [message]);
    PhaseAdvancedExtends(kept, message);
    RespondedExtends(PhaseAdvanced(kept, message), r);
  }

  /** Selecting `endCall` logs the tool, pushes the hang-up notice and ends the call; no other
      response ends it. */
  lemma RespondedHangUp(st: State, r: Response)
    ensures var after := Responded(st, r);
      r.selectedTool == Some("endCall") ==>
        |after.callLog| >= 1 && after.callLog[|after.callLog| - 1] == LogEntry("TOOL_SELECTED", ToolMeta("endCall"))
        && |after.effects| >= 2 && after.effects[|after.effects| - 2..] == [Meta(HungUpNotice), HangUp]
    ensures r.selectedTool != Some("endCall") ==> HangUp !in Responded(st, r).effects[|st.effects|..]
  {
    if r.selectedTool != Some("endCall") && r.content != "" {
      var spoken := Spoken(st, r);
      var noted := Noted(st, AssistantRole, r.content);
      assert noted.effects[|st.effects|..] == [Meta(RoleName(AssistantRole) + ": " + r.content)];
    }
  }

  /** A completion holding `[endCall]` ends the call after the user message that prompted it. */
  lemma UserMessageHangUp(st: State, message: string, completion: string)
    requires Includes(completion, EndCallToken)
    ensures var after := HandleUserMessage(st, message, CreateResponse(completion));
      |after.callLog| >= 1 && after.callLog[|after.callLog| - 1] == LogEntry("TOOL_SELECTED", ToolMeta("endCall"))
      && |after.effects| >= 2 && after.effects[|after.effects| - 2..] == [Meta(HungUpNotice), HangUp]
  {
    var kept := Noted(st, UserRole, message).(userResponses := st.userResponses + [message]);
    RespondedHangUp(PhaseAdvanced(kept, message), CreateResponse(completion));
  }

  /** An interruption appends the marker, as a user message, to the history, one transcript
      entry to the log and the marker's line to what the client is sent; it is not an answer. */
  lemma InterruptNoted(st: State)
    ensures var after := HandleInterrupt(st);
      after.history == st.history + [Message(UserRole, InterruptMarker)]
      && after.callLog == st.callLog + [LogEntry("TRANSCRIPT", TranscriptMeta(UserRole, InterruptMarker))]
      && after.effects == st.effects + [Meta(RoleName(UserRole) + ": " + InterruptMarker)]
      && after.phase == st.phase && after.sections == st.sections && after.userResponses == st.userResponses
      && Extends(st, after)
  {
  }

  /** The preparation timer and the end of the call only add to the state, and only the timer
      changes the phase. */
  lemma TimerAndEndExtend(st: State)
    ensures Extends(st, PreparationElapsed(st)) && PreparationElapsed(st).phase == Learning
    ensures Extends(st, HandleCallEnded(st)) && HandleCallEnded(st).phase == st.phase
    ensures HandleCallEnded(st).history == st.history
  {
  }

  /** `find` answers `t` for the message at `i`, and nothing for any later message. */
  predicate NewestAnswerAt(history: seq<Message>, find: Message -> Option<string>, i: int, t: Option<string>) {
    0 <= i < |history| && find(history[i]) == t && forall j :: i < j < |history| ==> find(history[j]).None?
  }

  /** The newest-first search answers with the newest message that has an answer, and with
      nothing only when no message has one. */
  lemma {:induction false} NewestFirstFinds(history: seq<Message>, find: Message -> Option<string>)
    ensures var t := NewestFirst(history, find); t.Some? ==> exists i :: NewestAnswerAt(history, find, i, t)
    ensures NewestFirst(history, find).None? ==> forall j :: 0 <= j < |history| ==> find(history[j]).None?
    decreases |history|
  {
    if history != [] {
      var n := |history| - 1;
      var front := history[..n];
      NewestFirstFinds(front, find);
      assert forall j :: 0 <= j < n ==> history[j] == front[j];
      if find(history[n]).Some? {
        assert NewestAnswerAt(history, find, n, NewestFirst(history, find));
      } else if NewestFirst(history, find).Some? {
        var i :| NewestAnswerAt(front, find, i, NewestFirst(front, find));
        assert NewestAnswerAt(history, find, i, NewestFirst(history, find));
      }
    }
  }

  /** `getLatestTopic` answers with the topic of the newest user message that has one, and with
      `null` only when no user message has a topic. */
  lemma LatestTopicNewest(history: seq<Message>)
    ensures var t := LatestTopic(history); t.Some? ==>
      exists i :: NewestAnswerAt(history, TopicOf, i, t) && history[i].role == UserRole
    ensures LatestTopic(history).None? ==>
      forall j :: 0 <= j < |history| && history[j].role == UserRole ==> LatestTopicIn(history[j].content).None?
  {
    NewestFirstFinds(history, TopicOf);
    if LatestTopic(history).Some? {
      var i :| NewestAnswerAt(history, TopicOf, i, LatestTopic(history));
      assert history[i].role == UserRole;
    } else {
      forall j | 0 <= j < |history| && history[j].role == UserRole
        ensures LatestTopicIn(history[j].content).None?
      {
        assert TopicOf(history[j]).None?;
      }
    }
  }

  // ---------------------------------------------------------------------------------------------
  // The class

  class Conversation {
    const assistant: Config
    var history: seq<Message>
    var callLog: seq<LogEntry>
    var learningPhase: Phase
    var sections: seq<string>
    var userResponses: seq<string>
    var effects: seq<Effect>

    function Snapshot(): State
      reads this
    {
      State(history, callLog, learningPhase, sections, userResponses, effects)
    }

    constructor (a: Config)
      ensures assistant == a && Snapshot() == Start(a)
    {
      assistant := a;
      history := Prompt(a);
      callLog := [LogEntry("INIT", InitMeta(a))];
      learningPhase := Initial;
      sections := [];
      userResponses := [];
      effects := [];
    }

    method AddToCallLog(entry: LogEntry)
      modifies this
      ensures Snapshot() == WithLogEntry(old(Snapshot()), entry)
    {
      callLog := callLog + [entry];
    }

    method NoteWhatWasSaid(speaker: Role, message: string)
      modifies this
      ensures Snapshot() == Noted(old(Snapshot()), speaker, message)
    {
      AddToCallLog(LogEntry("TRANSCRIPT", TranscriptMeta(speaker, message)));
      history := history + [Message(speaker, message)];
      effects := effects + [Meta(RoleName(speaker) + ": " + message)];
    }

    /** `getLatestTopic()`: the history is searched from its newest message back. */
    method GetLatestTopic() returns (topic: Option<string>)
      ensures topic == LatestTopic(history)
    {
      var i := |history|;
      assert history[..i] == history;
      while i > 0
        invariant 0 <= i <= |history|
        invariant LatestTopic(history[..i]) == LatestTopic(history)
        decreases i
      {
        var message := history[i - 1];
        assert history[..i][..i - 1] == history[..i - 1];
        var found := TopicOf(message);
        if found.Some? {
          return found;
        }
        i := i - 1;
      }
      return None;
    }

    method UpdateLearningPhase(phase: Phase, topic: Option<string>)
      modifies this
      ensures Snapshot() == PhaseUpdated(old(Snapshot()), phase, topic)
    {
      learningPhase := phase;
      effects := effects + [PhaseNotice(phase, topic)];
      AddToCallLog(LogEntry("LEARNING_PHASE_CHANGE", PhaseMeta(phase, topic)));
      if phase == Assessment {
        var announced := topic;
        if !Truthy(topic) {
          announced := GetLatestTopic();
        }
        if Truthy(announced) {
          effects := effects + [PhaseNotice(Assessment, announced)];
        }
      }
    }

    method AdvancePhase(message: string)
      modifies this
      ensures Snapshot() == PhaseAdvanced(old(Snapshot()), message)
    {
      if learningPhase == Initial && |message| > 0 {
        var topic := ExtractTopicFromMessage(message);
        UpdateLearningPhase(Assessment, Some(topic));
      } else if learningPhase == Assessment && |userResponses| >= 3 {
        UpdateLearningPhase(Preparation, None);
        effects := effects + [PreparationNotice];
      }
    }

    method SendContentActions(actions: seq<Action>)
      modifies this
      ensures Snapshot() == ContentSent(old(Snapshot()), actions)
    {
      if |actions| > 0 {
        effects := effects + [ContentNotice(actions)];
      }
    }

    method Speak(r: Response)
      modifies this
      ensures Snapshot() == Spoken(old(Snapshot()), r)
    {
      NoteWhatWasSaid(AssistantRole, r.content);
      if r.contentActions.Some? && |r.contentActions.value| > 0 {
        var actions := r.contentActions.value;
        SendContentActions(actions);
        var titles := SectionTitles(actions);
        if |titles| > 0 {
          sections := sections + titles;
        }
      }
      effects := effects + [Audio(r.content)];
    }

    method Respond(r: Response)
      modifies this
      ensures Snapshot() == Responded(old(Snapshot()), r)
    {
      if r.content != "" {
        Speak(r);
      }
      if r.selectedTool.Some? {
        AddToCallLog(LogEntry("TOOL_SELECTED", ToolMeta(r.selectedTool.value)));
        if r.selectedTool.value == "endCall" {
          effects := effects + [Meta(HungUpNotice), HangUp];
        }
      }
    }

    /** The `USER_MESSAGE` handler, given the completion the language model returns for the
        history once the message is in it. */
    method OnUserMessage(message: string, completion: string)
      modifies this
      ensures Snapshot() == HandleUserMessage(old(Snapshot()), message, CreateResponse(completion))
    {
      NoteWhatWasSaid(UserRole, message);
      userResponses := userResponses + [message];
      AdvancePhase(message);
      var response := CreateResponse(completion);
      Respond(response);
    }

    method OnInterrupt()
      modifies this
      ensures Snapshot() == HandleInterrupt(old(Snapshot()))
    {
      NoteWhatWasSaid(UserRole, InterruptMarker);
    }

    method OnPreparationElapsed()
      modifies this
      ensures Snapshot() == PreparationElapsed(old(Snapshot()))
    {
      UpdateLearningPhase(Learning, None);
    }

    method OnCallEnded()
      modifies this
      ensures Snapshot() == HandleCallEnded(old(Snapshot()))
    {
      AddToCallLog(LogEntry("CALL_ENDED", NoMeta));
      effects := effects + [Ended(callLog)];
    }
  }
}
