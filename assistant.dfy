/** The call assistant of the tutor's server (server/lib/assistant.js, class `Assistant`): the
    tool text chosen at construction, the two-message prompt, and what `createResponse` makes of
    a completion text. The completion itself comes from a language model and is an input here. */
module Assistant {
  import opened Wrappers
  import opened JsString
  import opened Actions
  import opened DirectiveParser

  /** Who said a message of the chat transcript. */
  datatype Role = SystemRole | UserRole | AssistantRole

  /** The `role` string the chat transcript carries. */
  function RoleName(r: Role): string
  {
    match r
    case SystemRole => "system"
    case UserRole => "user"
    case AssistantRole => "assistant"
  }

  /** One `{role, content}` message. */
  datatype Message = Message(role: Role, content: string)

  /** The tool description offered when the assistant may hang up. */
  const HangUpTool: string :=
    "[endCall] : You can use the token [endCall] tool to hang up the call. Write it exactly as that."

  /** The tool description offered when it may not. */
  const NoTools: string := "N/A"

  /** The token by which the model asks to end the call. */
  const EndCallToken: string := "[endCall]"

  /** The fields of an assistant the modelled code reads; the model, voice and speech-to-text
      settings are passed on to services outside this model. */
  datatype Config = Config(instructions: string, systemPrompt: string, tools: string)

  /** `new Assistant(instructions, options)`: `canHangUp` is `None` when the option is absent,
      `systemPrompt` likewise, and `defaultPrompt` is the built-in tutor system prompt. Only an
      explicit `canHangUp === false` withholds the hang-up tool. */
  function NewAssistant(instructions: string, systemPrompt: Option<string>, canHangUp: Option<bool>,
                        defaultPrompt: string): (a: Config)
    ensures a.instructions == instructions
    ensures a.tools == NoTools <==> canHangUp == Some(false)
    ensures a.tools != NoTools ==> a.tools == HangUpTool
    ensures systemPrompt.Some? ==> a.systemPrompt == systemPrompt.value
    ensures systemPrompt.None? ==> a.systemPrompt == defaultPrompt
  {
    Config(
      instructions,
      match systemPrompt case Some(p) => p case None => defaultPrompt,
      if canHangUp == Some(false) then NoTools else HangUpTool)
  }

  // ---------------------------------------------------------------------------------------------
  // The prompt

  /** The instruction template, split around its two placeholders. */
  const TemplateHead: string := "\nINSTRUCTIONS\n"
  const TemplateMiddle: string := "\n\nTOOLS\n"
  const TemplateTail: string := "\n"
  const InstructionsSlot: string := "{instructions}"
  const ToolsSlot: string := "{tools}"

  /** `INSTRUCTION_PROMPT_BASE`. */
  function Template(): string {
    TemplateHead + InstructionsSlot + TemplateMiddle + ToolsSlot + TemplateTail
  }

  /** `_assemblePrompt(systemPrompt, instructions, tools)`: the system message, then the user
      message holding the template with `{instructions}` and then `{tools}` replaced, once each,
      by `String.prototype.replace`. */
  function AssemblePrompt(systemPrompt: string, instructions: string, tools: string): (prompt: seq<Message>)
    ensures |prompt| == 2
    ensures prompt[0] == Message(SystemRole, systemPrompt) && prompt[1].role == UserRole
  {
    var filled := Replace(Template(), InstructionsSlot, instructions);
    [Message(SystemRole, systemPrompt), Message(UserRole, Replace(filled, ToolsSlot, tools))]
  }

  /** The `prompt` getter. */
  function Prompt(a: Config): (prompt: seq<Message>)
    ensures |prompt| == 2 && prompt[0] == Message(SystemRole, a.systemPrompt)
  {
    AssemblePrompt(a.systemPrompt, a.instructions, a.tools)
  }

  /** A text of which no character is `{` holds no occurrence of a placeholder. */
  lemma NoBraceNoSlot(s: string, t: string, j: nat)
    requires t != [] && t[0] == '{' && j < |s| && s[j] != '{'
    ensures !OccursAt(s, t, j)
  {
    if j + |t| <= |s| { assert s[j..j + |t|][0] == s[j]; }
  }

  /** `{instructions}` stands right after the head of the template and nowhere before. */
  lemma InstructionsSlotFirst()
    ensures IndexOf(Template(), InstructionsSlot) == Some(|TemplateHead|)
  {
    var s := Template();
    assert s[|TemplateHead|..|TemplateHead| + |InstructionsSlot|] == InstructionsSlot;
    forall j | 0 <= j < |TemplateHead| ensures !OccursAt(s, InstructionsSlot, j) {
      assert s[j] == TemplateHead[j];
      NoBraceNoSlot(s, InstructionsSlot, j);
    }
    IndexOfFirst(s, InstructionsSlot, |TemplateHead|);
  }

  /** The template after the first replacement, for instructions without `$`. */
  lemma FirstReplacement(instructions: string)
    requires '$' !in instructions
    ensures Replace(Template(), InstructionsSlot, instructions)
         == TemplateHead + instructions + TemplateMiddle + ToolsSlot + TemplateTail
  {
    var s := Template();
    InstructionsSlotFirst();
    ReplaceLiteral(s, InstructionsSlot, instructions, |TemplateHead|);
    assert s[..|TemplateHead|] == TemplateHead;
    assert s[|TemplateHead| + |InstructionsSlot|..] == TemplateMiddle + ToolsSlot + TemplateTail;
  }

  /** In that text `{tools}` first stands at the template's own slot, unless the instructions
      themselves hold `{tools}`. */
  lemma ToolsSlotFirst(instructions: string)
    requires !Includes(instructions, ToolsSlot)
    ensures var s := TemplateHead + instructions + TemplateMiddle + ToolsSlot + TemplateTail;
      IndexOf(s, ToolsSlot) == Some(|TemplateHead| + |instructions| + |TemplateMiddle|)
  {
    var s := TemplateHead + instructions + TemplateMiddle + ToolsSlot + TemplateTail;
    var a := |TemplateHead|;
    var b := a + |instructions|;
    var k := b + |TemplateMiddle|;
    assert s[k..k + |ToolsSlot|] == ToolsSlot;
    forall j | 0 <= j < k ensures !OccursAt(s, ToolsSlot, j) {
      if j < a {
        assert s[j] == TemplateHead[j];
        NoBraceNoSlot(s, ToolsSlot, j);
      } else if j >= b {
        assert s[j] == TemplateMiddle[j - b];
        NoBraceNoSlot(s, ToolsSlot, j);
      } else if j + |ToolsSlot| <= b {
        assert s[j..j + |ToolsSlot|] == instructions[j - a..j - a + |ToolsSlot|];
        assert !OccursAt(instructions, ToolsSlot, j - a);
      } else {
        // An occurrence would run into the middle of the template, which starts with a newline.
        assert s[b] == '\n';
        if j + |ToolsSlot| <= |s| { assert s[j..j + |ToolsSlot|][b - j] == s[b]; }
      }
    }
    IndexOfFirst(s, ToolsSlot, k);
  }

  /** For instructions and tools without `$` and instructions that do not mention `{tools}`, the
      user message is the template with both texts in their places. */
  lemma AssembledPrompt(systemPrompt: string, instructions: string, tools: string)
    requires '$' !in instructions && '$' !in tools && !Includes(instructions, ToolsSlot)
    ensures AssemblePrompt(systemPrompt, instructions, tools)
         == [Message(SystemRole, systemPrompt),
             Message(UserRole, TemplateHead + instructions + TemplateMiddle + tools + TemplateTail)]
  {
    FirstReplacement(instructions);
    var s := TemplateHead + instructions + TemplateMiddle + ToolsSlot + TemplateTail;
    var k := |TemplateHead| + |instructions| + |TemplateMiddle|;
    ToolsSlotFirst(instructions);
    ReplaceLiteral(s, ToolsSlot, tools, k);
    assert s[..k] == TemplateHead + instructions + TemplateMiddle;
    assert s[k + |ToolsSlot|..] == TemplateTail;
  }

  // ---------------------------------------------------------------------------------------------
  // The response

  /** What `createResponse` returns: the text to speak, the selected tool, and the content
      actions (absent on the hang-up path). */
  datatype Response = Response(content: string, selectedTool: Option<string>, contentActions: Option<seq<Action>>)

  /** `createResponse` once the completion text `completion` has arrived. A completion holding
      `[endCall]` loses its first occurrence of it and selects the hang-up tool without being
      parsed; any other is parsed for directives. */
  function CreateResponse(completion: string): (r: Response)
    ensures Includes(completion, EndCallToken) <==> r.selectedTool == Some("endCall")
    ensures Includes(completion, EndCallToken) ==> r.contentActions.None? && |r.content| == |completion| - |EndCallToken|
    ensures !Includes(completion, EndCallToken) ==>
      r.selectedTool.None? && r.contentActions == Some(Parse(completion).actions) && r.content == Parse(completion).speech
  {
    match IndexOf(completion, EndCallToken)
    case Some(i) =>
      RemoveFirst(completion, EndCallToken, i);
      Response(Replace(completion, EndCallToken, ""), Some("endCall"), None)
    case None =>
      var parsed := Parse(completion);
      Response(parsed.speech, None, Some(parsed.actions))
  }

  /** On the hang-up path exactly the first `[endCall]` is cut out and the rest of the text,
      later tokens and directives included, is kept verbatim. */
  lemma EndCallRemovesFirst(completion: string, i: nat)
    requires IndexOf(completion, EndCallToken) == Some(i)
    ensures CreateResponse(completion).content == completion[..i] + completion[i + |EndCallToken|..]
    ensures forall j :: 0 <= j < i ==> !OccursAt(completion, EndCallToken, j)
  {
    RemoveFirst(completion, EndCallToken, i);
  }
}
