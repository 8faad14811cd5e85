/**
 * The simulated patient: the filter that hides the patient's inner thoughts
 * from the doctor, and the agent that keeps the conversation history, builds
 * the message list for each completion call, retries the call and falls back
 * to a canned reply when every attempt fails. The completion endpoint is an
 * oracle from the message list and the attempt number to what the call gave.
 */
module PatientSimulator {
  import opened Wrappers
  import opened Strings
  import opened Common
  import opened Roleplay

  /** Default retry configuration of the patient agent. */
  const MAX_RETRIES: int := 3
  const RETRY_DELAY: nat := 2

  // ---------------------------------------------------------------- hiding inner thoughts

  /** The filter of `extract_spoken_dialogue`, for a hidden marker and a shown marker: drop the
      hidden section, keeping what precedes it and a following shown section, and trim. */
  function HideSection(response: string, hidden: string, shown: string): string
    requires hidden != [] && shown != []
  {
    if Contains(response, hidden) then
      var parts := Split(response, hidden);
      var beforeHidden := parts[0];
      if |parts| > 1 && Contains(parts[1], shown) then
        SplitHead(parts[1], shown);
        var afterHidden := shown + Split(parts[1], shown)[1];
        Strip(beforeHidden + afterHidden)
      else
        Strip(beforeHidden)
    else
      Strip(response)
  }

  /** `extract_spoken_dialogue`: drop the `Think:` section of a "Say: … Think: … Do: …" reply,
      keeping what precedes it and a following `Do:` section, and trim the result. */
  function ExtractSpokenDialogue(response: string): string {
    HideSection(response, "Think:", "Do:")
  }

  /** The visible reply located by position: without the hidden marker, the whole reply;
      otherwise the text before its first occurrence, followed, when the stretch up to its next
      occurrence holds the shown marker, by that marker and the text between the stretch's
      first and second shown marker; trimmed. */
  function VisibleReply(response: string, hidden: string, shown: string): string
    requires hidden != [] && shown != []
  {
    if !Contains(response, hidden) then Strip(response)
    else
      var section := UpTo(After(response, hidden), hidden);
      var action := if Contains(section, shown) then shown + UpTo(After(section, shown), shown) else "";
      Strip(UpTo(response, hidden) + action)
  }

  /** The split-based filter is the positional one. */
  lemma HideSectionIsVisibleReply(response: string, hidden: string, shown: string)
    requires hidden != [] && shown != []
    ensures HideSection(response, hidden, shown) == VisibleReply(response, hidden, shown)
  {
    if Contains(response, hidden) {
      var parts := Split(response, hidden);
      SplitHead(response, hidden);
      var section := UpTo(After(response, hidden), hidden);
      assert parts[0] == UpTo(response, hidden) && parts[1] == section;
      if Contains(section, shown) {
        SplitHead(section, shown);
        var action := shown + UpTo(After(section, shown), shown);
        assert shown + Split(parts[1], shown)[1] == action;
        assert HideSection(response, hidden, shown) == Strip(parts[0] + action);
      } else {
        assert HideSection(response, hidden, shown) == Strip(parts[0]);
        assert parts[0] + "" == parts[0];
      }
    }
  }

  /** `After` is a suffix of the string. */
  lemma AfterAvoids(s: string, sep: string, p: string)
    requires Contains(s, sep) && !Contains(s, p)
    ensures !Contains(After(s, sep), p)
  {
    SliceAvoids(s, p, IndexOf(s, sep).value + |sep|, |s|);
    assert s[IndexOf(s, sep).value + |sep|..|s|] == After(s, sep);
  }

  /** `UpTo` is a prefix of the string. */
  lemma UpToAvoids(s: string, sep: string, p: string)
    requires !Contains(s, p)
    ensures !Contains(UpTo(s, sep), p)
  {
    if IndexOf(s, sep).Some? {
      SliceAvoids(s, p, 0, IndexOf(s, sep).value);
      assert s[0..IndexOf(s, sep).value] == UpTo(s, sep);
    }
  }

  /** The hidden marker never survives the filter, provided neither marker starts with a
      character of the other. */
  lemma HiddenMarkerRemoved(response: string, hidden: string, shown: string)
    requires hidden != [] && shown != []
    requires hidden[0] !in shown && shown[0] !in hidden
    ensures !Contains(HideSection(response, hidden, shown), hidden)
  {
    if !Contains(response, hidden) {
      StripAvoids(response, hidden);
    } else {
      var parts := Split(response, hidden);
      SplitHead(response, hidden);
      SplitPartsAvoid(response, hidden);
      var beforeHidden := parts[0];
      if Contains(parts[1], shown) {
        var section := parts[1];
        SplitHead(section, shown);
        AfterAvoids(section, shown, hidden);
        UpToAvoids(After(section, shown), shown, hidden);
        var action := Split(section, shown)[1];
        BehindPlainAvoids(shown, action, hidden);
        assert (shown + action)[0] == shown[0];
        GlueAvoids(beforeHidden, shown + action, hidden);
        StripAvoids(beforeHidden + (shown + action), hidden);
      } else {
        StripAvoids(beforeHidden, hidden);
      }
    }
  }

  /** The doctor never sees the inner thoughts: the visible reply never holds `Think:`. */
  lemma ThinkHidden(response: string)
    ensures !Contains(ExtractSpokenDialogue(response), "Think:")
  {
    var think, act := "Think:", "Do:";
    assert think[0] == 'T' && act[0] == 'D';
    assert think[0] !in act && act[0] !in think;
    HiddenMarkerRemoved(response, think, act);
  }

  /** The spoken dialogue is what `VisibleReply` locates; in particular a reply without
      `Think:` is shown whole, only trimmed. */
  lemma SpokenDialogueShape(response: string)
    ensures ExtractSpokenDialogue(response) == VisibleReply(response, "Think:", "Do:")
    ensures !Contains(response, "Think:") ==> ExtractSpokenDialogue(response) == Strip(response)
  {
    HideSectionIsVisibleReply(response, "Think:", "Do:");
  }

  // ---------------------------------------------------------------- fallback replies

  /** Natural replies used when the completion endpoint gives nothing usable. */
  const FALLBACK_0: string := "Sorry, what were you saying? I zoned out for a second there."
  const FALLBACK_1: string := "Wait, can you repeat that? I'm having trouble focusing right now."
  const FALLBACK_2: string := "I... I'm not sure what to say to that."
  const FALLBACK_3: string := "Hold on, I need to think about this for a moment."
  const FALLBACK_4: string := "I'm sorry, my mind is just racing right now."
  const FALLBACK_5: string := "Can we slow down? This is a lot to process."
  const FALLBACK_6: string := "I don't know... I'm really confused about all this."
  const FALLBACK_7: string := "Everything you're saying is just... it's overwhelming."
  const FALLBACK_MESSAGES: seq<string> :=
    [FALLBACK_0, FALLBACK_1, FALLBACK_2, FALLBACK_3, FALLBACK_4, FALLBACK_5, FALLBACK_6, FALLBACK_7]

  /** No fallback reply is blank. */
  lemma FallbacksVisible()
    ensures |FALLBACK_MESSAGES| == 8
    ensures forall i :: 0 <= i < |FALLBACK_MESSAGES| ==> !IsBlank(FALLBACK_MESSAGES[i])
  {
    forall i | 0 <= i < |FALLBACK_MESSAGES|
      ensures !IsBlank(FALLBACK_MESSAGES[i])
    {
      if i == 0 {
        assert FALLBACK_MESSAGES[i] == FALLBACK_0;
        VisibleNotBlank(FALLBACK_0);
      } else if i == 1 {
        assert FALLBACK_MESSAGES[i] == FALLBACK_1;
        VisibleNotBlank(FALLBACK_1);
      } else if i == 2 {
        assert FALLBACK_MESSAGES[i] == FALLBACK_2;
        VisibleNotBlank(FALLBACK_2);
      } else if i == 3 {
        assert FALLBACK_MESSAGES[i] == FALLBACK_3;
        VisibleNotBlank(FALLBACK_3);
      } else if i == 4 {
        assert FALLBACK_MESSAGES[i] == FALLBACK_4;
        VisibleNotBlank(FALLBACK_4);
      } else if i == 5 {
        assert FALLBACK_MESSAGES[i] == FALLBACK_5;
        VisibleNotBlank(FALLBACK_5);
      } else if i == 6 {
        assert FALLBACK_MESSAGES[i] == FALLBACK_6;
        VisibleNotBlank(FALLBACK_6);
      } else {
        assert FALLBACK_MESSAGES[i] == FALLBACK_7;
        VisibleNotBlank(FALLBACK_7);
      }
    }
  }

  // ---------------------------------------------------------------- completion calls

  /** What one chat-completion call produced: an exception, or the message content, which may be None. */
  datatype Completion = Failed(message: string) | Content(text: Option<string>)

  /** A reply worth keeping: some content that is not blank. */
  predicate Usable(c: Completion) {
    c.Content? && c.text.Some? && !IsBlank(c.text.value)
  }

  // ---------------------------------------------------------------- conversation

  /** The history is a run of exchanges: doctor (user) and patient (assistant) entries
      alternate, starting with the doctor, and no patient entry is blank. */
  predicate WellFormedHistory(h: seq<ChatMessage>) {
    Alternating(h) && RepliesSpoken(h)
  }

  /** Entries alternate user, assistant, user, …, and end with an assistant entry. */
  predicate Alternating(h: seq<ChatMessage>) {
    && |h| % 2 == 0
    && (forall i :: 0 <= i < |h| ==> h[i].role == (if i % 2 == 0 then User else Assistant))
  }

  /** No entry at an odd position (a patient reply) is blank. */
  predicate RepliesSpoken(h: seq<ChatMessage>) {
    forall i :: 0 <= i < |h| && i % 2 == 1 ==> !IsBlank(h[i].content)
  }

  /** Whether the role-play preamble is used: role-play is on and its system prompt is non-empty. */
  predicate UsesRoleplay(useRoleplayContext: bool, roleplaySystemPrompt: Option<string>) {
    useRoleplayContext && roleplaySystemPrompt.Some? && roleplaySystemPrompt.value != ""
  }

  /** The history entries passed on to the completion call: user and assistant turns, in order. */
  function HistoryMessages(h: seq<ChatMessage>): seq<ChatMessage> {
    if h == [] then []
    else HistoryMessages(h[..|h| - 1]) + (if h[|h| - 1].role in {User, Assistant} then [h[|h| - 1]] else [])
  }

  /** The message list of a completion call: the system message and, in role-play mode, the
      priming conversation; then the history. */
  function ConversationMessages(
    characterDescription: string, useRoleplayContext: bool, roleplaySystemPrompt: Option<string>,
    roleplayContextMessages: seq<ChatMessage>, history: seq<ChatMessage>): seq<ChatMessage>
  {
    (if UsesRoleplay(useRoleplayContext, roleplaySystemPrompt)
     then [ChatMessage(System, roleplaySystemPrompt.value)] + roleplayContextMessages
     else [ChatMessage(System, characterDescription)])
    + HistoryMessages(history)
  }

  /** History made only of user and assistant turns is passed on whole. */
  lemma {:induction false} HistoryPassedWhole(h: seq<ChatMessage>)
    requires forall i :: 0 <= i < |h| ==> h[i].role != System
    ensures HistoryMessages(h) == h
  {
    if h != [] {
      HistoryPassedWhole(h[..|h| - 1]);
      assert h == h[..|h| - 1] + [h[|h| - 1]];
    }
  }

  /** The message list opens with exactly one system message, the role-play prompt in role-play
      mode and the full character description otherwise; the priming conversation follows only
      in role-play mode; the history closes the list, in order. */
  lemma ConversationShape(
    characterDescription: string, useRoleplayContext: bool, roleplaySystemPrompt: Option<string>,
    roleplayContextMessages: seq<ChatMessage>, history: seq<ChatMessage>)
    requires forall i :: 0 <= i < |roleplayContextMessages| ==> roleplayContextMessages[i].role != System
    requires forall i :: 0 <= i < |history| ==> history[i].role != System
    ensures var messages := ConversationMessages(characterDescription, useRoleplayContext, roleplaySystemPrompt, roleplayContextMessages, history);
            var roleplay := UsesRoleplay(useRoleplayContext, roleplaySystemPrompt);
            && |messages| == 1 + (if roleplay then |roleplayContextMessages| else 0) + |history|
            && messages[0] == ChatMessage(System, if roleplay then roleplaySystemPrompt.value else characterDescription)
            && (forall i :: 1 <= i < |messages| ==> messages[i].role != System)
            && (roleplay ==> messages[1..1 + |roleplayContextMessages|] == roleplayContextMessages)
            && messages[|messages| - |history|..] == history
  {
    HistoryPassedWhole(history);
  }

  /** The position after an even one is odd. */
  lemma OddAfterEven(n: int)
    requires n % 2 == 0
    ensures (n + 1) % 2 == 1
  {
  }

  /** One exchange with a non-blank patient reply keeps the history well formed. */
  lemma HistoryExtended(h: seq<ChatMessage>, doctorMessage: string, reply: string)
    requires WellFormedHistory(h) && !IsBlank(reply)
    ensures WellFormedHistory(h + [ChatMessage(User, doctorMessage), ChatMessage(Assistant, reply)])
  {
    AlternatingExtended(h, ChatMessage(User, doctorMessage), ChatMessage(Assistant, reply));
    RepliesExtended(h, ChatMessage(User, doctorMessage), ChatMessage(Assistant, reply));
  }

  lemma AlternatingExtended(h: seq<ChatMessage>, question: ChatMessage, answer: ChatMessage)
    requires Alternating(h) && question.role == User && answer.role == Assistant
    ensures Alternating(h + [question, answer])
  {
    var h2 := h + [question, answer];
    OddAfterEven(|h|);
    forall i | 0 <= i < |h2|
      ensures h2[i].role == (if i % 2 == 0 then User else Assistant)
    {
      if i < |h| {
        assert h2[i] == h[i];
      }
    }
  }

  lemma RepliesExtended(h: seq<ChatMessage>, question: ChatMessage, answer: ChatMessage)
    requires |h| % 2 == 0 && RepliesSpoken(h) && !IsBlank(answer.content)
    ensures RepliesSpoken(h + [question, answer])
  {
    var h2 := h + [question, answer];
    forall i | 0 <= i < |h2| && i % 2 == 1
      ensures !IsBlank(h2[i].content)
    {
      if i < |h| {
        assert h2[i] == h[i];
      } else {
        assert i != |h|;
        assert h2[i] == answer;
      }
    }
  }


  /** The patient: fixed configuration, a fixed role-play preamble, and the growing history. */
  class PatientAgent {
    const characterDescription: string
    const maxRetries: int
    const retryDelay: nat
    const useRoleplayContext: bool
    const roleplaySystemPrompt: Option<string>
    const roleplayContextMessages: seq<ChatMessage>
    var dialogueHistory: seq<ChatMessage>

    ghost predicate Valid()
      reads this
    {
      WellFormedHistory(dialogueHistory)
    }

    /** An agent with the given preamble and an empty history. */
    constructor(
      characterDescription: string, maxRetries: int, retryDelay: nat, useRoleplayContext: bool,
      roleplaySystemPrompt: Option<string>, roleplayContextMessages: seq<ChatMessage>)
      ensures Valid() && dialogueHistory == []
      ensures this.characterDescription == characterDescription && this.maxRetries == maxRetries
      ensures this.retryDelay == retryDelay && this.useRoleplayContext == useRoleplayContext
      ensures this.roleplaySystemPrompt == roleplaySystemPrompt && this.roleplayContextMessages == roleplayContextMessages
    {
      this.characterDescription := characterDescription;
      this.maxRetries := maxRetries;
      this.retryDelay := retryDelay;
      this.useRoleplayContext := useRoleplayContext;
      this.roleplaySystemPrompt := roleplaySystemPrompt;
      this.roleplayContextMessages := roleplayContextMessages;
      dialogueHistory := [];
    }

    /** The message list for the current history. */
    function Messages(): seq<ChatMessage>
      reads this
    {
      ConversationMessages(characterDescription, useRoleplayContext, roleplaySystemPrompt, roleplayContextMessages, dialogueHistory)
    }

    /** `reset`: the history is emptied. */
    method Reset()
      modifies this
      ensures Valid() && dialogueHistory == []
    {
      dialogueHistory := [];
    }

    /** `get_dialogue_history`: the history as a fresh list; adding or removing entries in it
        does not change the agent's history. */
    method GetDialogueHistory() returns (history: seq<ChatMessage>)
      requires Valid()
      ensures history == dialogueHistory && WellFormedHistory(history)
    {
      history := dialogueHistory;
    }

    /** The message list of `respond`, built by appending. */
    method BuildMessages() returns (messages: seq<ChatMessage>)
      ensures messages == Messages()
    {
      messages := [];
      if useRoleplayContext && roleplaySystemPrompt.Some? && roleplaySystemPrompt.value != "" {
        messages := messages + [ChatMessage(System, roleplaySystemPrompt.value)];
        messages := messages + roleplayContextMessages;
      } else {
        messages := messages + [ChatMessage(System, characterDescription)];
      }
      ghost var preamble := messages;
      for i := 0 to |dialogueHistory|
        invariant messages == preamble + HistoryMessages(dialogueHistory[..i])
      {
        var turn := dialogueHistory[i];
        assert dialogueHistory[..i + 1][..i] == dialogueHistory[..i];
        if turn.role == User {
          messages := messages + [ChatMessage(User, turn.content)];
        } else if turn.role == Assistant {
          messages := messages + [ChatMessage(Assistant, turn.content)];
        }
      }
      assert dialogueHistory[..|dialogueHistory|] == dialogueHistory;
    }

    /** `respond`: record the doctor's message, ask for the patient's reply with the resulting
        message list, record that full reply, and return only its visible part. */
    method Respond(doctorMessage: string, llm: (seq<ChatMessage>, nat) -> Completion) returns (spoken: string)
      requires Valid()
      modifies this
      ensures Valid()
      ensures |dialogueHistory| == |old(dialogueHistory)| + 2
      ensures var messages := ConversationMessages(characterDescription, useRoleplayContext, roleplaySystemPrompt,
                                roleplayContextMessages, old(dialogueHistory) + [ChatMessage(User, doctorMessage)]);
              var reply := dialogueHistory[|old(dialogueHistory)| + 1].content;
              && dialogueHistory == old(dialogueHistory) + [ChatMessage(User, doctorMessage), ChatMessage(Assistant, reply)]
              && ReplyChosen(messages, llm, maxRetries, reply)
              && spoken == ExtractSpokenDialogue(reply)
    {
      ghost var before := dialogueHistory;
      dialogueHistory := dialogueHistory + [ChatMessage(User, doctorMessage)];
      var messages := BuildMessages();
      var reply := RequestReply(messages, llm, maxRetries);
      dialogueHistory := dialogueHistory + [ChatMessage(Assistant, reply)];
      assert dialogueHistory == before + [ChatMessage(User, doctorMessage), ChatMessage(Assistant, reply)];
      assert dialogueHistory[|before| + 1].content == reply;
      HistoryExtended(before, doctorMessage, reply);
      spoken := ExtractSpokenDialogue(reply);
    }
  }

  /** What the retry loop of `respond` may settle on: the reply of the first attempt that gives
      a non-blank one, or, when none of the `maxRetries` attempts does, a fallback reply. */
  predicate ReplyChosen(messages: seq<ChatMessage>, llm: (seq<ChatMessage>, nat) -> Completion, maxRetries: int, reply: string) {
    match FirstAccepted((attempt: nat) => Usable(llm(messages, attempt)), 0, maxRetries)
    case Some(k) => llm(messages, k) == Content(Some(reply))
    case None => reply in FALLBACK_MESSAGES
  }

  /** The retry loop of `respond`: up to `maxRetries` completion calls, stopping at the first
      non-blank reply; a random fallback when none comes. The reply is never blank. */
  method RequestReply(messages: seq<ChatMessage>, llm: (seq<ChatMessage>, nat) -> Completion, maxRetries: int)
    returns (reply: string)
    ensures ReplyChosen(messages, llm, maxRetries, reply)
    ensures !IsBlank(reply)
  {
    ghost var ok := (attempt: nat) => Usable(llm(messages, attempt));
    var patientResponse: Option<string> := None;
    var attempt: nat := 0;
    while attempt < maxRetries
      invariant FirstAccepted(ok, 0, attempt).None?
      invariant patientResponse.None? || IsBlank(patientResponse.value)
    {
      match llm(messages, attempt) {
        case Failed(_) =>
        case Content(text) =>
          patientResponse := text;
          if text.Some? && !IsBlank(text.value) {
            FirstAcceptedAt(ok, 0, attempt, maxRetries);
            break;
          }
      }
      NoneAccepted(ok, 0, attempt + 1);
      attempt := attempt + 1;
    }
    if patientResponse.None? || IsBlank(patientResponse.value) {
      NoneAccepted(ok, 0, maxRetries);
      assert FALLBACK_MESSAGES[0] in FALLBACK_MESSAGES;
      reply :| reply in FALLBACK_MESSAGES;
      FallbacksVisible();
    } else {
      reply := patientResponse.value;
    }
  }

  /** The agent's construction: in role-play mode with examples, the role-play context is
      formatted from the template, which fails on an empty template; otherwise there is no
      preamble beyond the character description. */
  method NewPatientAgent(
    characterDescription: string, maxRetries: int, retryDelay: nat, useRoleplayContext: bool,
    roleplayExamples: Option<PatientRoleplayExamples>, templateFile: Option<seq<CsvRow>>)
    returns (result: Result<PatientAgent, string>)
    ensures result.Ok? ==> fresh(result.value) && result.value.Valid() && result.value.dialogueHistory == []
    ensures result.Ok? ==> result.value.characterDescription == characterDescription && result.value.maxRetries == maxRetries
    ensures result.Ok? ==> result.value.retryDelay == retryDelay && result.value.useRoleplayContext == useRoleplayContext
    ensures result.Ok? ==> forall i :: 0 <= i < |result.value.roleplayContextMessages| ==> result.value.roleplayContextMessages[i].role != System
    ensures !(useRoleplayContext && roleplayExamples.Some?) ==>
      result.Ok? && result.value.roleplaySystemPrompt.None? && result.value.roleplayContextMessages == []
    ensures useRoleplayContext && roleplayExamples.Some? ==>
      && (result.Err? <==> TemplateIn(templateFile) == [])
      && (result.Err? ==> result.error == TEMPLATE_MISSING)
      && (result.Ok? ==> result.value.roleplaySystemPrompt == Some(ROLEPLAY_SYSTEM_PROMPT)
                         && UsesRoleplay(result.value.useRoleplayContext, result.value.roleplaySystemPrompt)
                         && FilledFrom(result.value.roleplayContextMessages, TemplateIn(templateFile), roleplayExamples.value))
  {
    if useRoleplayContext && roleplayExamples.Some? {
      var formatted := FormatRoleplayContext(templateFile, roleplayExamples.value);
      if formatted.Err? {
        return Err(formatted.error);
      }
      if templateFile.Some? {
        TemplateRoles(templateFile.value);
      }
      var (systemPrompt, contextMessages) := formatted.value;
      var agent := new PatientAgent(characterDescription, maxRetries, retryDelay, useRoleplayContext, Some(systemPrompt), contextMessages);
      return Ok(agent);
    }
    var agent := new PatientAgent(characterDescription, maxRetries, retryDelay, useRoleplayContext, None, []);
    return Ok(agent);
  }
}
