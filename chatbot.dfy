/**
 * The chatbot's own logic: the built-in help topics, and the prompt sent to
 * the language model together with the post-processing of its answer. The
 * model itself is a parameter: absent when no API key is configured, else a
 * function from prompt to generation outcome.
 */
module Chatbot {
  import opened Wrappers
  import opened Text

  // ---------------------------------------------------------------- Help topics

  /** The topics `get_petition_help` holds a text for. */
  datatype HelpTopic = Submit | Status | Urgency | Departments | General

  /** The topic's key in the help dictionary. */
  function TopicKey(t: HelpTopic): string {
    match t
    case Submit => "submit"
    case Status => "status"
    case Urgency => "urgency"
    case Departments => "departments"
    case General => "general"
  }

  /** The dictionary entry for each topic, verbatim. */
  function HelpText(t: HelpTopic): string {
    match t
    case Submit =>
      "To submit a petition:\n1. Click 'Submit Petition' in the navigation\n2. Fill in the title and description clearly\n3. Attach any supporting documents (photos, PDFs)\n4. Click Submit - our AI will automatically classify it to the right department\n5. You'll receive a petition ID to track your submission"
    case Status =>
      "Petition Status Meanings:\n- SUBMITTED: Your petition has been received\n- UNDER_REVIEW: Being reviewed by the department\n- ASSIGNED: Assigned to an officer for action\n- IN_PROGRESS: Officer is working on resolution\n- RESOLVED: Issue has been resolved\n- REJECTED: Petition was rejected (you'll receive a reason)\n- CLOSED: Petition has been closed"
    case Urgency =>
      "Urgency Levels (AI-determined):\n- CRITICAL: Life-threatening or severe safety hazard\n- HIGH: Major inconvenience or potential safety risk\n- MEDIUM: Standard grievance requiring attention\n- LOW: Suggestions or minor complaints\n\nOur AI analyzes your petition to determine urgency automatically."
    case Departments =>
      "Available Departments:\n- Roads & Transport\n- Electricity\n- Water Supply\n- Sanitation\n- Police\n- Health\n- Education\n- General\n\nOur AI automatically routes your petition to the correct department based on your description."
    case General =>
      "Welcome to the AI Petition System!\n\nI can help you with:\n- How to submit a petition\n- Understanding petition status\n- Explaining urgency levels\n- Information about departments\n- General system guidance\n\nWhat would you like to know?"
  }

  /** The dictionary lookup: the topic stored under `key`, None for a key it lacks. */
  function TopicOfKey(key: string): (t: Option<HelpTopic>)
    ensures t.Some? ==> TopicKey(t.value) == key
    ensures t.None? ==> forall u: HelpTopic :: TopicKey(u) != key
  {
    if key == "submit" then Some(Submit)
    else if key == "status" then Some(Status)
    else if key == "urgency" then Some(Urgency)
    else if key == "departments" then Some(Departments)
    else if key == "general" then Some(General)
    else None
  }

  /** `get_petition_help`: the text stored under `topic`, and the general text for a topic the dictionary lacks. */
  function GetPetitionHelp(topic: string): (text: string)
    ensures TopicOfKey(topic).Some? ==> text == HelpText(TopicOfKey(topic).value)
    ensures TopicOfKey(topic).None? ==> text == HelpText(General)
  {
    HelpText(TopicOfKey(topic).GetOr(General))
  }

  /** Every topic's text is reached by its own key. */
  lemma EveryTopicHasItsText(t: HelpTopic)
    ensures GetPetitionHelp(TopicKey(t)) == HelpText(t)
  {
    assert TopicOfKey(TopicKey(t)) == Some(t);
  }

  // ---------------------------------------------------------------- Prompt

  /** One earlier turn of the conversation, as the client sends it. */
  datatype ChatMessage = ChatMessage(role: string, content: string)

  const SystemPrompt: string :=
    "You are a helpful AI assistant for a government petition and grievance management system. \nYour role is to:\n1. Help citizens understand how to submit petitions\n2. Explain the petition process and status meanings\n3. Answer questions about departments and urgency levels\n4. Provide general guidance on using the system\n\nBe concise, professional, and helpful. If asked about specific petition details, remind users to check their dashboard."

  /** How many of the latest turns the prompt keeps. */
  const HistoryWindow: nat := 5

  /** The speaker label shown for a turn of the given role. */
  function RoleLabel(role: string): string {
    if role == "user" then "User" else "Assistant"
  }

  /** The label is "User" exactly for role "user", and "Assistant" for any other role. */
  lemma RoleLabelChoices(role: string)
    ensures RoleLabel(role) == "User" <==> role == "user"
    ensures RoleLabel(role) == "User" || RoleLabel(role) == "Assistant"
  {
  }

  function RenderMessage(m: ChatMessage): string {
    RoleLabel(m.role) + ": " + m.content + "\n"
  }

  /** Python's `history[-5:]`: the last five turns, or all of them when there are fewer. */
  function RecentHistory(history: seq<ChatMessage>): (r: seq<ChatMessage>)
    ensures |r| <= HistoryWindow && |r| <= |history|
    ensures |history| <= HistoryWindow ==> r == history
    ensures |history| > HistoryWindow ==> |r| == HistoryWindow
    ensures r == history[|history| - |r|..]
  {
    if |history| <= HistoryWindow then history else history[|history| - HistoryWindow..]
  }

  /** The rendered turns, one line each, in order. */
  function RenderHistory(ms: seq<ChatMessage>): string {
    if ms == [] then "" else RenderHistory(ms[..|ms| - 1]) + RenderMessage(ms[|ms| - 1])
  }

  /** Rendering distributes over concatenation, so the turns appear in their original order. */
  lemma {:induction false} RenderHistoryAppend(xs: seq<ChatMessage>, ys: seq<ChatMessage>)
    ensures RenderHistory(xs + ys) == RenderHistory(xs) + RenderHistory(ys)
  {
    if ys != [] {
      var n := |ys| - 1;
      var zs := xs + ys;
      assert zs[..|zs| - 1] == xs + ys[..n];
      assert zs[|zs| - 1] == ys[n];
      RenderHistoryAppend(xs, ys[..n]);
      ConcatAssociative(RenderHistory(xs), RenderHistory(ys[..n]), RenderMessage(ys[n]));
    } else {
      assert xs + ys == xs;
    }
  }

  /** The prompt after header `head`: the recent turns, then the new message and the cue for the answer. */
  function PromptAfter(head: string, message: string, history: seq<ChatMessage>): (p: string)
    ensures StartsWith(p, head)
    ensures EndsWith(p, "User: " + message + "\nAssistant:")
  {
    var body := RenderHistory(RecentHistory(history));
    var tail := "User: " + message + "\nAssistant:";
    ConcatStartsWith(head, body + tail);
    ConcatAssociative(head, body, tail);
    ConcatEndsWith(head + body, tail);
    head + body + tail
  }

  /** The prompt handed to the model for `message` after `history`. */
  function Prompt(message: string, history: seq<ChatMessage>): (p: string)
    ensures StartsWith(p, SystemPrompt + "\n\n")
    ensures EndsWith(p, "User: " + message + "\nAssistant:")
  {
    PromptAfter(SystemPrompt + "\n\n", message, history)
  }

  lemma OldTurnsDoNotReachPromptAfter(head: string, message: string, oldTurn: ChatMessage, history: seq<ChatMessage>)
    requires |history| >= HistoryWindow
    ensures PromptAfter(head, message, [oldTurn] + history) == PromptAfter(head, message, history)
  {
    var h := [oldTurn] + history;
    assert h[|h| - HistoryWindow..] == history[|history| - HistoryWindow..];
  }

  /** Only the last five turns matter: a turn older than those leaves the prompt unchanged. */
  lemma OldTurnsDoNotReachPrompt(message: string, oldTurn: ChatMessage, history: seq<ChatMessage>)
    requires |history| >= HistoryWindow
    ensures Prompt(message, [oldTurn] + history) == Prompt(message, history)
  {
    OldTurnsDoNotReachPromptAfter(SystemPrompt + "\n\n", message, oldTurn, history);
  }

  /** Appends one rendered line per turn to `prefix`, as the prompt loop accumulates them. */
  method AppendTurns(prefix: string, turns: seq<ChatMessage>) returns (text: string)
    ensures text == prefix + RenderHistory(turns)
  {
    text := prefix;
    for k := 0 to |turns|
      invariant text == prefix + RenderHistory(turns[..k])
    {
      var role := RoleLabel(turns[k].role);
      var line := role + ": " + turns[k].content + "\n";
      assert turns[..k + 1][..k] == turns[..k];
      assert RenderHistory(turns[..k + 1]) == RenderHistory(turns[..k]) + line;
      ConcatAssociative(prefix, RenderHistory(turns[..k]), line);
      text := text + line;
    }
    assert turns[..|turns|] == turns;
  }

  /** The prompt for `message` after `history`, built by accumulation as the source does. */
  method BuildPrompt(message: string, history: seq<ChatMessage>) returns (prompt: string)
    ensures prompt == Prompt(message, history)
  {
    var recent := if |history| <= HistoryWindow then history else history[|history| - HistoryWindow..];
    assert recent == RecentHistory(history);
    prompt := AppendTurns(SystemPrompt + "\n\n", recent);
    prompt := prompt + ("User: " + message + "\nAssistant:");
  }

  // ---------------------------------------------------------------- Response

  /** What one call of the model yields: a text, or a raised error. */
  datatype Generation = Generated(text: string) | GenerationFailed

  const UnavailableReply: string :=
    "I'm sorry, the chatbot service is currently unavailable. Please try again later."
  const EmptyReply: string :=
    "I apologize, but I couldn't generate a response. Please try rephrasing your question."
  const ErrorReply: string :=
    "I encountered an error processing your message. Please try again or contact support if the issue persists."

  /** `get_chatbot_response`: the model's stripped answer, or the fixed reply for each failure. */
  function GetChatbotResponse(message: string, history: seq<ChatMessage>,
                              model: Option<string -> Generation>): (reply: string)
    ensures model.None? ==> reply == UnavailableReply
    ensures model.Some? ==>
      var g := model.value(Prompt(message, history));
      && (g.GenerationFailed? ==> reply == ErrorReply)
      && (g == Generated("") ==> reply == EmptyReply)
      && (g.Generated? && g.text != "" ==> reply == Strip(g.text))
  {
    match model
    case None => UnavailableReply
    case Some(generate) =>
      match generate(Prompt(message, history))
      case GenerationFailed => ErrorReply
      case Generated(text) => if text != "" then Strip(text) else EmptyReply
  }
}
