/**
 * The chatbot endpoints. A message is stripped; an empty one is refused
 * with status 400. Otherwise its lower-cased form is tested against the
 * keyword rules in order, the first that matches picks a help topic, and
 * only a message no rule matches goes to the language model.
 */
module ChatViews {
  import opened Wrappers
  import opened Text
  import opened Chatbot

  /** Where a chat message is sent. */
  datatype Route = MissingMessage | HelpRoute(topic: string) | AiRoute(message: string)

  predicate IsHelpCommand(lower: string) {
    lower == "help" || lower == "/help"
  }

  /** The help topic the keyword chain picks for a lower-cased message, None when it picks none. */
  function KeywordTopic(lower: string): (t: Option<string>)
    ensures t.Some? ==> TopicOfKey(t.value).Some?
    ensures IsHelpCommand(lower) ==> t == Some("general")
  {
    if IsHelpCommand(lower) then Some("general")
    else if Contains(lower, "submit") && Contains(lower, "how") then Some("submit")
    else if Contains(lower, "status") then Some("status")
    else if Contains(lower, "urgency") || Contains(lower, "priority") then Some("urgency")
    else if Contains(lower, "department") then Some("departments")
    else None
  }

  /** The routing of `ChatbotView.post`; `raw` is the request's "message" field, None when absent. */
  function RouteMessage(raw: Option<string>): (r: Route)
    ensures r.MissingMessage? <==> Strip(raw.GetOr("")) == []
    ensures r.AiRoute? ==> r.message == Strip(raw.GetOr(""))
    ensures r.HelpRoute? ==> TopicOfKey(r.topic).Some?
  {
    var message := Strip(raw.GetOr(""));
    if message == [] then MissingMessage
    else
      match KeywordTopic(Lower(message))
      case Some(topic) => HelpRoute(topic)
      case None => AiRoute(message)
  }

  /** "help" and "/help" are recognised whatever their case and surrounding white space. */
  lemma HelpCommandInAnyCase(m: string)
    requires Lower(Strip(m)) == "help" || Lower(Strip(m)) == "/help"
    ensures RouteMessage(Some(m)) == HelpRoute("general")
  {
    assert |Strip(m)| == |Lower(Strip(m))| > 0;
  }

  /** Upper- and mixed-case spellings lower-case to the help command. */
  lemma HelpSpellingsLowerCase()
    ensures Lower("HELP") == "help" && Lower("Help") == "help" && Lower("/HELP") == "/help"
  {
  }

  // ---------------------------------------------------------------- The rules as a table

  /** A keyword rule over the lower-cased message, and the topic it selects. */
  datatype Rule =
    | EqualsOneOf(words: seq<string>, topic: string)
    | ContainsAll(words: seq<string>, topic: string)
    | ContainsAny(words: seq<string>, topic: string)

  predicate Matches(rule: Rule, lower: string) {
    match rule
    case EqualsOneOf(ws, _) => lower in ws
    case ContainsAll(ws, _) => forall k :: 0 <= k < |ws| ==> Contains(lower, ws[k])
    case ContainsAny(ws, _) => exists k :: 0 <= k < |ws| && Contains(lower, ws[k])
  }

  /** The keyword rules of the chat endpoint, in the order they are tried. */
  const ChatRules: seq<Rule> := [
    EqualsOneOf(["help", "/help"], "general"),
    ContainsAll(["submit", "how"], "submit"),
    ContainsAny(["status"], "status"),
    ContainsAny(["urgency", "priority"], "urgency"),
    ContainsAny(["department"], "departments")]

  /** The topic of the first rule that matches, or None when no rule does. */
  function FirstMatch(rules: seq<Rule>, lower: string): (r: Option<string>)
    ensures r.None? <==> forall k :: 0 <= k < |rules| ==> !Matches(rules[k], lower)
  {
    if rules == [] then None
    else if Matches(rules[0], lower) then Some(rules[0].topic)
    else FirstMatch(rules[1..], lower)
  }

  /** First match wins: a matching rule preceded only by rules that fail decides the topic. */
  lemma {:induction false} FirstMatchWins(rules: seq<Rule>, lower: string, k: nat)
    requires k < |rules| && Matches(rules[k], lower)
    requires forall j :: 0 <= j < k ==> !Matches(rules[j], lower)
    ensures FirstMatch(rules, lower) == Some(rules[k].topic)
  {
    if k > 0 {
      assert !Matches(rules[0], lower);
      assert forall j :: 0 <= j < k - 1 ==> rules[1..][j] == rules[j + 1];
      FirstMatchWins(rules[1..], lower, k - 1);
    }
  }

  /** The routing read off the rule table: refuse an empty message, else the first matching rule, else the model. */
  function RouteByRules(raw: Option<string>): (r: Route)
    ensures r.MissingMessage? <==> Strip(raw.GetOr("")) == []
    ensures r.AiRoute? ==> r.message == Strip(raw.GetOr("")) && FirstMatch(ChatRules, Lower(r.message)).None?
  {
    var message := Strip(raw.GetOr(""));
    if message == [] then MissingMessage
    else
      match FirstMatch(ChatRules, Lower(message))
      case Some(topic) => HelpRoute(topic)
      case None => AiRoute(message)
  }

  lemma MatchesAnyOfOne(w: string, t: string, lower: string)
    ensures Matches(ContainsAny([w], t), lower) <==> Contains(lower, w)
  {
    if Contains(lower, w) {
      assert Contains(lower, [w][0]);
    }
  }

  lemma MatchesAnyOfTwo(w1: string, w2: string, t: string, lower: string)
    ensures Matches(ContainsAny([w1, w2], t), lower) <==> Contains(lower, w1) || Contains(lower, w2)
  {
    var ws := [w1, w2];
    if Contains(lower, w1) {
      assert Contains(lower, ws[0]);
    }
    if Contains(lower, w2) {
      assert Contains(lower, ws[1]);
    }
  }

  lemma MatchesAllOfTwo(w1: string, w2: string, t: string, lower: string)
    ensures Matches(ContainsAll([w1, w2], t), lower) <==> Contains(lower, w1) && Contains(lower, w2)
  {
    var ws := [w1, w2];
    assert ws[0] == w1 && ws[1] == w2;
  }

  /** The if/elif chain of the endpoint is exactly an ordered first-match over the rule table. */
  lemma KeywordChainIsFirstMatch(lower: string)
    ensures KeywordTopic(lower) == FirstMatch(ChatRules, lower)
  {
    var r0 := ChatRules;
    var r1 := r0[1..];
    var r2 := r1[1..];
    var r3 := r2[1..];
    var r4 := r3[1..];
    assert r0[0] == EqualsOneOf(["help", "/help"], "general");
    assert r1[0] == ContainsAll(["submit", "how"], "submit");
    assert r2[0] == ContainsAny(["status"], "status");
    assert r3[0] == ContainsAny(["urgency", "priority"], "urgency");
    assert r4 == [ContainsAny(["department"], "departments")];
    MatchesAnyOfOne("department", "departments", lower);
    MatchesAnyOfTwo("urgency", "priority", "urgency", lower);
    MatchesAnyOfOne("status", "status", lower);
    MatchesAllOfTwo("submit", "how", "submit", lower);
    assert Matches(r0[0], lower) <==> IsHelpCommand(lower);
    assert FirstMatch(r4[1..], lower) == None;
    assert FirstMatch(r4, lower) == if Contains(lower, "department") then Some("departments") else None;
    assert FirstMatch(r3, lower) == if Matches(r3[0], lower) then Some("urgency") else FirstMatch(r4, lower);
    assert FirstMatch(r2, lower) == if Matches(r2[0], lower) then Some("status") else FirstMatch(r3, lower);
    assert FirstMatch(r1, lower) == if Matches(r1[0], lower) then Some("submit") else FirstMatch(r2, lower);
  }

  /** Routing a request follows the rule table. */
  lemma RoutingFollowsRuleTable(raw: Option<string>)
    ensures RouteMessage(raw) == RouteByRules(raw)
  {
    var message := Strip(raw.GetOr(""));
    if message != [] {
      KeywordChainIsFirstMatch(Lower(message));
    }
  }

  // ---------------------------------------------------------------- Responses

  datatype ChatResponse =
    | BadRequest(status: nat, error: string)
    | Reply(response: string, timestamp: Option<string>)

  /**
   * `ChatbotView.post`: the request's message, conversation history and
   * timestamp fields, and the model (None when no API key is configured).
   */
  function ChatbotPost(message: Option<string>, history: seq<ChatMessage>, timestamp: Option<string>,
                       model: Option<string -> Generation>): (resp: ChatResponse)
    ensures resp.BadRequest? <==> Strip(message.GetOr("")) == []
    ensures resp.BadRequest? ==> resp.status == 400 && resp.error == "Message is required"
    ensures resp.Reply? ==> resp.timestamp == timestamp
    ensures RouteMessage(message).HelpRoute? ==>
      resp.Reply? && resp.response == GetPetitionHelp(RouteMessage(message).topic)
    ensures RouteMessage(message).AiRoute? ==>
      resp.Reply? && resp.response == GetChatbotResponse(Strip(message.GetOr("")), history, model)
  {
    match RouteMessage(message)
    case MissingMessage => BadRequest(400, "Message is required")
    case HelpRoute(topic) => Reply(GetPetitionHelp(topic), timestamp)
    case AiRoute(m) => Reply(GetChatbotResponse(m, history, model), timestamp)
  }

  datatype HelpResponse = HelpResponse(topic: string, help: string)

  /** `ChatbotHelpView.get`: `topic` is the query parameter, None when absent. */
  function ChatbotHelpGet(topic: Option<string>): (r: HelpResponse)
    ensures topic.None? ==> r.topic == "general" && r.help == GetPetitionHelp("general")
    ensures topic.Some? ==> r.topic == topic.value && r.help == GetPetitionHelp(topic.value)
  {
    var t := topic.GetOr("general");
    HelpResponse(t, GetPetitionHelp(t))
  }
}
