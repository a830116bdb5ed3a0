/** `GameSupervisor.process_task` of src/agents/supervisor.py: the FINISH
    short-circuit, the prompt list, the classification of the routing reply
    and the state update. The model's reply is a function of the prompt
    passed in. */
module Supervisor {
  import opened Wrappers
  import opened PyText
  import opened GameStates
  import opened Routing
  import Researcher

  const AgentTypes := ["dungeon_master", "researcher", "dice_roller"]
  const RoutingOptions := AgentTypes + ["FINISH"]

  /** What `self.llm.invoke(messages)` gives back. */
  datatype RouterReply =
    | NoReply                          // `None`
    | ContentReply(content: string)    // an object with a `content` text
    | DictReply(next: Option<string>)  // a dict, with or without a "next" key
    | OtherReply                       // any other object
    | InvokeError(error: string)       // `invoke`, or reading its reply, raised

  /** `state.get("next") == "FINISH" or state.get("next_agent") == "FINISH"` */
  predicate FinishSignalled(state: GameState) {
    state.next == Some("FINISH") || state.nextAgent == Some("FINISH")
  }

  // ----------------------------------------------------------------- prompt

  /** A history entry as it is passed to the model: dicts as they are, message
      objects as user messages with their content. */
  function AsPrompt(m: Message): (r: Message)
    ensures r.DictMessage? && r.content == m.content
    ensures m.DictMessage? ==> r == m
    ensures m.AiMessage? ==> r.role == "user"
  {
    match m
    case DictMessage(_, _, _) => m
    case AiMessage(content, _) => DictMessage("user", content, None)
  }

  function PromptEntries(items: seq<Message>): (r: seq<Message>)
    ensures |r| == |items|
    ensures forall i :: 0 <= i < |items| ==> r[i] == AsPrompt(items[i])
  {
    seq(|items|, i requires 0 <= i < |items| => AsPrompt(items[i]))
  }

  /** The prompt list: the system prompt, then the history in order, or
      `current_task` as the one user message when there is no history. */
  function PromptFor(state: GameState, systemPrompt: string): seq<Message>
    reads ListOf(state)
  {
    [DictMessage("system", systemPrompt, None)]
      + if |History(state)| > 0 then PromptEntries(History(state))
        else [DictMessage("user", state.currentTask.GetOr(""), None)]
  }

  /** Lines 40-53: the loop that collects the prompt list. */
  method BuildPrompt(state: GameState, systemPrompt: string) returns (messages: seq<Message>)
    ensures messages == PromptFor(state, systemPrompt)
  {
    messages := [DictMessage("system", systemPrompt, None)];
    if state.messages.Some? && |state.messages.value.items| > 0 {
      var items := state.messages.value.items;
      for i := 0 to |items|
        invariant messages == [DictMessage("system", systemPrompt, None)] + PromptEntries(items[..i])
      {
        assert PromptEntries(items[..i + 1]) == PromptEntries(items[..i]) + [AsPrompt(items[i])];
        messages := messages + [AsPrompt(items[i])];
      }
      assert items[..|items|] == items;
    } else {
      messages := messages + [DictMessage("user", state.currentTask.GetOr(""), None)];
    }
  }

  /** The prompt is the system prompt followed by dict entries only, and its
      last entry carries the same text `_get_latest_message` picks. */
  lemma PromptShape(state: GameState, systemPrompt: string)
    ensures |PromptFor(state, systemPrompt)| >= 2
    ensures PromptFor(state, systemPrompt)[0] == DictMessage("system", systemPrompt, None)
    ensures forall i :: 0 <= i < |PromptFor(state, systemPrompt)| ==> PromptFor(state, systemPrompt)[i].DictMessage?
    ensures var p := PromptFor(state, systemPrompt);
      p[|p| - 1].content == Researcher.LatestMessage(state)
  {
  }

  // --------------------------------------------------------- classification

  /** The reply text as it is matched: stripped, then lower-cased. */
  function Normal(content: string): string {
    Lower(Strip(content))
  }

  /** Lines 63-75: substring matching in a fixed priority, researcher by default. */
  function Classify(content: string): (goto: string)
    ensures goto in RoutingOptions
  {
    var text := Normal(content);
    if Contains(text, "dice_roller") then "dice_roller"
    else if Contains(text, "dungeon_master") then "dungeon_master"
    else if Contains(text, "researcher") then "researcher"
    else if Contains(text, "finish") then "FINISH"
    else "researcher"
  }

  /** Lines 60-82: the choice before FINISH becomes `END`. */
  function Decide(reply: RouterReply): string {
    match reply
    case NoReply => "researcher"
    case ContentReply(c) => Classify(c)
    case DictReply(next) => next.GetOr("researcher")
    case OtherReply => "researcher"
    case InvokeError(_) => "researcher"
  }

  /** Lines 89-91: the `goto` the supervisor returns and stores. */
  function RouteOf(reply: RouterReply): (goto: string)
    ensures goto != "FINISH"
    ensures reply.ContentReply? ==> goto in ["dice_roller", "dungeon_master", "researcher", End]
    ensures reply.NoReply? || reply.OtherReply? || reply.InvokeError? ==> goto == "researcher"
  {
    var g := Decide(reply);
    if g == "FINISH" then End else g
  }

  /** A reply that mentions `dice_roller` anywhere, in any case, goes to the
      dice roller, whatever else it mentions. */
  lemma MentionWins(a: string, m: string, b: string)
    requires Lower(m) == "dice_roller"
    ensures Classify(a + m + b) == "dice_roller"
  {
    assert |m| == 11 && !IsSpace(m[0]) && !IsSpace(m[10]) by {
      assert LowerChar(m[0]) == 'd' && LowerChar(m[10]) == 'r';
    }
    StripAround(a, m, b);
    LowerConcat(StripLeft(a) + m, StripRight(b));
    LowerConcat(StripLeft(a), m);
    ContainsMiddle(Lower(StripLeft(a)), "dice_roller", Lower(StripRight(b)));
  }

  /** Classification ignores case. */
  lemma ClassifyIgnoresCase(content: string)
    ensures Classify(Upper(content)) == Classify(content)
  {
    StripUpper(content);
    LowerOfUpper(Strip(content));
  }

  /** Classification ignores whitespace around the reply. */
  lemma ClassifyIgnoresPadding(a: string, content: string, b: string)
    requires AllSpace(a) && AllSpace(b)
    ensures Classify(a + content + b) == Classify(content)
  {
    StripPadding(a, content, b);
  }

  /** A keyword found in the matched text is in the lower-cased reply. */
  lemma NormalWithin(content: string, key: string)
    ensures Contains(Normal(content), key) ==> Contains(Lower(content), key)
  {
    var l := StripLeft(content);
    StripLeftIsSuffix(content);
    StripRightIsPrefix(l);
    var front := content[..|content| - |l|];
    var back := l[|StripRight(l)|..];
    assert content == front + l;
    assert l == Strip(content) + back;
    assert content == front + Strip(content) + back;
    LowerConcat(front + Strip(content), back);
    LowerConcat(front, Strip(content));
    ContainsWithin(Lower(front), Normal(content), Lower(back), key);
  }

  /** A keyword written in any case inside the reply survives into the
      matched text. */
  lemma MentionSurvives(a: string, m: string, b: string, key: string)
    requires Lower(m) == key && |key| > 0 && !IsSpace(key[0]) && !IsSpace(key[|key| - 1])
    ensures Contains(Normal(a + m + b), key)
  {
    assert LowerChar(m[0]) == key[0] && LowerChar(m[|m| - 1]) == key[|key| - 1];
    StripAround(a, m, b);
    LowerConcat(StripLeft(a) + m, StripRight(b));
    LowerConcat(StripLeft(a), m);
    ContainsMiddle(Lower(StripLeft(a)), key, Lower(StripRight(b)));
  }

  /** Without `dice_roller`, a mention of `dungeon_master` goes to the dungeon
      master, whatever else the reply says. */
  lemma DungeonMasterNext(a: string, m: string, b: string)
    requires Lower(m) == "dungeon_master"
    requires !Contains(Lower(a + m + b), "dice_roller")
    ensures Classify(a + m + b) == "dungeon_master"
  {
    MentionSurvives(a, m, b, "dungeon_master");
    NormalWithin(a + m + b, "dice_roller");
  }

  /** Without either of those, a mention of `researcher` goes to the
      researcher, even beside `finish`. */
  lemma ResearcherNext(a: string, m: string, b: string)
    requires Lower(m) == "researcher"
    requires !Contains(Lower(a + m + b), "dice_roller") && !Contains(Lower(a + m + b), "dungeon_master")
    ensures Classify(a + m + b) == "researcher"
  {
    MentionSurvives(a, m, b, "researcher");
    NormalWithin(a + m + b, "dice_roller");
    NormalWithin(a + m + b, "dungeon_master");
  }

  /** Only a reply naming no agent finishes on a mention of `finish`. */
  lemma FinishLast(a: string, m: string, b: string)
    requires Lower(m) == "finish"
    requires !Contains(Lower(a + m + b), "dice_roller") && !Contains(Lower(a + m + b), "dungeon_master")
    requires !Contains(Lower(a + m + b), "researcher")
    ensures Classify(a + m + b) == "FINISH"
  {
    MentionSurvives(a, m, b, "finish");
    NormalWithin(a + m + b, "dice_roller");
    NormalWithin(a + m + b, "dungeon_master");
    NormalWithin(a + m + b, "researcher");
  }

  /** A reply naming an agent exactly routes to that agent, a bare FINISH
      ends the run, and a reply matching no keyword goes to the researcher. */
  lemma ClassifyExactNames()
    ensures Classify("dice_roller") == "dice_roller"
    ensures Classify("dungeon_master") == "dungeon_master"
    ensures Classify("researcher") == "researcher"
    ensures Classify("FINISH") == "FINISH"
  {
    ExactName("dice_roller");
    ExactName("dungeon_master");
    ExactName("researcher");
    assert Normal("dungeon_master") == "dungeon_master";
    NotContainsMissingChar("dungeon_master", "dice_roller", 'c');
    assert Normal("researcher") == "researcher";
    NotContainsMissingChar("researcher", "dice_roller", 'd');
    NotContainsMissingChar("researcher", "dungeon_master", 'd');
    FinishName();
  }

  lemma ExactName(name: string)
    requires |name| > 0 && NoUpper(name) && !IsSpace(name[0]) && !IsSpace(name[|name| - 1])
    ensures Normal(name) == name && Contains(name, name)
  {
    StripUnpadded(name);
    LowerNoUpper(name);
    ContainsMiddle([], name, []);
    assert [] + name + [] == name;
  }

  lemma FinishName()
    ensures Classify("FINISH") == "FINISH"
  {
    var t := Normal("FINISH");
    StripUnpadded("FINISH");
    assert t == "finish";
    NotContainsMissingChar(t, "dice_roller", 'd');
    NotContainsMissingChar(t, "dungeon_master", 'd');
    NotContainsMissingChar(t, "researcher", 'r');
    ExactName("finish");
  }

  /** With no keyword anywhere in the lower-cased reply, the researcher is
      the default. */
  lemma ClassifyDefault(content: string)
    requires !Contains(Lower(content), "dice_roller") && !Contains(Lower(content), "dungeon_master")
    requires !Contains(Lower(content), "researcher") && !Contains(Lower(content), "finish")
    ensures Classify(content) == "researcher"
  {
    NormalWithin(content, "dice_roller");
    NormalWithin(content, "dungeon_master");
    NormalWithin(content, "researcher");
    NormalWithin(content, "finish");
  }

  // ------------------------------------------------------------ process_task

  /** `process_task(state)`: with FINISH signalled, `END` and the state as it
      is; otherwise the route the reply picks, stored as `next_agent` in a
      copy of the state that differs in nothing else. */
  method ProcessTask(state: GameState, systemPrompt: string, llm: seq<Message> -> RouterReply)
    returns (c: Command)
    ensures FinishSignalled(state) ==> c == Command(End, Some(state))
    ensures !FinishSignalled(state) ==> c.goto == RouteOf(llm(PromptFor(state, systemPrompt)))
    ensures !FinishSignalled(state) ==> c.update == Some(state.(nextAgent := Some(c.goto)))
    ensures c.goto != "FINISH" && c.update.Some?
  {
    if FinishSignalled(state) {
      return Command(End, Some(state));
    }
    var messages := BuildPrompt(state, systemPrompt);
    var reply := llm(messages);
    var goto := Decide(reply);
    if goto == "FINISH" {
      goto := End;
    }
    var updated := state.(nextAgent := Some(goto));
    return Command(goto, Some(updated));
  }
}
