/** `ResearcherAgent` of src/agents/researcher.py: the latest-message lookup
    and the state update of `process_task`. The model's reply is a function
    of the prompt passed in. */
module Researcher {
  import opened Wrappers
  import opened GameStates
  import opened Routing

  const AgentType := "researcher"

  /** The reply the prompt draws: content (or `str(response)`), `None`, or an
      exception with its text. */
  datatype ResearchReply = Answer(content: string) | NoAnswer | Raised(error: string)

  const Apology := "I apologize, but I couldn't find information about that D&D topic."
  const ErrorPrefix := "Error researching D&D information: "

  /** `content` of a history entry, dict or message object. */
  function ContentOf(m: Message): string {
    m.content
  }

  /** `_get_latest_message(state)`: the content of the last history entry;
      with no history, `current_task`; with neither, the empty text. */
  function LatestMessage(state: GameState): (r: string)
    reads ListOf(state)
    ensures |History(state)| > 0 ==> r == ContentOf(History(state)[|History(state)| - 1])
    ensures |History(state)| == 0 ==> r == state.currentTask.GetOr("")
  {
    if state.messages.Some? && |state.messages.value.items| > 0 then
      ContentOf(state.messages.value.items[|state.messages.value.items| - 1])
    else if state.currentTask.Some? then state.currentTask.value
    else ""
  }

  /** The two prompt entries: the system prompt and the latest message. */
  function Prompt(systemPrompt: string, latest: string): seq<Message> {
    [DictMessage("system", systemPrompt, None), DictMessage("user", latest, None)]
  }

  /** The assistant text stored for each kind of reply. */
  function ReplyText(reply: ResearchReply): string {
    match reply
    case Answer(c) => c
    case NoAnswer => Apology
    case Raised(e) => ErrorPrefix + e
  }

  /** The entry `process_task` appends. */
  function Entry(reply: ResearchReply): Message {
    DictMessage("assistant", ReplyText(reply), Some(AgentType))
  }

  /** Error texts start with the fixed prefix and carry the exception's text. */
  lemma ReplyTextOfError(reply: ResearchReply)
    requires reply.Raised?
    ensures ReplyText(reply)[..|ErrorPrefix|] == ErrorPrefix
    ensures ReplyText(reply)[|ErrorPrefix|..] == reply.error
  {
  }

  /** `ResearcherAgent.process_task(state)`: a new state whose `messages` is a
      new list, the old history plus one assistant entry named "researcher",
      and whose `next_agent` is "FINISH"; every other key is carried over and
      the caller's list is left alone. Routes to `END` on success and on error. */
  method ProcessTask(state: GameState, systemPrompt: string, llm: seq<Message> -> ResearchReply)
    returns (c: Command)
    ensures c.goto == End && c.update.Some?
    ensures c.update.value.messages.Some? && fresh(c.update.value.messages.value)
    ensures c.update.value.messages.value.items
      == History(state) + [Entry(llm(Prompt(systemPrompt, LatestMessage(state))))]
    ensures c.update.value == state.(messages := c.update.value.messages, nextAgent := Some("FINISH"))
  {
    var latest := LatestMessage(state);
    var reply := llm(Prompt(systemPrompt, latest));
    var history := if state.messages.Some? then state.messages.value.items else [];
    var updated := new MessageList(history);
    updated.Append(Entry(reply));
    var updatedState := state.(messages := Some(updated), nextAgent := Some("FINISH"));
    c := Command(End, Some(updatedState));
  }
}
