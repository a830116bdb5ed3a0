/** `DungeonMaster.process_task` of src/agents/dungeon_master.py: the prompt,
    the in-place append of the reply and the routing back to the supervisor.
    The model's reply is a function of the prompt passed in: the text of the
    reply, or the text of the exception raised while getting it. */
module DungeonMaster {
  import opened Wrappers
  import opened GameStates
  import opened Routing

  const AgentType := "dungeon_master"

  /** `state.get("current_task", "")` */
  function TaskOf(state: GameState): string {
    state.currentTask.GetOr("")
  }

  /** `f"{self.system_prompt}\n\nTask: {current_task}"`: the system prompt,
      then the task after the `"\n\nTask: "` line. */
  function Prompt(systemPrompt: string, task: string): (r: string)
    ensures |r| == |systemPrompt| + 8 + |task|
    ensures r[..|systemPrompt|] == systemPrompt && r[|systemPrompt| + 8..] == task
  {
    systemPrompt + "\n\nTask: " + task
  }

  /** The partial update of a successful step. */
  function Update(state: GameState): GameState {
    NoKeys.(nextAgent := Some("supervisor"), gameState := state.gameState, messages := state.messages)
  }

  /** `process_task(state)`. A reply is appended to `state["messages"]` in
      place, as one message named "dungeon_master", and the step returns to
      the supervisor with `next_agent`, the same `game_state` and the same
      list. A failed call, a missing `messages` key or a missing `game_state`
      key ends the run with no update; a missing `game_state` is noticed only
      after the append. */
  method ProcessTask(state: GameState, systemPrompt: string, llm: string -> Result<string, string>)
    returns (c: Command)
    modifies ListOf(state)
    ensures var reply := llm(Prompt(systemPrompt, TaskOf(state)));
      if reply.Failure? || state.messages.None? then
        c == Command(End, None) && (state.messages.Some? ==> state.messages.value.items == old(state.messages.value.items))
      else
        && state.messages.value.items == old(state.messages.value.items) + [AiMessage(reply.value, AgentType)]
        && c == (if state.gameState.None? then Command(End, None) else Command("supervisor", Some(Update(state))))
        && (state.gameState.Some? ==> NextNode(c) == Some(Supervisor))
  {
    var reply := llm(Prompt(systemPrompt, TaskOf(state)));
    if reply.Failure? || state.messages.None? {
      return Command(End, None);
    }
    state.messages.value.Append(AiMessage(reply.value, AgentType));
    if state.gameState.None? {
      return Command(End, None);
    }
    return Command("supervisor", Some(Update(state)));
  }
}
