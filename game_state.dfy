/** The shared game-state record of src/graph/game_state.py and the mutable
    objects it refers to. A `GameState` is a dict whose keys may be missing:
    each key is an `Option`, `None` meaning "not in the dict". The
    `messages` list and the `game_state` dict are Python objects shared by
    reference, so they are classes here; everything else is a value. */
module GameStates {
  import opened Wrappers

  /** A history entry: a plain dict `{"role", "content"[, "name"]}` or a
      message object (`AIMessage`) with `content` and `name` attributes. */
  datatype Message =
    | DictMessage(role: string, content: string, name: Option<string>)
    | AiMessage(content: string, speaker: string)

  /** The `messages` list, appended to in place by the agents that hold it. */
  class MessageList {
    var items: seq<Message>

    constructor (items: seq<Message>)
      ensures this.items == items
    {
      this.items := items;
    }

    /** `list.append` */
    method Append(m: Message)
      modifies this
      ensures items == old(items) + [m]
    {
      items := items + [m];
    }
  }

  /** `KeyError(key)`: a lookup of a key the state does not hold. */
  datatype KeyError = KeyError(key: string)

  /** The record `initialize_agent` stores under an agent's name. */
  datatype AgentRecord = AgentRecord(kind: string, initialized: bool, state: map<string, string>)

  /** The `game_state` dict, written in place by `initialize_agent`. */
  class AgentTable {
    var entries: map<string, AgentRecord>

    constructor (entries: map<string, AgentRecord>)
      ensures this.entries == entries
    {
      this.entries := entries;
    }
  }

  /** `Actor` of src/actors/base_actor.py: the values of `players` and `npcs`. */
  datatype Actor = Actor(id: string, name: string, kind: string, description: Option<string>)

  /** `GameState`, plus the `next` key the supervisor also looks up. */
  datatype GameState = GameState(
    messages: Option<MessageList>,
    currentTask: Option<string>,
    activeAgent: Option<string>,
    gameState: Option<AgentTable>,
    players: Option<map<string, Actor>>,
    npcs: Option<map<string, Actor>>,
    currentSpeaker: Option<string>,
    turnOrder: Option<seq<string>>,
    lastResponse: Option<string>,
    requiresPlayerInput: Option<bool>,
    nextAgent: Option<string>,
    next: Option<string>)

  /** The dict with no keys at all: the start of a partial update. */
  const NoKeys := GameState(None, None, None, None, None, None, None, None, None, None, None, None)

  /** The objects a state refers to, for `reads` clauses. */
  function ListOf(state: GameState): set<object> {
    if state.messages.Some? then {state.messages.value} else {}
  }

  function TableOf(state: GameState): set<object> {
    if state.gameState.Some? then {state.gameState.value} else {}
  }

  /** The history as a sequence; a missing `messages` key reads as empty. */
  function History(state: GameState): seq<Message>
    reads ListOf(state)
  {
    if state.messages.Some? then state.messages.value.items else []
  }

  /** Every key of `GameState` is present. */
  predicate HasAllKeys(s: GameState) {
    && s.messages.Some? && s.currentTask.Some? && s.activeAgent.Some? && s.gameState.Some?
    && s.players.Some? && s.npcs.Some? && s.currentSpeaker.Some? && s.turnOrder.Some?
    && s.lastResponse.Some? && s.requiresPlayerInput.Some? && s.nextAgent.Some?
  }

  /** `create_default_game_state()`: every key present, empty collections,
      empty texts, and the supervisor as both active and next agent. */
  method CreateDefaultGameState() returns (s: GameState)
    ensures HasAllKeys(s) && s.next.None?
    ensures fresh(s.messages.value) && s.messages.value.items == []
    ensures fresh(s.gameState.value) && s.gameState.value.entries == map[]
    ensures s.currentTask == Some("") && s.currentSpeaker == Some("") && s.lastResponse == Some("")
    ensures s.activeAgent == Some("supervisor") && s.nextAgent == Some("supervisor")
    ensures s.players == Some(map[]) && s.npcs == Some(map[]) && s.turnOrder == Some([])
    ensures s.requiresPlayerInput == Some(false)
  {
    var messages := new MessageList([]);
    var table := new AgentTable(map[]);
    s := GameState(
      messages := Some(messages),
      currentTask := Some(""),
      activeAgent := Some("supervisor"),
      gameState := Some(table),
      players := Some(map[]),
      npcs := Some(map[]),
      currentSpeaker := Some(""),
      turnOrder := Some([]),
      lastResponse := Some(""),
      requiresPlayerInput := Some(false),
      nextAgent := Some("supervisor"),
      next := None);
  }
}
