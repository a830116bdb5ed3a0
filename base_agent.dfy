/** `BaseAgent` of src/agents/base_agent.py: its `agent_type`, its
    `initialized` flag and `initialize_agent`. */
module Agents {
  import opened Wrappers
  import opened GameStates

  /** What `initialize_agent` stores for an agent seen for the first time. */
  function FreshRecord(kind: string): AgentRecord {
    AgentRecord(kind, true, map[])
  }

  /** The `game_state` dict once `kind` is registered. */
  function WithAgent(entries: map<string, AgentRecord>, kind: string): map<string, AgentRecord> {
    if kind in entries then entries else entries[kind := FreshRecord(kind)]
  }

  /** Registering inserts a fresh record only for a newcomer; an agent already
      present keeps its record, whatever it holds. */
  lemma WithAgentRegisters(entries: map<string, AgentRecord>, kind: string)
    ensures kind in WithAgent(entries, kind)
    ensures WithAgent(entries, kind)[kind] == if kind in entries then entries[kind] else FreshRecord(kind)
    ensures WithAgent(entries, kind).Keys == entries.Keys + {kind}
  {
  }

  /** No other entry is touched. */
  lemma WithAgentKeepsOthers(entries: map<string, AgentRecord>, kind: string, other: string)
    requires other != kind
    ensures other in WithAgent(entries, kind) <==> other in entries
    ensures other in entries ==> WithAgent(entries, kind)[other] == entries[other]
  {
  }

  /** A second registration is a no-op. */
  lemma WithAgentIdempotent(entries: map<string, AgentRecord>, kind: string)
    ensures WithAgent(WithAgent(entries, kind), kind) == WithAgent(entries, kind)
  {
  }

  /** The order in which agents register does not matter. */
  lemma WithAgentCommutes(entries: map<string, AgentRecord>, a: string, b: string)
    ensures WithAgent(WithAgent(entries, a), b) == WithAgent(WithAgent(entries, b), a)
  {
    if a != b && a !in entries && b !in entries {
      assert entries[a := FreshRecord(a)][b := FreshRecord(b)] == entries[b := FreshRecord(b)][a := FreshRecord(a)];
    }
  }

  /** An agent: its type name and whether it registered itself. */
  class Agent {
    const agentType: string
    var initialized: bool

    /** `BaseAgent.__init__(agent_type)` */
    constructor (agentType: string)
      ensures this.agentType == agentType && !initialized
    {
      this.agentType := agentType;
      initialized := false;
    }

    /** `initialize_agent(state)`: registers this agent in `state["game_state"]`
        in place and returns the same state; `KeyError` when the key is missing. */
    method InitializeAgent(state: GameState) returns (r: Result<GameState, KeyError>)
      modifies this, TableOf(state)
      ensures state.gameState.None? ==> r == Failure(KeyError("game_state")) && initialized == old(initialized)
      ensures state.gameState.Some? ==> r == Success(state)
      ensures state.gameState.Some? ==>
        state.gameState.value.entries == WithAgent(old(state.gameState.value.entries), agentType)
      ensures state.gameState.Some? ==>
        initialized == (old(initialized) || agentType !in old(state.gameState.value.entries))
    {
      if state.gameState.None? {
        return Failure(KeyError("game_state"));
      }
      var table := state.gameState.value;
      if agentType !in table.entries {
        table.entries := table.entries[agentType := FreshRecord(agentType)];
        initialized := true;
      }
      return Success(state);
    }
  }
}
