/** The routing vocabulary shared by the agents: the graph's nodes
    (src/graph/game_orchestrator.py) and langgraph's `Command`. */
module Routing {
  import opened Wrappers
  import opened GameStates

  /** langgraph's `END` */
  const End := "__end__"

  /** `Command(goto=..., update=...)`; `update` is the dict merged into the
      state, `None` when the command carries none. */
  datatype Command = Command(goto: string, update: Option<GameState>)

  /** The four nodes of the game graph. */
  datatype Node = Supervisor | DungeonMaster | Researcher | DiceRoller

  /** The name each node is registered under. */
  function NodeName(n: Node): string {
    match n
    case Supervisor => "supervisor"
    case DungeonMaster => "dungeon_master"
    case Researcher => "researcher"
    case DiceRoller => "dice_roller"
  }

  /** The node a `goto` names, if any: none exactly when no node is
      registered under the name, so `END` names none. */
  function NodeOf(name: string): (r: Option<Node>)
    ensures r.Some? ==> NodeName(r.value) == name
    ensures r.None? <==> forall n: Node :: NodeName(n) != name
  {
    if name == "supervisor" then Some(Supervisor)
    else if name == "dungeon_master" then Some(DungeonMaster)
    else if name == "researcher" then Some(Researcher)
    else if name == "dice_roller" then Some(DiceRoller)
    else None
  }

  /** `workflow.set_entry_point("supervisor")` */
  const Entry := Supervisor

  /** Where the graph goes after a command: the node registered under the
      `goto`, and `None` for `END` or for a name no node is registered under. */
  function NextNode(c: Command): (r: Option<Node>)
    ensures c.goto == End ==> r.None?
    ensures forall n: Node :: NodeName(n) == c.goto ==> r == Some(n)
    ensures r.Some? ==> NodeName(r.value) == c.goto
    ensures r.None? ==> c.goto == End || forall n: Node :: NodeName(n) != c.goto
  {
    if c.goto == End then None else NodeOf(c.goto)
  }
}
