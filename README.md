# Dungeon-Master-AI-Agent: dice engine and agent routing, in Dafny

This project models the deterministic core of the Dungeon-Master-AI-Agent
game. The game is a langgraph graph of four agents: a supervisor, a dungeon
master, a researcher and a dice roller. They share one `GameState` dict.

The model covers two parts:

- The dice engine of `src/utils/dice.py`, and the dice roller agent built on
  it in `src/agents/dice_roller.py`:
  - parsing dice notation;
  - rolling with an injected face oracle;
  - advantage and disadvantage;
  - the post-processing of the model's JSON reply;
  - the result message.
- The routing state machine:
  - the supervisor's classification of the model's reply;
  - each agent's `Command(goto, update)`;
  - each agent's effect on the `messages` list and `next_agent`;
  - `BaseAgent.initialize_agent`;
  - the default game state.

Modules, one per source file:

| module | file | source |
|---|---|---|
| `Wrappers` | wrappers.dfy | `Option` and `Result` |
| `PyText` | pytext.dfy | the Python string built-ins the core uses: `lower`, `replace(" ", "")`, `strip`, `split`, `in`, `find`, `join`, `int()`, `str()` of integers and of integer lists |
| `Dice` | dice.dfy | src/utils/dice.py |
| `DiceRequest` | dice_request.dfy | the JSON post-processing of `_parse_dice_request` |
| `DiceRollerAgent` | dice_roller.dfy | `_execute_dice_roll` and `process_task` of src/agents/dice_roller.py |
| `GameStates` | game_state.dfy | src/graph/game_state.py |
| `Routing` | routing.dfy | the graph's node names and entry point (src/graph/game_orchestrator.py), langgraph's `Command` and `END` |
| `Agents` | base_agent.dfy | src/agents/base_agent.py |
| `Supervisor` | supervisor.dfy | src/agents/supervisor.py |
| `Researcher` | researcher.dfy | src/agents/researcher.py |
| `DungeonMaster` | dungeon_master.dfy | src/agents/dungeon_master.py |

Modelling choices:

- **Missing keys.** A `GameState` is a datatype in which every key is an
  `Option`; `None` means the key is absent from the dict.
- **Shared objects.** The `messages` list and the `game_state` dict are shared
  by reference in Python, so they are classes here: `MessageList` and
  `AgentTable`. This keeps two behaviours visible:
  - the dungeon master and the dice roller append to the caller's list in place;
  - the researcher copies the list first.
- **Randomness.** `random.randint(1, t)` is a `FaceOracle`. It is a function of
  a draw index and `t`, and it lies in `[1, t]` whenever `t >= 1`. Each face
  consumes one index, so the second roll under advantage uses fresh draws.
- **Model replies.** A reply is a function parameter whose argument is the
  prompt, so each result is stated in terms of the exact prompt the agent
  builds. Replies are:
  - the supervisor's `RouterReply`;
  - the researcher's `ResearchReply`;
  - the dungeon master's `Result<string, string>`;
  - the dice roller's `Option<map<string, Json>>`, where `None` is a reply
    that could not be read as a JSON object.
- **Exceptions.** Exceptions are `Failure` values with the exception's text,
  worded as Python 3.12 words it. Examples: `invalid literal for int() with
  base 10: 'x'`, `too many values to unpack (expected 2)`, `empty range in
  randrange(1, 1)`.

Two behaviours of the dice roller that the contracts make explicit:

- src/agents/dice_roller.py:198 and 223-228: with both flags set the
  advantage branch runs and the higher total is kept
  (`DiceRollerAgent.AdvantageWins`).
- src/agents/dice_roller.py:201-207: under either flag only the first
  `\d*d\d+` term of the notation is rolled, twice, when there is one
  (`DiceRollerAgent.BaseRollIsOneGroup`). When there is none, the whole
  notation is rolled twice (lines 206-207).

## Model

| member | source | states |
|---|---|---|
| Dice.RollText | src/utils/dice.py:12-13 | definition (no contract); see `Dice.RollTextReadBack` |
| Dice.RollTextReadBack | src/utils/dice.py:12-13 | `str(roll)` gives back the roll: the text before the 'd' parses to the number of results, the text between 'd' and ':' parses to the die type, and the text after '=' parses to the total |
| Dice.ParseDiceString | src/utils/dice.py:19-33 | the loop over the '+'-separated parts returns exactly the groups `DiceGroups` defines, or the error of the first failing part |
| Dice.GroupsOfFailurePersists | src/utils/dice.py:27-31 | once a part raises, no later part can undo the error |
| Dice.GroupsOfConcat | src/utils/dice.py:27-31 | the groups of two runs of parts are the groups of the first followed by the groups of the second, in order |
| Dice.DiceGroupsOfSum | src/utils/dice.py:24-31 | parsing `a + "+" + b` gives the groups of `a` followed by those of `b` (the first error wins) |
| Dice.DiceGroupsIgnoresCase | src/utils/dice.py:24 | upper-casing the notation does not change the parse |
| Dice.DiceGroupsIgnoresSpaces | src/utils/dice.py:24 | inserting a space anywhere does not change the parse |
| Dice.DiceGroupsDropsConstants | src/utils/dice.py:28 | a '+'-part with no 'd' (the `3` of `2d6+3`) is dropped silently |
| Dice.SingleToken | src/utils/dice.py:28-31 | `<digits>d<digits>` parses to one group, an empty count meaning 1 |
| Dice.TwoTokens | src/utils/dice.py:19-33 | `c1ds1 + c2ds2` parses to the two groups in order |
| Dice.ParseExample | src/utils/dice.py:20-23 | `"2d6 + 1d8"` parses to `[(2,6),(1,8)]` |
| Dice.ParseEmptyCountExample | src/utils/dice.py:30 | `"d20"` parses to `[(1,20)]` |
| Dice.DiceGroupsTwoDs | src/utils/dice.py:29 | a part with two 'd's raises "too many values to unpack" |
| Dice.ParseBadSidesExample | src/utils/dice.py:31 | `"2dx"` raises the `int()` error for `'x'` |
| Dice.RollSingleType | src/utils/dice.py:36-43 | exactly `q` results (none for `q <= 0`), each in `[1,t]`, drawn in order from the oracle; `dice_type = t`; `total = sum(results)`; an error only when `q > 0` and `t < 1`, with randrange's text |
| Dice.RollGroups | src/utils/dice.py:50-55 | one roll per group in order, the i-th matching the i-th group, consuming one draw per face; fails exactly when some group cannot be rolled, with the first such group's error |
| Dice.RollMultiple | src/utils/dice.py:46-55 | a parse error comes through unchanged; otherwise the rolls match the parsed groups one for one |
| Dice.TotalBounds | src/utils/dice.py:36-55 | the sum of the roll totals lies between all ones and all highest faces |
| DiceRequest.TokenAt | src/agents/dice_roller.py:201 | the `\d*d\d+` scanner finds a match at a position exactly when the pattern matches there, and its match is greedy |
| DiceRequest.FirstToken | src/agents/dice_roller.py:201 | the search finds the leftmost position where the pattern matches |
| DiceRequest.ChainEnd | src/agents/dice_roller.py:149 | the `(?:\s*\+\s*\d*d\d+)*` repetition consumes whole `+ token` links only, and is greedy: no further link matches where it stops; it spans only digits, 'd', '+' and whitespace |
| DiceRequest.LinkEnd | src/agents/dice_roller.py:149 | one `\s*\+\s*\d*d\d+` link ends past its start and spans only digits, 'd', '+' and whitespace |
| DiceRequest.ChainEndUnique | src/agents/dice_roller.py:149 | any end reached by whole links at which no further link matches is the end `ChainEnd` gives, so the greedy repetition has exactly one stopping point |
| DiceRequest.FirstChain | src/agents/dice_roller.py:149-150 | the dice-chain search fails exactly when no dice token occurs; a match is the text from the leftmost dice token to the end of its greedy chain, it starts with that whole token, and it holds only digits, 'd', '+' and whitespace |
| DiceRequest.FirstSignedInt | src/agents/dice_roller.py:157 | the `[-+]?\d+` search finds no match only when the pattern matches nowhere, and otherwise returns the value of the leftmost match |
| DiceRequest.FirstSignedIntOfPrefix | src/agents/dice_roller.py:157-158 | `int()` of the first signed integer of `str(m)` or `+m`, followed by a non-digit, is `m` |
| DiceRequest.ModifierOfText | src/agents/dice_roller.py:154-158 | a string modifier like `"+5"` or `"-2 to hit"` becomes its signed integer |
| DiceRequest.ModifierOf | src/agents/dice_roller.py:154-160 | a string modifier with no digit in it gives 0 |
| DiceRequest.NotationHasNoPlaceholder | src/agents/dice_roller.py:145-151 | the final notation never holds a character of `PQXYpqxy`: a templated one is replaced by the message's dice pattern or `"1d20"` |
| DiceRequest.FindMarkerTail | src/agents/dice_roller.py:170-175 | the marker loop with `break` gives the stripped text after the first marker, in list order, that occurs in the message |
| DiceRequest.DescriptionNeverBlank | src/agents/dice_roller.py:167-178 | the final description is never empty and never `"roll"` |
| DiceRequest.RequestDefaults | src/agents/dice_roller.py:145 | an unreadable reply or a non-string notation gives `("1d20", 0, False, False, "dice roll")`; a missing notation gives `"1d20"` |
| DiceRequest.NotationOf | src/agents/dice_roller.py:145-151 | definition (no contract); see `DiceRequest.NotationHasNoPlaceholder` |
| DiceRequest.DescriptionOf | src/agents/dice_roller.py:167-178 | definition (no contract); see `DiceRequest.DescriptionNeverBlank` |
| DiceRequest.NormalisedRequest | src/agents/dice_roller.py:144-187 | definition (no contract); see `DiceRequest.RequestDefaults` and `DiceRequest.ParseDiceRequest` |
| DiceRequest.ParseDiceRequest | src/agents/dice_roller.py:144-187 | the defaults `("1d20", 0, False, False, "dice roll")` when the reply cannot be read or its notation is no string; otherwise the modifier is the reply's modifier as an integer and the flags are the truth of the reply's fields; in every case the notation holds no placeholder and the description is neither empty nor `"roll"` |
| DiceRollerAgent.BaseRoll | src/agents/dice_roller.py:201-207 | definition (no contract); see `DiceRollerAgent.BaseRollIsOneGroup` |
| DiceRollerAgent.BaseRollIsOneGroup | src/agents/dice_roller.py:201-207 | the base roll of a notation with a dice token parses to that token alone, its count defaulting to 1 |
| DiceRollerAgent.RollTwice | src/agents/dice_roller.py:209-228 | both rolls match the base roll's groups; the kept total is one of the two totals, the higher with advantage and the lower without; a failure exactly when the base roll does not parse or cannot be rolled |
| DiceRollerAgent.RollOnce | src/agents/dice_roller.py:246-249 | a plain roll matches the parsed groups; "no dice" exactly when the notation parses to no group |
| DiceRollerAgent.Evaluate | src/agents/dice_roller.py:197-258 | two rolls happen only with advantage or disadvantage, and then of the base roll; a one-roll result only without both |
| DiceRollerAgent.AdvantageWins | src/agents/dice_roller.py:223-228 | with advantage set, setting disadvantage as well does not change the message |
| DiceRollerAgent.AdvantageNotBelowDisadvantage | src/agents/dice_roller.py:223-228 | on the same draws, both modes see the same two rolls, and advantage keeps at least what disadvantage keeps |
| DiceRollerAgent.RollTwiceOrder | src/agents/dice_roller.py:209-228 | the two rolls of the base roll do not depend on the flag, and the total kept with advantage is at least the one kept without |
| DiceRollerAgent.KeptBounds | src/agents/dice_roller.py:209-228 | the kept total lies between all ones and all highest faces of the base roll |
| DiceRollerAgent.StandardBounds | src/agents/dice_roller.py:246-253 | a plain roll's reported total is the dice bounds shifted by the modifier |
| DiceRollerAgent.ModifierTextReadBack | src/agents/dice_roller.py:232 | the modifier text is empty exactly for 0; otherwise it is `" + "` or `" - "` followed by the modifier's size |
| DiceRollerAgent.Details | src/agents/dice_roller.py:264-268 | definition (no contract); see `DiceRollerAgent.ExecuteDiceRoll` |
| DiceRollerAgent.TwiceText | src/agents/dice_roller.py:230-241 | definition (no contract); see `DiceRollerAgent.ExecuteDiceRoll` and `DiceRollerAgent.AdvantageWins` |
| DiceRollerAgent.StandardText | src/agents/dice_roller.py:252-268 | definition (no contract); see `DiceRollerAgent.ExecuteDiceRoll` |
| DiceRollerAgent.Render | src/agents/dice_roller.py:234-276 | definition (no contract); see `DiceRollerAgent.RenderShowsTotal` |
| DiceRollerAgent.RenderShowsTotal | src/agents/dice_roller.py:234-276 | each evaluation's message shows `**total**` when there is a total; no groups gives the no-dice text; an error gives `"Error processing dice roll: " + str(e)` |
| DiceRollerAgent.ExecuteDiceRoll | src/agents/dice_roller.py:188-276 | every message with a total shows `**total**`; no groups gives the no-dice text; an error gives `"Error processing dice roll: " + str(e)` |
| DiceRollerAgent.ProcessTask | src/agents/dice_roller.py:31-75 | appends exactly one assistant message named `dice_roller` holding the rolled result to the caller's list, or to a new list when there is none; the update is the state itself (a shallow copy); the step always goes to the supervisor node |
| DiceRollerAgent.Resolve | src/agents/dice_roller.py:34 | attribute lookup returns the first class in the method resolution order that defines the name, or nothing when none does |
| DiceRollerAgent.LatestMessageUnresolved | src/agents/dice_roller.py:34 | `_get_latest_message` resolves on the researcher but on no class the dice roller inherits from |
| DiceRollerAgent.ProcessTaskAsWritten | src/agents/dice_roller.py:34 | as written, the step raises `AttributeError` for `_get_latest_message` |
| GameStates.MessageList.Append | src/agents/dungeon_master.py:43 | `list.append`: the list gains the message at its end and nothing else changes |
| GameStates.CreateDefaultGameState | src/graph/game_state.py:20-34 | every key is present: new empty `messages` and `game_state`, empty texts, maps and turn order, both agent keys `supervisor`, `requires_player_input` false |
| Routing.NodeOf | src/graph/game_orchestrator.py:29-32 | a name maps to a node exactly when some node is registered under it, and then to that node; `__end__` names none |
| Routing.NextNode | src/graph/game_orchestrator.py:28-35 | `END` stops the graph; a `goto` under which a node is registered leads to that node; any other name leads nowhere |
| Agents.WithAgent | src/agents/base_agent.py:17-22 | definition (no contract); see the `Agents.WithAgent…` lemmas |
| Agents.WithAgentRegisters | src/agents/base_agent.py:17-22 | the agent's key is present afterwards, and holds a fresh `{type, initialized: True, state: {}}` only when it was absent |
| Agents.WithAgentKeepsOthers | src/agents/base_agent.py:17-22 | no other entry is added, removed or changed |
| Agents.WithAgentIdempotent | src/agents/base_agent.py:17-25 | a second registration is a no-op |
| Agents.WithAgentCommutes | src/agents/base_agent.py:17-22 | registration order does not matter |
| Agents.Agent.constructor | src/agents/base_agent.py:10-13 | a new agent has its type and is not initialised |
| Agents.Agent.InitializeAgent | src/agents/base_agent.py:15-25 | registers the agent in `game_state` in place and returns the same state; `initialized` becomes true only on an insertion; `KeyError('game_state')` when the key is missing |
| Supervisor.BuildPrompt | src/agents/supervisor.py:40-53 | the loop builds the system prompt followed by every history entry in order, non-dict entries made into user messages, or `current_task` when there is no history |
| Supervisor.PromptShape | src/agents/supervisor.py:40-53 | the prompt has at least two entries, starts with the system prompt, holds only dicts, and ends with the latest message |
| Supervisor.Classify | src/agents/supervisor.py:63-75 | the classification is always one of the routing options |
| Supervisor.MentionWins | src/agents/supervisor.py:63-67 | a reply mentioning `dice_roller` in any case goes to the dice roller, whatever else it says |
| Supervisor.ClassifyIgnoresCase | src/agents/supervisor.py:63 | upper-casing the reply does not change the route |
| Supervisor.ClassifyIgnoresPadding | src/agents/supervisor.py:63 | whitespace of any length on either side of the reply does not change the route |
| Supervisor.NormalWithin | src/agents/supervisor.py:63 | a keyword found in the stripped, lower-cased reply is found in the lower-cased reply |
| Supervisor.MentionSurvives | src/agents/supervisor.py:63-66 | a keyword written in any case, with a non-space first and last character, is still found after the reply is stripped and lower-cased, whatever surrounds it |
| Supervisor.DungeonMasterNext | src/agents/supervisor.py:66-69 | a reply mentioning `dungeon_master` in any case, without `dice_roller`, goes to the dungeon master |
| Supervisor.ResearcherNext | src/agents/supervisor.py:66-71 | a reply mentioning `researcher`, without `dice_roller` or `dungeon_master`, goes to the researcher |
| Supervisor.FinishLast | src/agents/supervisor.py:66-73 | a reply mentioning `finish`, without any agent's name, gives FINISH |
| Supervisor.ClassifyExactNames | src/agents/supervisor.py:66-73 | each agent's name routes to that agent, and `FINISH` to FINISH |
| Supervisor.ClassifyDefault | src/agents/supervisor.py:63-75 | a reply whose lower-cased text holds no keyword goes to the researcher |
| Supervisor.RouteOf | src/agents/supervisor.py:60-91 | the route is never `FINISH`; a text reply routes to one of dice_roller, dungeon_master, researcher or `__end__`; no reply, an unreadable reply or an exception route to researcher |
| Supervisor.ProcessTask | src/agents/supervisor.py:31-104 | with FINISH signalled, `END` and the state unchanged; otherwise the route of the reply to the built prompt, stored as `next_agent` in a copy that differs in nothing else |
| Researcher.LatestMessage | src/agents/researcher.py:103-114 | the content of the last history entry; else `current_task`; else `""` |
| Researcher.ReplyTextOfError | src/agents/researcher.py:72-73 | an error reply reads `"Error researching D&D information: "` followed by the exception's text |
| Researcher.ProcessTask | src/agents/researcher.py:22-101 | a new list: the old history plus one assistant entry named `researcher` for the reply, the apology or the error; `next_agent` is `FINISH`, all other keys are carried over, the caller's list is not touched; the step goes to `END` |
| DungeonMaster.Prompt | src/agents/dungeon_master.py:29 | the prompt starts with the system prompt and ends with the task after `"\n\nTask: "` |
| DungeonMaster.ProcessTask | src/agents/dungeon_master.py:22-57 | on a reply, one message named `dungeon_master` appended in place, then `supervisor` (the supervisor node) with `next_agent`, the same `game_state` and the same list; an exception or a missing `messages` key gives `END` with no update and an untouched list; a missing `game_state` gives `END` after the append |

## Left out

- Calling the model, cleaning its reply of code fences and `json.loads` (src/agents/dice_roller.py:127-142): foreign calls. The dice roller takes the decoded reply, or `None` for any failure up to here, as an input.
- The logger (`_log_interaction`, src/utils/llm_logger.py) and every `print`: output only, with no effect on the state.
- `main.py`, the langgraph compile wiring, the vector store, the pipelines, the prompt texts and the actors' `process_message` and `can_act`. Only the node names and the entry point of src/graph/game_orchestrator.py are modelled.
- JSON floats, lists and objects as field values of the dice roller's reply: `Json` holds `null`, booleans, integers and strings only.
- Non-ASCII digits and whitespace: `re`'s `\d` and `\s` in the patterns of src/agents/dice_roller.py:149, 157 and 201 (`DiceRequest.TokenAt`, `FirstToken`, `ChainEnd`, `SignedIntAt`, `DiceRollerAgent.BaseRoll`), `int()` and `str.isspace()` all accept Unicode digits and whitespace beyond ASCII; the model's `IsDigit` and `IsSpace` are ASCII only. `str.lower()` is modelled for ASCII letters only.
- History entries that are dicts without a `content` key, or objects without `content` (the `str(latest)` fallback of src/agents/researcher.py:111). Every `Message` has a content.
- `str()` of the dungeon master's reply object is taken as the reply text.
- The dungeon master's `state.get("context", {})` reaches only the logger, so it is not modelled.
- The value main.py:33 stores under `game_state` is the string `"initialized"`, not a dict. On that value the `in` test of `initialize_agent` (src/agents/base_agent.py:17) would test for a substring and its item assignment (line 19) would raise; `AgentTable` holds dict values only. Nothing in the source calls `initialize_agent` on that state.
- A `goto` that names no registered node: the supervisor's dict reply passes `response["next"]` through unchanged (src/agents/supervisor.py:77), so it can be any string. What langgraph does with such a name is not modelled; `Routing.NextNode` gives `None` for it, as for `END`.
- Exception texts follow Python 3.12 wording. The `repr` escaping of the literal in `int()`'s error (`Dice.ErrorText` of `BadLiteral`) is not modelled: quotes, backslashes, tabs, newlines and other control and non-printable characters appear raw between single quotes, where Python writes escapes such as `\t`.
- Python's limit of 4300 digits on integer-string conversion (Python 3.11 and later) is not modelled. There, `int()` of a decimal literal of more than 4300 digits raises `ValueError` ("Exceeds the limit (4300 digits) for integer string conversion: …"), and so does `str()` of an integer of more than 4300 digits. In the model, integers and their texts have no length limit. The members this touches are listed below, each on its own line.
- ParseInt (`PyText.ParseInt`): accepts a digit string of any length, where Python raises above 4300 digits.
- IntText (`PyText.IntText`): gives the text of an integer of any size, where `str()` raises above 4300 digits.
- ParsePart (`Dice.ParsePart`): a count or side literal of more than 4300 digits parses, where src/utils/dice.py:30-31 raises the limit error. `Dice.DiceGroups` then gives a group instead of that error.
- ParseDiceString (`Dice.ParseDiceString`): inherits the gap of `ParsePart`. It returns groups for such a literal instead of the limit error.
- SingleToken (`Dice.SingleToken`): states success for digit strings of every length, including those over 4300 digits, where Python raises.
- TwoTokens (`Dice.TwoTokens`): states success for digit strings of every length, including those over 4300 digits, where Python raises.
- ModifierOf (`DiceRequest.ModifierOf`): a string modifier whose first signed integer has more than 4300 digits gives that value. In src/agents/dice_roller.py:157 `int()` raises inside the `try`, and lines 184-187 return the defaults. The same holds for an integer modifier of more than 4300 digits, through `str()` in the `print` of line 179.
- ModifierOfText (`DiceRequest.ModifierOfText`): states that value for modifiers of every length, including those over 4300 digits, where the source falls back to the defaults.
- ParseDiceRequest (`DiceRequest.ParseDiceRequest`): inherits the gap of `ModifierOf`. It does not give the defaults for a modifier of more than 4300 digits.
- ExecuteDiceRoll (`DiceRollerAgent.ExecuteDiceRoll`): for a notation with a literal of more than 4300 digits it renders a total, where src/agents/dice_roller.py:272-276 returns "Error processing dice roll: Exceeds the limit …". A total of more than 4300 digits is rendered as well, where `str()` in the message raises.

## Findings

| source | as written | input that shows it | evidently intended | confidence | as-written member | corrected member |
|---|---|---|---|---|---|---|
| src/agents/dice_roller.py:34 | `process_task` calls `self._get_latest_message(state)`, but only `ResearcherAgent` defines that method (src/agents/researcher.py:103); `DiceRollerAgent`, `BaseAgent`, `ABC` and `object` do not | any state, e.g. `{"messages": [{"role": "user", "content": "Roll a d20 for perception"}], "current_task": "Roll a d20 for perception"}` as in tests/test_dice_roller.py | the latest message read as the researcher reads it, then parsed, rolled and appended | high (not executed) | DiceRollerAgent.ProcessTaskAsWritten | DiceRollerAgent.ProcessTask |
