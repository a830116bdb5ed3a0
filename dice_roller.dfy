/** `DiceRollerAgent` of src/agents/dice_roller.py: rolling a request
    (`_execute_dice_roll`) and the step that turns the latest message into an
    assistant message with the result (`process_task`). The model's reply is
    a function of the message it is asked to parse; the faces come from a
    `FaceOracle` with a draw index. */
module DiceRollerAgent {
  import opened Wrappers
  import opened PyText
  import opened Dice
  import opened DiceRequest
  import opened GameStates
  import opened Routing
  import Researcher

  const AgentType := "dice_roller"

  // --------------------------------------------------------------- base roll

  /** Lines 201-207: the first `\d*d\d+` of the notation, with an empty count
      written as 1; the notation itself when there is none. */
  function BaseRoll(notation: string): string {
    match FirstToken(notation, 0)
    case None => notation
    case Some(t) => CountText(notation[t.start..t.mark]) + "d" + notation[t.mark + 1..t.end]
  }

  /** `dice_match.group(1) or "1"` */
  function CountText(count: string): string {
    if count == "" then "1" else count
  }

  /** The base roll of a notation holding a dice token is that one token: a
      single group, with the token's count (1 when it has none) and sides. */
  lemma BaseRollIsOneGroup(notation: string, t: Token)
    requires FirstToken(notation, 0) == Some(t)
    ensures DiceGroups(BaseRoll(notation)) == Success([Group(
      if t.start == t.mark then 1 else DecimalValue(notation[t.start..t.mark]),
      DecimalValue(notation[t.mark + 1..t.end]))])
  {
    TokenGroupAt(notation, t, BaseRoll(notation));
  }

  /** The one group of a token, written with its count defaulted to 1. */
  lemma TokenGroupAt(s: string, t: Token, written: string)
    requires TokenMatch(s, t.start, t.mark, t.end)
    requires written == CountText(s[t.start..t.mark]) + "d" + s[t.mark + 1..t.end]
    ensures DiceGroups(written)
      == Success([Group(if t.start == t.mark then 1 else DecimalValue(s[t.start..t.mark]), DecimalValue(s[t.mark + 1..t.end]))])
  {
    var count := s[t.start..t.mark];
    var sides := s[t.mark + 1..t.end];
    TokenParts(s, t);
    TokenGroup(count, sides, if count == "" then 1 else DecimalValue(count), DecimalValue(sides));
  }

  /** The count of a token is digits, and its sides are at least one digit. */
  lemma TokenParts(s: string, t: Token)
    requires TokenMatch(s, t.start, t.mark, t.end)
    ensures AllDigits(s[t.start..t.mark]) && t.mark + 1 < t.end && AllDigits(s[t.mark + 1..t.end])
  {
    var count := s[t.start..t.mark];
    var sides := s[t.mark + 1..t.end];
    forall k | 0 <= k < |count|
      ensures IsDigit(count[k])
    {
      assert count[k] == s[t.start + k];
    }
    forall k | 0 <= k < |sides|
      ensures IsDigit(sides[k])
    {
      assert sides[k] == s[t.mark + 1 + k];
    }
  }

  /** A token written with its count defaulted to 1 parses to its one group. */
  lemma TokenGroup(count: string, sides: string, n: nat, m: nat)
    requires AllDigits(count) && |sides| > 0 && AllDigits(sides)
    requires n == (if count == "" then 1 else DecimalValue(count)) && m == DecimalValue(sides)
    ensures DiceGroups(CountText(count) + "d" + sides) == Success([Group(n, m)])
  {
    if count == "" {
      assert DecimalValue("1") == 1 by {
        assert "1"[..0] == [];
      }
      SingleToken("1", sides);
    } else {
      SingleToken(count, sides);
    }
  }

  // -------------------------------------------------------------- evaluation

  /** What rolling a request gives before it is written out. */
  datatype Evaluation =
    | Twice(base: string, first: seq<DiceRoll>, second: seq<DiceRoll>, kept: int)  // advantage or disadvantage
    | Standard(rolls: seq<DiceRoll>)                                               // a plain roll
    | NoDice                                                                       // nothing to roll
    | Failed(error: DiceError)                                                     // rolling raised

  function Max(a: int, b: int): int { if a >= b then a else b }

  function Min(a: int, b: int): int { if a <= b then a else b }

  /** Lines 197-228: the base roll rolled twice, the second time with the
      draws after the first, keeping the higher total with advantage and the
      lower one without. */
  function RollTwice(base: string, advantage: bool, faces: FaceOracle, k: nat): (e: Evaluation)
    ensures e.Twice? || e.Failed?
    ensures e.Twice? ==> e.base == base && DiceGroups(base).Success?
    ensures e.Twice? ==> RollsMatch(e.first, DiceGroups(base).value) && RollsMatch(e.second, DiceGroups(base).value)
    ensures e.Twice? ==> e.kept == TotalOf(e.first) || e.kept == TotalOf(e.second)
    ensures e.Twice? && advantage ==> e.kept >= TotalOf(e.first) && e.kept >= TotalOf(e.second)
    ensures e.Twice? && !advantage ==> e.kept <= TotalOf(e.first) && e.kept <= TotalOf(e.second)
    ensures e.Failed? <==> DiceGroups(base).Failure? || exists i :: 0 <= i < |DiceGroups(base).value| && Unrollable(DiceGroups(base).value[i])
  {
    match RollMultiple(base, faces, k)
    case Failure(err) => Failed(err)
    case Success(first) =>
      match RollMultiple(base, faces, first.next)
      case Failure(err) => Failed(err)
      case Success(second) =>
        var t1, t2 := TotalOf(first.rolls), TotalOf(second.rolls);
        Twice(base, first.rolls, second.rolls, if advantage then Max(t1, t2) else Min(t1, t2))
  }

  /** Lines 246-249: the notation rolled once; no groups at all is "no dice". */
  function RollOnce(notation: string, faces: FaceOracle, k: nat): (e: Evaluation)
    ensures e.Standard? || e.NoDice? || e.Failed?
    ensures e.Standard? ==> DiceGroups(notation).Success? && |e.rolls| > 0 && RollsMatch(e.rolls, DiceGroups(notation).value)
    ensures e.NoDice? <==> DiceGroups(notation) == Success([])
    ensures e.Failed? <==> DiceGroups(notation).Failure? || exists i :: 0 <= i < |DiceGroups(notation).value| && Unrollable(DiceGroups(notation).value[i])
  {
    match RollMultiple(notation, faces, k)
    case Failure(err) => Failed(err)
    case Success(r) => if r.rolls == [] then NoDice else Standard(r.rolls)
  }

  /** Lines 197-258: advantage or disadvantage rolls the base roll twice
      (advantage wins when both flags are set); a plain request rolls the
      whole notation once. */
  function Evaluate(req: Request, faces: FaceOracle, k: nat): (e: Evaluation)
    ensures e.Twice? ==> (req.advantage || req.disadvantage) && e.base == BaseRoll(req.notation)
    ensures e.Standard? || e.NoDice? ==> !req.advantage && !req.disadvantage
  {
    if req.advantage || req.disadvantage then RollTwice(BaseRoll(req.notation), req.advantage, faces, k)
    else RollOnce(req.notation, faces, k)
  }

  /** The total the message reports: the kept or summed total plus the modifier. */
  function ReportedTotal(req: Request, e: Evaluation): Option<int> {
    match e
    case Twice(_, _, _, kept) => Some(kept + req.modifier)
    case Standard(rolls) => Some(TotalOf(rolls) + req.modifier)
    case NoDice => None
    case Failed(_) => None
  }

  // ------------------------------------------------------------------ texts

  /** `f" + {m}"`, `f" - {abs(m)}"` or nothing. */
  function ModifierText(m: int): string {
    if m > 0 then " + " + IntText(m) else if m < 0 then " - " + IntText(-m) else ""
  }

  /** The modifier text is empty exactly for 0, and otherwise gives back the
      sign and the size of the modifier. */
  lemma ModifierTextReadBack(m: int)
    ensures ModifierText(m) == "" <==> m == 0
    ensures m > 0 ==> ModifierText(m)[..3] == " + " && ParseInt(ModifierText(m)[3..]) == Some(m)
    ensures m < 0 ==> ModifierText(m)[..3] == " - " && ParseInt(ModifierText(m)[3..]) == Some(-m)
  {
    if m != 0 {
      var a := if m > 0 then m else -m;
      assert ModifierText(m)[3..] == IntText(a);
      ParseIntOfIntText(a);
    }
  }

  /** `f" for {description}"` when the description is not empty. */
  function ForText(description: string): string {
    if description != "" then " for " + description else ""
  }

  /** `**{total}**` */
  function Bold(total: int): string {
    "**" + IntText(total) + "**"
  }

  /** `f"🎲 Rolled {subject} for {description}: **{total}**"` */
  function Headline(subject: string, description: string, total: int): string {
    "\U{1F3B2} Rolled " + subject + ForText(description) + ": " + Bold(total)
  }

  function RollTexts(rolls: seq<DiceRoll>): (ts: seq<string>)
    ensures |ts| == |rolls| && forall i :: 0 <= i < |rolls| ==> ts[i] == RollText(rolls[i])
  {
    seq(|rolls|, i requires 0 <= i < |rolls| => RollText(rolls[i]))
  }

  /** Lines 219-221: how the two totals were combined. */
  function AdvantageText(advantage: bool, t1: int, t2: int): string {
    (if advantage then "with advantage (rolls: " else "with disadvantage (rolls: ")
      + IntText(t1) + " and " + IntText(t2) + (if advantage then ", took higher)" else ", took lower)")
  }

  /** Lines 264-268: the faces of a single multi-die roll, or each roll of a
      notation with several groups. */
  function Details(rolls: seq<DiceRoll>): string {
    if |rolls| == 1 && |rolls[0].results| > 1 then " (rolled " + ListText(rolls[0].results) + ")"
    else if |rolls| > 1 then " (" + Join(RollTexts(rolls), " + ") + ")"
    else ""
  }

  const NoDiceText := "No valid dice roll found in the request."
  const ErrorPrefix := "Error processing dice roll: "

  /** Line 241: the faces of both rolls. */
  function BothRolls(first: seq<DiceRoll>, second: seq<DiceRoll>): string {
    "\nFirst roll: " + Join(RollTexts(first), ", ") + "\nSecond roll: " + Join(RollTexts(second), ", ")
  }

  /** The two-roll message of lines 234-241. */
  function TwiceText(advantage: bool, modifier: int, description: string,
                     base: string, first: seq<DiceRoll>, second: seq<DiceRoll>, kept: int): string {
    Headline(base + " " + AdvantageText(advantage, TotalOf(first), TotalOf(second)) + ModifierText(modifier),
             description, kept + modifier)
      + BothRolls(first, second)
  }

  /** The one-roll message of lines 258-268. */
  function StandardText(notation: string, modifier: int, description: string, rolls: seq<DiceRoll>): string {
    Headline(notation + ModifierText(modifier), description, TotalOf(rolls) + modifier) + Details(rolls)
  }

  /** The message of each evaluation; the disadvantage flag plays no part in it. */
  function Render(advantage: bool, notation: string, modifier: int, description: string, e: Evaluation): string {
    match e
    case Twice(base, first, second, kept) => TwiceText(advantage, modifier, description, base, first, second, kept)
    case Standard(rolls) => StandardText(notation, modifier, description, rolls)
    case NoDice => NoDiceText
    case Failed(err) => ErrorPrefix + ErrorText(err)
  }

  /** `_execute_dice_roll(...)`. Whenever there is a total, the message shows
      it in bold; otherwise it is the no-dice text or the error text. */
  function ExecuteDiceRoll(req: Request, faces: FaceOracle, k: nat): (r: string)
    ensures var e := Evaluate(req, faces, k);
      ReportedTotal(req, e).Some? ==> Contains(r, "**" + IntText(ReportedTotal(req, e).value) + "**")
    ensures Evaluate(req, faces, k).NoDice? ==> r == "No valid dice roll found in the request."
    ensures var e := Evaluate(req, faces, k);
      e.Failed? ==> r == "Error processing dice roll: " + ErrorText(e.error)
  {
    var e := Evaluate(req, faces, k);
    RenderShowsTotal(req, e);
    Render(req.advantage, req.notation, req.modifier, req.description, e)
  }

  // -------------------------------------------------------------- properties

  /** With both flags set, advantage wins: the roll is the same as with
      advantage alone. */
  lemma AdvantageWins(req: Request, faces: FaceOracle, k: nat)
    requires req.advantage
    ensures ExecuteDiceRoll(req.(disadvantage := true), faces, k) == ExecuteDiceRoll(req.(disadvantage := false), faces, k)
  {
  }

  /** On the same draws, advantage keeps at least what disadvantage keeps. */
  lemma AdvantageNotBelowDisadvantage(req: Request, faces: FaceOracle, k: nat)
    requires Evaluate(req.(advantage := true), faces, k).Twice?
    ensures var up := Evaluate(req.(advantage := true), faces, k);
      var down := Evaluate(req.(advantage := false, disadvantage := true), faces, k);
      down.Twice? && down.first == up.first && down.second == up.second && down.kept <= up.kept
  {
    var b := BaseRoll(req.notation);
    assert Evaluate(req.(advantage := true), faces, k) == RollTwice(b, true, faces, k);
    assert Evaluate(req.(advantage := false, disadvantage := true), faces, k) == RollTwice(b, false, faces, k);
    RollTwiceOrder(b, faces, k);
  }

  /** The two rolls do not depend on the flag, and the higher total is kept
      with it, the lower without. */
  lemma RollTwiceOrder(base: string, faces: FaceOracle, k: nat)
    requires RollTwice(base, true, faces, k).Twice?
    ensures var up, down := RollTwice(base, true, faces, k), RollTwice(base, false, faces, k);
      down.Twice? && down.first == up.first && down.second == up.second && down.kept <= up.kept
  {
  }

  /** A kept total lies between all ones and all highest faces. */
  lemma KeptBounds(req: Request, faces: FaceOracle, k: nat)
    requires Evaluate(req, faces, k).Twice?
    ensures var e := Evaluate(req, faces, k); var groups := DiceGroups(e.base).value;
      MinTotal(groups) <= e.kept <= MaxTotal(groups)
  {
    var e := Evaluate(req, faces, k);
    var groups := DiceGroups(e.base).value;
    TotalBounds(e.first, groups);
    TotalBounds(e.second, groups);
  }

  /** A plain roll's total lies between all ones and all highest faces, plus
      the modifier. */
  lemma StandardBounds(req: Request, faces: FaceOracle, k: nat)
    requires Evaluate(req, faces, k).Standard?
    ensures var groups := DiceGroups(req.notation).value; var t := ReportedTotal(req, Evaluate(req, faces, k)).value;
      MinTotal(groups) + req.modifier <= t <= MaxTotal(groups) + req.modifier
  {
    TotalBounds(Evaluate(req, faces, k).rolls, DiceGroups(req.notation).value);
  }

  lemma RenderShowsTotal(req: Request, e: Evaluation)
    ensures ReportedTotal(req, e).Some? ==>
      Contains(Render(req.advantage, req.notation, req.modifier, req.description, e), Bold(ReportedTotal(req, e).value))
    ensures e.NoDice? ==> Render(req.advantage, req.notation, req.modifier, req.description, e) == NoDiceText
    ensures e.Failed? ==> Render(req.advantage, req.notation, req.modifier, req.description, e) == ErrorPrefix + ErrorText(e.error)
  {
    var text := Render(req.advantage, req.notation, req.modifier, req.description, e);
    match e
    case Twice(base, first, second, kept) =>
      TwiceShowsTotal(req.advantage, req.modifier, req.description, base, first, second, kept, text, ReportedTotal(req, e).value);
    case Standard(rolls) =>
      StandardShowsTotal(req.notation, req.modifier, req.description, rolls, text, ReportedTotal(req, e).value);
    case NoDice =>
    case Failed(_) =>
  }

  lemma StandardShowsTotal(notation: string, modifier: int, description: string, rolls: seq<DiceRoll>,
                           text: string, total: int)
    requires text == StandardText(notation, modifier, description, rolls) && total == TotalOf(rolls) + modifier
    ensures Contains(text, Bold(total))
  {
    HeadlineShowsTotal(notation + ModifierText(modifier), description, total, Details(rolls), text);
  }

  lemma TwiceShowsTotal(advantage: bool, modifier: int, description: string,
                        base: string, first: seq<DiceRoll>, second: seq<DiceRoll>, kept: int,
                        text: string, total: int)
    requires text == TwiceText(advantage, modifier, description, base, first, second, kept) && total == kept + modifier
    ensures Contains(text, Bold(total))
  {
    var subject := base + " " + AdvantageText(advantage, TotalOf(first), TotalOf(second)) + ModifierText(modifier);
    HeadlineShowsTotal(subject, description, total, BothRolls(first, second), text);
  }

  lemma HeadlineShowsTotal(subject: string, description: string, total: int, rest: string, text: string)
    requires text == Headline(subject, description, total) + rest
    ensures Contains(text, Bold(total))
  {
    var a := "\U{1F3B2} Rolled " + subject + ForText(description) + ": ";
    assert Headline(subject, description, total) == a + Bold(total);
    ContainsMiddle(a, Bold(total), rest);
  }

  // ------------------------------------------------------------ process_task

  /** The assistant entry the step appends. */
  function Entry(text: string): Message {
    DictMessage("assistant", text, Some(AgentType))
  }

  /** The whole reply to a message: parse it with the model, then roll. */
  function ResultMessage(message: string, llm: string -> Option<map<string, Json>>, faces: FaceOracle, k: nat): string {
    ExecuteDiceRoll(NormalisedRequest(message, llm(message)), faces, k)
  }

  /** `process_task(state)`, with the latest message read as the researcher
      reads it. The update is a shallow copy of the state, so it holds the
      same `messages` list, which gets the result appended; a state without
      `messages` gets a new list holding only the result. The next stop is
      always the supervisor. */
  method ProcessTask(state: GameState, llm: string -> Option<map<string, Json>>, faces: FaceOracle, k: nat)
    returns (c: Command)
    modifies ListOf(state)
    ensures c.goto == "supervisor" && NextNode(c) == Some(Supervisor) && c.update.Some?
    ensures var text := ResultMessage(old(Researcher.LatestMessage(state)), llm, faces, k);
      if state.messages.Some? then
        c.update == Some(state) && state.messages.value.items == old(state.messages.value.items) + [Entry(text)]
      else
        && c.update.value == state.(messages := c.update.value.messages)
        && c.update.value.messages.Some? && fresh(c.update.value.messages.value)
        && c.update.value.messages.value.items == [Entry(text)]
  {
    var latest := Researcher.LatestMessage(state);
    var request := ParseDiceRequest(latest, llm(latest));
    var text := ExecuteDiceRoll(request, faces, k);
    var updated := state;
    if updated.messages.None? {
      var list := new MessageList([]);
      updated := updated.(messages := Some(list));
    }
    updated.messages.value.Append(Entry(text));
    return Command("supervisor", Some(updated));
  }

  // ------------------------------------------- method lookup, as written

  /** The methods each class defines, by name, in the method resolution order
      of `DiceRollerAgent` (itself, `BaseAgent`, `ABC`, `object`). */
  const DiceRollerMro: seq<set<string>> := [
    {"__init__", "get_definition", "process_task", "_parse_dice_request", "_execute_dice_roll"},
    {"__init__", "initialize_agent", "process_task", "get_definition", "_log_interaction"},
    {},
    {}]

  /** The same for `ResearcherAgent` of src/agents/researcher.py. */
  const ResearcherMro: seq<set<string>> := [
    {"__init__", "get_definition", "process_task", "_get_latest_message"},
    DiceRollerMro[1],
    {},
    {}]

  /** The first class of the order that defines `name`. */
  function Resolve(mro: seq<set<string>>, name: string): (r: Option<nat>)
    ensures r.Some? ==> r.value < |mro| && name in mro[r.value] && forall j :: 0 <= j < r.value ==> name !in mro[j]
    ensures r.None? ==> forall j :: 0 <= j < |mro| ==> name !in mro[j]
    decreases |mro|
  {
    if mro == [] then None
    else if name in mro[0] then Some(0)
    else match Resolve(mro[1..], name)
      case None => None
      case Some(i) => Some(i + 1)
  }

  /** `_get_latest_message` is defined by the researcher but by no class the
      dice roller inherits from. */
  lemma LatestMessageUnresolved()
    ensures Resolve(DiceRollerMro, "_get_latest_message") == None
    ensures Resolve(ResearcherMro, "_get_latest_message") == Some(0)
  {
    var name := "_get_latest_message";
    assert forall j :: 0 <= j < 3 ==> name !in DiceRollerMro[j] by {
      assert name[1] == 'g';
      assert name !in DiceRollerMro[0] && name !in DiceRollerMro[1];
    }
  }

  const MissingMethodText := "'DiceRollerAgent' object has no attribute '_get_latest_message'"

  /** `process_task` as written: its first line looks up
      `self._get_latest_message`, which the dice roller does not have, so the
      step raises `AttributeError` before anything is parsed, rolled or
      appended. */
  method ProcessTaskAsWritten(state: GameState, llm: string -> Option<map<string, Json>>, faces: FaceOracle, k: nat)
    returns (r: Result<Command, string>)
    ensures r == Failure("'DiceRollerAgent' object has no attribute '_get_latest_message'")
  {
    LatestMessageUnresolved();
    var found := Resolve(DiceRollerMro, "_get_latest_message");
    if found.None? {
      return Failure(MissingMethodText);
    }
    assert false;
  }
}
