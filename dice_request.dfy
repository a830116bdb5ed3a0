/** The deterministic half of `DiceRollerAgent._parse_dice_request`
    (src/agents/dice_roller.py, lines 144-187): how the model's parsed JSON
    reply becomes a dice request. The three regular expressions the agent
    uses are written out as scanners over the text. */
module DiceRequest {
  import opened Wrappers
  import opened PyText

  // ---------------------------------------------------------------- scanners

  /** End of the run of digits that starts at `i`. */
  function DigitRun(s: string, i: nat): (j: nat)
    requires i <= |s|
    ensures i <= j <= |s|
    ensures forall k :: i <= k < j ==> IsDigit(s[k])
    ensures j == |s| || !IsDigit(s[j])
    decreases |s| - i
  {
    if i < |s| && IsDigit(s[i]) then DigitRun(s, i + 1) else i
  }

  /** End of the run of whitespace (`\s`) that starts at `i`. */
  function SpaceRun(s: string, i: nat): (j: nat)
    requires i <= |s|
    ensures i <= j <= |s|
    ensures forall k :: i <= k < j ==> IsSpace(s[k])
    ensures j == |s| || !IsSpace(s[j])
    decreases |s| - i
  {
    if i < |s| && IsSpace(s[i]) then SpaceRun(s, i + 1) else i
  }

  /** `s[i..e]` is a match of `\d*d\d+` whose 'd' is at `m`. */
  predicate TokenMatch(s: string, i: nat, m: nat, e: nat) {
    && i <= m && m + 1 < e <= |s|
    && s[m] == 'd'
    && (forall k :: i <= k < m ==> IsDigit(s[k]))
    && (forall k :: m < k < e ==> IsDigit(s[k]))
  }

  /** A match of `(\d*)d(\d+)` at `start`: where its 'd' is and where it ends. */
  datatype Token = Token(start: nat, mark: nat, end: nat)

  /** The greedy match of `\d*d\d+` at `i`, if the pattern matches there. */
  function TokenAt(s: string, i: nat): (r: Option<Token>)
    requires i <= |s|
    ensures r.Some? ==> r.value.start == i && TokenMatch(s, i, r.value.mark, r.value.end)
    ensures r.Some? ==> r.value.end == |s| || !IsDigit(s[r.value.end])
    ensures r.None? ==> forall m: nat, e: nat :: !TokenMatch(s, i, m, e)
  {
    var m := DigitRun(s, i);
    if m < |s| && s[m] == 'd' && DigitRun(s, m + 1) > m + 1 then Some(Token(i, m, DigitRun(s, m + 1)))
    else
      NoTokenAt(s, i);
      None
  }

  /** Where the digit run stops is the only place a match's 'd' can be. */
  lemma NoTokenAt(s: string, i: nat)
    requires i <= |s|
    requires var m := DigitRun(s, i); !(m < |s| && s[m] == 'd' && DigitRun(s, m + 1) > m + 1)
    ensures forall m: nat, e: nat :: !TokenMatch(s, i, m, e)
  {
    forall m: nat, e: nat
      ensures !TokenMatch(s, i, m, e)
    {
      TokenMarkIsRunEnd(s, i, m, e);
    }
  }

  lemma TokenMarkIsRunEnd(s: string, i: nat, m: nat, e: nat)
    requires i <= |s|
    ensures TokenMatch(s, i, m, e) ==> m == DigitRun(s, i) && m + 1 < |s| && IsDigit(s[m + 1])
  {
  }

  /** `re.search(r'(\d*)d(\d+)', s)` from `i`: the leftmost match. */
  function FirstToken(s: string, i: nat): (r: Option<Token>)
    requires i <= |s|
    ensures r.Some? ==> i <= r.value.start <= |s| && TokenAt(s, r.value.start) == r
    ensures r.Some? ==> forall j :: i <= j < r.value.start ==> TokenAt(s, j).None?
    ensures r.None? ==> forall j :: i <= j <= |s| ==> TokenAt(s, j).None?
    decreases |s| - i
  {
    if TokenAt(s, i).Some? then TokenAt(s, i)
    else if i == |s| then None
    else FirstToken(s, i + 1)
  }

  /** `\s*\+\s*\d*d\d+` matches at `e`: one more link of the chain. */
  predicate MoreChain(s: string, e: nat)
    requires e <= |s|
  {
    var p := SpaceRun(s, e);
    p < |s| && s[p] == '+' && TokenAt(s, SpaceRun(s, p + 1)).Some?
  }

  /** Where the link that matches at `e` ends: the end of its token. */
  function LinkEnd(s: string, e: nat): (n: nat)
    requires e <= |s| && MoreChain(s, e)
    ensures e < n <= |s|
    ensures forall k :: e <= k < n ==> IsDigit(s[k]) || IsSpace(s[k]) || s[k] == 'd' || s[k] == '+'
  {
    var p := SpaceRun(s, e);
    var t := TokenAt(s, SpaceRun(s, p + 1)).value;
    LinkChars(s, e, p, t);
    t.end
  }

  /** `s[e..r]` is made of whole links, each one matching where the previous
      one ends. */
  predicate Links(s: string, e: nat, r: nat)
    requires e <= r <= |s|
    decreases r - e
  {
    e == r || (MoreChain(s, e) && LinkEnd(s, e) <= r && Links(s, LinkEnd(s, e), r))
  }

  /** The greedy repetitions of `(?:\s*\+\s*\d*d\d+)*` after position `e`:
      whole links, taken while one more matches. */
  function ChainEnd(s: string, e: nat): (r: nat)
    requires e <= |s|
    ensures e <= r <= |s|
    ensures Links(s, e, r) && !MoreChain(s, r)
    ensures forall k :: e <= k < r ==> IsDigit(s[k]) || IsSpace(s[k]) || s[k] == 'd' || s[k] == '+'
    decreases |s| - e
  {
    if MoreChain(s, e) then ChainEnd(s, LinkEnd(s, e)) else e
  }

  /** Whole links up to a point where no further link matches pin the end
      down: it is where the greedy repetition stops. */
  lemma {:induction false} ChainEndUnique(s: string, e: nat, r: nat)
    requires e <= r <= |s| && Links(s, e, r) && !MoreChain(s, r)
    ensures r == ChainEnd(s, e)
    decreases r - e
  {
    if e != r {
      ChainEndUnique(s, LinkEnd(s, e), r);
    }
  }

  /** The text from `e` to the end of the next chained token holds only
      whitespace, a '+', digits and the token's 'd'. */
  lemma LinkChars(s: string, e: nat, p: nat, t: Token)
    requires e <= |s| && p == SpaceRun(s, e) && p < |s| && s[p] == '+'
    requires TokenAt(s, SpaceRun(s, p + 1)) == Some(t)
    ensures e < t.end <= |s|
    ensures forall k :: e <= k < t.end ==> IsDigit(s[k]) || IsSpace(s[k]) || s[k] == 'd' || s[k] == '+'
  {
  }

  /** A token and the chain after it hold only chain characters. */
  lemma ChainChars(s: string, t: Token, c: nat)
    requires t.start <= t.end <= c <= |s| && TokenMatch(s, t.start, t.mark, t.end)
    requires forall k :: t.end <= k < c ==> IsDigit(s[k]) || IsSpace(s[k]) || s[k] == 'd' || s[k] == '+'
    ensures var text := s[t.start..c];
      && |text| >= t.end - t.start && text[..t.end - t.start] == s[t.start..t.end]
      && forall k :: 0 <= k < |text| ==> IsDigit(text[k]) || IsSpace(text[k]) || text[k] == 'd' || text[k] == '+'
  {
    var text := s[t.start..c];
    forall k | 0 <= k < |text|
      ensures IsDigit(text[k]) || IsSpace(text[k]) || text[k] == 'd' || text[k] == '+'
    {
      assert text[k] == s[t.start + k];
    }
  }

  /** `re.search(r'(\d*d\d+(?:\s*\+\s*\d*d\d+)*)', s).group(1)`, if any:
      the leftmost dice token followed by the longest chain of `+ token`. */
  function FirstChain(s: string): (r: Option<string>)
    ensures r.Some? ==> forall k :: 0 <= k < |r.value| ==>
      IsDigit(r.value[k]) || IsSpace(r.value[k]) || r.value[k] == 'd' || r.value[k] == '+'
    ensures r.None? <==> FirstToken(s, 0).None?
    ensures r.Some? ==> var t := FirstToken(s, 0).value;
      && |r.value| >= t.end - t.start && r.value[..t.end - t.start] == s[t.start..t.end]
      && r.value == s[t.start..ChainEnd(s, t.end)]
  {
    match FirstToken(s, 0)
    case None => None
    case Some(t) =>
      var c := ChainEnd(s, t.end);
      ChainChars(s, t, c);
      Some(s[t.start..c])
  }

  /** The value of a match of `[-+]?\d+` at `i`, if the pattern matches there:
      `int()` of the matched text. */
  function SignedIntAt(s: string, i: nat): (r: Option<int>)
    requires i <= |s|
    ensures r.Some? <==> (i < |s| && IsDigit(s[i])) || (i + 1 < |s| && IsSign(s[i]) && IsDigit(s[i + 1]))
  {
    if i < |s| && IsDigit(s[i]) then Some(DecimalValue(s[i..DigitRun(s, i)]))
    else if i + 1 < |s| && IsSign(s[i]) && IsDigit(s[i + 1]) then
      var v := DecimalValue(s[i + 1..DigitRun(s, i + 1)]);
      Some(if s[i] == '-' then -(v as int) else v)
    else None
  }

  /** `re.search(r'[-+]?\d+', s)` from `i`, read with `int()`. */
  function FirstSignedInt(s: string, i: nat): (r: Option<int>)
    requires i <= |s|
    ensures r.None? ==> forall j :: i <= j <= |s| ==> SignedIntAt(s, j).None?
    ensures r.Some? ==> exists j :: i <= j <= |s| && SignedIntAt(s, j) == r
                                    && forall j' :: i <= j' < j ==> SignedIntAt(s, j').None?
    decreases |s| - i
  {
    if SignedIntAt(s, i).Some? then SignedIntAt(s, i)
    else if i == |s| then None
    else FirstSignedInt(s, i + 1)
  }

  lemma {:induction false} DigitRunOfDigits(s: string, i: nat)
    requires i <= |s| && forall k :: i <= k < |s| ==> IsDigit(s[k])
    ensures DigitRun(s, i) == |s|
    decreases |s| - i
  {
    if i < |s| {
      DigitRunOfDigits(s, i + 1);
    }
  }

  /** The first signed integer of a text that starts with `str(m)` (or with
      `+` and the digits of a positive `m`), followed by anything that does not
      start with a digit, is `m`. */
  lemma FirstSignedIntOfPrefix(text: string, rest: string, m: int)
    requires text == IntText(m) || (m > 0 && text == "+" + NatText(m))
    requires rest == [] || !IsDigit(rest[0])
    ensures FirstSignedInt(text + rest, 0) == Some(m)
  {
    if m >= 0 && text == NatText(m) {
      UnsignedAt(NatText(m), rest);
      DecimalValueOfNatText(m);
    } else {
      var n: nat := if m < 0 then -m else m;
      var c := if m < 0 then '-' else '+';
      assert text == [c] + NatText(n);
      DecimalValueOfNatText(n);
      SignedAt(c, NatText(n), rest, n);
    }
  }

  lemma UnsignedAt(ds: string, rest: string)
    requires |ds| > 0 && AllDigits(ds) && (rest == [] || !IsDigit(rest[0]))
    ensures SignedIntAt(ds + rest, 0) == Some(DecimalValue(ds) as int)
  {
    var s := ds + rest;
    assert s[..|ds|] == ds;
    DigitsEndAt(s, 0, |ds|);
  }

  lemma SignedAt(c: char, ds: string, rest: string, v: nat)
    requires IsSign(c) && |ds| > 0 && AllDigits(ds) && DecimalValue(ds) == v
    requires rest == [] || !IsDigit(rest[0])
    ensures SignedIntAt([c] + ds + rest, 0) == Some(if c == '-' then -(v as int) else v)
  {
    var s := [c] + ds + rest;
    var n := 1 + |ds|;
    assert 1 < n <= |s| && s[0] == c && DigitRun(s, 1) == n && DecimalValue(s[1..n]) == v by {
      SignedTextParts(c, ds, rest, s);
      DigitsEndAt(s, 1, n);
    }
    SignedIntAtSign(s, c, n, v);
  }

  lemma SignedTextParts(c: char, ds: string, rest: string, s: string)
    requires s == [c] + ds + rest && (rest == [] || !IsDigit(rest[0]))
    ensures 1 + |ds| <= |s| && s[0] == c && s[1..1 + |ds|] == ds
    ensures 1 + |ds| == |s| || !IsDigit(s[1 + |ds|])
  {
    assert s[1..1 + |ds|] == ds;
    if 1 + |ds| < |s| {
      assert s[1 + |ds|] == rest[0];
    }
  }

  lemma SignedIntAtSign(s: string, c: char, n: nat, v: nat)
    requires 1 < n <= |s| && s[0] == c && IsSign(c) && DigitRun(s, 1) == n && DecimalValue(s[1..n]) == v
    ensures SignedIntAt(s, 0) == Some(if c == '-' then -(v as int) else v)
  {
    assert IsDigit(s[1]);
  }

  lemma DigitsEndAt(s: string, i: nat, j: nat)
    requires i < j <= |s| && AllDigits(s[i..j]) && (j == |s| || !IsDigit(s[j]))
    ensures DigitRun(s, i) == j
  {
    assert forall k :: i <= k < j ==> IsDigit(s[k]) by {
      forall k | i <= k < j
        ensures IsDigit(s[k])
      {
        assert s[i..j][k - i] == s[k];
      }
    }
  }

  // ----------------------------------------------------------------- replies

  /** The JSON values the reply's fields can hold. */
  datatype Json = JNull | JBool(b: bool) | JInt(i: int) | JStr(s: string)

  /** `bool(v)` */
  predicate Truthy(v: Json) {
    match v
    case JNull => false
    case JBool(b) => b
    case JInt(i) => i != 0
    case JStr(s) => s != ""
  }

  /** `str(v)` */
  function PyStr(v: Json): string {
    match v
    case JNull => "None"
    case JBool(b) => if b then "True" else "False"
    case JInt(i) => IntText(i)
    case JStr(s) => s
  }

  /** `parsed.get(key, default)` */
  function Get(parsed: map<string, Json>, key: string, default: Json): Json {
    if key in parsed then parsed[key] else default
  }

  /** The five values `_parse_dice_request` returns. */
  datatype Request = Request(notation: string, modifier: int, advantage: bool, disadvantage: bool, description: string)

  /** What it returns when anything raises. */
  const Defaults := Request("1d20", 0, false, false, "dice roll")

  const Placeholders := "PQXYpqxy"

  /** `any(char in dice_notation for char in "PQXYpqxy")` */
  predicate HasPlaceholder(notation: string) {
    exists k :: 0 <= k < |notation| && notation[k] in Placeholders
  }

  /** Lines 145-151: the notation, or the first dice pattern of the message
      with its spaces removed when the notation looks like a template. */
  function NotationOf(message: string, notation: string): string {
    if !HasPlaceholder(notation) then notation
    else
      match FirstChain(message)
      case Some(text) => RemoveChar(text, ' ')
      case None => "1d20"
  }

  /** Lines 154-160: the modifier as an integer; a string with no digit in
      it gives 0. A first integer longer than 4300 digits gives its value,
      where Python's `int()` raises and the defaults are returned. */
  function ModifierOf(v: Json): (r: int)
    ensures v.JStr? && (forall k :: 0 <= k < |v.s| ==> !IsDigit(v.s[k])) ==> r == 0
  {
    match v
    case JStr(s) =>
      NoSignedInt(s, 0);
      FirstSignedInt(s, 0).GetOr(0)
    case JNull => 0
    case JInt(i) => i
    case JBool(b) => if b then 1 else 0
  }

  const Markers := ["for", "to check", "to see if"]

  /** `message.split(marker, 1)[1]`: the text after the first occurrence. */
  function After(message: string, marker: string): string
    requires Contains(message, marker)
  {
    message[FindFrom(message, marker, 0).value + |marker|..]
  }

  /** The stripped text after the first of the markers, taken in list order,
      that occurs in the message. */
  function MarkerTail(message: string, markers: seq<string>): Option<string>
    decreases |markers|
  {
    if markers == [] then None
    else if Contains(message, markers[0]) then Some(Strip(After(message, markers[0])))
    else MarkerTail(message, markers[1..])
  }

  /** `not description or description == "roll"` */
  predicate Blank(v: Json) {
    !Truthy(v) || v == JStr("roll")
  }

  /** Lines 167-178: the description, with the marker fallback and the
      "dice roll" default. */
  function DescriptionOf(message: string, given: Json): string {
    if !Blank(given) then PyStr(given)
    else
      match MarkerTail(message, Markers)
      case Some(tail) => if Blank(JStr(tail)) then "dice roll" else tail
      case None => "dice roll"
  }

  /** Lines 144-187: the request made of a reply; `None` stands for a reply
      that could not be read as a JSON object. */
  function NormalisedRequest(message: string, reply: Option<map<string, Json>>): Request {
    if reply.None? then Defaults
    else
      var parsed := reply.value;
      var notation := Get(parsed, "dice_notation", JStr("1d20"));
      if !notation.JStr? then Defaults
      else
        Request(
          NotationOf(message, notation.s),
          ModifierOf(Get(parsed, "modifier", JInt(0))),
          Truthy(Get(parsed, "has_advantage", JBool(false))),
          Truthy(Get(parsed, "has_disadvantage", JBool(false))),
          DescriptionOf(message, Get(parsed, "description", JStr(""))))
  }

  /** Lines 170-175: the marker loop, with its `break`. */
  method FindMarkerTail(message: string) returns (tail: Option<string>)
    ensures tail == MarkerTail(message, Markers)
  {
    var i := 0;
    while i < |Markers|
      invariant 0 <= i <= |Markers|
      invariant MarkerTail(message, Markers) == MarkerTail(message, Markers[i..])
    {
      var marker := Markers[i];
      if Contains(message, marker) {
        var parts := [message[..FindFrom(message, marker, 0).value], After(message, marker)];
        if |parts| > 1 {
          return Some(Strip(parts[1]));
        }
      }
      assert Markers[i..][1..] == Markers[i + 1..];
      i := i + 1;
    }
    return None;
  }

  /** `_parse_dice_request` after the model call: the defaults when the reply
      cannot be read or its notation is no string; otherwise the modifier and
      the flags read from the reply. Either way the notation holds no
      placeholder and the description is never blank. */
  method ParseDiceRequest(message: string, reply: Option<map<string, Json>>) returns (r: Request)
    ensures r == NormalisedRequest(message, reply)
    ensures reply.None? || !Get(reply.value, "dice_notation", JStr("1d20")).JStr? ==> r == Defaults
    ensures reply.Some? && Get(reply.value, "dice_notation", JStr("1d20")).JStr? ==>
      && r.modifier == ModifierOf(Get(reply.value, "modifier", JInt(0)))
      && r.advantage == Truthy(Get(reply.value, "has_advantage", JBool(false)))
      && r.disadvantage == Truthy(Get(reply.value, "has_disadvantage", JBool(false)))
    ensures !HasPlaceholder(r.notation)
    ensures r.description != "" && r.description != "roll"
  {
    if reply.None? {
      DefaultNotationHasNoPlaceholder();
      return Defaults;
    }
    var parsed := reply.value;
    var notation := Get(parsed, "dice_notation", JStr("1d20"));
    if !notation.JStr? {
      DefaultNotationHasNoPlaceholder();
      return Defaults;
    }
    NotationHasNoPlaceholder(message, notation.s);
    var diceNotation := NotationOf(message, notation.s);
    var modifier := ModifierOf(Get(parsed, "modifier", JInt(0)));
    var advantage := Truthy(Get(parsed, "has_advantage", JBool(false)));
    var disadvantage := Truthy(Get(parsed, "has_disadvantage", JBool(false)));
    var given := Get(parsed, "description", JStr(""));
    DescriptionNeverBlank(message, given);
    var description: string;
    if !Blank(given) {
      description := PyStr(given);
    } else {
      var tail := FindMarkerTail(message);
      description := if tail.Some? && !Blank(JStr(tail.value)) then tail.value else "dice roll";
    }
    return Request(diceNotation, modifier, advantage, disadvantage, description);
  }

  // -------------------------------------------------------------- properties

  /** The description is never empty and never the bare word "roll". */
  lemma DescriptionNeverBlank(message: string, given: Json)
    ensures DescriptionOf(message, given) != "" && DescriptionOf(message, given) != "roll"
  {
    if given.JInt? {
      var t := IntText(given.i);
      assert t[0] != 'r';
    }
  }

  /** A notation taken from the message or the default holds no placeholder
      character, so the final notation never does. */
  lemma NotationHasNoPlaceholder(message: string, notation: string)
    ensures !HasPlaceholder(NotationOf(message, notation))
  {
    if HasPlaceholder(notation) {
      match FirstChain(message)
      case Some(text) =>
        var n := RemoveChar(text, ' ');
        forall k | 0 <= k < |n|
          ensures n[k] !in Placeholders
        {
          assert n[k] in text;
          var j :| 0 <= j < |text| && text[j] == n[k];
          DiceCharIsNoPlaceholder(text[j]);
        }
      case None =>
        DefaultNotationHasNoPlaceholder();
    }
  }

  lemma DefaultNotationHasNoPlaceholder()
    ensures !HasPlaceholder("1d20")
  {
    forall k | 0 <= k < |"1d20"|
      ensures "1d20"[k] !in Placeholders
    {
      DiceCharIsNoPlaceholder("1d20"[k]);
    }
  }

  lemma DiceCharIsNoPlaceholder(c: char)
    requires IsDigit(c) || IsSpace(c) || c == 'd' || c == '+'
    ensures c !in Placeholders
  {
    assert Placeholders == ['P', 'Q', 'X', 'Y', 'p', 'q', 'x', 'y'];
  }

  /** A string modifier such as "+5" or "-2 to hit" becomes its first signed
      integer; one with no digits becomes 0. */
  lemma ModifierOfText(text: string, rest: string, m: int)
    requires text == IntText(m) || (m > 0 && text == "+" + NatText(m))
    requires rest == [] || !IsDigit(rest[0])
    ensures ModifierOf(JStr(text + rest)) == m
  {
    FirstSignedIntOfPrefix(text, rest, m);
  }

  lemma {:induction false} NoSignedInt(s: string, i: nat)
    requires i <= |s|
    ensures (forall k :: 0 <= k < |s| ==> !IsDigit(s[k])) ==> FirstSignedInt(s, i) == None
    decreases |s| - i
  {
    if i < |s| {
      NoSignedInt(s, i + 1);
    }
  }

  /** An unreadable reply, or a notation that is not a string, gives the
      defaults; otherwise the flags are the truth of the fields. */
  lemma RequestDefaults(message: string, reply: Option<map<string, Json>>)
    ensures reply.None? ==> NormalisedRequest(message, reply) == Request("1d20", 0, false, false, "dice roll")
    ensures reply.Some? && "dice_notation" in reply.value && !reply.value["dice_notation"].JStr? ==>
      NormalisedRequest(message, reply) == Defaults
    ensures reply.Some? && "dice_notation" !in reply.value ==> NormalisedRequest(message, reply).notation == "1d20"
  {
    if reply.Some? && "dice_notation" !in reply.value {
      DefaultNotationHasNoPlaceholder();
    }
  }
}
