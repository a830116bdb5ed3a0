/** Dice notation and dice rolling: `DiceRoll` and the static methods of
    `DiceRoller` in src/utils/dice.py. Randomness is a `FaceOracle` passed in,
    with a draw index `k` that each face consumes. */
module Dice {
  import opened Wrappers
  import opened PyText

  /** One `(quantity, dice_type)` pair of a parsed notation. */
  datatype Group = Group(count: int, sides: int)

  /** `DiceRoll`: the kind of die, each face rolled, and the sum of the faces. */
  datatype DiceRoll = DiceRoll(diceType: int, results: seq<int>, total: int)

  /** The exceptions that parsing and rolling raise. */
  datatype DiceError =
    | BadLiteral(literal: string)        // `int()` of a piece that is not a number
    | TooManyValues                      // a part holding more than one 'd'
    | EmptyRange(start: int, stop: int)  // `random.randint(1, t)` with `t < 1`

  /** `str(e)` of each exception. */
  function ErrorText(e: DiceError): string {
    match e
    case BadLiteral(t) => "invalid literal for int() with base 10: '" + t + "'"
    case TooManyValues => "too many values to unpack (expected 2)"
    case EmptyRange(a, b) => "empty range in randrange(" + IntText(a) + ", " + IntText(b) + ")"
  }

  /** `random.randint(1, t)` as an injected oracle: the `k`-th draw for a
      die with `t >= 1` sides lies in `[1, t]`. */
  type FaceOracle = f: (nat, int) -> int | forall k: nat, t: int :: 1 <= t ==> 1 <= f(k, t) <= t
    witness (k: nat, t: int) => 1

  function Sum(xs: seq<int>): int
    decreases |xs|
  {
    if xs == [] then 0 else Sum(xs[..|xs| - 1]) + xs[|xs| - 1]
  }

  lemma {:induction false} SumConcat(xs: seq<int>, ys: seq<int>)
    ensures Sum(xs + ys) == Sum(xs) + Sum(ys)
    decreases |ys|
  {
    if ys == [] {
      assert xs + ys == xs;
    } else {
      var zs := xs + ys;
      assert zs[..|zs| - 1] == xs + ys[..|ys| - 1];
      SumConcat(xs, ys[..|ys| - 1]);
    }
  }

  /** `n` faces, each in `[lo, hi]`, sum to something in `[n * lo, n * hi]`. */
  lemma {:induction false} SumBounds(xs: seq<int>, lo: int, hi: int)
    requires forall i :: 0 <= i < |xs| ==> lo <= xs[i] <= hi
    ensures |xs| * lo <= Sum(xs) <= |xs| * hi
    decreases |xs|
  {
    if xs != [] {
      SumBounds(xs[..|xs| - 1], lo, hi);
      assert |xs| * lo == (|xs| - 1) * lo + lo;
      assert |xs| * hi == (|xs| - 1) * hi + hi;
    }
  }

  // ------------------------------------------------------------- __str__

  /** `DiceRoll.__str__`: `"<len(results)>d<dice_type>: <results> = <total>"` */
  function RollText(r: DiceRoll): string {
    IntText(|r.results|) + "d" + IntText(r.diceType) + ": " + ListText(r.results) + " = " + IntText(r.total)
  }

  lemma NotInIntText(i: int, c: char)
    requires !IsDigit(c) && c != '-'
    ensures c !in IntText(i)
  {
  }

  lemma NotInListText(xs: seq<int>, c: char)
    requires !ListChar(c)
    ensures c !in ListText(xs)
  {
    ListTextChars(xs);
  }

  /** Where the separators of a roll's text fall, for any four pieces that
      do not hold them. */
  lemma RollTextShape(n: string, t: string, l: string, s: string)
    requires 'd' !in n && 'd' !in t && 'd' !in l && 'd' !in s
    requires ':' !in t
    requires '=' !in n && '=' !in t && '=' !in l && '=' !in s
    ensures Split(n + "d" + t + ": " + l + " = " + s, 'd') == [n, t + ": " + l + " = " + s]
    ensures Split(t + ": " + l + " = " + s, ':')[0] == t
    ensures Split(n + "d" + t + ": " + l + " = " + s, '=') == [n + "d" + t + ": " + l + " ", " " + s]
  {
    SplitAtD(n, t, l, s);
    SplitAtColon(t, l, s);
    SplitAtEquals(n, t, l, s);
  }

  lemma NotInConcat(c: char, a: string, b: string)
    requires c !in a && c !in b
    ensures c !in a + b
  {
  }

  lemma SpacedEquals(x: string, s: string)
    ensures x + " = " + s == (x + " ") + ['='] + (" " + s)
  {
  }

  lemma SplitAtD(n: string, t: string, l: string, s: string)
    requires 'd' !in n && 'd' !in t && 'd' !in l && 'd' !in s
    ensures Split(n + "d" + t + ": " + l + " = " + s, 'd') == [n, t + ": " + l + " = " + s]
  {
    var tail := t + ": " + l + " = " + s;
    assert n + "d" + t + ": " + l + " = " + s == n + ['d'] + tail;
    SplitTwo(n, 'd', tail);
  }

  lemma SplitAtColon(t: string, l: string, s: string)
    requires ':' !in t
    ensures Split(t + ": " + l + " = " + s, ':')[0] == t
  {
    assert t + ": " + l + " = " + s == t + [':'] + (" " + l + " = " + s);
    SplitAt(t, ':', " " + l + " = " + s);
    SplitAbsent(t, ':');
  }

  lemma SplitAtEquals(n: string, t: string, l: string, s: string)
    requires '=' !in n && '=' !in t && '=' !in l && '=' !in s
    ensures Split(n + "d" + t + ": " + l + " = " + s, '=') == [n + "d" + t + ": " + l + " ", " " + s]
  {
    var x := n + "d" + t + ": " + l;
    NotInConcat('=', n, "d");
    NotInConcat('=', n + "d", t);
    NotInConcat('=', n + "d" + t, ": ");
    NotInConcat('=', n + "d" + t + ": ", l);
    NotInConcat('=', x, " ");
    NotInConcat('=', " ", s);
    SpacedEquals(x, s);
    SplitTwo(x + " ", '=', " " + s);
  }

  /** The text of a roll reads back: the piece before the 'd' is the number of
      faces, the piece before the ':' the kind of die, the piece after the '='
      the total. */
  lemma RollTextReadBack(r: DiceRoll)
    ensures |Split(RollText(r), 'd')| == 2
    ensures ParseInt(Split(RollText(r), 'd')[0]) == Some(|r.results|)
    ensures ParseInt(Split(Split(RollText(r), 'd')[1], ':')[0]) == Some(r.diceType)
    ensures |Split(RollText(r), '=')| == 2
    ensures ParseInt(Split(RollText(r), '=')[1]) == Some(r.total)
  {
    var n, t, l, s := IntText(|r.results|), IntText(r.diceType), ListText(r.results), IntText(r.total);
    NotInIntText(|r.results|, 'd'); NotInIntText(r.diceType, 'd'); NotInIntText(r.total, 'd');
    NotInIntText(|r.results|, '='); NotInIntText(r.diceType, '='); NotInIntText(r.total, '=');
    NotInIntText(r.diceType, ':'); NotInListText(r.results, 'd'); NotInListText(r.results, '=');
    RollTextShape(n, t, l, s);
    ParseIntOfIntText(|r.results|);
    ParseIntOfIntText(r.diceType);
    ParseIntOfIntText(r.total);
    ParseIntOfPadded(' ', s, " " + s);
  }

  // ----------------------------------------------------- parse_dice_string

  /** The text `parse_dice_string` splits at '+': lower-cased, spaces removed. */
  function Normalize(s: string): string {
    RemoveChar(Lower(s), ' ')
  }

  /** One '+'-separated part holding a 'd': `quantity, dice_type = part.split("d")`,
      an empty quantity meaning 1. A literal longer than 4300 digits parses here,
      where Python's `int()` raises. */
  function ParsePart(part: string): Result<Group, DiceError> {
    var pieces := Split(part, 'd');
    if |pieces| != 2 then Failure(TooManyValues)
    else
      var quantity := if pieces[0] == "" then Some(1) else ParseInt(pieces[0]);
      var diceType := ParseInt(pieces[1]);
      if quantity.None? then Failure(BadLiteral(pieces[0]))
      else if diceType.None? then Failure(BadLiteral(pieces[1]))
      else Success(Group(quantity.value, diceType.value))
  }

  /** One turn of the loop: a part without a 'd' is skipped, an error stops
      everything. */
  function Step(acc: Result<seq<Group>, DiceError>, part: string): Result<seq<Group>, DiceError> {
    match acc
    case Failure(e) => Failure(e)
    case Success(gs) =>
      if 'd' !in part then Success(gs)
      else
        match ParsePart(part)
        case Failure(e) => Failure(e)
        case Success(g) => Success(gs + [g])
  }

  /** The groups of the parts, in order; the first part that fails decides
      the error. */
  function GroupsOf(parts: seq<string>): Result<seq<Group>, DiceError>
    decreases |parts|
  {
    if parts == [] then Success([])
    else Step(GroupsOf(parts[..|parts| - 1]), parts[|parts| - 1])
  }

  /** What `parse_dice_string(s)` returns or raises. */
  function DiceGroups(s: string): Result<seq<Group>, DiceError> {
    GroupsOf(Split(Normalize(s), '+'))
  }

  /** Once a prefix of the parts fails, the whole list fails with the same error. */
  lemma {:induction false} GroupsOfFailurePersists(parts: seq<string>, i: nat)
    requires i <= |parts|
    requires GroupsOf(parts[..i]).Failure?
    ensures GroupsOf(parts) == GroupsOf(parts[..i])
    decreases |parts| - i
  {
    if i < |parts| {
      assert parts[..i + 1][..i] == parts[..i];
      GroupsOfFailurePersists(parts, i + 1);
    } else {
      assert parts[..i] == parts;
    }
  }

  /** `DiceRoller.parse_dice_string`: the loop over the '+'-separated parts. */
  method ParseDiceString(s: string) returns (r: Result<seq<Group>, DiceError>)
    ensures r == DiceGroups(s)
  {
    var parts := Split(RemoveChar(Lower(s), ' '), '+');
    var result: seq<Group> := [];
    for i := 0 to |parts|
      invariant GroupsOf(parts[..i]) == Success(result)
    {
      var part := parts[i];
      assert parts[..i + 1][..i] == parts[..i];
      if 'd' in part {
        var g := ParsePart(part);
        if g.Failure? {
          GroupsOfFailurePersists(parts, i + 1);
          return Failure(g.error);
        }
        result := result + [g.value];
      }
    }
    assert parts[..|parts|] == parts;
    return Success(result);
  }

  /** How the groups of two lists of parts combine. */
  function Combine(a: Result<seq<Group>, DiceError>, b: Result<seq<Group>, DiceError>): Result<seq<Group>, DiceError> {
    match a
    case Failure(e) => Failure(e)
    case Success(ga) =>
      match b
      case Failure(e) => Failure(e)
      case Success(gb) => Success(ga + gb)
  }

  lemma CombineStep(a: Result<seq<Group>, DiceError>, b: Result<seq<Group>, DiceError>, part: string)
    ensures Combine(a, Step(b, part)) == Step(Combine(a, b), part)
  {
    if a.Success? && b.Success? && 'd' in part && ParsePart(part).Success? {
      assert a.value + (b.value + [ParsePart(part).value]) == (a.value + b.value) + [ParsePart(part).value];
    }
  }

  lemma {:induction false} GroupsOfConcat(p: seq<string>, q: seq<string>)
    ensures GroupsOf(p + q) == Combine(GroupsOf(p), GroupsOf(q))
    decreases |q|
  {
    if q == [] {
      assert p + q == p;
      if GroupsOf(p).Success? {
        assert GroupsOf(p).value + [] == GroupsOf(p).value;
      }
    } else {
      var pq := p + q;
      var front := q[..|q| - 1];
      assert pq[..|pq| - 1] == p + front;
      assert pq[|pq| - 1] == q[|q| - 1];
      GroupsOfConcat(p, front);
      CombineStep(GroupsOf(p), GroupsOf(front), q[|q| - 1]);
    }
  }

  lemma NormalizeConcat(a: string, b: string)
    ensures Normalize(a + b) == Normalize(a) + Normalize(b)
  {
    LowerConcat(a, b);
    RemoveCharConcat(Lower(a), Lower(b), ' ');
  }

  /** Parsing ignores case. */
  lemma DiceGroupsIgnoresCase(s: string)
    ensures DiceGroups(Upper(s)) == DiceGroups(s)
  {
    LowerOfUpper(s);
  }

  /** Parsing ignores spaces: inserting one anywhere changes nothing. */
  lemma DiceGroupsIgnoresSpaces(s: string, i: nat)
    requires i <= |s|
    ensures DiceGroups(s[..i] + " " + s[i..]) == DiceGroups(s)
  {
    NormalizeConcat(s[..i] + " ", s[i..]);
    NormalizeConcat(s[..i], " ");
    NormalizeConcat(s[..i], s[i..]);
    assert Normalize(" ") == "";
    assert Normalize(s[..i]) + Normalize(" ") == Normalize(s[..i]);
    assert s[..i] + s[i..] == s;
  }

  /** The groups of `a + "+" + b` are those of `a` followed by those of `b`:
      the output follows the order of the parts. */
  lemma DiceGroupsOfSum(a: string, b: string)
    ensures DiceGroups(a + "+" + b) == Combine(DiceGroups(a), DiceGroups(b))
  {
    NormalizeConcat(a + "+", b);
    NormalizeConcat(a, "+");
    assert Normalize("+") == "+";
    SplitAt(Normalize(a), '+', Normalize(b));
    GroupsOfConcat(Split(Normalize(a), '+'), Split(Normalize(b), '+'));
  }

  lemma {:induction false} GroupsOfWithoutD(parts: seq<string>)
    requires forall k :: 0 <= k < |parts| ==> 'd' !in parts[k]
    ensures GroupsOf(parts) == Success([])
    decreases |parts|
  {
    if parts != [] {
      GroupsOfWithoutD(parts[..|parts| - 1]);
    }
  }

  /** Normalising cannot create a character that was absent in both cases. */
  lemma NormalizeAbsent(s: string, c: char)
    requires !IsUpper(c) && c !in s && UpperChar(c) !in s
    ensures c !in Normalize(s)
  {
    LowerAbsent(s, c);
  }

  /** A part without a 'd' (such as the `3` of `2d6+3`) is dropped silently. */
  lemma DiceGroupsDropsConstants(a: string, b: string)
    requires 'd' !in b && 'D' !in b
    ensures DiceGroups(a + "+" + b) == DiceGroups(a)
  {
    DiceGroupsOfSum(a, b);
    assert UpperChar('d') == 'D';
    NormalizeAbsent(b, 'd');
    SplitKeepsAbsent(Normalize(b), '+', 'd');
    GroupsOfWithoutD(Split(Normalize(b), '+'));
    match DiceGroups(a) {
      case Failure(e) =>
      case Success(ga) => assert ga + [] == ga;
    }
  }

  lemma GroupsOfSingle(p: string)
    ensures GroupsOf([p]) == Step(Success([]), p)
  {
    var single: seq<string> := [p];
    assert single[..0] == [];
  }

  /** Text whose normal form has no '+' is a single part. */
  lemma DiceGroupsOfOnePart(s: string)
    requires '+' !in Normalize(s)
    ensures DiceGroups(s) == Step(Success([]), Normalize(s))
  {
    SplitAbsent(Normalize(s), '+');
    GroupsOfSingle(Normalize(s));
  }

  /** Text without upper-case letters or spaces is its own normal form. */
  lemma NormalizeClean(s: string)
    requires NoUpper(s) && ' ' !in s
    ensures Normalize(s) == s
  {
    LowerNoUpper(s);
    RemoveCharAbsent(s, ' ');
  }

  lemma ParsePartOfToken(count: string, sides: string)
    requires AllDigits(count) && |sides| > 0 && AllDigits(sides)
    ensures ParsePart(count + "d" + sides)
      == Success(Group(if count == "" then 1 else DecimalValue(count), DecimalValue(sides)))
  {
    assert count + "d" + sides == count + ['d'] + sides;
    assert 'd' !in count && 'd' !in sides;
    SplitTwo(count, 'd', sides);
    if count != "" {
      ParseIntOfDigits(count);
    }
    ParseIntOfDigits(sides);
  }

  /** One token `<count>d<sides>` of digits: one group, an empty count
      meaning one die. */
  lemma SingleToken(count: string, sides: string)
    requires AllDigits(count) && |sides| > 0 && AllDigits(sides)
    ensures DiceGroups(count + "d" + sides)
      == Success([Group(if count == "" then 1 else DecimalValue(count), DecimalValue(sides))])
  {
    var s := count + "d" + sides;
    assert NoUpper(s) && ' ' !in s && '+' !in s;
    NormalizeClean(s);
    DiceGroupsOfOnePart(s);
    assert s[|count|] == 'd';
    ParsePartOfToken(count, sides);
    var g := Group(if count == "" then 1 else DecimalValue(count), DecimalValue(sides));
    assert [] + [g] == [g];
  }

  /** Spaces around a part do not matter. */
  lemma DiceGroupsPadded(s: string)
    ensures DiceGroups(s + " ") == DiceGroups(s)
    ensures DiceGroups(" " + s) == DiceGroups(s)
  {
    NormalizeConcat(s, " ");
    NormalizeConcat(" ", s);
    assert Normalize(" ") == "";
    assert Normalize(s) + "" == Normalize(s) == "" + Normalize(s);
  }

  lemma SpacedPlus(x: string, y: string)
    ensures x + " + " + y == (x + " ") + "+" + (" " + y)
  {
  }

  /** Two tokens joined by a spaced '+' give their two groups, in order. */
  lemma TwoTokens(c1: string, s1: string, c2: string, s2: string)
    requires |c1| > 0 && AllDigits(c1) && |s1| > 0 && AllDigits(s1)
    requires |c2| > 0 && AllDigits(c2) && |s2| > 0 && AllDigits(s2)
    ensures DiceGroups((c1 + "d" + s1) + " + " + (c2 + "d" + s2))
      == Success([Group(DecimalValue(c1), DecimalValue(s1)), Group(DecimalValue(c2), DecimalValue(s2))])
  {
    var g1, g2 := Group(DecimalValue(c1), DecimalValue(s1)), Group(DecimalValue(c2), DecimalValue(s2));
    assert DiceGroups(c1 + "d" + s1) == Success([g1]) by {
      SingleToken(c1, s1);
    }
    assert DiceGroups(c2 + "d" + s2) == Success([g2]) by {
      SingleToken(c2, s2);
    }
    SpacedSum(c1 + "d" + s1, c2 + "d" + s2, g1, g2);
  }

  /** Two texts of one group each, joined by a spaced '+', give both groups in order. */
  lemma SpacedSum(first: string, second: string, g1: Group, g2: Group)
    requires DiceGroups(first) == Success([g1]) && DiceGroups(second) == Success([g2])
    ensures DiceGroups(first + " + " + second) == Success([g1, g2])
  {
    assert DiceGroups(first + " ") == Success([g1]) by {
      DiceGroupsPadded(first);
    }
    assert DiceGroups(" " + second) == Success([g2]) by {
      DiceGroupsPadded(second);
    }
    assert DiceGroups((first + " ") + "+" + (" " + second)) == Success([g1, g2]) by {
      DiceGroupsOfSum(first + " ", " " + second);
      assert [g1] + [g2] == [g1, g2];
    }
    SpacedPlus(first, second);
  }

  /** `parse_dice_string("2d6 + 1d8") == [(2, 6), (1, 8)]` */
  lemma ParseExample(text: string)
    requires text == "2d6 + 1d8"
    ensures DiceGroups(text) == Success([Group(2, 6), Group(1, 8)])
  {
    TwoTokens("2", "6", "1", "8");
    assert text == ("2" + "d" + "6") + " + " + ("1" + "d" + "8");
    assert DecimalValue("2") == 2 && DecimalValue("6") == 6;
    assert DecimalValue("1") == 1 && DecimalValue("8") == 8;
  }

  /** `parse_dice_string("d20") == [(1, 20)]`: an empty count means one die. */
  lemma ParseEmptyCountExample()
    ensures DiceGroups("d20") == Success([Group(1, 20)])
  {
    SingleToken("", "20");
    assert "" + "d" + "20" == "d20";
    assert DecimalValue("20") == 20 by {
      assert "20"[..1] == "2";
    }
  }

  /** A part with two 'd's raises, whatever surrounds them. */
  lemma DiceGroupsTwoDs(a: string, b: string, c: string)
    requires '+' !in a && '+' !in b && '+' !in c
    ensures DiceGroups(a + "d" + b + "d" + c) == Failure(TooManyValues)
  {
    var s := a + "d" + b + "d" + c;
    var n := Normalize(a) + "d" + Normalize(b) + "d" + Normalize(c);
    NormalizeTwoDs(a, b, c);
    assert '+' !in n by {
      NormalizeAbsent(a, '+');
      NormalizeAbsent(b, '+');
      NormalizeAbsent(c, '+');
      NotInConcat('+', Normalize(a), "d");
      NotInConcat('+', Normalize(a) + "d", Normalize(b));
      NotInConcat('+', Normalize(a) + "d" + Normalize(b), "d");
      NotInConcat('+', Normalize(a) + "d" + Normalize(b) + "d", Normalize(c));
    }
    DiceGroupsOfOnePart(s);
    SplitTwoDs(Normalize(a), Normalize(b), Normalize(c));
  }

  lemma NormalizeTwoDs(a: string, b: string, c: string)
    ensures Normalize(a + "d" + b + "d" + c) == Normalize(a) + "d" + Normalize(b) + "d" + Normalize(c)
  {
    NormalizeConcat(a + "d" + b + "d", c);
    NormalizeConcat(a + "d" + b, "d");
    NormalizeConcat(a + "d", b);
    NormalizeConcat(a, "d");
    assert Normalize("d") == "d";
  }

  lemma SplitTwoDs(x: string, y: string, z: string)
    ensures |Split(x + "d" + y + "d" + z, 'd')| >= 3
  {
    assert x + "d" + y + "d" + z == x + ['d'] + (y + ['d'] + z);
    SplitAt(x, 'd', y + ['d'] + z);
    SplitAt(y, 'd', z);
  }

  /** `parse_dice_string("2dx")` raises: `x` is not a number. */
  lemma ParseBadSidesExample(text: string)
    requires text == "2dx"
    ensures DiceGroups(text) == Failure(BadLiteral("x"))
  {
    assert NoUpper(text) && ' ' !in text && '+' !in text;
    NormalizeClean(text);
    DiceGroupsOfOnePart(text);
    assert text[1] == 'd';
    ParsePartBadSides(text);
  }

  lemma ParsePartBadSides(part: string)
    requires part == "2dx"
    ensures ParsePart(part) == Failure(BadLiteral("x"))
  {
    assert Split(part, 'd') == ["2", "x"] by {
      assert part == "2" + ['d'] + "x";
      SplitTwo("2", 'd', "x");
    }
    assert ParseInt("2").Some? by {
      ParseIntOfDigits("2");
    }
    assert ParseInt("x").None? by {
      assert Strip("x") == "x";
    }
  }

  // ---------------------------------------------------------------- rolling

  /** `len(range(q))` */
  function RangeLength(q: int): nat {
    if q > 0 then q else 0
  }

  /** The `n` faces drawn for a die with `t` sides, starting at draw `k`. */
  function Draws(faces: FaceOracle, k: nat, n: nat, t: int): (r: seq<int>)
    ensures |r| == n
    ensures 1 <= t ==> forall i :: 0 <= i < n ==> 1 <= r[i] <= t
  {
    seq(n, i requires 0 <= i < n => faces(k + i, t))
  }

  predicate Unrollable(g: Group) {
    g.count > 0 && g.sides < 1
  }

  /** `DiceRoller.roll_single_type(quantity, dice_type)` */
  function RollSingleType(quantity: int, diceType: int, faces: FaceOracle, k: nat): (r: Result<DiceRoll, DiceError>)
    ensures r.Failure? <==> Unrollable(Group(quantity, diceType))
    ensures r.Failure? ==> r.error == EmptyRange(1, diceType + 1)
    ensures r.Success? ==> r.value.diceType == diceType
    ensures r.Success? ==> r.value.results == Draws(faces, k, RangeLength(quantity), diceType)
    ensures r.Success? ==> r.value.total == Sum(r.value.results)
    ensures r.Success? ==> forall i :: 0 <= i < |r.value.results| ==> 1 <= r.value.results[i] <= diceType
  {
    if quantity > 0 && diceType < 1 then Failure(EmptyRange(1, diceType + 1))
    else
      var results := Draws(faces, k, RangeLength(quantity), diceType);
      Success(DiceRoll(diceType, results, Sum(results)))
  }

  /** Rolls made so far and the index of the next draw. */
  datatype Rolled = Rolled(rolls: seq<DiceRoll>, next: nat)

  /** How many faces rolling the groups draws. */
  function DrawCount(groups: seq<Group>): nat
    decreases |groups|
  {
    if groups == [] then 0 else RangeLength(groups[0].count) + DrawCount(groups[1..])
  }

  /** The `i`-th roll is a roll of the `i`-th group: same die, as many faces
      as the group's count, each on the die, summed in its total. */
  predicate RollMatches(roll: DiceRoll, g: Group) {
    && roll.diceType == g.sides
    && |roll.results| == RangeLength(g.count)
    && roll.total == Sum(roll.results)
    && forall i :: 0 <= i < |roll.results| ==> 1 <= roll.results[i] <= g.sides
  }

  predicate RollsMatch(rolls: seq<DiceRoll>, groups: seq<Group>) {
    |rolls| == |groups| && forall i :: 0 <= i < |groups| ==> RollMatches(rolls[i], groups[i])
  }

  /** The first group that cannot be rolled is at `i`. */
  predicate FirstUnrollable(groups: seq<Group>, i: nat) {
    i < |groups| && Unrollable(groups[i]) && forall j :: 0 <= j < i ==> !Unrollable(groups[j])
  }

  /** The list comprehension of `roll_multiple`, one `roll_single_type` per group. */
  function RollGroups(groups: seq<Group>, faces: FaceOracle, k: nat): (r: Result<Rolled, DiceError>)
    ensures r.Success? ==> RollsMatch(r.value.rolls, groups) && r.value.next == k + DrawCount(groups)
    ensures r.Failure? <==> exists i :: 0 <= i < |groups| && Unrollable(groups[i])
    ensures r.Failure? ==> exists i: nat :: FirstUnrollable(groups, i) && r.error == EmptyRange(1, groups[i].sides + 1)
    decreases |groups|
  {
    if groups == [] then Success(Rolled([], k))
    else
      match RollSingleType(groups[0].count, groups[0].sides, faces, k)
      case Failure(e) =>
        assert FirstUnrollable(groups, 0);
        Failure(e)
      case Success(roll) =>
        match RollGroups(groups[1..], faces, k + |roll.results|)
        case Failure(e) =>
          assert forall i :: 0 <= i < |groups| - 1 ==> groups[1..][i] == groups[i + 1];
          assert forall i: nat :: FirstUnrollable(groups[1..], i) ==> FirstUnrollable(groups, i + 1);
          Failure(e)
        case Success(rest) =>
          assert forall i :: 1 <= i < |groups| ==> groups[i] == groups[1..][i - 1];
          Success(Rolled([roll] + rest.rolls, rest.next))
  }

  /** `DiceRoller.roll_multiple(dice_str)`: one roll per parsed group, in order. */
  function RollMultiple(s: string, faces: FaceOracle, k: nat): (r: Result<Rolled, DiceError>)
    ensures DiceGroups(s).Failure? ==> r == Failure(DiceGroups(s).error)
    ensures DiceGroups(s).Success? ==> r.Success? ==> RollsMatch(r.value.rolls, DiceGroups(s).value)
    ensures DiceGroups(s).Success? ==> (r.Failure? <==> exists i :: 0 <= i < |DiceGroups(s).value| && Unrollable(DiceGroups(s).value[i]))
  {
    match DiceGroups(s)
    case Failure(e) => Failure(e)
    case Success(groups) => RollGroups(groups, faces, k)
  }

  /** `sum(roll.total for roll in rolls)` */
  function TotalOf(rolls: seq<DiceRoll>): int
    decreases |rolls|
  {
    if rolls == [] then 0 else TotalOf(rolls[..|rolls| - 1]) + rolls[|rolls| - 1].total
  }

  /** The fewest and the most pips the groups can show. */
  function MinTotal(groups: seq<Group>): int
    decreases |groups|
  {
    if groups == [] then 0 else MinTotal(groups[..|groups| - 1]) + RangeLength(groups[|groups| - 1].count)
  }

  function MaxTotal(groups: seq<Group>): int
    decreases |groups|
  {
    if groups == [] then 0
    else MaxTotal(groups[..|groups| - 1]) + RangeLength(groups[|groups| - 1].count) * groups[|groups| - 1].sides
  }

  /** Rolls that match their groups total between all ones and all highest
      faces; a group of no dice adds nothing to either bound. */
  lemma {:induction false} TotalBounds(rolls: seq<DiceRoll>, groups: seq<Group>)
    requires RollsMatch(rolls, groups)
    ensures MinTotal(groups) <= TotalOf(rolls) <= MaxTotal(groups)
    decreases |groups|
  {
    if groups != [] {
      var n := |groups| - 1;
      assert RollsMatch(rolls[..n], groups[..n]);
      TotalBounds(rolls[..n], groups[..n]);
      var last := rolls[n];
      SumBounds(last.results, 1, groups[n].sides);
    }
  }
}
