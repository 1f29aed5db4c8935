/**
 * The bet-text parser of `handle_message` (bot.py:119-296).
 *
 * The message is split into whitespace-separated tokens and scanned left to
 * right. At each position the rules below are tried in the source's order;
 * the first that recognises the token(s) adds its bets and says how many
 * tokens it used, and a token no rule recognises is dropped. One rule can
 * raise (a token such as "1-2-3r4"), which abandons the whole message.
 *
 * Each rule is a function of the token list and the position. Every number a
 * rule reads has passed `isdigit()`, so `int()` of it is its decimal value.
 */
module BetParser {
  import opened Wrappers
  import opened Strings
  import opened TwoDigit
  import opened Bets

  /** The stake of a bare number with no amount after it. */
  const DefaultAmount: int := 500

  /** What a rule makes of the tokens at a position: nothing, some bets
      (having used `consumed` tokens and added `added` to the running
      total), or a Python exception. */
  datatype Match = NoMatch | Matched(bets: seq<Bet>, consumed: nat, added: int) | Raise

  /** A rule's result is usable: it moves forward, stays inside the tokens,
      produces parser bets, and adds to the total exactly what its bets add up to. */
  predicate Fits(m: Match, t: seq<string>, i: nat) {
    m.Matched? ==>
      && 1 <= m.consumed && i + m.consumed <= |t|
      && AllWellFormed(m.bets)
      && m.added == SumAmounts(m.bets)
  }

  predicate NextIsAmount(t: seq<string>, i: nat) {
    i + 1 < |t| && IsDigits(t[i + 1])
  }

  /** Three numeric tokens `n1 n2 amt`: both numbers at that amount (bot.py:127-138). */
  function PairRule(t: seq<string>, i: nat): (m: Match)
    requires i < |t|
    ensures Fits(m, t, i)
  {
    if i + 2 < |t| && IsDigits(t[i]) && IsDigits(t[i + 1]) && IsDigits(t[i + 2]) then
      var n1, n2, amt := DecimalValue(t[i]), DecimalValue(t[i + 1]), DecimalValue(t[i + 2]);
      if InRange(n1) && InRange(n2) then
        SumAmountsOfTwo(Bet(n1, amt), Bet(n2, amt));
        Matched([Bet(n1, amt), Bet(n2, amt)], 3, amt * 2)
      else NoMatch
    else NoMatch
  }

  /** `[f"{int(p):02d}-{amt}" for p in parts if 0 <= int(p) <= 99]` */
  function InRangeBets(parts: seq<string>, amt: nat): (bs: seq<Bet>)
    requires forall j :: 0 <= j < |parts| ==> IsDigits(parts[j])
    ensures AllWellFormed(bs) && |bs| <= |parts|
    ensures forall j :: 0 <= j < |bs| ==> bs[j].amount == amt
  {
    if parts == [] then []
    else
      assert IsDigits(parts[0]);
      var n := DecimalValue(parts[0]);
      (if InRange(n) then [Bet(n, amt)] else []) + InRangeBets(parts[1..], amt)
  }

  /** "n1/n2/.../amt": each number in range at the last amount; numbers out
      of range are skipped, and the token is used even if none is left
      (bot.py:140-150). */
  function SlashRule(t: seq<string>, i: nat): (m: Match)
    requires i < |t|
    ensures Fits(m, t, i)
  {
    var entry := t[i];
    if '/' in entry then
      var parts := Split(entry, '/');
      if |parts| >= 3 && forall j :: 0 <= j < |parts| ==> IsDigits(parts[j]) then
        var amt := DecimalValue(parts[|parts| - 1]);
        var bs := InRangeBets(parts[..|parts| - 1], amt);
        SumOfEqualAmounts(bs, amt);
        Matched(bs, 1, |bs| * amt)
      else NoMatch
    else NoMatch
  }

  /** "n-amt" (bot.py:152-161). */
  function HyphenRule(t: seq<string>, i: nat): (m: Match)
    requires i < |t|
    ensures Fits(m, t, i)
  {
    var entry := t[i];
    if '-' in entry && 'r' !in entry then
      var parts := Split(entry, '-');
      if |parts| == 2 && IsDigits(parts[0]) && IsDigits(parts[1]) then
        var n, amt := DecimalValue(parts[0]), DecimalValue(parts[1]);
        if InRange(n) then Matched([Bet(n, amt)], 1, amt) else NoMatch
      else NoMatch
    else NoMatch
  }

  /** A number and its reverse, each at its own amount. */
  function WithReverse(n: nat, amt1: int, amt2: int): (bs: seq<Bet>)
    requires InRange(n) && amt1 >= 0 && amt2 >= 0
    ensures AllWellFormed(bs) && SumAmounts(bs) == amt1 + amt2
  {
    ReverseNumberSwapsDigits(n);
    SumAmountsOfTwo(Bet(n, amt1), Bet(ReverseNumber(n), amt2));
    [Bet(n, amt1), Bet(ReverseNumber(n), amt2)]
  }

  /** "nramt": the number and its reverse at the same amount (bot.py:163-174). */
  function ReverseRule(t: seq<string>, i: nat): (m: Match)
    requires i < |t|
    ensures Fits(m, t, i)
  {
    var entry := t[i];
    if 'r' in entry && '-' !in entry then
      var parts := Split(entry, 'r');
      if |parts| == 2 && IsDigits(parts[0]) && IsDigits(parts[1]) then
        var n, amt := DecimalValue(parts[0]), DecimalValue(parts[1]);
        if InRange(n) then Matched(WithReverse(n, amt, amt), 1, amt * 2) else NoMatch
      else NoMatch
    else NoMatch
  }

  /** "n-amt1ramt2": the number at the first amount, its reverse at the
      second (bot.py:176-190). The text before the first 'r' is unpacked
      into exactly two fields, so a second '-' there raises. */
  function HyphenReverseRule(t: seq<string>, i: nat): (m: Match)
    requires i < |t|
    ensures Fits(m, t, i)
  {
    var entry := t[i];
    if 'r' in entry && '-' in entry then
      var (main, rest) := SplitOnce(entry, 'r');
      if '-' in main then
        var parts := Split(main, '-');
        if |parts| != 2 then Raise
        else if IsDigits(parts[0]) && IsDigits(parts[1]) && IsDigits(rest) then
          var n, amt1, amt2 := DecimalValue(parts[0]), DecimalValue(parts[1]), DecimalValue(rest);
          if InRange(n) then Matched(WithReverse(n, amt1, amt2), 1, amt1 + amt2) else NoMatch
        else NoMatch
      else NoMatch
    else NoMatch
  }

  /** "n amt1ramt2" over two tokens (bot.py:192-206). */
  function SplitReverseRule(t: seq<string>, i: nat): (m: Match)
    requires i < |t|
    ensures Fits(m, t, i)
  {
    if IsDigits(t[i]) && i + 1 < |t| && 'r' in t[i + 1] && Count(t[i + 1], 'r') == 1 then
      var parts := Split(t[i + 1], 'r');
      if IsDigits(parts[0]) && IsDigits(parts[1]) then
        var n, amt1, amt2 := DecimalValue(t[i]), DecimalValue(parts[0]), DecimalValue(parts[1]);
        if InRange(n) then Matched(WithReverse(n, amt1, amt2), 2, amt1 + amt2) else NoMatch
      else NoMatch
    else NoMatch
  }

  /** The digits left of a combo token once both markers are removed. */
  function ComboBase(entry: string): string {
    RemoveAll(RemoveAll(entry, ComboMarker), DoublesPrefix)
  }

  /** "digits" + combo marker, then an amount: every digit pair, with the
      doubles when the doubles marker is present (bot.py:208-232). */
  function ComboRule(t: seq<string>, i: nat): (m: Match)
    requires i < |t|
    ensures Fits(m, t, i)
  {
    var entry := t[i];
    if Contains(entry, ComboMarker) || Contains(entry, ComboDoublesMarker) then
      var base := ComboBase(entry);
      if IsDigits(base) && |base| >= 2 && NextIsAmount(t, i) then
        var doubles := Contains(entry, ComboDoublesMarker);
        var ns := ComboNumbers(DigitsOf(base), doubles);
        var amt := DecimalValue(t[i + 1]);
        ComboNumbersMeaning(DigitsOf(base), doubles);
        SumOfEqualAmounts(StakeEach(ns, amt), amt);
        Matched(StakeEach(ns, amt), 2, |ns| * amt)
      else NoMatch
    else NoMatch
  }

  /** One of the five table names, then an amount (bot.py:234-249). */
  function FixedRule(t: seq<string>, i: nat): (m: Match)
    requires i < |t|
    ensures Fits(m, t, i)
  {
    match FixedTable(t[i])
    case Some(ns) =>
      if NextIsAmount(t, i) then
        var amt := DecimalValue(t[i + 1]);
        SumOfEqualAmounts(StakeEach(ns, amt), amt);
        Matched(StakeEach(ns, amt), 2, |ns| * amt)
      else NoMatch
    case None => NoMatch
  }

  /** "digit" + category suffix, then an amount (bot.py:251-280). */
  function CategoryRule(t: seq<string>, i: nat): (m: Match)
    requires i < |t|
    ensures Fits(m, t, i)
  {
    match CategoryOf(t[i], 0)
    case Some((c, d)) =>
      if NextIsAmount(t, i) then
        var ns := CategoryNumbers(c, d);
        var amt := DecimalValue(t[i + 1]);
        CategoryNumbersMeaning(c, d);
        SumOfEqualAmounts(StakeEach(ns, amt), amt);
        Matched(StakeEach(ns, amt), 2, |ns| * amt)
      else NoMatch
    case None => NoMatch
  }

  /** A bare number: at the next token's amount if that is numeric, else at
      the default amount (bot.py:282-294). */
  function BareRule(t: seq<string>, i: nat): (m: Match)
    requires i < |t|
    ensures Fits(m, t, i)
  {
    if IsDigits(t[i]) && InRange(DecimalValue(t[i])) then
      var n := DecimalValue(t[i]);
      if NextIsAmount(t, i) then
        var amt := DecimalValue(t[i + 1]);
        Matched([Bet(n, amt)], 2, amt)
      else Matched([Bet(n, DefaultAmount)], 1, DefaultAmount)
    else NoMatch
  }

  /** The rules in the order the loop body tries them (bot.py:127-294). */
  function RuleAt(k: nat, t: seq<string>, i: nat): (m: Match)
    requires k < 10 && i < |t|
    ensures Fits(m, t, i)
  {
    match k
    case 0 => PairRule(t, i)
    case 1 => SlashRule(t, i)
    case 2 => HyphenRule(t, i)
    case 3 => ReverseRule(t, i)
    case 4 => HyphenReverseRule(t, i)
    case 5 => SplitReverseRule(t, i)
    case 6 => ComboRule(t, i)
    case 7 => FixedRule(t, i)
    case 8 => CategoryRule(t, i)
    case _ => BareRule(t, i)
  }

  /** The rules from the `k`-th on: the first that recognises the tokens
      decides, and a token none recognises is dropped (bot.py:296). */
  function Try(k: nat, t: seq<string>, i: nat): (m: Match)
    requires k <= 10 && i < |t|
    ensures m != NoMatch && Fits(m, t, i)
    decreases 10 - k
  {
    if k == 10 then Matched([], 1, 0)
    else
      var m := RuleAt(k, t, i);
      if m != NoMatch then m else Try(k + 1, t, i)
  }

  /** One pass of the loop body. */
  function Step(t: seq<string>, i: nat): (m: Match)
    requires i < |t|
    ensures m != NoMatch && Fits(m, t, i)
  {
    Try(0, t, i)
  }

  /** `Some(bs + rest)` when parsing the rest succeeded. */
  function Prepend(bs: seq<Bet>, rest: Option<seq<Bet>>): Option<seq<Bet>> {
    match rest
    case Some(r) => Some(bs + r)
    case None => None
  }

  /** The bets of the tokens from position `i` on, or `None` when a rule raises. */
  function ParseFrom(t: seq<string>, i: nat): (r: Option<seq<Bet>>)
    ensures r.Some? ==> AllWellFormed(r.value)
    decreases |t| - i
  {
    if i >= |t| then Some([])
    else
      var m := Step(t, i);
      if m.Raise? then None else Prepend(m.bets, ParseFrom(t, i + m.consumed))
  }

  /** The bets of a whole message. */
  function Parse(text: string): Option<seq<Bet>> {
    ParseFrom(Words(text), 0)
  }

  lemma PrependPrepend(a: seq<Bet>, b: seq<Bet>, rest: Option<seq<Bet>>)
    ensures Prepend(a, Prepend(b, rest)) == Prepend(a + b, rest)
  {
    match rest {
      case Some(r) => assert a + (b + r) == (a + b) + r;
      case None =>
    }
  }

  lemma ParseFromUnfold(t: seq<string>, i: nat)
    requires i < |t|
    ensures var m := Step(t, i);
      ParseFrom(t, i) == if m.Raise? then None else Prepend(m.bets, ParseFrom(t, i + m.consumed))
  {
  }

  /** One pass of the scanning loop (bot.py:120-296): the step's bets join
      the bets so far and the position moves past the tokens it used, or
      the step raises and the parse of the rest fails. */
  method Advance(t: seq<string>, i: nat, bets: seq<Bet>, total: int)
    returns (raised: bool, i': nat, bets': seq<Bet>, total': int)
    requires i < |t| && total == SumAmounts(bets)
    ensures raised ==> ParseFrom(t, i) == None
    ensures !raised ==> i < i' <= |t| && total' == SumAmounts(bets')
    ensures !raised ==> Prepend(bets, ParseFrom(t, i)) == Prepend(bets', ParseFrom(t, i'))
  {
    var m := Step(t, i);
    ParseFromUnfold(t, i);
    if m.Raise? {
      return true, i, bets, total;
    }
    var rest := ParseFrom(t, i + m.consumed);
    assert ParseFrom(t, i) == Prepend(m.bets, rest);
    SumAmountsAppend(bets, m.bets);
    PrependPrepend(bets, m.bets, rest);
    return false, i + m.consumed, bets + m.bets, total + m.added;
  }

  /** The scanning loop of bot.py:119-296: the bets and the running total,
      or `raised` when the message is abandoned. */
  method ParseTokens(t: seq<string>) returns (raised: bool, bets: seq<Bet>, total: int)
    ensures raised <==> ParseFrom(t, 0).None?
    ensures !raised ==> ParseFrom(t, 0) == Some(bets) && total == SumAmounts(bets)
  {
    bets, total := [], 0;
    var i := 0;
    assert Prepend([], ParseFrom(t, 0)) == ParseFrom(t, 0) by {
      match ParseFrom(t, 0) {
        case Some(r) => assert [] + r == r;
        case None =>
      }
    }
    while i < |t|
      invariant i <= |t|
      invariant ParseFrom(t, 0) == Prepend(bets, ParseFrom(t, i))
      invariant total == SumAmounts(bets)
      decreases |t| - i
    {
      var stop;
      stop, i, bets, total := Advance(t, i, bets, total);
      if stop {
        return true, bets, total;
      }
    }
    assert bets + [] == bets;
    return false, bets, total;
  }
}
