/**
 * A single bet: a two-digit number and the amount staked on it.
 *
 * bot.py carries bets between the parser and the ledger as text such as
 * "05-500" and splits that text again when it applies or undoes a message;
 * the history keeps the same bets as (number, amount) pairs. This module
 * shows that the text form is faithful, so the rest of the model can keep
 * the pair.
 */
module Bets {
  import opened Wrappers
  import opened Strings
  import opened TwoDigit

  datatype Bet = Bet(number: int, amount: int)

  /** A bet the parser can produce: a number 00..99 and a non-negative amount. */
  predicate WellFormed(b: Bet) {
    InRange(b.number) && b.amount >= 0
  }

  predicate AllWellFormed(bs: seq<Bet>) {
    forall j :: 0 <= j < |bs| ==> WellFormed(bs[j])
  }

  /** `f"{n:02d}"`: at least two characters, zeros after the sign. */
  function Pad2(n: int): (s: string)
    ensures 0 <= n ==> IsDigits(s)
    ensures InRange(n) ==> |s| == 2
  {
    if n >= 0 then ZFill2(Decimal(n)) else Str(n)
  }

  /** `f"{num:02d}-{amt}"` */
  function Format(b: Bet): string {
    Pad2(b.number) + "-" + Str(b.amount)
  }

  /** `num, amt = bet.split('-'); int(num), int(amt)`; `None` where Python
      would raise. */
  function ParseBetText(s: string): Option<Bet> {
    var parts := Split(s, '-');
    if |parts| != 2 then None
    else match (ParseInt(parts[0]), ParseInt(parts[1]))
      case (Some(n), Some(a)) => Some(Bet(n, a))
      case _ => None
  }

  lemma Pad2Value(n: int)
    requires 0 <= n
    ensures DecimalValue(Pad2(n)) == n
  {
    DecimalRoundTrip(n);
    if n < 10 {
      var c := CharOf(n);
      assert Decimal(n) == [c];
      assert Pad2(n) == ['0', c];
      assert Pad2(n)[..1] == ['0'];
    }
  }

  /** Reading the text of a parser's bet gives the bet back. */
  lemma BetTextRoundTrip(b: Bet)
    requires WellFormed(b)
    ensures ParseBetText(Format(b)) == Some(b)
  {
    var p, a := Pad2(b.number), Str(b.amount);
    assert '-' !in p;
    assert '-' !in a;
    assert Format(b) == p + ['-'] + a;
    SplitAtFirst(p, '-', a);
    SplitWithoutSeparator(a, '-');
    Pad2Value(b.number);
    ParseIntOfDigits(p);
    ParseIntOfStr(b.amount);
  }

  /** Two bets on numbers 00..99 with the same text are the same bet, whatever
      the sign of the amounts (the history holds negative amounts too). */
  lemma FormatInjective(b1: Bet, b2: Bet)
    requires InRange(b1.number) && InRange(b2.number)
    requires Format(b1) == Format(b2)
    ensures b1 == b2
  {
    var f := Format(b1);
    assert Pad2(b1.number) == f[..2] == Pad2(b2.number);
    Pad2Value(b1.number);
    Pad2Value(b2.number);
    assert Str(b1.amount) == f[3..] == Str(b2.amount);
    StrInjective(b1.amount, b2.amount);
  }

  /** Membership of a formatted pair in a list of parser bets is membership of the pair. */
  lemma FormatInAgrees(b: Bet, bs: seq<Bet>)
    requires InRange(b.number) && AllWellFormed(bs)
    ensures (exists j :: 0 <= j < |bs| && Format(bs[j]) == Format(b)) <==> b in bs
  {
    if exists j :: 0 <= j < |bs| && Format(bs[j]) == Format(b) {
      var j :| 0 <= j < |bs| && Format(bs[j]) == Format(b);
      FormatInjective(bs[j], b);
    }
  }

  /** The total of the amounts, added in order. */
  function SumAmounts(bs: seq<Bet>): int {
    if bs == [] then 0 else SumAmounts(bs[..|bs| - 1]) + bs[|bs| - 1].amount
  }

  /** The total staked on number `n`. */
  function AmountFor(bs: seq<Bet>, n: int): int {
    if bs == [] then 0
    else AmountFor(bs[..|bs| - 1], n) + (if bs[|bs| - 1].number == n then bs[|bs| - 1].amount else 0)
  }

  /** The same amount on each of the numbers, in order. */
  function StakeEach(ns: seq<int>, amt: int): (bs: seq<Bet>)
    ensures |bs| == |ns|
    ensures forall j :: 0 <= j < |ns| ==> bs[j] == Bet(ns[j], amt)
  {
    seq(|ns|, j requires 0 <= j < |ns| => Bet(ns[j], amt))
  }

  /** Staking each number at one amount: the bets are exactly those numbers
      at that amount, they add up to the amount times the count, and each
      number of a list without repeats receives the amount once. */
  lemma StakeEachMeaning(ns: seq<int>, amt: int)
    ensures SumAmounts(StakeEach(ns, amt)) == |ns| * amt
    ensures forall b :: b in StakeEach(ns, amt) <==> b.number in ns && b.amount == amt
    ensures Distinct(ns) ==> forall n :: AmountFor(StakeEach(ns, amt), n) == if n in ns then amt else 0
  {
    var bs := StakeEach(ns, amt);
    SumOfEqualAmounts(bs, amt);
    forall b: Bet | b.number in ns && b.amount == amt
      ensures b in bs
    {
      var j :| 0 <= j < |ns| && ns[j] == b.number;
      assert bs[j] == b;
    }
    if Distinct(ns) {
      forall n
        ensures AmountFor(bs, n) == if n in ns then amt else 0
      {
        StakeEachOnNumber(ns, amt, n);
      }
    }
  }

  lemma {:induction false} StakeEachOnNumber(ns: seq<int>, amt: int, n: int)
    requires Distinct(ns)
    ensures AmountFor(StakeEach(ns, amt), n) == if n in ns then amt else 0
    decreases |ns|
  {
    if ns != [] {
      var init, last := ns[..|ns| - 1], ns[|ns| - 1];
      var bs := StakeEach(ns, amt);
      assert bs[..|bs| - 1] == StakeEach(init, amt);
      assert Distinct(init);
      StakeEachOnNumber(init, amt, n);
      assert ns == init + [last];
      assert last !in init;
    }
  }

  /** Bets that all carry the same amount add up to that amount times their count. */
  lemma {:induction false} SumOfEqualAmounts(bs: seq<Bet>, amt: int)
    requires forall j :: 0 <= j < |bs| ==> bs[j].amount == amt
    ensures SumAmounts(bs) == |bs| * amt
    decreases |bs|
  {
    if bs != [] {
      SumOfEqualAmounts(bs[..|bs| - 1], amt);
    }
  }

  lemma SumAmountsOfTwo(b1: Bet, b2: Bet)
    ensures SumAmounts([b1, b2]) == b1.amount + b2.amount
  {
    assert [b1][..0] == [];
    assert SumAmounts([b1]) == b1.amount;
    assert [b1, b2][..1] == [b1];
  }

  lemma {:induction false} SumAmountsAppend(a: seq<Bet>, b: seq<Bet>)
    ensures SumAmounts(a + b) == SumAmounts(a) + SumAmounts(b)
    decreases |b|
  {
    if b != [] {
      assert (a + b)[..|a + b| - 1] == a + b[..|b| - 1];
      SumAmountsAppend(a, b[..|b| - 1]);
    } else {
      assert a + b == a;
    }
  }

  lemma {:induction false} AmountForAppend(a: seq<Bet>, b: seq<Bet>, n: int)
    ensures AmountFor(a + b, n) == AmountFor(a, n) + AmountFor(b, n)
    decreases |b|
  {
    if b != [] {
      assert (a + b)[..|a + b| - 1] == a + b[..|b| - 1];
      AmountForAppend(a, b[..|b| - 1], n);
    } else {
      assert a + b == a;
    }
  }

  /** Amounts on a number no bet names add up to nothing; with non-negative
      amounts, no number gets a negative total. */
  lemma {:induction false} AmountForBounds(bs: seq<Bet>, n: int)
    ensures (forall j :: 0 <= j < |bs| ==> bs[j].number != n) ==> AmountFor(bs, n) == 0
    ensures (forall j :: 0 <= j < |bs| ==> bs[j].amount >= 0) ==> AmountFor(bs, n) >= 0
    decreases |bs|
  {
    if bs != [] {
      AmountForBounds(bs[..|bs| - 1], n);
    }
  }
}
