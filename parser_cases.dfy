/**
 * What each rule of the parser does with the token shapes it is written
 * for, which rule wins where two could apply, and when a message is
 * abandoned; then the message forms bot.py's help text uses.
 */
module ParserCases {
  import opened Wrappers
  import opened Strings
  import opened TwoDigit
  import opened Bets
  import opened BetParser

  /** Made of ASCII digits and the separators '/', '-' and 'r' only. */
  predicate Plain(s: string) {
    forall k :: 0 <= k < |s| ==> IsAsciiDigit(s[k]) || s[k] == '/' || s[k] == '-' || s[k] == 'r'
  }

  /** A character the combo markers hold and plain text never does. */
  const MarkerChar: char := '\U{00BD}'

  lemma MarkerCharInMarkers()
    ensures ComboMarker[7] == MarkerChar && ComboDoublesMarker[25] == MarkerChar
    ensures MarkerChar !in ComboMarker[..7]
  {
  }

  /** A plain token holds no keyword, so the combo, table and category rules
      leave it alone. */
  lemma PlainTokenHasNoKeyword(t: seq<string>, i: nat)
    requires i < |t| && Plain(t[i])
    ensures ComboRule(t, i) == NoMatch && FixedRule(t, i) == NoMatch && CategoryRule(t, i) == NoMatch
  {
    var e := t[i];
    MarkerCharInMarkers();
    if Contains(e, ComboMarker) {
      ContainsChar(e, ComboMarker, 7);
    }
    if Contains(e, ComboDoublesMarker) {
      ContainsChar(e, ComboDoublesMarker, 25);
    }
    if e != [] {
      assert Plain(e) ==> e[0] != '\U{00E1}';
    }
    PlainTokenHasNoCategory(e, 0);
  }

  lemma {:induction false} PlainTokenHasNoCategory(e: string, from: nat)
    requires from <= |Suffixes| && Plain(e)
    ensures CategoryOf(e, from) == None
    decreases |Suffixes| - from
  {
    if from < |Suffixes| {
      var suffix := Suffixes[from].0;
      assert suffix[0] == '\U{00E1}';
      if |suffix| <= |e| {
        assert e[|e| - |suffix|..][0] == e[|e| - |suffix|];
      }
      PlainTokenHasNoCategory(e, from + 1);
    }
  }

  lemma NotDigitsAt(s: string, k: nat)
    requires k < |s| && !IsAsciiDigit(s[k])
    ensures !IsDigits(s)
  {
  }

  /** The first rule that recognises the tokens decides the step. */
  lemma FirstRule(t: seq<string>, i: nat, k: nat)
    requires k < 10 && i < |t|
    requires forall j :: 0 <= j < k ==> RuleAt(j, t, i) == NoMatch
    requires RuleAt(k, t, i) != NoMatch
    ensures Step(t, i) == RuleAt(k, t, i)
  {
    TrySkips(t, i, 0, k);
  }

  lemma {:induction false} TrySkips(t: seq<string>, i: nat, j: nat, k: nat)
    requires j <= k < 10 && i < |t|
    requires forall l :: j <= l < k ==> RuleAt(l, t, i) == NoMatch
    requires RuleAt(k, t, i) != NoMatch
    ensures Try(j, t, i) == RuleAt(k, t, i)
    decreases k - j
  {
    if j < k {
      TrySkips(t, i, j + 1, k);
    }
  }

  /** A token with none of the separators '/', '-' and 'r' that is not a
      plain number: the first six rules leave it alone. */
  lemma SeparatorRulesSkip(t: seq<string>, i: nat)
    requires i < |t| && '/' !in t[i] && '-' !in t[i] && 'r' !in t[i] && !IsDigits(t[i])
    ensures PairRule(t, i) == NoMatch && SlashRule(t, i) == NoMatch && HyphenRule(t, i) == NoMatch
    ensures ReverseRule(t, i) == NoMatch && HyphenReverseRule(t, i) == NoMatch && SplitReverseRule(t, i) == NoMatch
  {
  }

  lemma DigitsHaveNoSeparator(s: string)
    requires AllDigits(s)
    ensures '/' !in s && '-' !in s && 'r' !in s && MarkerChar !in s && '\U{00E1}' !in s
  {
  }

  /** Three numbers, the first two in 00..99: both at the third as amount.
      This rule is tried first, so "12 13 500" is not read as "12" at 13. */
  lemma PairCase(t: seq<string>, i: nat)
    requires i + 2 < |t| && IsDigits(t[i]) && IsDigits(t[i + 1]) && IsDigits(t[i + 2])
    requires InRange(DecimalValue(t[i])) && InRange(DecimalValue(t[i + 1]))
    ensures var amt := DecimalValue(t[i + 2]);
      Step(t, i) == Matched([Bet(DecimalValue(t[i]), amt), Bet(DecimalValue(t[i + 1]), amt)], 3, 2 * amt)
  {
  }

  /** "n1/.../nk/amt" with at least two numbers: those in 00..99, in order,
      at the last amount; out-of-range numbers are skipped. */
  lemma SlashCase(t: seq<string>, i: nat, parts: seq<string>)
    requires |parts| >= 3 && i < |t| && t[i] == Join(parts, '/')
    requires forall j :: 0 <= j < |parts| ==> IsDigits(parts[j])
    ensures IsDigits(parts[|parts| - 1])
    ensures var bs := InRangeBets(parts[..|parts| - 1], DecimalValue(parts[|parts| - 1]));
      Step(t, i) == Matched(bs, 1, |bs| * DecimalValue(parts[|parts| - 1]))
  {
    SlashRules(t, i, parts);
    FirstRule(t, i, 1);
  }

  lemma SlashRules(t: seq<string>, i: nat, parts: seq<string>)
    requires |parts| >= 3 && i < |t| && t[i] == Join(parts, '/')
    requires forall j :: 0 <= j < |parts| ==> IsDigits(parts[j])
    ensures IsDigits(parts[|parts| - 1])
    ensures var amt := DecimalValue(parts[|parts| - 1]);
      var bs := InRangeBets(parts[..|parts| - 1], amt);
      RuleAt(0, t, i) == NoMatch && RuleAt(1, t, i) == Matched(bs, 1, |bs| * amt)
  {
    assert t[i] == parts[0] + ['/'] + Join(parts[1..], '/');
    NotDigitsAt(t[i], |parts[0]|);
    assert forall j :: 0 <= j < |parts| ==> '/' !in parts[j];
    SplitJoin(parts, '/');
  }

  /** The numbers "n1/.../nk/amt" bets on are exactly those of n1..nk in 00..99. */
  lemma {:induction false} InRangeBetsMeaning(parts: seq<string>, amt: nat, b: Bet)
    requires forall j :: 0 <= j < |parts| ==> IsDigits(parts[j])
    ensures b in InRangeBets(parts, amt) <==>
      b.amount == amt && InRange(b.number) && exists j :: 0 <= j < |parts| && DecimalValue(parts[j]) == b.number
    decreases |parts|
  {
    if parts != [] {
      assert IsDigits(parts[0]);
      InRangeBetsMeaning(parts[1..], amt, b);
      if exists j :: 0 <= j < |parts| && DecimalValue(parts[j]) == b.number {
        var j :| 0 <= j < |parts| && DecimalValue(parts[j]) == b.number;
        if j > 0 {
          assert parts[1..][j - 1] == parts[j];
        }
      }
      if exists j :: 0 <= j < |parts| - 1 && DecimalValue(parts[1..][j]) == b.number {
        var j :| 0 <= j < |parts| - 1 && DecimalValue(parts[1..][j]) == b.number;
        assert parts[j + 1] == parts[1..][j];
      }
    }
  }

  /** "n-amt": the number at that amount. */
  lemma HyphenCase(t: seq<string>, i: nat, p: string, q: string)
    requires i < |t| && t[i] == p + "-" + q && IsDigits(p) && IsDigits(q) && InRange(DecimalValue(p))
    ensures Step(t, i) == Matched([Bet(DecimalValue(p), DecimalValue(q))], 1, DecimalValue(q))
  {
    assert PairRule(t, i) == NoMatch by {
      NotDigitsAt(t[i], |p|);
    }
    assert SlashRule(t, i) == NoMatch by {
      DigitsHaveNoSeparator(p);
      DigitsHaveNoSeparator(q);
    }
    assert HyphenRule(t, i) == Matched([Bet(DecimalValue(p), DecimalValue(q))], 1, DecimalValue(q)) by {
      DigitsHaveNoSeparator(p);
      DigitsHaveNoSeparator(q);
      assert t[i] == Join([p, q], '-');
      SplitJoin([p, q], '-');
    }
  }

  /** "nramt": the number and its reverse at that amount. */
  lemma ReverseCase(t: seq<string>, i: nat, p: string, q: string)
    requires i < |t| && t[i] == p + "r" + q && IsDigits(p) && IsDigits(q) && InRange(DecimalValue(p))
    ensures var n, amt := DecimalValue(p), DecimalValue(q);
      Step(t, i) == Matched([Bet(n, amt), Bet(ReverseNumber(n), amt)], 1, 2 * amt)
  {
    ReverseSkips(t, i, p, q);
    ReverseRuleValue(t, i, p, q);
    assert RuleAt(3, t, i) == ReverseRule(t, i);
    FirstRule(t, i, 3);
  }

  lemma ReverseSkips(t: seq<string>, i: nat, p: string, q: string)
    requires i < |t| && t[i] == p + "r" + q && IsDigits(p) && IsDigits(q)
    ensures forall j :: 0 <= j < 3 ==> RuleAt(j, t, i) == NoMatch
  {
    DigitsHaveNoSeparator(p);
    DigitsHaveNoSeparator(q);
    NotDigitsAt(t[i], |p|);
    assert '/' !in t[i] && '-' !in t[i];
  }

  lemma ReverseRuleValue(t: seq<string>, i: nat, p: string, q: string)
    requires i < |t| && t[i] == p + "r" + q && IsDigits(p) && IsDigits(q) && InRange(DecimalValue(p))
    ensures var n, amt := DecimalValue(p), DecimalValue(q);
      ReverseRule(t, i) == Matched(WithReverse(n, amt, amt), 1, amt * 2)
  {
    DigitsHaveNoSeparator(p);
    DigitsHaveNoSeparator(q);
    assert t[i] == Join([p, q], 'r');
    SplitJoin([p, q], 'r');
  }

  /** "n-amt1ramt2": the number at the first amount, its reverse at the second. */
  lemma HyphenReverseCase(t: seq<string>, i: nat, p: string, q: string, s: string)
    requires i < |t| && t[i] == p + "-" + q + "r" + s
    requires IsDigits(p) && IsDigits(q) && IsDigits(s) && InRange(DecimalValue(p))
    ensures var n := DecimalValue(p);
      Step(t, i) == Matched([Bet(n, DecimalValue(q)), Bet(ReverseNumber(n), DecimalValue(s))], 1,
                            DecimalValue(q) + DecimalValue(s))
  {
    HyphenReverseSkips(t, i, p, q, s);
    HyphenReverseSplits(t, i, p, q, s);
    HyphenReverseRules(t, i, p + "-" + q, p, q, s);
    FirstRule(t, i, 4);
  }

  lemma HyphenReverseRules(t: seq<string>, i: nat, main: string, p: string, q: string, s: string)
    requires i < |t| && 'r' in t[i] && '-' in t[i] && SplitOnce(t[i], 'r') == (main, s)
    requires '-' in main && Split(main, '-') == [p, q]
    requires IsDigits(p) && IsDigits(q) && IsDigits(s) && InRange(DecimalValue(p))
    ensures var n, amt1, amt2 := DecimalValue(p), DecimalValue(q), DecimalValue(s);
      HyphenReverseRule(t, i) == Matched(WithReverse(n, amt1, amt2), 1, amt1 + amt2)
  {
  }

  /** Splitting "p-qrs" at the first 'r', then "p-q" at '-'. */
  lemma HyphenReverseSplits(t: seq<string>, i: nat, p: string, q: string, s: string)
    requires i < |t| && t[i] == p + "-" + q + "r" + s
    requires IsDigits(p) && IsDigits(q) && IsDigits(s)
    ensures 'r' in t[i] && '-' in t[i] && SplitOnce(t[i], 'r') == (p + "-" + q, s)
    ensures '-' in p + "-" + q && Split(p + "-" + q, '-') == [p, q]
  {
    var main := p + "-" + q;
    DigitsHaveNoSeparator(p);
    DigitsHaveNoSeparator(q);
    assert t[i] == main + ['r'] + s;
    SplitOnceAt(main, 'r', s);
    assert main == Join([p, q], '-');
    SplitJoin([p, q], '-');
  }

  lemma HyphenReverseSkips(t: seq<string>, i: nat, p: string, q: string, s: string)
    requires i < |t| && t[i] == p + "-" + q + "r" + s
    requires IsDigits(p) && IsDigits(q) && IsDigits(s)
    ensures forall j :: 0 <= j < 4 ==> RuleAt(j, t, i) == NoMatch
  {
    DigitsHaveNoSeparator(p);
    DigitsHaveNoSeparator(q);
    DigitsHaveNoSeparator(s);
    NotDigitsAt(t[i], |p|);
    assert t[i][|p|] == '-' && t[i][|p| + 1 + |q|] == 'r';
    assert '/' !in t[i];
  }

  /** "n amt1ramt2" over two tokens: the same bets as "n-amt1ramt2". */
  lemma SplitReverseCase(t: seq<string>, i: nat, q: string, s: string)
    requires i + 1 < |t| && IsDigits(t[i]) && InRange(DecimalValue(t[i]))
    requires t[i + 1] == q + "r" + s && IsDigits(q) && IsDigits(s)
    ensures var n := DecimalValue(t[i]);
      Step(t, i) == Matched([Bet(n, DecimalValue(q)), Bet(ReverseNumber(n), DecimalValue(s))], 2,
                            DecimalValue(q) + DecimalValue(s))
  {
    SplitReverseSkips(t, i, q, s);
    SplitReverseRuleValue(t, i, q, s);
    assert RuleAt(5, t, i) == SplitReverseRule(t, i);
    FirstRule(t, i, 5);
  }

  lemma SplitReverseSkips(t: seq<string>, i: nat, q: string, s: string)
    requires i + 1 < |t| && IsDigits(t[i])
    requires t[i + 1] == q + "r" + s && IsDigits(q) && IsDigits(s)
    ensures forall j :: 0 <= j < 5 ==> RuleAt(j, t, i) == NoMatch
  {
    DigitsHaveNoSeparator(t[i]);
    DigitsHaveNoSeparator(q);
    DigitsHaveNoSeparator(s);
    NotDigitsAt(t[i + 1], |q|);
    assert PairRule(t, i) == NoMatch;
    assert SlashRule(t, i) == NoMatch && HyphenRule(t, i) == NoMatch && ReverseRule(t, i) == NoMatch;
    assert HyphenReverseRule(t, i) == NoMatch;
  }

  lemma SplitReverseRuleValue(t: seq<string>, i: nat, q: string, s: string)
    requires i + 1 < |t| && IsDigits(t[i]) && InRange(DecimalValue(t[i]))
    requires t[i + 1] == q + "r" + s && IsDigits(q) && IsDigits(s)
    ensures var n, amt1, amt2 := DecimalValue(t[i]), DecimalValue(q), DecimalValue(s);
      SplitReverseRule(t, i) == Matched(WithReverse(n, amt1, amt2), 2, amt1 + amt2)
  {
    DigitsHaveNoSeparator(q);
    DigitsHaveNoSeparator(s);
    assert t[i + 1] == Join([q, s], 'r');
    SplitJoin([q, s], 'r');
    assert Split(t[i + 1], 'r') == [q, s];
    assert Count(t[i + 1], 'r') == 1 && t[i + 1][|q|] == 'r';
  }

  /** A token whose text before the first 'r' holds two or more '-' makes
      Python raise, and the message is abandoned whatever else it holds. */
  lemma RaiseCase(t: seq<string>, i: nat, main: string, s: string)
    requires i < |t| && t[i] == main + "r" + s && '/' !in t[i]
    requires 'r' !in main && Count(main, '-') >= 2
    ensures Step(t, i) == Raise && ParseFrom(t, i) == None
  {
    assert t[i] == main + ['r'] + s;
    assert '-' in main by {
      CountZero(main, '-');
    }
    assert PairRule(t, i) == NoMatch by {
      NotDigitsAt(t[i], |main|);
    }
    assert SlashRule(t, i) == NoMatch && HyphenRule(t, i) == NoMatch && ReverseRule(t, i) == NoMatch;
    assert HyphenReverseRule(t, i) == Raise by {
      SplitOnceAt(main, 'r', s);
    }
    ParseFromUnfold(t, i);
  }

  /** A number in 00..99 with no amount after it (and no "amt1ramt2" token
      after it) is staked at the default 500. */
  lemma BareCase(t: seq<string>, i: nat)
    requires i < |t| && IsDigits(t[i]) && InRange(DecimalValue(t[i]))
    requires !NextIsAmount(t, i) && (i + 1 < |t| ==> 'r' !in t[i + 1])
    ensures Step(t, i) == Matched([Bet(DecimalValue(t[i]), DefaultAmount)], 1, DefaultAmount)
  {
    DigitsHaveNoSeparator(t[i]);
    PlainTokenHasNoKeyword(t, i);
  }

  /** A number in 00..99 followed by an amount, where the pair rule does not
      apply, is staked at that amount. */
  lemma BareWithAmountCase(t: seq<string>, i: nat)
    requires i < |t| && IsDigits(t[i]) && InRange(DecimalValue(t[i])) && NextIsAmount(t, i)
    requires !(i + 2 < |t| && IsDigits(t[i + 2]) && InRange(DecimalValue(t[i + 1])))
    ensures Step(t, i) == Matched([Bet(DecimalValue(t[i]), DecimalValue(t[i + 1]))], 2, DecimalValue(t[i + 1]))
  {
    DigitsHaveNoSeparator(t[i]);
    DigitsHaveNoSeparator(t[i + 1]);
    PlainTokenHasNoKeyword(t, i);
  }

  /** Digits then the combo marker leave the digits once the markers are removed. */
  lemma ComboBaseOfMarker(base: string)
    requires IsDigits(base)
    ensures ComboBase(base + ComboMarker) == base
    ensures !Contains(base + ComboMarker, ComboDoublesMarker)
  {
    RemoveAllAfterDigits(base, ComboMarker, ComboMarker);
    RemoveAllSelf(ComboMarker);
    assert base + [] == base;
    if Contains(base, DoublesPrefix) {
      ContainsChar(base, DoublesPrefix, 0);
    }
    RemoveAllAbsent(base, DoublesPrefix);
    assert ComboDoublesMarker[8] == '\U{00B0}' && '\U{00B0}' !in ComboMarker;
    assert '\U{00B0}' !in base;
    assert '\U{00B0}' !in base + ComboMarker;
    if Contains(base + ComboMarker, ComboDoublesMarker) {
      ContainsChar(base + ComboMarker, ComboDoublesMarker, 8);
    }
  }

  /** Digits then the combo-and-doubles marker leave the digits too. */
  lemma ComboBaseOfDoublesMarker(base: string)
    requires IsDigits(base)
    ensures ComboBase(base + ComboDoublesMarker) == base
  {
    ComboDoublesMarkerSpelling();
    assert base + ComboDoublesMarker == base + (DoublesPrefix + ComboMarker);
    ComboMarkerRemoved(base);
    DoublesPrefixRemoved(base);
  }

  lemma ComboMarkerRemoved(base: string)
    requires IsDigits(base)
    ensures RemoveAll(base + (DoublesPrefix + ComboMarker), ComboMarker) == base + DoublesPrefix
  {
    RemoveAllAfterDigits(base, DoublesPrefix + ComboMarker, ComboMarker);
    MarkerCharInMarkers();
    assert MarkerChar !in DoublesPrefix;
    RemoveAllBefore(DoublesPrefix, ComboMarker, 7);
  }

  lemma DoublesPrefixRemoved(base: string)
    requires IsDigits(base)
    ensures RemoveAll(base + DoublesPrefix, DoublesPrefix) == base
  {
    RemoveAllAfterDigits(base, DoublesPrefix, DoublesPrefix);
    RemoveAllSelf(DoublesPrefix);
    assert base + [] == base;
  }

  /** A token "digits + marker" meets none of the first six rules. */
  lemma MarkedTokenSkips(t: seq<string>, i: nat, base: string, marker: string)
    requires i < |t| && t[i] == base + marker && AllDigits(base)
    requires marker == ComboMarker || marker == ComboDoublesMarker
    ensures PairRule(t, i) == NoMatch && SlashRule(t, i) == NoMatch && HyphenRule(t, i) == NoMatch
    ensures ReverseRule(t, i) == NoMatch && HyphenReverseRule(t, i) == NoMatch && SplitReverseRule(t, i) == NoMatch
  {
    DigitsHaveNoSeparator(base);
    assert '/' !in marker && '-' !in marker && 'r' !in marker;
    NotDigitsAt(t[i], |base|);
    SeparatorRulesSkip(t, i);
  }

  /** Digits with the combo marker, then an amount: every pair of digits from
      two different positions, at that amount. */
  lemma ComboCase(t: seq<string>, i: nat, base: string)
    requires i < |t| && t[i] == base + ComboMarker && IsDigits(base) && |base| >= 2 && NextIsAmount(t, i)
    ensures var bs := StakeEach(ComboNumbers(DigitsOf(base), false), DecimalValue(t[i + 1]));
      Step(t, i) == Matched(bs, 2, |bs| * DecimalValue(t[i + 1]))
  {
    var amt := DecimalValue(t[i + 1]);
    var ns := ComboNumbers(DigitsOf(base), false);
    MarkedTokenSkips(t, i, base, ComboMarker);
    assert forall j :: 0 <= j < 6 ==> RuleAt(j, t, i) == NoMatch;
    assert ComboRule(t, i) == Matched(StakeEach(ns, amt), 2, |ns| * amt) by {
      ContainsSuffix(base, ComboMarker);
      ComboBaseOfMarker(base);
    }
    assert RuleAt(6, t, i) == ComboRule(t, i);
    FirstRule(t, i, 6);
  }

  /** Digits with the combo-and-doubles marker, then an amount: the pairs
      and then each digit doubled, at that amount. */
  lemma ComboDoublesCase(t: seq<string>, i: nat, base: string)
    requires i < |t| && t[i] == base + ComboDoublesMarker && IsDigits(base) && |base| >= 2 && NextIsAmount(t, i)
    ensures var bs := StakeEach(ComboNumbers(DigitsOf(base), true), DecimalValue(t[i + 1]));
      Step(t, i) == Matched(bs, 2, |bs| * DecimalValue(t[i + 1]))
  {
    var amt := DecimalValue(t[i + 1]);
    var ns := ComboNumbers(DigitsOf(base), true);
    MarkedTokenSkips(t, i, base, ComboDoublesMarker);
    assert forall j :: 0 <= j < 6 ==> RuleAt(j, t, i) == NoMatch;
    assert ComboRule(t, i) == Matched(StakeEach(ns, amt), 2, |ns| * amt) by {
      ContainsSuffix(base, ComboDoublesMarker);
      ComboBaseOfDoublesMarker(base);
    }
    assert RuleAt(6, t, i) == ComboRule(t, i);
    FirstRule(t, i, 6);
  }

  /** A table name, then an amount: the ten numbers of the table at that amount. */
  lemma FixedCase(t: seq<string>, i: nat)
    requires i < |t| && FixedTable(t[i]).Some? && NextIsAmount(t, i)
    ensures var bs := StakeEach(FixedTable(t[i]).value, DecimalValue(t[i + 1]));
      Step(t, i) == Matched(bs, 2, |bs| * DecimalValue(t[i + 1]))
  {
    FixedRules(t, i);
    assert RuleAt(7, t, i) == FixedRule(t, i);
    FirstRule(t, i, 7);
  }

  lemma FixedRules(t: seq<string>, i: nat)
    requires i < |t| && FixedTable(t[i]).Some?
    ensures forall j :: 0 <= j < 7 ==> RuleAt(j, t, i) == NoMatch
  {
    var e := t[i];
    TableNameChars(e);
    NotDigitsAt(e, 0);
    SeparatorRulesSkip(t, i);
    MarkerCharInMarkers();
    if Contains(e, ComboMarker) {
      ContainsChar(e, ComboMarker, 7);
    }
    if Contains(e, ComboDoublesMarker) {
      ContainsChar(e, ComboDoublesMarker, 25);
    }
    assert ComboRule(t, i) == NoMatch;
  }

  /** The table names are written in Myanmar letters only. */
  lemma TableNameChars(e: string)
    requires FixedTable(e).Some?
    ensures '/' !in e && '-' !in e && 'r' !in e && MarkerChar !in e && |e| > 0 && e[0] == '\U{00E1}'
  {
    if e == DoublesName {
    } else if e == PowerName {
    } else if e == NakhaName {
    } else if e == BrothersName {
    } else {
      assert e == BrothersReversedName;
    }
  }

  /** Digits worth 0..9 with a category suffix, then an amount: the numbers
      of that category of that digit, at that amount. */
  lemma CategoryCase(t: seq<string>, i: nat, p: string, k: nat)
    requires k < |Suffixes| && i < |t| && t[i] == p + Suffixes[k].0
    requires IsDigits(p) && DecimalValue(p) <= 9 && NextIsAmount(t, i)
    ensures var bs := StakeEach(CategoryNumbers(Suffixes[k].1, DecimalValue(p)), DecimalValue(t[i + 1]));
      Step(t, i) == Matched(bs, 2, |bs| * DecimalValue(t[i + 1]))
  {
    CategoryRules(t, i, p, k);
    FirstRule(t, i, 8);
  }

  lemma CategoryRules(t: seq<string>, i: nat, p: string, k: nat)
    requires k < |Suffixes| && i < |t| && t[i] == p + Suffixes[k].0
    requires IsDigits(p) && DecimalValue(p) <= 9 && NextIsAmount(t, i)
    ensures forall j :: 0 <= j < 8 ==> RuleAt(j, t, i) == NoMatch
    ensures var ns, amt := CategoryNumbers(Suffixes[k].1, DecimalValue(p)), DecimalValue(t[i + 1]);
      RuleAt(8, t, i) == Matched(StakeEach(ns, amt), 2, |ns| * amt)
  {
    var e := t[i];
    var suffix := Suffixes[k].0;
    CategorySkips(t, i, p, k);
    assert CategoryOf(e, 0) == Some((Suffixes[k].1, DecimalValue(p))) by {
      assert e[..|e| - |suffix|] == p && e[|e| - |suffix|..] == suffix;
      EarlierSuffixesMiss(p, k, 0);
      CategoryOfAt(e, k);
    }
    CategoryNumbersMeaning(Suffixes[k].1, DecimalValue(p));
  }

  lemma CategorySkips(t: seq<string>, i: nat, p: string, k: nat)
    requires k < |Suffixes| && i < |t| && t[i] == p + Suffixes[k].0 && IsDigits(p)
    ensures forall j :: 0 <= j < 8 ==> RuleAt(j, t, i) == NoMatch
  {
    CategorySkipsSeparators(t, i, p, k);
    CategorySkipsMarkers(t, i, p, k);
  }

  lemma CategorySkipsSeparators(t: seq<string>, i: nat, p: string, k: nat)
    requires k < |Suffixes| && i < |t| && t[i] == p + Suffixes[k].0 && IsDigits(p)
    ensures PairRule(t, i) == NoMatch && SlashRule(t, i) == NoMatch && HyphenRule(t, i) == NoMatch
    ensures ReverseRule(t, i) == NoMatch && HyphenReverseRule(t, i) == NoMatch && SplitReverseRule(t, i) == NoMatch
  {
    var e := t[i];
    var suffix := Suffixes[k].0;
    DigitsHaveNoSeparator(p);
    assert '/' !in suffix && '-' !in suffix && 'r' !in suffix;
    assert '/' !in e && '-' !in e && 'r' !in e;
    NotDigitsAt(e, |p|);
    SeparatorRulesSkip(t, i);
  }

  lemma CategorySkipsMarkers(t: seq<string>, i: nat, p: string, k: nat)
    requires k < |Suffixes| && i < |t| && t[i] == p + Suffixes[k].0 && IsDigits(p)
    ensures ComboRule(t, i) == NoMatch && FixedRule(t, i) == NoMatch
  {
    var e := t[i];
    var suffix := Suffixes[k].0;
    DigitsHaveNoSeparator(p);
    assert MarkerChar !in suffix;
    assert MarkerChar !in e;
    MarkerCharInMarkers();
    if Contains(e, ComboMarker) {
      ContainsChar(e, ComboMarker, 7);
    }
    if Contains(e, ComboDoublesMarker) {
      ContainsChar(e, ComboDoublesMarker, 25);
    }
    assert ComboRule(t, i) == NoMatch;
    assert e[0] == p[0];
  }

  lemma {:induction false} CategoryOfAt(e: string, k: nat)
    requires k < |Suffixes|
    requires forall j :: 0 <= j < k ==> !EndsWith(e, Suffixes[j].0)
    requires EndsWith(e, Suffixes[k].0)
    requires var prefix := e[..|e| - |Suffixes[k].0|]; IsDigits(prefix) && DecimalValue(prefix) <= 9
    ensures CategoryOf(e, 0) == Some((Suffixes[k].1, DecimalValue(e[..|e| - |Suffixes[k].0|])))
  {
    if k > 0 {
      assert !EndsWith(e, Suffixes[0].0);
    }
    if k > 1 {
      assert !EndsWith(e, Suffixes[1].0);
    }
    if k > 2 {
      assert !EndsWith(e, Suffixes[2].0);
    }
  }

  /** No suffix tried before suffix `k` ends a token "digits + suffix `k`". */
  lemma {:induction false} EarlierSuffixesMiss(p: string, k: nat, j: nat)
    requires k < |Suffixes| && j <= k && IsDigits(p)
    ensures forall j' :: j <= j' < k ==> !EndsWith(p + Suffixes[k].0, Suffixes[j'].0)
    decreases k - j
  {
    if j < k {
      var e, sj, sk := p + Suffixes[k].0, Suffixes[j].0, Suffixes[k].0;
      DigitsHaveNoSeparator(p);
      if |sj| > |sk| {
        if |sj| <= |e| {
          assert e[|e| - |sj|] == p[|p| - (|sj| - |sk|)];
        }
        assert sj[0] == '\U{00E1}';
      } else {
        assert !EndsWith(sk, sj);
        if |sj| <= |e| {
          assert e[|e| - |sj|..] == sk[|sk| - |sj|..];
        }
      }
      EarlierSuffixesMiss(p, k, j + 1);
    }
  }

  // --------------------------------------------------------------- drops

  /** A token no rule recognises is dropped: no bets, one token consumed,
      nothing added to the total (bot.py:296). */
  lemma DropRule(t: seq<string>, i: nat)
    requires i < |t|
    requires PairRule(t, i) == NoMatch && SlashRule(t, i) == NoMatch && HyphenRule(t, i) == NoMatch
    requires ReverseRule(t, i) == NoMatch && HyphenReverseRule(t, i) == NoMatch && SplitReverseRule(t, i) == NoMatch
    requires ComboRule(t, i) == NoMatch && FixedRule(t, i) == NoMatch && CategoryRule(t, i) == NoMatch
    requires BareRule(t, i) == NoMatch
    ensures Step(t, i) == Matched([], 1, 0)
  {
    assert forall j :: 0 <= j < 10 ==> RuleAt(j, t, i) == NoMatch;
    TryDrops(t, i, 0);
  }

  lemma {:induction false} TryDrops(t: seq<string>, i: nat, k: nat)
    requires k <= 10 && i < |t|
    requires forall j :: k <= j < 10 ==> RuleAt(j, t, i) == NoMatch
    ensures Try(k, t, i) == Matched([], 1, 0)
    decreases 10 - k
  {
    if k < 10 {
      TryDrops(t, i, k + 1);
    }
  }

  /** A token with a category starts with a digit and holds no marker
      character. */
  lemma {:induction false} CategoryOfShape(e: string, from: nat)
    requires from <= |Suffixes|
    ensures CategoryOf(e, from).Some? ==> |e| > 0 && IsAsciiDigit(e[0]) && MarkerChar !in e
    decreases |Suffixes| - from
  {
    if from < |Suffixes| {
      var suffix := Suffixes[from].0;
      if EndsWith(e, suffix) && IsDigits(e[..|e| - |suffix|]) {
        var prefix := e[..|e| - |suffix|];
        assert MarkerChar !in suffix;
        assert e == prefix + suffix;
        DigitsHaveNoSeparator(prefix);
      }
      CategoryOfShape(e, from + 1);
    }
  }

  /** A number outside 00..99 that does not open a pair is dropped. */
  lemma OutOfRangeDropCase(t: seq<string>, i: nat)
    requires i < |t| && IsDigits(t[i]) && !InRange(DecimalValue(t[i]))
    ensures Step(t, i) == Matched([], 1, 0)
  {
    DigitsHaveNoSeparator(t[i]);
    PlainTokenHasNoKeyword(t, i);
    DropRule(t, i);
  }

  /** A word that starts with no digit, holds no separator and no marker,
      and is not a table name is dropped. */
  lemma UnknownWordDropCase(t: seq<string>, i: nat)
    requires i < |t| && |t[i]| > 0 && !IsAsciiDigit(t[i][0])
    requires '/' !in t[i] && '-' !in t[i] && 'r' !in t[i] && MarkerChar !in t[i]
    requires FixedTable(t[i]).None?
    ensures Step(t, i) == Matched([], 1, 0)
  {
    var e := t[i];
    NotDigitsAt(e, 0);
    SeparatorRulesSkip(t, i);
    MarkerCharInMarkers();
    if Contains(e, ComboMarker) {
      ContainsChar(e, ComboMarker, 7);
    }
    if Contains(e, ComboDoublesMarker) {
      ContainsChar(e, ComboDoublesMarker, 25);
    }
    assert ComboRule(t, i) == NoMatch;
    CategoryOfShape(e, 0);
    DropRule(t, i);
  }

  /** A table name without an amount after it is dropped. */
  lemma FixedDropCase(t: seq<string>, i: nat)
    requires i < |t| && FixedTable(t[i]).Some? && !NextIsAmount(t, i)
    ensures Step(t, i) == Matched([], 1, 0)
  {
    FixedRules(t, i);
    TableNameChars(t[i]);
    CategoryOfShape(t[i], 0);
    DropRule(t, i);
  }

  /** A category token without an amount after it is dropped. */
  lemma CategoryDropCase(t: seq<string>, i: nat, p: string, k: nat)
    requires k < |Suffixes| && i < |t| && t[i] == p + Suffixes[k].0 && IsDigits(p)
    requires !NextIsAmount(t, i)
    ensures Step(t, i) == Matched([], 1, 0)
  {
    CategorySkipsSeparators(t, i, p, k);
    CategorySkipsMarkers(t, i, p, k);
    NotDigitsAt(t[i], |p|);
    DropRule(t, i);
  }

  /** A combo token with fewer than two digits, or without an amount after
      it, is dropped. */
  lemma ComboDropCase(t: seq<string>, i: nat, base: string, marker: string)
    requires i < |t| && t[i] == base + marker && IsDigits(base)
    requires marker == ComboMarker || marker == ComboDoublesMarker
    requires |base| < 2 || !NextIsAmount(t, i)
    ensures Step(t, i) == Matched([], 1, 0)
  {
    MarkedTokenSkips(t, i, base, marker);
    MarkedTokenMisses(t, i, base, marker);
    DropRule(t, i);
  }

  /** Such a token meets none of the last four rules either. */
  lemma MarkedTokenMisses(t: seq<string>, i: nat, base: string, marker: string)
    requires i < |t| && t[i] == base + marker && IsDigits(base)
    requires marker == ComboMarker || marker == ComboDoublesMarker
    requires |base| < 2 || !NextIsAmount(t, i)
    ensures ComboRule(t, i) == NoMatch && FixedRule(t, i) == NoMatch
    ensures CategoryRule(t, i) == NoMatch && BareRule(t, i) == NoMatch
  {
    var e := t[i];
    MarkedTokenShape(base, marker);
    if FixedTable(e).Some? {
      TableNameChars(e);
    }
    CategoryOfShape(e, 0);
    NotDigitsAt(e, |base|);
  }

  /** "digits + marker" is a combo token whose base is those digits. */
  lemma MarkedTokenShape(base: string, marker: string)
    requires IsDigits(base)
    requires marker == ComboMarker || marker == ComboDoublesMarker
    ensures Contains(base + marker, marker) && ComboBase(base + marker) == base
    ensures MarkerChar in base + marker
  {
    var e := base + marker;
    MarkerCharInMarkers();
    ContainsSuffix(base, marker);
    if marker == ComboMarker {
      ComboBaseOfMarker(base);
      assert e[|base| + 7] == MarkerChar;
    } else {
      ComboBaseOfDoublesMarker(base);
      assert e[|base| + 25] == MarkerChar;
    }
  }

  /** "150 12": 150 is no two-digit number and is dropped; 12 then stands
      alone at the default amount. */
  lemma DropExample()
    ensures ParseFrom(["150", "12"], 0) == Some([Bet(12, DefaultAmount)])
  {
    var t := ["150", "12"];
    ExampleValues();
    OutOfRangeDropCase(t, 0);
    Then(t, 0, [], 1, 0);
    BareCase(t, 1);
    Then(t, 1, [Bet(12, DefaultAmount)], 1, DefaultAmount);
    AtEnd(t, [Bet(12, DefaultAmount)]);
    assert [] + [Bet(12, DefaultAmount)] == [Bet(12, DefaultAmount)];
  }

  // ------------------------------------------------------------ messages

  /** A step that matched leaves its bets in front of the rest of the message. */
  lemma Then(t: seq<string>, i: nat, bs: seq<Bet>, c: nat, a: int)
    requires i < |t| && Step(t, i) == Matched(bs, c, a)
    ensures ParseFrom(t, i) == Prepend(bs, ParseFrom(t, i + c))
  {
    ParseFromUnfold(t, i);
  }

  lemma AtEnd(t: seq<string>, bs: seq<Bet>)
    ensures Prepend(bs, ParseFrom(t, |t|)) == Some(bs)
  {
    assert bs + [] == bs;
  }

  /** "12 13 500": both numbers at 500. */
  lemma PairMessage()
    ensures ParseFrom(["12", "13", "500"], 0) == Some([Bet(12, 500), Bet(13, 500)])
  {
    var t := ["12", "13", "500"];
    PairCase(t, 0);
    Then(t, 0, [Bet(12, 500), Bet(13, 500)], 3, 1000);
    AtEnd(t, [Bet(12, 500), Bet(13, 500)]);
  }

  /** The same message as text: splitting it gives the three tokens. */
  lemma PairText()
    ensures Parse("12 13 500") == Some([Bet(12, 500), Bet(13, 500)])
  {
    var ws := ["12", "13", "500"];
    assert Join(ws, ' ') == "12 13 500";
    WordsOfJoin(ws);
    PairMessage();
  }

  /** "1-2-3r4 12": the first token raises, so nothing of the message is kept. */
  lemma RaiseMessage()
    ensures ParseFrom(["1-2-3r4", "12"], 0) == None
  {
    var t := ["1-2-3r4", "12"];
    assert t[0] == "1-2-3" + "r" + "4";
    RaiseCase(t, 0, "1-2-3", "4");
  }

  /** The value of a one-digit and of a two-digit token. */
  lemma SmallValues(a: char, b: char)
    requires IsAsciiDigit(a) && IsAsciiDigit(b)
    ensures DecimalValue([a]) == DigitOf(a)
    ensures DecimalValue([a, b]) == 10 * DigitOf(a) + DigitOf(b)
  {
    DecimalValueSnoc([], a);
    assert [] + [a] == [a];
    DecimalValueSnoc([a], b);
    assert [a] + [b] == [a, b];
  }

  /** The value of a round hundred such as "500". */
  lemma HundredsValue(a: char)
    requires IsAsciiDigit(a)
    ensures DecimalValue([a, '0', '0']) == 100 * DigitOf(a)
  {
    SmallValues(a, '0');
    DecimalValueSnoc([a, '0'], '0');
    assert [a, '0'] + ['0'] == [a, '0', '0'];
  }

  /** "5r500": 05 and its reverse 50, at 500 each. */
  lemma ReverseMessage()
    ensures ParseFrom(["5r500"], 0) == Some([Bet(5, 500), Bet(50, 500)])
  {
    var t := ["5r500"];
    assert t[0] == "5" + "r" + "500";
    SmallValues('5', '0');
    HundredsValue('5');
    ReverseCase(t, 0, "5", "500");
    ReverseNumberSwapsDigits(5);
    Then(t, 0, [Bet(5, 500), Bet(50, 500)], 1, 1000);
    AtEnd(t, [Bet(5, 500), Bet(50, 500)]);
  }

  /** "7-300": 07 at 300. */
  lemma HyphenMessage()
    ensures ParseFrom(["7-300"], 0) == Some([Bet(7, 300)])
  {
    var t := ["7-300"];
    assert t[0] == "7" + "-" + "300";
    SmallValues('7', '0');
    HundredsValue('3');
    HyphenCase(t, 0, "7", "300");
    Then(t, 0, [Bet(7, 300)], 1, 300);
    AtEnd(t, [Bet(7, 300)]);
  }

  /** A lone "12" is staked at the default 500. */
  lemma BareMessage()
    ensures ParseFrom(["12"], 0) == Some([Bet(12, 500)])
  {
    var t := ["12"];
    SmallValues('1', '2');
    BareCase(t, 0);
    Then(t, 0, [Bet(12, 500)], 1, 500);
    AtEnd(t, [Bet(12, 500)]);
  }

  /** The values of the texts the worked messages below are made of. */
  lemma ExampleValues()
    ensures IsDigits("12") && DecimalValue("12") == 12
    ensures IsDigits("20") && DecimalValue("20") == 20
    ensures IsDigits("25") && DecimalValue("25") == 25
    ensures IsDigits("36") && DecimalValue("36") == 36
    ensures IsDigits("47") && DecimalValue("47") == 47
    ensures IsDigits("100") && DecimalValue("100") == 100
    ensures IsDigits("150") && DecimalValue("150") == 150
    ensures IsDigits("200") && DecimalValue("200") == 200
  {
    SmallValues('1', '2');
    SmallValues('2', '0');
    SmallValues('2', '5');
    SmallValues('3', '6');
    SmallValues('4', '7');
    HundredsValue('1');
    HundredsValue('2');
    SmallValues('1', '5');
    DecimalValueSnoc("15", '0');
    assert "15" + ['0'] == "150";
  }

  /** "12 100r200": 12 at 100 and its reverse 21 at 200. */
  lemma SplitReverseMessage()
    ensures ParseFrom(["12", "100r200"], 0) == Some([Bet(12, 100), Bet(21, 200)])
  {
    var t := ["12", "100r200"];
    ExampleValues();
    assert t[1] == "100" + "r" + "200";
    ReverseNumberSwapsDigits(12);
    SplitReverseCase(t, 0, "100", "200");
    Then(t, 0, [Bet(12, 100), Bet(21, 200)], 2, 300);
    AtEnd(t, [Bet(12, 100), Bet(21, 200)]);
  }

  /** "12-100r200": the same two bets in one token. */
  lemma HyphenReverseMessage()
    ensures ParseFrom(["12-100r200"], 0) == Some([Bet(12, 100), Bet(21, 200)])
  {
    var t := ["12-100r200"];
    ExampleValues();
    assert t[0] == "12" + "-" + "100" + "r" + "200";
    ReverseNumberSwapsDigits(12);
    HyphenReverseCase(t, 0, "12", "100", "200");
    Then(t, 0, [Bet(12, 100), Bet(21, 200)], 1, 300);
    AtEnd(t, [Bet(12, 100), Bet(21, 200)]);
  }

  /** A message of one slash token parses to that token's bets. */
  lemma SlashMessageOf(t: seq<string>, parts: seq<string>)
    requires |t| == 1 && |parts| >= 3 && t[0] == Join(parts, '/')
    requires forall j :: 0 <= j < |parts| ==> IsDigits(parts[j])
    ensures IsDigits(parts[|parts| - 1])
    ensures ParseFrom(t, 0) == Some(InRangeBets(parts[..|parts| - 1], DecimalValue(parts[|parts| - 1])))
  {
    SlashCase(t, 0, parts);
    var amt := DecimalValue(parts[|parts| - 1]);
    var bs := InRangeBets(parts[..|parts| - 1], amt);
    Then(t, 0, bs, 1, |bs| * amt);
    AtEnd(t, bs);
  }

  /** "25/36/47/100": three numbers at 100. */
  lemma SlashMessage()
    ensures ParseFrom(["25/36/47/100"], 0) == Some([Bet(25, 100), Bet(36, 100), Bet(47, 100)])
  {
    var parts := ["25", "36", "47", "100"];
    ExampleValues();
    SlashText();
    SlashMessageOf(["25/36/47/100"], parts);
    assert parts[..|parts| - 1] == ["25", "36", "47"] && parts[|parts| - 1] == "100";
    SlashBets();
  }

  lemma SlashText()
    ensures Join(["25", "36", "47", "100"], '/') == "25/36/47/100"
  {
    assert Join(["100"], '/') == "100";
    assert Join(["47", "100"], '/') == "47/100";
    assert Join(["36", "47", "100"], '/') == "36/47/100";
  }

  lemma SlashBets()
    ensures InRangeBets(["25", "36", "47"], 100) == [Bet(25, 100), Bet(36, 100), Bet(47, 100)]
  {
    ExampleValues();
    var last := ["47"];
    assert last[1..] == [];
    assert InRangeBets(last, 100) == [Bet(47, 100)];
    var two := ["36", "47"];
    assert two[1..] == last;
    assert InRangeBets(two, 100) == [Bet(36, 100), Bet(47, 100)];
    var three := ["25", "36", "47"];
    assert three[1..] == two;
  }

  /** "150/20/100": 150 is out of range and skipped, the token is still used. */
  lemma SlashOutOfRangeMessage()
    ensures ParseFrom(["150/20/100"], 0) == Some([Bet(20, 100)])
  {
    var parts := ["150", "20", "100"];
    ExampleValues();
    SlashOutOfRangeText();
    SlashMessageOf(["150/20/100"], parts);
    assert parts[..|parts| - 1] == ["150", "20"] && parts[|parts| - 1] == "100";
    SlashOutOfRangeBets();
  }

  lemma SlashOutOfRangeText()
    ensures Join(["150", "20", "100"], '/') == "150/20/100"
  {
    assert Join(["100"], '/') == "100";
    assert Join(["20", "100"], '/') == "20/100";
  }

  lemma SlashOutOfRangeBets()
    ensures InRangeBets(["150", "20"], 100) == [Bet(20, 100)]
  {
    ExampleValues();
    var last := ["20"];
    assert last[1..] == [];
    assert InRangeBets(last, 100) == [Bet(20, 100)];
    var two := ["150", "20"];
    assert two[1..] == last;
  }
}
