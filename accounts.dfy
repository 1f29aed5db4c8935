/**
 * The bookkeeping behind the bot's handlers, as functions on values: the
 * ledger of stakes per number, what applying and undoing a message does to
 * it and to a user's history, the amounts over the break limit and what
 * handing them to a carrier leaves, the commission-and-odds settlement, and
 * the "com/za" text the admin types.
 */
module Accounts {
  import opened Wrappers
  import opened Strings
  import opened TwoDigit
  import opened Bets
  import opened Dicts

  // -------------------------------------------------------------- ledger

  /** `ledger`: the total staked on each number, over all users. */
  type Ledger = map<int, int>

  /** `ledger.get(n, 0)` */
  function Stake(l: Ledger, n: int): int {
    if n in l then l[n] else 0
  }

  /** Numbers in 00..99 and no negative stake. */
  predicate LedgerOk(l: Ledger) {
    forall n :: n in l ==> InRange(n) && l[n] >= 0
  }

  function NumbersOf(bs: seq<Bet>): set<int> {
    set j | 0 <= j < |bs| :: bs[j].number
  }

  lemma NumbersOfSnoc(bs: seq<Bet>)
    requires bs != []
    ensures NumbersOf(bs) == NumbersOf(bs[..|bs| - 1]) + {bs[|bs| - 1].number}
  {
    var init := bs[..|bs| - 1];
    forall n | n in NumbersOf(init)
      ensures n in NumbersOf(bs)
    {
      var j :| 0 <= j < |init| && init[j].number == n;
      assert bs[j] == init[j];
    }
    forall n | n in NumbersOf(bs)
      ensures n in NumbersOf(init) || n == bs[|bs| - 1].number
    {
      var j :| 0 <= j < |bs| && bs[j].number == n;
      if j < |init| {
        assert init[j] == bs[j];
      }
    }
  }

  /** One iteration of the apply loop (bot.py:303-308). */
  function Credit(l: Ledger, b: Bet): Ledger {
    l[b.number := Stake(l, b.number) + b.amount]
  }

  /** The ledger after applying a message's bets in order. */
  function AddBets(l: Ledger, bs: seq<Bet>): Ledger
    decreases |bs|
  {
    if bs == [] then l else Credit(AddBets(l, bs[..|bs| - 1]), bs[|bs| - 1])
  }

  /** Applying bets adds to each number exactly what the bets stake on it,
      and the numbers on the ledger are the old ones and the bets' ones. */
  lemma {:induction false} AddBetsMeaning(l: Ledger, bs: seq<Bet>, n: int)
    ensures Stake(AddBets(l, bs), n) == Stake(l, n) + AmountFor(bs, n)
    ensures n in AddBets(l, bs) <==> n in l || n in NumbersOf(bs)
    decreases |bs|
  {
    if bs != [] {
      AddBetsMeaning(l, bs[..|bs| - 1], n);
      NumbersOfSnoc(bs);
    }
  }

  lemma {:induction false} AddBetsKeepsLedgerOk(l: Ledger, bs: seq<Bet>)
    requires LedgerOk(l) && AllWellFormed(bs)
    ensures LedgerOk(AddBets(l, bs))
    decreases |bs|
  {
    if bs != [] {
      AddBetsKeepsLedgerOk(l, bs[..|bs| - 1]);
      assert WellFormed(bs[|bs| - 1]);
    }
  }

  /** One iteration of the undo loop on the ledger (bot.py:393-396): a number
      on the ledger loses the amount and leaves the ledger at zero or below;
      a number not on the ledger is skipped. */
  function Debit(l: Ledger, b: Bet): Ledger {
    if b.number in l then
      var v := l[b.number] - b.amount;
      if v <= 0 then l - {b.number} else l[b.number := v]
    else l
  }

  function SubtractBets(l: Ledger, bs: seq<Bet>): Ledger
    decreases |bs|
  {
    if bs == [] then l else Debit(SubtractBets(l, bs[..|bs| - 1]), bs[|bs| - 1])
  }

  predicate NonNegative(bs: seq<Bet>) {
    forall j :: 0 <= j < |bs| ==> bs[j].amount >= 0
  }

  /** Undoing bets with non-negative amounts: a number no bet names is left
      as it was; a number some bet names keeps what remains of its stake if
      that is positive and leaves the ledger otherwise. */
  lemma {:induction false} SubtractBetsMeaning(l: Ledger, bs: seq<Bet>, n: int)
    requires NonNegative(bs)
    ensures n !in NumbersOf(bs) ==> (n in SubtractBets(l, bs) <==> n in l)
    ensures n in NumbersOf(bs) ==> (n in SubtractBets(l, bs) <==> n in l && l[n] - AmountFor(bs, n) > 0)
    ensures n in SubtractBets(l, bs) ==> SubtractBets(l, bs)[n] == l[n] - AmountFor(bs, n)
    decreases |bs|
  {
    if bs != [] {
      var init, b := bs[..|bs| - 1], bs[|bs| - 1];
      SubtractBetsMeaning(l, init, n);
      NumbersOfSnoc(bs);
      AmountForBounds([b], n);
      assert [b][..0] == [];
      assert AmountFor(bs, n) == AmountFor(init, n) + (if b.number == n then b.amount else 0);
    } else {
      AmountForBounds(bs, n);
    }
  }

  lemma SubtractBetsKeepsLedgerOk(l: Ledger, bs: seq<Bet>)
    requires LedgerOk(l) && NonNegative(bs)
    ensures LedgerOk(SubtractBets(l, bs))
  {
    forall n | n in SubtractBets(l, bs)
      ensures InRange(n) && SubtractBets(l, bs)[n] >= 0
    {
      SubtractBetsMeaning(l, bs, n);
    }
  }

  /** Undoing a message right after applying it restores a ledger whose
      stakes are all positive. */
  lemma UndoRestoresLedger(l: Ledger, bs: seq<Bet>)
    requires forall n :: n in l ==> l[n] > 0
    requires NonNegative(bs)
    ensures SubtractBets(AddBets(l, bs), bs) == l
  {
    var after := SubtractBets(AddBets(l, bs), bs);
    forall n
      ensures (n in after <==> n in l) && (n in l ==> after[n] == l[n])
    {
      AddBetsMeaning(l, bs, n);
      SubtractBetsMeaning(AddBets(l, bs), bs, n);
    }
  }

  // ------------------------------------------------------------- history

  /** `[(n, a) for n, a in h if not (n == num and a == amt)]` */
  function Without(h: seq<Bet>, b: Bet): seq<Bet> {
    if h == [] then [] else (if h[0] == b then [] else [h[0]]) + Without(h[1..], b)
  }

  /** The history after the undo loop has filtered out each of the bets. */
  function RemoveEach(h: seq<Bet>, bs: seq<Bet>): seq<Bet>
    decreases |bs|
  {
    if bs == [] then h else Without(RemoveEach(h, bs[..|bs| - 1]), bs[|bs| - 1])
  }

  /** The filter drops every copy of the pair and keeps every copy of any other entry. */
  lemma WithoutMeaning(h: seq<Bet>, b: Bet, x: Bet)
    ensures x in Without(h, b) <==> x in h && x != b
    ensures multiset(Without(h, b)) == multiset(h)[b := 0]
    ensures |Without(h, b)| <= |h|
  {
    WithoutCount(h, b);
    assert x in Without(h, b) <==> multiset(Without(h, b))[x] > 0;
  }

  lemma {:induction false} WithoutCount(h: seq<Bet>, b: Bet)
    ensures multiset(Without(h, b)) == multiset(h)[b := 0]
    ensures |Without(h, b)| <= |h|
    decreases |h|
  {
    if h != [] {
      var head, rest := if h[0] == b then [] else [h[0]], h[1..];
      WithoutCount(rest, b);
      assert h == [h[0]] + rest;
      assert Without(h, b) == head + Without(rest, b);
    }
  }

  /** A history entry survives the undo exactly when it equals none of the
      undone bets: every copy of an undone pair goes, not one per bet. */
  lemma {:induction false} RemoveEachMeaning(h: seq<Bet>, bs: seq<Bet>, x: Bet)
    ensures x in RemoveEach(h, bs) <==> x in h && x !in bs
    ensures multiset(RemoveEach(h, bs))[x] == if x in bs then 0 else multiset(h)[x]
    decreases |bs|
  {
    if bs != [] {
      var init, last := bs[..|bs| - 1], bs[|bs| - 1];
      var rest := RemoveEach(h, init);
      assert RemoveEach(h, bs) == Without(rest, last);
      RemoveEachMeaning(h, init, x);
      WithoutMeaning(rest, last, x);
      InLastSplit(bs, x);
    }
  }

  /** Membership in a non-empty sequence: in the front part or the last element. */
  lemma InLastSplit(bs: seq<Bet>, x: Bet)
    requires bs != []
    ensures x in bs <==> x in bs[..|bs| - 1] || x == bs[|bs| - 1]
  {
    assert bs == bs[..|bs| - 1] + [bs[|bs| - 1]];
  }

  lemma {:induction false} RemoveEachOfEmpty(bs: seq<Bet>)
    ensures RemoveEach([], bs) == []
    decreases |bs|
  {
    if bs != [] {
      RemoveEachOfEmpty(bs[..|bs| - 1]);
    }
  }

  /** Two identical messages and one undo: the ledger keeps the other
      message's stake, while the history loses both entries. */
  lemma UndoRemovesEveryCopy()
    ensures SubtractBets(AddBets(AddBets(map[], [Bet(12, 100)]), [Bet(12, 100)]), [Bet(12, 100)]) == map[12 := 100]
    ensures RemoveEach([Bet(12, 100), Bet(12, 100)], [Bet(12, 100)]) == []
  {
    assert [Bet(12, 100)][..0] == [];
    assert Without([Bet(12, 100)], Bet(12, 100)) == [];
  }

  // ------------------------------------------------------------ overbuy

  /** `{num: amt - limit for num, amt in ledger.items() if amt > limit}` */
  function Overage(l: Ledger, limit: int): map<int, int> {
    map n | n in l && l[n] > limit :: l[n] - limit
  }

  /** One iteration of the overbuy confirm loop on the ledger (bot.py:674-676). */
  function ConfirmOne(l: Ledger, n: int, a: int): Ledger {
    var v := Stake(l, n) - a;
    if v <= 0 then l - {n} else l[n := v]
  }

  /** The ledger once every selected number has been handed on: a selected
      number keeps its stake less the selected amount if that is positive
      and leaves otherwise; other numbers are untouched. The keys of a
      selection are distinct, so the order of the loop does not matter. */
  function ConfirmLedger(l: Ledger, sel: map<int, int>): Ledger {
    map n | n in l.Keys + sel.Keys && (n in sel ==> Stake(l, n) - sel[n] > 0) ::
      if n in sel then Stake(l, n) - sel[n] else l[n]
  }

  function Restrict(sel: map<int, int>, done: set<int>): map<int, int> {
    map n | n in sel && n in done :: sel[n]
  }

  lemma ConfirmLedgerOfNothing(l: Ledger)
    ensures ConfirmLedger(l, map[]) == l
  {
  }

  /** The loop's next iteration extends the selection already handled. */
  lemma ConfirmLedgerStep(l: Ledger, sel: map<int, int>, done: set<int>, n: int)
    requires n in sel && n !in done
    ensures ConfirmLedger(l, Restrict(sel, done + {n})) == ConfirmOne(ConfirmLedger(l, Restrict(sel, done)), n, sel[n])
  {
    var before := Restrict(sel, done);
    var after := before[n := sel[n]];
    assert Restrict(sel, done + {n}) == after;
    var c := ConfirmLedger(l, before);
    assert Stake(c, n) == Stake(l, n);
    var lhs, rhs := ConfirmLedger(l, after), ConfirmOne(c, n, sel[n]);
    assert lhs.Keys == rhs.Keys;
    forall m | m in lhs
      ensures lhs[m] == rhs[m]
    {
    }
  }

  /** Handing the whole overage to a carrier leaves no number over the
      limit: a number that was over stays at exactly the limit (or leaves
      the ledger when the limit is not positive), and the others keep their
      stakes. */
  lemma ConfirmClearsOverage(l: Ledger, limit: int)
    ensures var c := ConfirmLedger(l, Overage(l, limit));
      && Overage(c, limit) == map[]
      && (forall n :: n in Overage(l, limit) ==> if limit > 0 then n in c && c[n] == limit else n !in c)
      && (forall n :: n in l && n !in Overage(l, limit) ==> n in c && c[n] == l[n])
      && c.Keys <= l.Keys
  {
  }

  /** With a limit of 5000, a ledger of 7000 on 23 and 3000 on 45: 2000 of 23
      is over, and handing it on leaves 5000 on 23. */
  lemma OverbuyExample()
    ensures Overage(map[23 := 7000, 45 := 3000], 5000) == map[23 := 2000]
    ensures ConfirmLedger(map[23 := 7000, 45 := 3000], map[23 := 2000]) == map[23 := 5000, 45 := 3000]
  {
    var l := map[23 := 7000, 45 := 3000];
    assert Overage(l, 5000).Keys == {23};
    assert ConfirmLedger(l, map[23 := 2000]).Keys == {23, 45};
  }

  // ---------------------------------------------------------- settlement

  /** One user's lines of the /total report (bot.py:812-819). */
  datatype Report = Report(total: int, power: int, commission: int, afterCom: int, win: int, net: int)

  /** `commission = (total * com) // 100`, what is left after it, the
      winnings `power * za`, and the net the house keeps (negative when it
      pays out). Python's `//` rounds down, for negative totals too. */
  function Settle(total: int, power: int, com: int, za: int): (r: Report)
    ensures r.total == total && r.power == power
    ensures r.commission * 100 <= total * com < r.commission * 100 + 100
    ensures r.win == power * za
    ensures r.afterCom + r.commission == total && r.net + r.win == r.afterCom
  {
    var commission := (total * com) / 100;
    Report(total, power, commission, total - commission, power * za, total - commission - power * za)
  }

  /** With a rate of 0..100 the commission lies between zero and the total. */
  lemma CommissionBounds(total: int, power: int, com: int, za: int)
    requires 0 <= com <= 100
    ensures var c := Settle(total, power, com, za).commission;
      (total >= 0 ==> 0 <= c <= total) && (total <= 0 ==> total <= c <= 0)
  {
    var c := Settle(total, power, com, za).commission;
    if total >= 0 {
      assert total * com <= total * 100;
      assert 0 <= total * com;
    } else {
      assert total * 100 <= total * com;
      assert total * com <= 0;
    }
  }

  /** 10000 staked at 15% commission, 500 of it on the power number at odds
      80: commission 1500, 8500 after it, 40000 paid out, net -31500. A total
      of -150 at 15% has commission -23, as Python's floor division gives. */
  lemma SettleExamples()
    ensures Settle(10000, 500, 15, 80) == Report(10000, 500, 1500, 8500, 40000, -31500)
    ensures Settle(-150, 0, 15, 80).commission == -23
  {
  }

  /** One user's history: period key to bets, in insertion order. */
  type Records = Dict<string, seq<Bet>>

  function PeriodsTotal(order: seq<string>, items: map<string, seq<Bet>>): int
    requires forall k :: k in order ==> k in items
    decreases |order|
  {
    if order == [] then 0
    else PeriodsTotal(order[..|order| - 1], items) + SumAmounts(items[order[|order| - 1]])
  }

  function PeriodsPower(order: seq<string>, items: map<string, seq<Bet>>, p: int): int
    requires forall k :: k in order ==> k in items
    decreases |order|
  {
    if order == [] then 0
    else PeriodsPower(order[..|order| - 1], items, p) + AmountFor(items[order[|order| - 1]], p)
  }

  /** `user_total_amt`: everything the user staked, over all periods. */
  function UserTotal(r: Records): int
    requires Valid(r)
  {
    PeriodsTotal(r.order, r.items)
  }

  /** `user_pamt`: what the user staked on the power number. */
  function UserPower(r: Records, p: int): int
    requires Valid(r)
  {
    PeriodsPower(r.order, r.items, p)
  }

  lemma {:induction false} PeriodsTotalUntouched(order: seq<string>, items: map<string, seq<Bet>>, key: string, v: seq<Bet>)
    requires forall k :: k in order ==> k in items
    requires key !in order
    ensures PeriodsTotal(order, items[key := v]) == PeriodsTotal(order, items)
    decreases |order|
  {
    if order != [] {
      PeriodsTotalUntouched(order[..|order| - 1], items, key, v);
    }
  }

  lemma {:induction false} PeriodsTotalUpdate(order: seq<string>, items: map<string, seq<Bet>>, key: string, v: seq<Bet>)
    requires forall k :: k in order ==> k in items
    requires NoDuplicates(order) && key in order
    ensures PeriodsTotal(order, items[key := v]) == PeriodsTotal(order, items) - SumAmounts(items[key]) + SumAmounts(v)
    decreases |order|
  {
    var init, last := order[..|order| - 1], order[|order| - 1];
    if last == key {
      assert key !in init;
      PeriodsTotalUntouched(init, items, key, v);
    } else {
      assert key in init;
      PeriodsTotalUpdate(init, items, key, v);
    }
  }

  /** Recording a message's bets under a period raises the user's total by
      exactly the message's total, whether the period is new or not. */
  lemma RecordRaisesTotal(r: Records, key: string, bs: seq<Bet>)
    requires Valid(r)
    ensures UserTotal(Put(r, key, Get(r, key, []) + bs)) == UserTotal(r) + SumAmounts(bs)
  {
    var v := Get(r, key, []) + bs;
    SumAmountsAppend(Get(r, key, []), bs);
    if key in r.items {
      PeriodsTotalUpdate(r.order, r.items, key, v);
    } else {
      PeriodsTotalUntouched(r.order, r.items, key, v);
      assert (r.order + [key])[..|r.order|] == r.order;
      assert SumAmounts([]) == 0;
    }
  }

  type Users = Dict<string, Records>

  predicate UsersOk(users: Users) {
    Valid(users) && forall u :: u in users.items ==> Valid(users.items[u])
  }

  /** One user's line of the /total report; a user with no rates set is
      settled at commission 0 and odds 0. */
  function ReportFor(users: map<string, Records>, comData: map<string, int>, zaData: map<string, int>,
                     p: int, u: string): Report
    requires u in users && Valid(users[u])
  {
    var com := if u in comData then comData[u] else 0;
    var za := if u in zaData then zaData[u] else 0;
    Settle(UserTotal(users[u]), UserPower(users[u], p), com, za)
  }

  /** The /total report, one entry per user in `user_data` order. */
  function ReportsOf(order: seq<string>, users: map<string, Records>, comData: map<string, int>,
                     zaData: map<string, int>, p: int): (rs: seq<(string, Report)>)
    requires forall u :: u in order ==> u in users && Valid(users[u])
    ensures |rs| == |order|
    ensures forall j :: 0 <= j < |order| ==> rs[j] == (order[j], ReportFor(users, comData, zaData, p, order[j]))
    decreases |order|
  {
    if order == [] then []
    else
      var u := order[|order| - 1];
      ReportsOf(order[..|order| - 1], users, comData, zaData, p) + [(u, ReportFor(users, comData, zaData, p, u))]
  }

  /** `total_net`: the nets added up in report order. */
  function NetSum(rs: seq<(string, Report)>): int
    decreases |rs|
  {
    if rs == [] then 0 else NetSum(rs[..|rs| - 1]) + rs[|rs| - 1].1.net
  }

  /** The /pnumber report: each user with a positive stake on the number,
      in `user_data` order, with that stake (bot.py:705-712). */
  function PowerHolders(order: seq<string>, users: map<string, Records>, p: int): (hs: seq<(string, int)>)
    requires forall u :: u in order ==> u in users && Valid(users[u])
    decreases |order|
  {
    if order == [] then []
    else
      var u := order[|order| - 1];
      var amount := UserPower(users[u], p);
      PowerHolders(order[..|order| - 1], users, p) + (if amount > 0 then [(u, amount)] else [])
  }

  lemma {:induction false} PowerHoldersMeaning(order: seq<string>, users: map<string, Records>, p: int, u: string, x: int)
    requires forall v :: v in order ==> v in users && Valid(users[v])
    ensures (u, x) in PowerHolders(order, users, p) <==> u in order && x == UserPower(users[u], p) && x > 0
    decreases |order|
  {
    if order != [] {
      var init := order[..|order| - 1];
      PowerHoldersMeaning(init, users, p, u, x);
      assert order == init + [order[|order| - 1]];
    }
  }

  // ------------------------------------------------------------- com/za

  /** What `comza_text` makes of the admin's text (bot.py:760-777). */
  datatype ComZa = NoSlash | Malformed | Rates(com: int, za: int)

  /** No '/' at all is a format error; otherwise the text must split into
      exactly two integers, a commission of 0..100 and non-negative odds. */
  function ParseComZa(text: string): (r: ComZa)
    ensures r.NoSlash? <==> '/' !in text
    ensures r.Rates? ==> 0 <= r.com <= 100 && r.za >= 0
  {
    if '/' !in text then NoSlash
    else
      var parts := Split(text, '/');
      if |parts| != 2 then Malformed
      else match (ParseInt(parts[0]), ParseInt(parts[1]))
        case (Some(c), Some(z)) => if c < 0 || c > 100 || z < 0 then Malformed else Rates(c, z)
        case _ => Malformed
  }

  lemma StrHasNoSlash(n: int)
    ensures '/' !in Str(n)
  {
  }

  /** "c/z" written out is read back as those rates exactly when they are
      in range, and is refused otherwise. */
  lemma ComZaText(c: int, z: int)
    ensures ParseComZa(Str(c) + "/" + Str(z)) == if 0 <= c <= 100 && z >= 0 then Rates(c, z) else Malformed
  {
    var text := Str(c) + "/" + Str(z);
    StrHasNoSlash(c);
    StrHasNoSlash(z);
    assert text == Str(c) + ['/'] + Str(z);
    SplitAtFirst(Str(c), '/', Str(z));
    SplitWithoutSeparator(Str(z), '/');
    ParseIntOfStr(c);
    ParseIntOfStr(z);
  }

  /** A second '/' makes the text malformed whatever the numbers. */
  lemma ComZaNeedsOneSlash(text: string)
    requires Count(text, '/') >= 2
    ensures ParseComZa(text) == Malformed
  {
    CountZero(text, '/');
  }
}
