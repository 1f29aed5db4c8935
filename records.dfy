/**
 * `user_data`: for each username, in insertion order, the bets recorded
 * under each period key. What recording a message does to it, which user an
 * undo finds, what the undo leaves, and the per-user tallies of /total and
 * /pnumber.
 */
module Records {
  import opened Wrappers
  import opened TwoDigit
  import opened Bets
  import opened Dicts
  import opened Accounts

  /** Every recorded bet is on a number 00..99 (amounts may be negative:
      overbuy entries are recorded with the amount negated). */
  predicate HistoryOk(users: Users) {
    forall u, k, b :: u in users.items && k in users.items[u].items && b in users.items[u].items[k] ==> InRange(b.number)
  }

  /** `user_data.setdefault(u, {}).setdefault(key, [])` followed by
      appending the bets (bot.py:298-308, 662-668): a new user or period
      goes to the end of its dictionary's order. */
  function Record(users: Users, u: string, key: string, bs: seq<Bet>): Users
    requires UsersOk(users)
  {
    var rec := Get(users, u, Empty());
    Put(users, u, Put(rec, key, Get(rec, key, []) + bs))
  }

  lemma RecordKeepsOk(users: Users, u: string, key: string, bs: seq<Bet>)
    requires UsersOk(users) && HistoryOk(users)
    requires forall b :: b in bs ==> InRange(b.number)
    ensures UsersOk(Record(users, u, key, bs)) && HistoryOk(Record(users, u, key, bs))
    ensures Record(users, u, key, bs).items.Keys == users.items.Keys + {u}
  {
    var rec := Get(users, u, Empty());
    var r := Record(users, u, key, bs);
    forall v, k, b | v in r.items && k in r.items[v].items && b in r.items[v].items[k]
      ensures InRange(b.number)
    {
      if v == u && k == key {
        assert b in Get(rec, key, []) || b in bs;
      }
    }
  }

  /** Appending in two steps is appending once: the loop's one-bet steps add
      up to recording the whole message. */
  lemma RecordAppend(users: Users, u: string, key: string, a: seq<Bet>, b: seq<Bet>)
    requires UsersOk(users)
    ensures UsersOk(Record(users, u, key, a))
    ensures Record(Record(users, u, key, a), u, key, b) == Record(users, u, key, a + b)
  {
    var rec := Get(users, u, Empty());
    var old_list := Get(rec, key, []);
    var once := old_list + a;
    var inner := Put(rec, key, once);
    RecordOnce(users, u, key, a);
    var twice := once + b;
    assert twice == old_list + (a + b);
    PutPut(rec, key, once, twice);
    PutPut(users, u, inner, Put(inner, key, twice));
  }

  /** What one recording leaves for the user and the period. */
  lemma RecordOnce(users: Users, u: string, key: string, a: seq<Bet>)
    requires UsersOk(users)
    ensures var rec := Get(users, u, Empty());
      var inner := Put(rec, key, Get(rec, key, []) + a);
      && UsersOk(Record(users, u, key, a))
      && Record(users, u, key, a) == Put(users, u, inner)
      && Get(Record(users, u, key, a), u, Empty()) == inner
      && Get(inner, key, []) == Get(rec, key, []) + a
  {
  }

  /** Recording a message raises the user's /total stake by exactly the
      message's total. */
  lemma RecordRaisesUserTotal(users: Users, u: string, key: string, bs: seq<Bet>)
    requires UsersOk(users)
    ensures UsersOk(Record(users, u, key, bs)) && u in Record(users, u, key, bs).items
    ensures UserTotal(Record(users, u, key, bs).items[u]) == UserTotal(Get(users, u, Empty())) + SumAmounts(bs)
  {
    RecordRaisesTotal(Get(users, u, Empty()), key, bs);
  }

  // ------------------------------------------------------------ the undo

  /** `f"{num:02d}-{amt}" in bets` for some entry of the history. */
  predicate Mentions(h: seq<Bet>, texts: seq<string>) {
    exists j :: 0 <= j < |h| && Format(h[j]) in texts
  }

  /** The stored bets as the bot keeps them, as text. */
  function Texts(bs: seq<Bet>): (ts: seq<string>)
    ensures |ts| == |bs| && forall j :: 0 <= j < |bs| ==> ts[j] == Format(bs[j])
  {
    seq(|bs|, j requires 0 <= j < |bs| => Format(bs[j]))
  }

  /** Two lists of parser bets with the same texts are the same bets. */
  lemma TextsInjective(a: seq<Bet>, b: seq<Bet>)
    requires AllWellFormed(a) && AllWellFormed(b) && Texts(a) == Texts(b)
    ensures a == b
  {
    assert |a| == |Texts(a)| == |b|;
    forall j | 0 <= j < |a|
      ensures a[j] == b[j]
    {
      assert Texts(a)[j] == Format(a[j]) && Texts(b)[j] == Format(b[j]);
      FormatInjective(a[j], b[j]);
    }
  }

  /** Comparing texts is comparing pairs, since a text names one bet. */
  lemma MentionsAgrees(h: seq<Bet>, bs: seq<Bet>)
    requires forall j :: 0 <= j < |h| ==> InRange(h[j].number)
    requires AllWellFormed(bs)
    ensures Mentions(h, Texts(bs)) <==> exists j :: 0 <= j < |h| && h[j] in bs
  {
    if Mentions(h, Texts(bs)) {
      var j :| 0 <= j < |h| && Format(h[j]) in Texts(bs);
      var i :| 0 <= i < |bs| && Texts(bs)[i] == Format(h[j]);
      FormatInAgrees(h[j], bs);
    }
    if exists j :: 0 <= j < |h| && h[j] in bs {
      var j :| 0 <= j < |h| && h[j] in bs;
      var i :| 0 <= i < |bs| && bs[i] == h[j];
      assert Texts(bs)[i] == Format(h[j]);
    }
  }

  /** Whether user `u`'s history for the period mentions one of the texts. */
  predicate Holds(users: map<string, Records>, u: string, key: string, texts: seq<string>)
    requires u in users
  {
    key in users[u].items && Mentions(users[u].items[key], texts)
  }

  /** The user the undo acts on: the first in `user_data` order whose
      history for the current period mentions a stored bet. A user named ""
      would be matched and then passed over, as `if username:` is false for
      it (bot.py:373-382). */
  function FindUser(order: seq<string>, users: map<string, Records>, key: string, texts: seq<string>): (r: Option<string>)
    requires forall u :: u in order ==> u in users
    ensures r.Some? ==> r.value in users && r.value != "" && Holds(users, r.value, key, texts)
    ensures r.Some? ==> users[r.value].items[key] != []
    decreases |order|
  {
    if order == [] then None
    else if order[0] != "" && Holds(users, order[0], key, texts) then Some(order[0])
    else FindUser(order[1..], users, key, texts)
  }

  lemma {:induction false} FindUserMeaning(order: seq<string>, users: map<string, Records>, key: string, texts: seq<string>)
    requires forall u :: u in order ==> u in users
    ensures var r := FindUser(order, users, key, texts);
      && (r.None? <==> forall j :: 0 <= j < |order| && order[j] != "" ==> !Holds(users, order[j], key, texts))
      && (r.Some? ==> exists j :: (0 <= j < |order| && order[j] == r.value && r.value != "" && Holds(users, r.value, key, texts)
           && forall i :: 0 <= i < j && order[i] != "" ==> !Holds(users, order[i], key, texts)))
    decreases |order|
  {
    if order != [] {
      FindUserMeaning(order[1..], users, key, texts);
      var r := FindUser(order, users, key, texts);
      if order[0] != "" && Holds(users, order[0], key, texts) {
        assert order[0] == r.value;
      } else {
        var rest := FindUser(order[1..], users, key, texts);
        assert r == rest;
        if rest.Some? {
          var j :| 0 <= j < |order| - 1 && order[1..][j] == rest.value && rest.value != "" && Holds(users, rest.value, key, texts)
            && forall i :: 0 <= i < j && order[1..][i] != "" ==> !Holds(users, order[1..][i], key, texts);
          assert order[j + 1] == rest.value;
          NoHolderShift(order, users, key, texts, j);
        } else {
          NoHolderShift(order, users, key, texts, |order| - 1);
        }
      }
    }
  }

  /** When the first user does not hold the pair, no holder among the first
      `j` of the others means none among the first `j + 1` of all. */
  lemma NoHolderShift(order: seq<string>, users: map<string, Records>, key: string, texts: seq<string>, j: nat)
    requires forall u :: u in order ==> u in users
    requires j < |order| && !(order[0] != "" && Holds(users, order[0], key, texts))
    requires forall i :: 0 <= i < j && order[1..][i] != "" ==> !Holds(users, order[1..][i], key, texts)
    ensures forall i :: 0 <= i < j + 1 && order[i] != "" ==> !Holds(users, order[i], key, texts)
  {
    forall i | 0 <= i < j + 1 && order[i] != ""
      ensures !Holds(users, order[i], key, texts)
    {
      if i > 0 {
        assert order[i] == order[1..][i - 1];
      }
    }
  }

  /** One iteration of the undo loop on `user_data` (bot.py:398-407): the
      pair is filtered out of the period's list, an emptied period is
      deleted, and a user left with no period is deleted too. */
  function UndoOne(users: Users, u: string, key: string, b: Bet): (r: Users)
    requires UsersOk(users)
    ensures UsersOk(r)
  {
    if u in users.items && key in users.items[u].items then
      var rec := users.items[u];
      var rest := Without(rec.items[key], b);
      if rest != [] then Put(users, u, Put(rec, key, rest))
      else
        var emptied := Remove(rec, key);
        if emptied.items == map[] then Remove(users, u) else Put(users, u, emptied)
    else users
  }

  /** What the whole undo loop leaves, said once: the period keeps the
      entries equal to none of the undone bets; if none is left the period
      goes, and the user goes with it when it was their only period. */
  function UndoRecords(users: Users, u: string, key: string, bs: seq<Bet>): Users
    requires UsersOk(users) && u in users.items && key in users.items[u].items
  {
    var rec := users.items[u];
    var rest := RemoveEach(rec.items[key], bs);
    if rest != [] then Put(users, u, Put(rec, key, rest))
    else
      var emptied := Remove(rec, key);
      if emptied.items == map[] then Remove(users, u) else Put(users, u, emptied)
  }

  lemma PutSame<K, V>(d: Dict<K, V>, k: K)
    requires Valid(d) && k in d.items
    ensures Put(d, k, d.items[k]) == d
  {
    assert d.items[k := d.items[k]] == d.items;
  }

  lemma UndoRecordsStart(users: Users, u: string, key: string)
    requires UsersOk(users) && u in users.items && key in users.items[u].items
    requires users.items[u].items[key] != []
    ensures UndoRecords(users, u, key, []) == users
  {
    PutSame(users.items[u], key);
    PutSame(users, u);
  }

  lemma UndoRecordsKeepsOk(users: Users, u: string, key: string, bs: seq<Bet>)
    requires UsersOk(users) && HistoryOk(users) && u in users.items && key in users.items[u].items
    ensures UsersOk(UndoRecords(users, u, key, bs)) && HistoryOk(UndoRecords(users, u, key, bs))
  {
    var r := UndoRecords(users, u, key, bs);
    var old_list := users.items[u].items[key];
    forall v, k, b | v in r.items && k in r.items[v].items && b in r.items[v].items[k]
      ensures InRange(b.number)
    {
      if v == u && k == key {
        RemoveEachMeaning(old_list, bs, b);
      }
    }
  }

  /** The loop's next iteration turns the closed form for the bets so far
      into the closed form with one bet more. */
  lemma UndoRecordsStep(users: Users, u: string, key: string, bs: seq<Bet>)
    requires UsersOk(users) && u in users.items && key in users.items[u].items && bs != []
    ensures UsersOk(UndoRecords(users, u, key, bs[..|bs| - 1]))
    ensures UndoOne(UndoRecords(users, u, key, bs[..|bs| - 1]), u, key, bs[|bs| - 1]) == UndoRecords(users, u, key, bs)
  {
    var rec := users.items[u];
    var b := bs[|bs| - 1];
    var rest := RemoveEach(rec.items[key], bs[..|bs| - 1]);
    assert RemoveEach(rec.items[key], bs) == Without(rest, b);
    if rest != [] {
      var inner := Put(rec, key, rest);
      var rest2 := Without(rest, b);
      if rest2 != [] {
        PutPut(rec, key, rest, rest2);
        PutPut(users, u, inner, Put(inner, key, rest2));
      } else {
        RemovePut(rec, key, rest);
        var emptied := Remove(rec, key);
        if emptied.items == map[] {
          RemovePut(users, u, inner);
        } else {
          PutPut(users, u, inner, emptied);
        }
      }
    } else {
      assert Without(rest, b) == [];
    }
  }

  // ------------------------------------------------------------- tallies

  /** `user_total_amt` and `user_pamt` of /total, by its loops over the
      user's periods and their entries (bot.py:806-810). */
  method Tally(rec: Records, p: int) returns (total: int, power: int)
    requires Valid(rec)
    ensures total == UserTotal(rec) && power == UserPower(rec, p)
  {
    total, power := 0, 0;
    var i := 0;
    while i < |rec.order|
      invariant i <= |rec.order|
      invariant total == PeriodsTotal(rec.order[..i], rec.items)
      invariant power == PeriodsPower(rec.order[..i], rec.items, p)
    {
      var list := rec.items[rec.order[i]];
      var t0, p0 := total, power;
      var j := 0;
      while j < |list|
        invariant j <= |list|
        invariant total == t0 + SumAmounts(list[..j])
        invariant power == p0 + AmountFor(list[..j], p)
      {
        assert list[..j + 1][..j] == list[..j];
        total := total + list[j].amount;
        if list[j].number == p {
          power := power + list[j].amount;
        }
        j := j + 1;
      }
      assert list[..j] == list;
      assert rec.order[..i + 1][..i] == rec.order[..i];
      i := i + 1;
    }
    assert rec.order[..i] == rec.order;
  }

  /** The undo's inner loop over one period's entries (bot.py:375-380). */
  method ScanPeriod(list: seq<Bet>, texts: seq<string>) returns (hit: bool)
    ensures hit == Mentions(list, texts)
  {
    var j := 0;
    while j < |list|
      invariant j <= |list|
      invariant !exists k :: 0 <= k < j && Format(list[k]) in texts
    {
      if Format(list[j]) in texts {
        return true;
      }
      j := j + 1;
    }
    return false;
  }

  /** The search from position `i` looks at that user first. */
  lemma FindUserStep(order: seq<string>, users: map<string, Records>, key: string, texts: seq<string>, i: nat)
    requires (forall u :: u in order ==> u in users) && i < |order|
    ensures FindUser(order[i..], users, key, texts)
         == if order[i] != "" && Holds(users, order[i], key, texts) then Some(order[i])
            else FindUser(order[i + 1..], users, key, texts)
  {
    assert order[i..][0] == order[i] && order[i..][1..] == order[i + 1..];
  }

  /** The undo's search loop over the users (bot.py:373-382). */
  method SearchUser(users: Users, key: string, texts: seq<string>) returns (found: Option<string>)
    requires forall u :: u in users.order ==> u in users.items
    ensures found == FindUser(users.order, users.items, key, texts)
  {
    var i := 0;
    while i < |users.order|
      invariant i <= |users.order|
      invariant FindUser(users.order, users.items, key, texts) == FindUser(users.order[i..], users.items, key, texts)
    {
      var u := users.order[i];
      FindUserStep(users.order, users.items, key, texts, i);
      var hit := false;
      if key in users.items[u].items {
        hit := ScanPeriod(users.items[u].items[key], texts);
      }
      assert hit == Holds(users.items, u, key, texts);
      if hit && u != "" {
        return Some(u);
      }
      i := i + 1;
    }
    return None;
  }

  // ------------------------------------------------------- handler loops

  /** The apply loop of `handle_message` (bot.py:298-308): the user and the
      period are created if new, then each bet is added to the ledger and
      appended to the period's list. Only the list changes inside the loop,
      so the dictionaries are rebuilt around it once the loop is done. */
  method Apply(users: Users, ledger: Ledger, u: string, key: string, bets: seq<Bet>) returns (us: Users, led: Ledger)
    requires UsersOk(users)
    ensures us == Record(users, u, key, bets) && led == AddBets(ledger, bets)
  {
    RecordShape(users, u, key, bets);
    var created := Record(users, u, key, []);
    var list;
    list, led := AppendBets(created.items[u].items[key], ledger, bets);
    us := Put(created, u, Put(created.items[u], key, list));
  }

  /** The loop itself, on the period's list and the ledger. */
  method AppendBets(list: seq<Bet>, ledger: Ledger, bets: seq<Bet>) returns (list': seq<Bet>, led: Ledger)
    ensures list' == list + bets && led == AddBets(ledger, bets)
  {
    list', led := list, ledger;
    var j := 0;
    while j < |bets|
      invariant j <= |bets|
      invariant list' == list + bets[..j]
      invariant led == AddBets(ledger, bets[..j])
    {
      assert bets[..j + 1][..j] == bets[..j];
      led := Credit(led, bets[j]);
      list' := list' + [bets[j]];
      j := j + 1;
    }
    assert bets[..j] == bets;
  }

  /** Recording bets is creating the user and the period, then replacing
      the period's list by itself followed by the bets. */
  lemma RecordShape(users: Users, u: string, key: string, bs: seq<Bet>)
    requires UsersOk(users)
    ensures var created := Record(users, u, key, []);
      && UsersOk(created) && u in created.items && key in created.items[u].items
      && Record(users, u, key, bs) == Put(created, u, Put(created.items[u], key, created.items[u].items[key] + bs))
  {
    RecordAppend(users, u, key, [], bs);
    assert [] + bs == bs;
  }

  /** The source's undo loop on `user_data`, one bet at a time, deleting
      the period (and the user) in the iteration that empties it. */
  function UndoEach(users: Users, u: string, key: string, bs: seq<Bet>): (r: Users)
    requires UsersOk(users)
    ensures UsersOk(r)
    decreases |bs|
  {
    if bs == [] then users else UndoOne(UndoEach(users, u, key, bs[..|bs| - 1]), u, key, bs[|bs| - 1])
  }

  /** Deleting when the loop empties the period, or once after the loop,
      leaves the same `user_data`: later iterations skip a deleted period. */
  lemma {:induction false} UndoEachIsUndoRecords(users: Users, u: string, key: string, bs: seq<Bet>)
    requires UsersOk(users) && u in users.items && key in users.items[u].items
    requires users.items[u].items[key] != []
    ensures UndoEach(users, u, key, bs) == UndoRecords(users, u, key, bs)
    decreases |bs|
  {
    if bs == [] {
      UndoRecordsStart(users, u, key);
    } else {
      UndoEachIsUndoRecords(users, u, key, bs[..|bs| - 1]);
      UndoRecordsStep(users, u, key, bs);
    }
  }

  /** The undo loop of `confirm_delete` (bot.py:388-407): each stored bet
      is taken off the ledger and filtered out of the user's period; an
      emptied period is deleted, and the user too when it has no other. */
  method Undo(users: Users, ledger: Ledger, u: string, key: string, bets: seq<Bet>) returns (us: Users, led: Ledger)
    requires UsersOk(users) && u in users.items && key in users.items[u].items
    requires users.items[u].items[key] != []
    ensures us == UndoRecords(users, u, key, bets) && us == UndoEach(users, u, key, bets)
    ensures led == SubtractBets(ledger, bets)
  {
    var rec := users.items[u];
    var rest := rec.items[key];
    led := ledger;
    var j := 0;
    while j < |bets|
      invariant j <= |bets|
      invariant rest == RemoveEach(rec.items[key], bets[..j])
      invariant led == SubtractBets(ledger, bets[..j])
    {
      assert bets[..j + 1][..j] == bets[..j];
      led := Debit(led, bets[j]);
      rest := Without(rest, bets[j]);
      j := j + 1;
    }
    assert bets[..j] == bets;
    if rest != [] {
      us := Put(users, u, Put(rec, key, rest));
    } else {
      var emptied := Remove(rec, key);
      if emptied.items == map[] {
        us := Remove(users, u);
      } else {
        us := Put(users, u, emptied);
      }
    }
    UndoEachIsUndoRecords(users, u, key, bets);
  }

  /** The overbuy entries recorded for the carrier: each handed-on amount
      negated (bot.py:670). */
  function Negated(bs: seq<Bet>): (ns: seq<Bet>)
    ensures |ns| == |bs|
    ensures forall j :: 0 <= j < |bs| ==> ns[j] == Bet(bs[j].number, -bs[j].amount)
  {
    seq(|bs|, j requires 0 <= j < |bs| => Bet(bs[j].number, -bs[j].amount))
  }

  /** `h` lists every entry of the selection once, with its amount. */
  predicate Enumerates(h: seq<Bet>, sel: map<int, int>) {
    && (forall j :: 0 <= j < |h| ==> h[j].number in sel && h[j].amount == sel[h[j].number])
    && (forall i, j :: 0 <= i < j < |h| ==> h[i].number != h[j].number)
    && NumbersOf(h) == sel.Keys
  }

  /** The loop of `overbuy_confirm` (bot.py:662-676): the carrier's
      period is created if new, then each selected number is appended to its
      list with the amount negated and taken off the ledger. A selection's
      keys are distinct, so any order of the loop gives the same ledger. */
  method HandOn(users: Users, ledger: Ledger, c: string, key: string, sel: map<int, int>)
    returns (us: Users, led: Ledger, handed: seq<Bet>)
    requires UsersOk(users)
    requires LedgerOk(ledger) && forall n :: n in sel ==> InRange(n)
    ensures Enumerates(handed, sel)
    ensures us == Record(users, c, key, Negated(handed))
    ensures led == ConfirmLedger(ledger, sel) && LedgerOk(led)
  {
    var created := Record(users, c, key, []);
    RecordShape(users, c, key, []);
    var list;
    list, led, handed := HandOnLoop(created.items[c].items[key], ledger, sel);
    RecordShape(users, c, key, Negated(handed));
    us := Put(created, c, Put(created.items[c], key, list));
  }

  /** The loop itself, on the carrier's list and the ledger. */
  method HandOnLoop(list: seq<Bet>, ledger: Ledger, sel: map<int, int>) returns (list': seq<Bet>, led: Ledger, handed: seq<Bet>)
    requires LedgerOk(ledger) && forall n :: n in sel ==> InRange(n)
    ensures Enumerates(handed, sel)
    ensures list' == list + Negated(handed)
    ensures led == ConfirmLedger(ledger, sel) && LedgerOk(led)
  {
    var neg: seq<Bet> := [];
    led, handed := ledger, [];
    var todo := sel.Keys;
    ghost var done: set<int> := {};
    HandOnStart(ledger, sel);
    while todo != {}
      invariant todo <= sel.Keys && done == sel.Keys - todo
      invariant neg == Negated(handed)
      invariant led == ConfirmLedger(ledger, Restrict(sel, done)) && LedgerOk(led)
      invariant Enumerates(handed, Restrict(sel, done))
      decreases |todo|
    {
      ghost var some := Member(todo);
      var n :| n in todo;
      neg, led, handed := HandOnNext(ledger, sel, done, n, neg, led, handed);
      todo := todo - {n};
      done := done + {n};
    }
    assert Restrict(sel, done) == sel;
    list' := list + neg;
  }

  /** One iteration of the confirm loop (bot.py:669-676): the number goes
      to the carrier, negated, and comes off the ledger. */
  method HandOnNext(ledger: Ledger, sel: map<int, int>, ghost done: set<int>, n: int,
                    neg: seq<Bet>, led: Ledger, handed: seq<Bet>)
    returns (neg': seq<Bet>, led': Ledger, handed': seq<Bet>)
    requires n in sel && n !in done && InRange(n)
    requires neg == Negated(handed)
    requires led == ConfirmLedger(ledger, Restrict(sel, done)) && LedgerOk(led)
    requires Enumerates(handed, Restrict(sel, done))
    ensures neg' == Negated(handed')
    ensures led' == ConfirmLedger(ledger, Restrict(sel, done + {n})) && LedgerOk(led')
    ensures Enumerates(handed', Restrict(sel, done + {n}))
  {
    HandOnStep(ledger, sel, done, n, handed, led);
    NegatedSnoc(handed, Bet(n, sel[n]));
    neg' := neg + [Bet(n, -sel[n])];
    led' := ConfirmOne(led, n, sel[n]);
    handed' := handed + [Bet(n, sel[n])];
  }

  lemma Member(s: set<int>) returns (n: int)
    requires s != {}
    ensures n in s
  {
    if forall x :: x !in s {
      assert false;
    }
    n :| n in s;
  }

  lemma HandOnStart(ledger: Ledger, sel: map<int, int>)
    ensures ConfirmLedger(ledger, Restrict(sel, {})) == ledger
    ensures Enumerates([], Restrict(sel, {}))
  {
    assert Restrict(sel, {}) == map[];
    ConfirmLedgerOfNothing(ledger);
  }

  /** One iteration of the confirm loop keeps its invariants. */
  lemma HandOnStep(ledger: Ledger, sel: map<int, int>, done: set<int>, n: int, handed: seq<Bet>, led: Ledger)
    requires n in sel && n !in done && InRange(n)
    requires led == ConfirmLedger(ledger, Restrict(sel, done)) && LedgerOk(led)
    requires Enumerates(handed, Restrict(sel, done))
    ensures ConfirmOne(led, n, sel[n]) == ConfirmLedger(ledger, Restrict(sel, done + {n}))
    ensures LedgerOk(ConfirmOne(led, n, sel[n]))
    ensures Enumerates(handed + [Bet(n, sel[n])], Restrict(sel, done + {n}))
  {
    ConfirmLedgerStep(ledger, sel, done, n);
    EnumeratesStep(handed, sel, done, n);
  }

  /** The carrier's entries undo the handed-on amounts: they add up to minus
      the handed total, to minus each number's stake, and negating twice
      gives the entries back. */
  lemma {:induction false} NegatedMeaning(bs: seq<Bet>, n: int)
    ensures SumAmounts(Negated(bs)) == -SumAmounts(bs)
    ensures AmountFor(Negated(bs), n) == -AmountFor(bs, n)
    ensures Negated(Negated(bs)) == bs
    decreases |bs|
  {
    if bs != [] {
      var init, last := bs[..|bs| - 1], bs[|bs| - 1];
      NegatedMeaning(init, n);
      assert bs == init + [last];
      NegatedSnoc(init, last);
      var neg := Negated(bs);
      assert neg[..|neg| - 1] == Negated(init) && neg[|neg| - 1] == Bet(last.number, -last.amount);
    }
  }

  lemma NegatedSnoc(h: seq<Bet>, b: Bet)
    ensures Negated(h + [b]) == Negated(h) + [Bet(b.number, -b.amount)]
  {
    var l, r := Negated(h + [b]), Negated(h) + [Bet(b.number, -b.amount)];
    assert |l| == |r|;
    forall j | 0 <= j < |l|
      ensures l[j] == r[j]
    {
      if j < |h| {
        assert (h + [b])[j] == h[j];
      }
    }
  }

  lemma EnumeratesStep(h: seq<Bet>, sel: map<int, int>, done: set<int>, n: int)
    requires Enumerates(h, Restrict(sel, done)) && n in sel && n !in done
    ensures Enumerates(h + [Bet(n, sel[n])], Restrict(sel, done + {n}))
  {
    var h' := h + [Bet(n, sel[n])];
    NumbersOfSnoc(h');
    assert h'[..|h|] == h;
    assert Restrict(sel, done + {n}).Keys == Restrict(sel, done).Keys + {n};
  }

  /** The report loop of /pnumber (bot.py:705-712). */
  method Holders(users: Users, n: int) returns (holders: seq<(string, int)>)
    requires UsersOk(users)
    ensures holders == PowerHolders(users.order, users.items, n)
  {
    holders := [];
    var i := 0;
    while i < |users.order|
      invariant i <= |users.order|
      invariant holders == PowerHolders(users.order[..i], users.items, n)
    {
      var u := users.order[i];
      assert users.order[..i + 1][..i] == users.order[..i];
      var _, power := Tally(users.items[u], n);
      if power > 0 {
        holders := holders + [(u, power)];
      }
      i := i + 1;
    }
    assert users.order[..i] == users.order;
  }

  /** One more user of the /total report. */
  lemma ReportsOfSnoc(users: Users, comData: map<string, int>, zaData: map<string, int>, p: int, i: nat)
    requires UsersOk(users) && i < |users.order|
    ensures ReportsOf(users.order[..i + 1], users.items, comData, zaData, p)
         == ReportsOf(users.order[..i], users.items, comData, zaData, p)
            + [(users.order[i], ReportFor(users.items, comData, zaData, p, users.order[i]))]
  {
    assert users.order[..i + 1][..i] == users.order[..i];
  }

  /** One user's line of the /total report (bot.py:803-819). */
  method ReportOf(users: Users, comData: map<string, int>, zaData: map<string, int>, p: int, u: string)
    returns (report: Report)
    requires UsersOk(users) && u in users.items
    ensures report == ReportFor(users.items, comData, zaData, p, u)
  {
    var total, power := Tally(users.items[u], p);
    var com := if u in comData then comData[u] else 0;
    var za := if u in zaData then zaData[u] else 0;
    report := Settle(total, power, com, za);
  }

  lemma NetSumSnoc(rs: seq<(string, Report)>, x: (string, Report))
    ensures NetSum(rs + [x]) == NetSum(rs) + x.1.net
  {
    assert (rs + [x])[..|rs|] == rs;
  }

  /** One iteration of the /total loop (bot.py:802-833): the user's line is
      appended to the report and its net added to the running sum. */
  method SettleNext(users: Users, comData: map<string, int>, zaData: map<string, int>, p: int, i: nat,
                    reports: seq<(string, Report)>, net: int)
    returns (reports': seq<(string, Report)>, net': int)
    requires UsersOk(users) && i < |users.order|
    requires reports == ReportsOf(users.order[..i], users.items, comData, zaData, p) && net == NetSum(reports)
    ensures reports' == ReportsOf(users.order[..i + 1], users.items, comData, zaData, p) && net' == NetSum(reports')
  {
    var u := users.order[i];
    var report := ReportOf(users, comData, zaData, p, u);
    ReportsOfSnoc(users, comData, zaData, p, i);
    NetSumSnoc(reports, (u, report));
    reports' := reports + [(u, report)];
    net' := net + report.net;
  }

  /** The report loop of /total (bot.py:799-833). */
  method Settlement(users: Users, comData: map<string, int>, zaData: map<string, int>, p: int)
    returns (reports: seq<(string, Report)>, net: int)
    requires UsersOk(users)
    ensures reports == ReportsOf(users.order, users.items, comData, zaData, p) && net == NetSum(reports)
  {
    reports, net := [], 0;
    var i := 0;
    while i < |users.order|
      invariant i <= |users.order|
      invariant reports == ReportsOf(users.order[..i], users.items, comData, zaData, p)
      invariant net == NetSum(reports)
    {
      reports, net := SettleNext(users, comData, zaData, p, i, reports, net);
      i := i + 1;
    }
    assert users.order[..i] == users.order;
  }
}
