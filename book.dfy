/**
 * The bot's state and its handlers. The module globals of `bot.py` (the
 * admin, `user_data`, the ledger, the rates, the power number, the period
 * switches, the overbuy lists and selections, the break limit and the
 * message store) are the components of the value `State`, which `Book`
 * keeps in its one field `state`; the two per-operator `context.user_data`
 * entries (the carrier being offered overbuy and the user whose rates are
 * being entered) are maps from operator id. Each handler is a method that
 * changes the components the Python handler changes and keeps the rest;
 * Telegram replies, buttons and the clock are left out (the period key is a
 * parameter).
 */
module Bot {
  import opened Wrappers
  import opened Strings
  import opened TwoDigit
  import opened Bets
  import opened BetParser
  import opened Dicts
  import opened Accounts
  import opened Records

  /** An entry of `message_store`: the id of the bot's reply, the bets and
      their total. */
  datatype Stored = Stored(sentId: int, bets: seq<Bet>, total: int)

  /** The bot's globals and the two per-operator `context.user_data`
      entries, as one value. */
  datatype State = State(
    admin: Option<int>,
    users: Users,
    ledger: Ledger,
    zaData: map<string, int>,
    comData: map<string, int>,
    powerNumber: Option<int>,
    dateControl: map<string, bool>,
    overbuyList: map<string, map<int, int>>,
    messageStore: map<(int, int), Stored>,
    overbuySelections: map<string, map<int, int>>,
    breakLimit: Option<int>,
    carrierOf: map<int, string>,
    selectedUser: map<int, string>)

  /** A message containing one of `%&*$` is refused (bot.py:115-117). */
  predicate HasForbidden(text: string) {
    '%' in text || '&' in text || '*' in text || '$' in text
  }

  datatype MessageOutcome = NoUsername | Closed | EmptyText | Forbidden | Failed | NoBets | Recorded(bets: seq<Bet>, total: int)
  datatype TextOutcome = Betting(outcome: MessageOutcome) | RatesSet(com: int, za: int) | BadRates | NotRates
  datatype UndoOutcome = NotFound | NoUser | Undone(user: string)
  datatype BreakOutcome = NotAdminBreak | ShowLimit(limit: Option<int>) | BadLimit | LimitSet(over: map<int, int>)
  datatype OverbuyOutcome = NotAdminOverbuy | NoCarrier | NoLimit | NothingOver | Offered(over: map<int, int>)
  datatype SelectOutcome = UnknownCarrier | Unselected | Selected(amount: int) | NotOnLedger
  datatype ConfirmOutcome = CarrierUnknown | NothingSelected | HandedOn(carrier: string)
  datatype PowerOutcome = NotAdminPower | PowerUsage | BadNumber | OutOfRange | PowerSet
  datatype TotalOutcome = NotAdminTotal | NoData | NoPowerNumber | Settled

  /** What every handler keeps: the dictionaries are consistent, recorded
      and staked numbers are 00..99, stakes are not negative, stored bets
      are ones the parser produces, rates are in the ranges the rates
      handler accepts, and a selection exists only once a break limit is
      set. */
  predicate Consistent(s: State) {
    && UsersOk(s.users) && HistoryOk(s.users)
    && LedgerOk(s.ledger)
    && (forall u :: u in s.comData ==> 0 <= s.comData[u] <= 100)
    && (forall u :: u in s.zaData ==> s.zaData[u] >= 0)
    && (s.powerNumber.Some? ==> InRange(s.powerNumber.value))
    && (forall id :: id in s.messageStore ==> AllWellFormed(s.messageStore[id].bets))
    && (s.overbuySelections != map[] ==> s.breakLimit.Some?)
    && (forall c, n :: c in s.overbuySelections && n in s.overbuySelections[c] ==> InRange(n))
  }

  /** `date_control.get(key, False)` */
  predicate IsOpen(s: State, key: string) {
    key in s.dateControl && s.dateControl[key]
  }

  /** The operator's carrier, when it has a selection:
      `context.user_data.get('overbuy_username')` found in
      `overbuy_selections`. */
  function Carrier(s: State, operator: int): (c: Option<string>)
    ensures c.Some? ==> c.value in s.overbuySelections
  {
    if operator in s.carrierOf && s.carrierOf[operator] in s.overbuySelections then Some(s.carrierOf[operator]) else None
  }

  /** What handling a betting message does to the state: the refusals in
      the order the handler checks them, each leaving the state as it was;
      a message the parser abandons changes nothing either; otherwise the
      user and the period are created if new, the bets are appended to the
      period and added to the ledger, and a message with bets is stored for
      undo. */
  predicate MessageHandled(s: State, s': State, userId: int, username: string, messageId: int, sentId: int,
                           key: string, text: string, r: MessageOutcome)
    requires Consistent(s)
  {
    var open := IsOpen(s, key);
    var admitted := username != "" && open && text != "" && !HasForbidden(text);
    && (r.NoUsername? <==> username == "")
    && (r.Closed? <==> username != "" && !open)
    && (r.EmptyText? <==> username != "" && open && text == "")
    && (r.Forbidden? <==> username != "" && open && text != "" && HasForbidden(text))
    && (r.Failed? <==> admitted && Parse(text).None?)
    && ((r.NoBets? || r.Recorded?) <==> admitted && Parse(text).Some?)
    && (!(r.NoBets? || r.Recorded?) ==> s' == s)
    && ((r.NoBets? || r.Recorded?) ==>
          var bs := Parse(text).value;
          && (r.Recorded? <==> bs != [])
          && (r.Recorded? ==> r.bets == bs && r.total == SumAmounts(bs))
          && s' == s.(users := Record(s.users, username, key, bs),
                      ledger := AddBets(s.ledger, bs),
                      messageStore := if bs == [] then s.messageStore
                                      else s.messageStore[(userId, messageId) := Stored(sentId, bs, SumAmounts(bs))]))
  }

  /** The bot. Its one field holds what the Python program keeps in module
      globals; each handler replaces the parts its Python counterpart
      assigns or mutates. */
  class Book {
    var state: State

    predicate Valid()
      reads this
    {
      Consistent(state)
    }

    predicate IsAdmin(caller: int)
      reads this
    {
      state.admin == Some(caller)
    }

    /** The module globals at start-up (bot.py:25-35). */
    constructor ()
      ensures Valid()
      ensures state == State(None, Empty(), map[], map[], map[], None, map[], map[], map[], map[], None, map[], map[])
    {
      state := State(None, Empty(), map[], map[], map[], None, map[], map[], map[], map[], None, map[], map[]);
    }

    /** /start: whoever sends it becomes the admin (bot.py:68-73). */
    method Start(caller: int)
      requires Valid()
      modifies this
      ensures Valid() && IsAdmin(caller)
      ensures state == old(state).(admin := Some(caller))
    {
      state := state.(admin := Some(caller));
    }

    /** /dateopen and /dateclose: the admin switches a period on or off
        (bot.py:75-95). */
    method SetDate(caller: int, key: string, open: bool) returns (ok: bool)
      requires Valid()
      modifies this
      ensures Valid()
      ensures ok <==> old(IsAdmin(caller))
      ensures ok ==> IsOpen(state, key) == open && state == old(state).(dateControl := old(state).dateControl[key := open])
      ensures !ok ==> state == old(state)
    {
      if !IsAdmin(caller) {
        return false;
      }
      state := state.(dateControl := state.dateControl[key := open]);
      return true;
    }

    /** `handle_message` (bot.py:97-321). */
    method HandleMessage(userId: int, username: string, messageId: int, sentId: int, key: string, text: string)
      returns (r: MessageOutcome)
      requires Valid()
      modifies this
      ensures Valid()
      ensures MessageHandled(old(state), state, userId, username, messageId, sentId, key, text, r)
    {
      if username == "" {
        return NoUsername;
      }
      if !IsOpen(state, key) {
        return Closed;
      }
      if text == "" {
        return EmptyText;
      }
      if HasForbidden(text) {
        return Forbidden;
      }
      var raised, bets, total := ParseTokens(Words(text));
      if raised {
        return Failed;
      }
      RecordKeepsOk(state.users, username, key, bets);
      AddBetsKeepsLedgerOk(state.ledger, bets);
      var users, ledger := Apply(state.users, state.ledger, username, key, bets);
      if bets != [] {
        state := state.(users := users, ledger := ledger,
                        messageStore := state.messageStore[(userId, messageId) := Stored(sentId, bets, total)]);
        return Recorded(bets, total);
      }
      state := state.(users := users, ledger := ledger);
      return NoBets;
    }

    /** The rates button: the operator picks the user whose commission and
        odds the next text sets. The user is the second `:`-separated field
        of the button's data; with fewer fields nothing changes
        (bot.py:742-750). */
    method ComzaInput(operator: int, data: string) returns (ok: bool)
      requires Valid()
      modifies this
      ensures Valid()
      ensures ok <==> |Split(data, ':')| >= 2
      ensures ok ==> state == old(state).(selectedUser := old(state).selectedUser[operator := Split(data, ':')[1]])
      ensures !ok ==> state == old(state)
    {
      var parts := Split(data, ':');
      if |parts| < 2 {
        return false;
      }
      state := state.(selectedUser := state.selectedUser[operator := parts[1]]);
      return true;
    }

    /** `comza_text` (bot.py:752-782), which sees every text message first:
        with no user picked it is a betting message; otherwise the text must
        be `com/za`, and accepted rates are stored for the picked user and
        the pick is cleared. */
    method TextMessage(userId: int, username: string, messageId: int, sentId: int, key: string, text: string)
      returns (r: TextOutcome)
      requires Valid()
      modifies this
      ensures Valid()
      ensures var s := old(state);
        var picked := if userId in s.selectedUser then s.selectedUser[userId] else "";
        && (r.Betting? <==> picked == "")
        && (r.Betting? ==> MessageHandled(s, state, userId, username, messageId, sentId, key, text, r.outcome))
        && (picked != "" ==> match ParseComZa(text)
              case NoSlash => r == NotRates && state == s
              case Malformed => r == BadRates && state == s
              case Rates(c, z) =>
                r == RatesSet(c, z)
                && state == s.(comData := s.comData[picked := c], zaData := s.zaData[picked := z],
                               selectedUser := s.selectedUser - {userId}))
    {
      var picked := if userId in state.selectedUser then state.selectedUser[userId] else "";
      if picked == "" {
        var m := HandleMessage(userId, username, messageId, sentId, key, text);
        return Betting(m);
      }
      match ParseComZa(text) {
        case NoSlash =>
          return NotRates;
        case Malformed =>
          return BadRates;
        case Rates(c, z) =>
          state := state.(comData := state.comData[picked := c], zaData := state.zaData[picked := z],
                          selectedUser := state.selectedUser - {userId});
          return RatesSet(c, z);
      }
    }

    /** The undo button, `confirm_delete` (bot.py:366-409): the stored bets
        are taken off the ledger and out of the history of the first user
        whose history for the current period mentions one of them, and the
        stored message is dropped. */
    method ConfirmDelete(userId: int, messageId: int, key: string) returns (r: UndoOutcome)
      requires Valid()
      modifies this
      ensures Valid()
      ensures var s := old(state);
        && (r.NotFound? <==> (userId, messageId) !in s.messageStore)
        && (r.NotFound? || r.NoUser? ==> state == s)
        && (!r.NotFound? ==>
              var stored := s.messageStore[(userId, messageId)];
              var found := FindUser(s.users.order, s.users.items, key, Texts(stored.bets));
              && (r.NoUser? <==> found.None?)
              && (r.Undone? ==>
                    && r.user == found.value
                    && state == s.(ledger := SubtractBets(s.ledger, stored.bets),
                                   users := UndoRecords(s.users, r.user, key, stored.bets),
                                   messageStore := s.messageStore - {(userId, messageId)})))
    {
      if (userId, messageId) !in state.messageStore {
        return NotFound;
      }
      var stored := state.messageStore[(userId, messageId)];
      var found := SearchUser(state.users, key, Texts(stored.bets));
      if found.None? {
        return NoUser;
      }
      var u := found.value;
      assert NonNegative(stored.bets) by {
        assert AllWellFormed(stored.bets);
      }
      SubtractBetsKeepsLedgerOk(state.ledger, stored.bets);
      UndoRecordsKeepsOk(state.users, u, key, stored.bets);
      var users, ledger := Undo(state.users, state.ledger, u, key, stored.bets);
      state := state.(users := users, ledger := ledger, messageStore := state.messageStore - {(userId, messageId)});
      return Undone(u);
    }

    /** /break (bot.py:465-499): without an argument it shows the limit;
        an argument that is not an integer changes nothing; otherwise it
        becomes the limit and the numbers over it are reported with their
        excess. */
    method SetBreakLimit(caller: int, args: seq<string>) returns (r: BreakOutcome)
      requires Valid()
      modifies this
      ensures Valid()
      ensures !old(IsAdmin(caller)) ==> r == NotAdminBreak
      ensures old(IsAdmin(caller)) && args == [] ==> r == ShowLimit(old(state).breakLimit)
      ensures old(IsAdmin(caller)) && args != [] && ParseInt(args[0]).None? ==> r == BadLimit
      ensures old(IsAdmin(caller)) && args != [] && ParseInt(args[0]).Some? ==>
        var limit := ParseInt(args[0]).value;
        r == LimitSet(Overage(old(state).ledger, limit)) && state == old(state).(breakLimit := Some(limit))
      ensures !r.LimitSet? ==> state == old(state)
    {
      if !IsAdmin(caller) {
        return NotAdminBreak;
      }
      if args == [] {
        return ShowLimit(state.breakLimit);
      }
      var parsed := ParseInt(args[0]);
      if parsed.None? {
        return BadLimit;
      }
      state := state.(breakLimit := Some(parsed.value));
      return LimitSet(Overage(state.ledger, parsed.value));
    }

    /** /overbuy (bot.py:501-544): the argument names the carrier, which is
        remembered for this operator even when nothing is over the limit;
        the carrier's selection starts as everything over the limit. */
    method Overbuy(caller: int, args: seq<string>) returns (r: OverbuyOutcome)
      requires Valid()
      modifies this
      ensures Valid()
      ensures !old(IsAdmin(caller)) ==> r == NotAdminOverbuy
      ensures old(IsAdmin(caller)) && args == [] ==> r == NoCarrier
      ensures old(IsAdmin(caller)) && args != [] && old(state).breakLimit.None? ==> r == NoLimit
      ensures r.NotAdminOverbuy? || r.NoCarrier? || r.NoLimit? ==> state == old(state)
      ensures old(IsAdmin(caller)) && args != [] && old(state).breakLimit.Some? ==>
        var s := old(state);
        var over := Overage(s.ledger, s.breakLimit.value);
        var carried := s.(carrierOf := s.carrierOf[caller := args[0]]);
        && (r == NothingOver <==> over == map[])
        && (r == NothingOver ==> state == carried)
        && (r != NothingOver ==> r == Offered(over) && state == carried.(overbuySelections := s.overbuySelections[args[0] := over]))
    {
      if !IsAdmin(caller) {
        return NotAdminOverbuy;
      }
      if args == [] {
        return NoCarrier;
      }
      if state.breakLimit.None? {
        return NoLimit;
      }
      var carrier := args[0];
      state := state.(carrierOf := state.carrierOf[caller := carrier]);
      var over := Overage(state.ledger, state.breakLimit.value);
      if over == map[] {
        return NothingOver;
      }
      state := state.(overbuySelections := state.overbuySelections[carrier := over]);
      return Offered(over);
    }

    /** A number's button (bot.py:546-581): a selected number is dropped from
        the selection; another number is selected with its stake less the
        limit, and a number not on the ledger changes nothing. */
    method Toggle(operator: int, n: int) returns (r: SelectOutcome)
      requires Valid()
      modifies this
      ensures Valid()
      ensures r.UnknownCarrier? <==> Carrier(old(state), operator).None?
      ensures r.UnknownCarrier? || r.NotOnLedger? ==> state == old(state)
      ensures Carrier(old(state), operator).Some? ==>
        var s := old(state);
        var c := Carrier(s, operator).value;
        var sel := s.overbuySelections[c];
        && (r.Unselected? <==> n in sel)
        && (r.NotOnLedger? <==> n !in sel && n !in s.ledger)
        && (r.Unselected? ==> state == s.(overbuySelections := s.overbuySelections[c := sel - {n}]))
        && (r.Selected? ==>
              && r.amount == s.ledger[n] - s.breakLimit.value
              && state == s.(overbuySelections := s.overbuySelections[c := sel[n := r.amount]]))
    {
      var c := Carrier(state, operator);
      if c.None? {
        return UnknownCarrier;
      }
      var sel := state.overbuySelections[c.value];
      if n in sel {
        state := state.(overbuySelections := state.overbuySelections[c.value := sel - {n}]);
        return Unselected;
      }
      if n !in state.ledger {
        return NotOnLedger;
      }
      var amount := state.ledger[n] - state.breakLimit.value;
      state := state.(overbuySelections := state.overbuySelections[c.value := sel[n := amount]]);
      return Selected(amount);
    }

    /** "Select All" (bot.py:583-612) and "Unselect All" (bot.py:614-644):
        the selection becomes everything over the limit, or nothing. */
    method SelectAll(operator: int, all: bool) returns (found: bool)
      requires Valid()
      modifies this
      ensures Valid()
      ensures found <==> Carrier(old(state), operator).Some?
      ensures found ==>
        var s := old(state);
        var c := Carrier(s, operator).value;
        state == s.(overbuySelections := s.overbuySelections[c := if all then Overage(s.ledger, s.breakLimit.value) else map[]])
      ensures !found ==> state == old(state)
    {
      var c := Carrier(state, operator);
      if c.None? {
        return false;
      }
      var sel := if all then Overage(state.ledger, state.breakLimit.value) else map[];
      state := state.(overbuySelections := state.overbuySelections[c.value := sel]);
      return true;
    }

    /** "OK" (bot.py:646-685): every selected number is handed to the
        carrier. The carrier's period is created if new and receives each
        number with its amount negated, the ledger loses each amount (a
        stake left at zero or below leaves it), and the selection is kept as
        the carrier's overbuy list. `handed` lists the numbers in the order
        they were handed on. */
    method OverbuyConfirm(operator: int, key: string) returns (r: ConfirmOutcome, handed: seq<Bet>)
      requires Valid()
      modifies this
      ensures Valid()
      ensures r.CarrierUnknown? <==> Carrier(old(state), operator).None?
      ensures !r.HandedOn? ==> state == old(state)
      ensures Carrier(old(state), operator).Some? ==>
        var s := old(state);
        var c := Carrier(s, operator).value;
        var sel := s.overbuySelections[c];
        && (r.NothingSelected? <==> sel == map[])
        && (r.HandedOn? ==>
              && r.carrier == c
              && Enumerates(handed, sel)
              && state == s.(users := Record(s.users, c, key, Negated(handed)),
                             ledger := ConfirmLedger(s.ledger, sel),
                             overbuyList := s.overbuyList[c := sel]))
    {
      handed := [];
      var found := Carrier(state, operator);
      if found.None? {
        return CarrierUnknown, handed;
      }
      var c := found.value;
      var sel := state.overbuySelections[c];
      if sel == map[] {
        return NothingSelected, handed;
      }
      var users, ledger;
      users, ledger, handed := HandOn(state.users, state.ledger, c, key, sel);
      RecordKeepsOk(state.users, c, key, Negated(handed));
      state := state.(users := users, ledger := ledger, overbuyList := state.overbuyList[c := sel]);
      return HandedOn(c), handed;
    }

    /** /pnumber (bot.py:687-722): the argument must be an integer 0..99; it
        becomes the power number, and the users with a positive stake on it
        are reported in `user_data` order. */
    method SetPowerNumber(caller: int, args: seq<string>) returns (r: PowerOutcome, holders: seq<(string, int)>)
      requires Valid()
      modifies this
      ensures Valid()
      ensures !old(IsAdmin(caller)) ==> r == NotAdminPower
      ensures old(IsAdmin(caller)) && args == [] ==> r == PowerUsage
      ensures old(IsAdmin(caller)) && args != [] ==>
        match ParseInt(args[0])
        case None => r == BadNumber
        case Some(n) =>
          && (r == OutOfRange <==> !(0 <= n <= 99))
          && (r == PowerSet <==> 0 <= n <= 99)
          && (r == PowerSet ==> holders == PowerHolders(old(state).users.order, old(state).users.items, n)
                                && state == old(state).(powerNumber := Some(n)))
      ensures r != PowerSet ==> state == old(state)
    {
      holders := [];
      if !IsAdmin(caller) {
        return NotAdminPower, holders;
      }
      if args == [] {
        return PowerUsage, holders;
      }
      var parsed := ParseInt(args[0]);
      if parsed.None? {
        return BadNumber, holders;
      }
      var n := parsed.value;
      if n < 0 || n > 99 {
        return OutOfRange, holders;
      }
      state := state.(powerNumber := Some(n));
      holders := Holders(state.users, n);
      return PowerSet, holders;
    }

    /** /total (bot.py:784-843): for each user in `user_data` order, the
        stake, the commission, what is left, the stake on the power number,
        the winnings and the net, and the nets added up. */
    method Total(caller: int) returns (r: TotalOutcome, reports: seq<(string, Report)>, net: int)
      requires Valid()
      ensures !IsAdmin(caller) ==> r == NotAdminTotal
      ensures IsAdmin(caller) && state.users.items == map[] ==> r == NoData
      ensures IsAdmin(caller) && state.users.items != map[] && state.powerNumber.None? ==> r == NoPowerNumber
      ensures r == Settled <==> IsAdmin(caller) && state.users.items != map[] && state.powerNumber.Some?
      ensures r == Settled ==>
        && reports == ReportsOf(state.users.order, state.users.items, state.comData, state.zaData, state.powerNumber.value)
        && net == NetSum(reports)
    {
      reports, net := [], 0;
      if !IsAdmin(caller) {
        return NotAdminTotal, reports, net;
      }
      if state.users.items == map[] {
        return NoData, reports, net;
      }
      if state.powerNumber.None? {
        return NoPowerNumber, reports, net;
      }
      reports, net := Settlement(state.users, state.comData, state.zaData, state.powerNumber.value);
      return Settled, reports, net;
    }

    /** /reset (bot.py:893-912): everything recorded goes; the admin, the
        power number, the message store and the per-operator picks stay. */
    method Reset(caller: int) returns (ok: bool)
      requires Valid()
      modifies this
      ensures Valid()
      ensures ok <==> old(IsAdmin(caller))
      ensures ok ==> state == old(state).(users := Empty(), ledger := map[], zaData := map[], comData := map[],
                                           dateControl := map[], overbuyList := map[],
                                           overbuySelections := map[], breakLimit := None)
      ensures !ok ==> state == old(state)
    {
      if !IsAdmin(caller) {
        return false;
      }
      state := state.(users := Empty(), ledger := map[], zaData := map[], comData := map[],
                      dateControl := map[], overbuyList := map[], overbuySelections := map[], breakLimit := None);
      return true;
    }
  }
}
