# K2Dbot betting book, modelled in Dafny

K2Dbot is a Telegram bot that keeps the book for a two-digit lottery. Numbers run from 00 to 99. Users send free-text bet messages, and an admin manages the book. This project models the bot's core:

- **Parsing** (bot.py:119-296): the bet-text parser that turns one message into `(number, amount)` bets, together with the number tables and categories it expands.
- **Recording and undo**: each message's bets are added to the per-user history and to the ledger, which holds the total stake per number. The undo button takes them back out again.
- **Period gate**: a period key must be opened before bets for it are accepted.
- **Overbuy flow**: `/break` sets a limit on the stake per number, and `/overbuy` plus the selection buttons choose the numbers over that limit. "OK" hands the excess to a carrier as a negative entry.
- **Rates and settlement**: per-user commission and odds (`15/80`), the power (winning) number, `/total` settlement and `/reset`.

Layout:

- `Wrappers`: `Option`.
- `Strings`: ASCII digits, `str.split`, `int()` of free text, `str.replace`.
- `TwoDigit`: `reverse_number`, the fixed tables, the digit categories and the "combination" expansion.
- `Bets`: bets and their `NN-amount` text form.
- `BetParser`: one function per message shape, tried in the source's order, plus the scanning loop as a method.
- `ParserCases`: what each message shape parses to, and worked messages.
- `Dicts`: Python dictionaries with their insertion order.
- `Accounts`: ledger arithmetic, overage, the commission and settlement arithmetic, and the rates text.
- `Records`: `user_data` updates, and the loops of apply, undo, confirm and total as methods.
- `Bot`: class `Book`, whose one field `state` holds every global the handlers change. Each handler is a method that states its whole new state.

Python dictionaries iterate in insertion order, and three results depend on it: which user the undo search finds first, the order of the `/pnumber` holders, and the order of the `/total` report. `Dicts.Dict` therefore keeps the order next to the map. The current period key comes from the clock in the source and is a parameter here. Where the bot's own description and the code disagree, the model follows the code: an undo removes every pair equal to an undone bet from the user's history, not just one copy (`Accounts.UndoRemovesEveryCopy`). So applying a message twice and undoing it once does not leave one copy in the history, although the ledger does keep one copy's stake.

## Model

| member | source | states |
|---|---|---|
| TwoDigit.ReverseNumberSwapsDigits | bot.py:37-39 | the reverse of a number 00..99 swaps its tens and units digit and stays in 00..99 |
| TwoDigit.ReverseNumberInvolution | bot.py:37-39 | reversing twice gives the number back |
| TwoDigit.ReverseNumberFixedPoints | bot.py:37-39 | a number is its own reverse exactly when it is a multiple of 11 |
| TwoDigit.Reversed | bot.py:38 | `s[::-1]` keeps the length and puts character i at position len-1-i |
| TwoDigit.FixedTable | bot.py:234-240 | exactly the five table names have a table; each has ten numbers in 00..99 |
| TwoDigit.DoublesTableMeaning | bot.py:235 | the doubles table holds exactly the multiples of 11 |
| TwoDigit.DoublesAreTheFixedPoints | bot.py:235 | the doubles table is exactly the set of numbers equal to their own reverse |
| TwoDigit.TablesSwapped | bot.py:236-240 | swapping the digits maps each power and nakha entry to another entry of its table, and each brothers entry to the reversed-brothers table |
| TwoDigit.TablesUnderReverse | bot.py:236-240 | the same facts stated with `reverse_number` |
| TwoDigit.SelectMeaning | bot.py:259-269 | a category's selection is strictly ascending, within range, and holds exactly the numbers the category admits |
| TwoDigit.SelectCount | bot.py:262-269 | the size of a break or include selection, counted per tens row |
| TwoDigit.CategoryNumbersMeaning | bot.py:259-269 | head, tail and break give 10 distinct numbers and include gives 19; each holds exactly the numbers of its rule |
| TwoDigit.CategoryOf | bot.py:251-256 | a recognised suffix yields a digit 0..9 |
| TwoDigit.ComboDoublesMarkerSpelling | bot.py:208-209 | the with-doubles marker is the doubles prefix followed by the plain marker |
| TwoDigit.DigitsOf | bot.py:211 | one digit 0..9 per character |
| TwoDigit.ComboRowMeaning | bot.py:214-218 | one row of the pairs loop keeps the list so far in front and appends exactly `d[j]*10+d[k]` for `k != j` not yet present, and keeps the list duplicate-free |
| TwoDigit.ComboRowsMeaning | bot.py:213-218 | the pairs loop collects exactly the ordered pairs of distinct positions, without duplicates |
| TwoDigit.WithDoublesMeaning | bot.py:220-224 | adding the doubles keeps the pairs in front and appends exactly the `d*11` not yet present |
| TwoDigit.ComboNumbersMeaning | bot.py:208-224 | the combination list is duplicate-free and within range; it holds every pair of distinct positions (and every double when the marker asks for them) and nothing else |
| TwoDigit.ComboNumbersOrder | bot.py:211-224 | the combination list is every pair of distinct positions, row by row, each kept at its first occurrence, followed by the doubles not yet there in digit order; the pairs come first |
| TwoDigit.ComboRowDedup | bot.py:214-218 | one row of the pairs loop is the first-occurrence scan of that row's pairs onto the list so far |
| TwoDigit.ComboRowsDedup | bot.py:213-218 | the pairs loop is the first-occurrence scan of all the rows, one after the other |
| TwoDigit.WithDoublesDedup | bot.py:220-224 | the doubles loop is the first-occurrence scan of the doubles in digit order |
| TwoDigit.DedupOntoMeaning | bot.py:217-218 | appending what is not there yet keeps the list in front, adds no repeat, and adds exactly the new elements |
| TwoDigit.DedupOntoAppend | bot.py:213-224 | scanning two lists in turn is scanning their concatenation |
| TwoDigit.DedupSnoc | bot.py:217-218 | one more element is appended exactly when it is not there yet |
| TwoDigit.DedupPrefix | bot.py:213-224 | what the scan keeps from a list stays in front when more elements follow |
| TwoDigit.ComboPairsExample | bot.py:212-218 | the digits 1,2,3 give 12,13,21,23,31,32 in that order |
| TwoDigit.ComboExample | bot.py:208-224 | the same digits with the doubles marker also give 11,22,33 at the end |
| TwoDigit.DoublesExample | bot.py:220-224 | the doubles of 1, 2, 3 are appended after the pairs in digit order, none of them already present |
| TwoDigit.ComboRepeatedDigitExample | bot.py:212-218 | a repeated digit gives 11,12,21: the duplicate pairs are skipped |
| Strings.DigitOf | bot.py:211 | `int()` of one ASCII digit is 0..9 and converts back to that digit |
| Strings.Decimal | bot.py:134 | the decimal text of a number is all digits, one character exactly for 0..9 |
| Strings.DecimalRoundTrip | bot.py:304-306 | reading back the decimal text of a number gives the number |
| Strings.DecimalValueSnoc | bot.py:129 | appending a digit multiplies the value by ten and adds the digit |
| Strings.WordLength | bot.py:119 | a word ends at the first whitespace character |
| Strings.Words | bot.py:119 | `text.split()` gives non-empty words without whitespace |
| Strings.WordsKeepEveryOtherCharacter | bot.py:119 | the words, joined, are the text with its whitespace removed |
| Strings.WordLengthOfWord | bot.py:119 | a word runs up to the whitespace or the end that follows it |
| Strings.WordsOfWordThen | bot.py:119 | a word followed by whitespace or the end of the text is the first word |
| Strings.WordsAfterSpace | bot.py:119 | whitespace before the text's first word is skipped, so together with Strings.WordsOfWordThen the words of every text are fixed |
| Strings.WordsOfJoin | bot.py:119 | `split()` of non-empty whitespace-free words joined by single spaces gives the words back |
| Strings.Split | bot.py:141 | `split(sep)` gives one more part than there are separators, and no part holds the separator |
| Strings.JoinSplit | bot.py:141 | joining the parts with the separator gives the text back |
| Strings.SplitJoin | bot.py:141 | splitting a join of separator-free parts gives the parts |
| Strings.SplitWithoutSeparator | bot.py:153 | text without the separator splits into itself |
| Strings.SplitAtFirst | bot.py:153 | a split at a first separator starts with the text before it |
| Strings.CountZero | bot.py:760 | a character occurs zero times exactly when it is absent |
| Strings.CountAppend | bot.py:141 | occurrences in a concatenation add up |
| Strings.IndexOf | bot.py:177 | the first occurrence of a character |
| Strings.SplitOnce | bot.py:177 | `split('r', 1)` yields the text before the first 'r' and the rest, around that 'r' |
| Strings.SplitOnceAt | bot.py:177 | splitting at a first 'r' recovers the two halves |
| Strings.ContainsLonger | bot.py:208 | a text never contains something longer than itself |
| Strings.ContainsChar | bot.py:208 | a contained word's characters occur in the text |
| Strings.ContainsSuffix | bot.py:208 | a text contains its own suffix |
| Strings.RemoveAll | bot.py:209 | `replace(w, '')` does not lengthen the text or add characters |
| Strings.RemoveAllAbsent | bot.py:209 | replacing a word that is absent changes nothing |
| Strings.RemoveAllAfterDigits | bot.py:209 | a leading run of digits is kept by the replacement |
| Strings.RemoveAllBefore | bot.py:209 | a text ending in the word loses only that occurrence |
| Strings.RemoveAllSelf | bot.py:209 | the word alone is removed entirely |
| Strings.DropUnderscores | bot.py:766-767 | the digits `int()` reads once underscores are dropped |
| Strings.DropUnderscoresOfDigits | bot.py:766-767 | a digit string without underscores is read as is |
| Strings.StripOfNoSpace | bot.py:766-767 | stripping text without whitespace changes nothing |
| Strings.ParseIntOfDigits | bot.py:766-767 | `int()` of a digit string is its decimal value |
| Strings.ParseIntOfStr | bot.py:766-767 | `int(str(n))` is n for every integer, negatives included |
| Strings.ParseIntOfNegated | bot.py:766-767 | `int()` of a minus sign followed by a digit string is the negated decimal value |
| Strings.StrInjective | bot.py:766-767 | different integers have different decimal texts |
| Bets.Pad2 | bot.py:134 | `{:02d}` of a number 00..99 is two digits |
| Bets.Pad2Value | bot.py:134 | the padded text reads back as the number |
| Bets.BetTextRoundTrip | bot.py:304-306 | splitting a bet's `NN-amount` text at '-' and reading both halves gives the bet back |
| Bets.FormatInjective | bot.py:134 | two bets on 00..99 with the same text are the same bet |
| Bets.FormatInAgrees | bot.py:378 | a bet's text is among the texts of a list exactly when the bet is in the list |
| Bets.StakeEachMeaning | bot.py:228-230 | staking some numbers at one amount totals count times amount, gives exactly the bets on those numbers at that amount, and with distinct numbers stakes each listed number that amount and every other number nothing |
| Bets.SumOfEqualAmounts | bot.py:228-230 | n bets at one amount total n times that amount |
| Bets.SumAmountsAppend | bot.py:230 | the running total adds up across batches |
| Bets.AmountForAppend | bot.py:307 | the stake on one number adds up across batches |
| Bets.AmountForBounds | bot.py:307 | a number not bet on gets no stake, and non-negative bets give a non-negative stake |
| BetParser.PairRule | bot.py:127-138 | the `n1 n2 amt` rule consumes three tokens, its bets are well formed, and its total is their sum |
| BetParser.SlashRule | bot.py:140-150 | the `n1/n2/.../amt` rule consumes one token with a consistent total |
| BetParser.InRangeBets | bot.py:144-148 | numbers out of 00..99 are dropped; every bet carries the last amount |
| BetParser.HyphenRule | bot.py:152-161 | the `n-amt` rule consumes one token with a consistent total |
| BetParser.WithReverse | bot.py:168-171 | a number and its reverse are well formed and total both amounts |
| BetParser.ReverseRule | bot.py:163-174 | the `nRamt` rule consumes one token with a consistent total |
| BetParser.HyphenReverseRule | bot.py:176-190 | the `n-amt1Ramt2` rule consumes one token, or abandons the message |
| BetParser.SplitReverseRule | bot.py:192-206 | the `n amt1Ramt2` rule consumes two tokens with a consistent total |
| BetParser.ComboRule | bot.py:208-232 | the combination rule consumes two tokens with a consistent total |
| BetParser.FixedRule | bot.py:234-249 | the table rule consumes two tokens with a consistent total |
| BetParser.CategoryRule | bot.py:251-280 | the category rule consumes two tokens with a consistent total |
| BetParser.BareRule | bot.py:282-294 | a lone number takes the next amount or 500 |
| BetParser.RuleAt | bot.py:127-294 | each rule in the loop's order yields a consistent match or none |
| ParserCases.FirstRule | bot.py:127-294 | the first rule in the loop's order that recognises the tokens decides the step |
| ParserCases.DropRule | bot.py:296 | a token no rule recognises is dropped: no bets, one token consumed, nothing added |
| BetParser.Step | bot.py:120-296 | every token position makes progress or abandons the message |
| BetParser.ParseFrom | bot.py:119-296 | the specification of the scanning loop: a parse that succeeds yields well-formed bets |
| BetParser.ParseFromUnfold | bot.py:120-296 | the parse is one step followed by the parse of the rest |
| BetParser.Advance | bot.py:120-296 | one pass of the loop keeps the total equal to the bets' sum and keeps the parse of the rest |
| BetParser.ParseTokens | bot.py:119-296 | the loop raises exactly when the specification abandons the message; otherwise it returns the specified bets and their total |
| ParserCases.PairCase | bot.py:127-138 | three numeric tokens with two numbers in range give both numbers at the third amount |
| ParserCases.SlashCase | bot.py:140-150 | a slash token gives the numbers in range at the last amount |
| ParserCases.SlashMessageOf | bot.py:140-150 | a message that is one slash token of three or more digit fields parses to the in-range numbers of all but the last field, each at the last field's amount |
| ParserCases.InRangeBetsMeaning | bot.py:144-148 | a bet is produced exactly when its number is one of the listed numbers, in range, at the last amount |
| ParserCases.HyphenCase | bot.py:152-161 | `n-amt` gives that one bet |
| ParserCases.ReverseCase | bot.py:163-174 | `nRamt` gives the number and its reverse at that amount |
| ParserCases.HyphenReverseCase | bot.py:176-190 | `n-amt1Ramt2` gives the number at amt1 and its reverse at amt2 |
| ParserCases.SplitReverseCase | bot.py:192-206 | `n amt1Ramt2` over two tokens does the same |
| ParserCases.RaiseCase | bot.py:176-190 | a token with one 'r' and two or more '-' before it abandons the whole message |
| ParserCases.BareCase | bot.py:282-294 | a lone number without a following amount is staked at 500 |
| ParserCases.BareWithAmountCase | bot.py:282-294 | a number followed by an amount is staked at that amount |
| ParserCases.ComboBaseOfMarker | bot.py:208-209 | removing the plain marker leaves the digits |
| ParserCases.ComboBaseOfDoublesMarker | bot.py:208-209 | removing both markers from the with-doubles form leaves the digits |
| ParserCases.ComboCase | bot.py:208-232 | digits plus the marker and an amount stake every combination at that amount |
| ParserCases.ComboDoublesCase | bot.py:208-232 | with the doubles marker the doubles are staked too |
| ParserCases.FixedCase | bot.py:234-249 | a table name and an amount stake the table's ten numbers |
| ParserCases.CategoryCase | bot.py:251-280 | a digit with a category suffix and an amount stake the category's numbers |
| ParserCases.CategoryOfAt | bot.py:252-256 | the first suffix in the list's order that matches, with a one-digit prefix, decides |
| ParserCases.PlainTokenHasNoKeyword | bot.py:208-280 | a token without the keywords' characters matches no keyword rule |
| ParserCases.CategoryOfShape | bot.py:251-258 | a token with a category starts with a digit and holds no combo-marker character |
| ParserCases.OutOfRangeDropCase | bot.py:282-296 | a number above 99 that does not open a pair is dropped |
| ParserCases.UnknownWordDropCase | bot.py:140-296 | a word that starts with no digit, holds no separator or marker and is no table name is dropped |
| ParserCases.FixedDropCase | bot.py:241-296 | a table name not followed by an amount is dropped |
| ParserCases.CategoryDropCase | bot.py:251-296 | a category token not followed by an amount is dropped |
| ParserCases.ComboDropCase | bot.py:208-296 | a combo token with fewer than two digits, or not followed by an amount, is dropped |
| ParserCases.MarkedTokenShape | bot.py:208-209 | digits plus either marker is a combo token whose base is those digits |
| ParserCases.PairMessage | bot.py:127-138 | "12 13 500" gives 12 and 13 at 500 |
| ParserCases.PairText | bot.py:119-138 | the text "12 13 500", split and parsed, gives 12 and 13 at 500 |
| ParserCases.DropExample | bot.py:282-296 | "150 12" drops 150 and gives 12 at 500 |
| ParserCases.RaiseMessage | bot.py:176-190 | "1-2-3r4 12" gives nothing: the message is abandoned |
| ParserCases.ReverseMessage | bot.py:163-174 | "5r500" gives 05 and 50 at 500 |
| ParserCases.HyphenMessage | bot.py:152-161 | "7-300" gives 07 at 300 |
| ParserCases.BareMessage | bot.py:282-294 | "12" gives 12 at 500 |
| ParserCases.SplitReverseMessage | bot.py:192-206 | "12 100r200" gives 12 at 100 and 21 at 200 |
| ParserCases.HyphenReverseMessage | bot.py:176-190 | "12-100r200" gives 12 at 100 and 21 at 200 |
| ParserCases.SlashMessage | bot.py:140-150 | "25/36/47/100" gives the three numbers at 100 |
| ParserCases.SlashOutOfRangeMessage | bot.py:140-150 | "150/20/100" skips 150 and gives 20 at 100 |
| Dicts.Empty | bot.py:25-35 | an empty dictionary |
| Dicts.Put | bot.py:298-301 | assignment updates the value; a new key goes last, an existing key keeps its place |
| Dicts.EraseMeaning | bot.py:404-407 | deleting a key leaves every other key and no duplicates |
| Dicts.EraseAppend | bot.py:404-407 | deleting a key from a concatenation deletes it from each part, so the other keys keep their order |
| Dicts.EraseSingle | bot.py:404-407 | deleting a key from a one-key list removes that key and keeps any other |
| Dicts.Remove | bot.py:404-407 | `del` removes the key, keeps the dictionary consistent and keeps the other keys in their order |
| Dicts.PutPut | bot.py:307 | assigning twice is assigning the second value |
| Dicts.RemovePut | bot.py:404-407 | deleting a key undoes an assignment to it |
| Accounts.AddBetsMeaning | bot.py:303-308 | applying bets adds each number's stake from the batch, and the keys grow by exactly the batch's numbers |
| Accounts.AddBetsKeepsLedgerOk | bot.py:303-308 | applying bets keeps every stake non-negative and every number in 00..99 |
| Accounts.SubtractBetsMeaning | bot.py:393-396 | undoing subtracts each number's stake and drops a number whose stake falls to zero or less |
| Accounts.SubtractBetsKeepsLedgerOk | bot.py:393-396 | undoing keeps the ledger consistent |
| Accounts.UndoRestoresLedger | bot.py:393-396 | on a ledger whose stakes are all positive, applying a batch of non-negative bets and undoing it restores the ledger exactly |
| Accounts.WithoutMeaning | bot.py:399-402 | removing a bet from a history removes every copy and keeps every other bet with its multiplicity |
| Accounts.RemoveEachMeaning | bot.py:398-407 | after an undo a history holds exactly its bets that were not undone, each as often as before |
| Accounts.UndoRemovesEveryCopy | bot.py:398-407 | the same bet applied twice and undone once keeps one stake on the ledger but no copy in the history |
| Accounts.ConfirmLedgerStep | bot.py:669-676 | confirming one more selected number updates that number only |
| Accounts.ConfirmClearsOverage | bot.py:662-676 | after confirming the overage, nothing is over the limit: over-limit numbers sit at the limit (or go when the limit is not positive) and the rest keep their stakes |
| Accounts.OverbuyExample | bot.py:662-676 | with limit 5000, 23 at 7000 is 2000 over and confirming leaves it at 5000 |
| Accounts.Settle | bot.py:812-819 | the commission is `total*com/100` rounded down, the winnings are the power stake times the odds, after-commission plus commission is the total, and net plus winnings is after-commission |
| Accounts.CommissionBounds | bot.py:812-819 | with a rate of 0..100 the commission lies between zero and the total |
| Accounts.SettleExamples | bot.py:812-819 | 10000 at 15% and odds 80 with 500 on the power number gives net -31500; -150 at 15% gives commission -23 |
| Accounts.PeriodsTotalUpdate | bot.py:806-810 | changing one period's list changes the user's total by that list's difference |
| Accounts.RecordRaisesTotal | bot.py:806-810 | appending bets to a period raises the user's total by their sum |
| Accounts.ReportsOf | bot.py:799-833 | one report per user, in `user_data` order, each that user's settlement |
| Accounts.PowerHoldersMeaning | bot.py:705-712 | the holders are exactly the users with a positive stake on the power number, with that stake |
| Accounts.ParseComZa | bot.py:760-777 | text without '/' is not rates; otherwise the result is rates of 0..100 and at least 0, or malformed |
| Accounts.ComZaText | bot.py:762-774 | `c/z` is accepted exactly when 0 <= c <= 100 and z >= 0 |
| Accounts.ComZaNeedsOneSlash | bot.py:762-764 | two or more '/' are malformed |
| Records.RecordKeepsOk | bot.py:298-308 | recording keeps `user_data` consistent and adds exactly the user |
| Records.RecordAppend | bot.py:298-308 | recording two batches is recording their concatenation |
| Records.RecordRaisesUserTotal | bot.py:298-308 | recording raises the user's total by the batch's sum |
| Records.TextsInjective | bot.py:134 | two lists of well-formed bets with the same stored texts are the same list |
| Records.MentionsAgrees | bot.py:375-380 | the text-membership search finds a period entry exactly when one of the stored bets equals it |
| Records.FindUser | bot.py:373-382 | the user found is a named user whose current period holds an undone bet |
| Records.FindUserMeaning | bot.py:373-382 | no user is found exactly when no named user qualifies; otherwise the first qualifying one in `user_data` order is found |
| Records.UndoOne | bot.py:398-407 | one undo step keeps `user_data` consistent |
| Records.UndoRecordsKeepsOk | bot.py:398-407 | the undo keeps `user_data` consistent |
| Records.UndoEachIsUndoRecords | bot.py:398-407 | undoing bet by bet equals the specification of the undo |
| Records.Tally | bot.py:806-810 | the loop computes the user's total and power stake |
| Records.ScanPeriod | bot.py:375-380 | the inner search loop answers whether the period mentions a stored bet |
| Records.SearchUser | bot.py:373-382 | the outer search loop finds the specified user |
| Records.Apply | bot.py:298-308 | the apply loop records the bets and adds them to the ledger |
| Records.AppendBets | bot.py:303-308 | the loop appends the bets and adds them to the ledger |
| Records.Undo | bot.py:388-407 | the undo loop removes the bets from the user's period and subtracts them from the ledger |
| Records.NegatedMeaning | bot.py:670 | negating a carrier's entries negates the total and every number's stake, and negating twice gives the bets back |
| Records.HandOn | bot.py:662-676 | the confirm loop hands on each selected number once at its selected amount, records the negated bets for the carrier, and confirms the ledger |
| Records.HandOnLoop | bot.py:662-676 | the loop itself, on the carrier's period list |
| Records.HandOnNext | bot.py:669-676 | one pass of the confirm loop keeps the loop's invariant |
| Records.Holders | bot.py:705-712 | the `/pnumber` loop lists the power-number holders in `user_data` order |
| Records.ReportOf | bot.py:803-819 | one user's report from their totals and rates |
| Records.SettleNext | bot.py:802-833 | one pass of the `/total` loop extends the reports and the net sum |
| Records.Settlement | bot.py:799-833 | the `/total` loop gives every user's report in order and the sum of the nets |
| Bot.Carrier | bot.py:553-556 | the operator's carrier, when it has a selection |
| Bot.Book.constructor | bot.py:25-35 | every global starts empty, with no admin, no power number and no limit |
| Bot.Book.Start | bot.py:68-73 | the caller becomes admin and nothing else changes |
| Bot.Book.SetDate | bot.py:75-95 | only the admin opens or closes a period; the switch is set and nothing else changes |
| Bot.Book.HandleMessage | bot.py:97-321 | the refusals in the source's order change nothing; an accepted message records its parsed bets in `user_data` and the ledger, and stores them for undo when there are any |
| Bot.Book.ComzaInput | bot.py:742-750 | the selected user is the field between the first and second ':' of the button data (the rest when there is only one ':'); data without ':' changes nothing |
| Bot.Book.TextMessage | bot.py:752-782 | with no user selected the text is a bet message; otherwise valid rates are stored for that user and the selection cleared, and invalid text changes nothing |
| Bot.Book.ConfirmDelete | bot.py:366-409 | an unknown message or a search that finds nobody changes nothing; otherwise the found user's period and the ledger lose the stored bets and the message is forgotten |
| Bot.Book.SetBreakLimit | bot.py:465-499 | the admin sees the limit, has a bad number refused, or sets the limit and gets the overage |
| Bot.Book.Overbuy | bot.py:501-544 | the admin names a carrier and gets the overage as the initial selection, or is told nothing is over |
| Bot.Book.Toggle | bot.py:546-581 | a selected number is dropped; an unselected number on the ledger is added at its excess over the limit |
| Bot.Book.SelectAll | bot.py:583-644 | the selection becomes the whole overage, or empty |
| Bot.Book.OverbuyConfirm | bot.py:646-685 | the selection is handed to the carrier as negated entries, the ledger is confirmed and the list is remembered; an empty selection changes nothing |
| Bot.Book.SetPowerNumber | bot.py:687-722 | a number 0..99 becomes the power number and its holders are listed; anything else is refused without change |
| Bot.Book.Total | bot.py:784-843 | only the admin settles, only with data and a power number; the reports are every user's in order with the summed net |
| Bot.Book.Reset | bot.py:893-912 | the admin clears the book, the rates, the date ranges, the limit and the overbuy state; the admin, the power number and the message store stay |

## Left out

- The Telegram side is not modelled: replies, inline keyboards, message editing, logging and the `try/except` wrappers that turn errors into replies. The outcome datatypes name which reply would follow.
- The clock is a parameter: `get_current_date_key` reads it, and the model takes the period key as given.
- The handler's async scheduling is not modelled; every handler runs to completion on its own.
- Non-ASCII digits are not modelled: `str.isdigit` and `int()` accept other Unicode digits, and the model accepts only ASCII ones.
- TwoDigit.CategoryNumbersMeaning: the include category is built as `list(set(...))`, whose order depends on Python's hashing; the model uses ascending order and states only its contents and size.
- Records.HandOn: the selection is a dictionary whose order follows the clicks; the model keeps it as a map, so the contract says the handed bets enumerate the selection once each, in some order.
- Bot.Book.OverbuyConfirm: the same order caveat as Records.HandOn applies to the carrier's entries.
- The other handlers are not modelled: `delete_bet` (only shows the undo buttons), `cancel_delete` (only edits a message), `ledger_summary`, `tsent`, `alldata`, `posthis` with its callback, `comandza` (only offers buttons) and `show_menu`. They report on the state without changing it, or change only Telegram messages.
- bot_extension.py is not part of this model.
