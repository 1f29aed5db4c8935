/**
 * Two-digit numbers 00..99 and the named groups of them that bet text can
 * select: the reverse of a number, the five fixed tables, the four
 * digit-plus-suffix categories, and the digit-permutation ("combo") sets.
 *
 * The keywords are kept as the exact character sequences that bot.py
 * compares against (the file holds the Burmese words in a mis-decoded form);
 * the comments give the word each one stands for.
 */
module TwoDigit {
  import opened Wrappers
  import opened Strings

  predicate InRange(n: int) {
    0 <= n <= 99
  }

  // ------------------------------------------------------------- reverse

  /** `s.zfill(2)` for a string without a sign. */
  function ZFill2(s: string): string {
    if |s| < 2 then seq(2 - |s|, _ => '0') + s else s
  }

  /** `s[::-1]` */
  function Reversed(s: string): (r: string)
    ensures |r| == |s|
    ensures forall i :: 0 <= i < |s| ==> r[i] == s[|s| - 1 - i]
  {
    if s == [] then [] else Reversed(s[1..]) + [s[0]]
  }

  /** `reverse_number(n)`: spell `n` with at least two digits, reverse the
      characters, read the result back as a number. */
  function ReverseNumber(n: nat): nat {
    var s := Reversed(ZFill2(Decimal(n)));
    assert AllDigits(s);
    DecimalValue(s)
  }

  /** On 00..99 the reverse swaps the tens and the units digit (5 -> 50, 37 -> 73). */
  lemma ReverseNumberSwapsDigits(n: nat)
    requires InRange(n)
    ensures ReverseNumber(n) == (n % 10) * 10 + n / 10
    ensures InRange(ReverseNumber(n))
  {
    var r := Reversed(ZFill2(Decimal(n)));
    var lo, hi := CharOf(n % 10), CharOf(n / 10);
    if n < 10 {
      assert Decimal(n) == [lo];
      assert ZFill2(Decimal(n)) == ['0', lo];
    } else {
      assert Decimal(n / 10) == [hi];
      assert Decimal(n) == [hi, lo];
    }
    assert r == [lo, hi];
    assert r[..1] == [lo];
    assert DecimalValue(r[..1]) == DigitOf(lo) == n % 10;
  }

  /** The number with tens digit `t` and units digit `u`. */
  lemma FromDigits(t: int, u: int)
    requires 0 <= t <= 9 && 0 <= u <= 9
    ensures (10 * t + u) / 10 == t && (10 * t + u) % 10 == u
  {
  }

  /** Reversing twice gives the number back. */
  lemma ReverseNumberInvolution(n: nat)
    requires InRange(n)
    ensures ReverseNumber(ReverseNumber(n)) == n
  {
    var t, u := n / 10, n % 10;
    ReverseNumberSwapsDigits(n);
    var m := ReverseNumber(n);
    assert m == 10 * u + t;
    FromDigits(u, t);
    ReverseNumberSwapsDigits(m);
  }

  /** The numbers equal to their own reverse are exactly 00, 11, ..., 99. */
  lemma ReverseNumberFixedPoints(n: nat)
    requires InRange(n)
    ensures ReverseNumber(n) == n <==> n % 11 == 0
  {
    var t, u := n / 10, n % 10;
    ReverseNumberSwapsDigits(n);
    assert ReverseNumber(n) == 10 * u + t && n == 10 * t + u;
    if n % 11 == 0 {
      var k := n / 11;
      assert n == 10 * k + k;
      FromDigits(k, k);
    }
    if t == u {
      assert n == 11 * t;
    }
  }

  // -------------------------------------------------------- fixed tables

  /** "a-pu": the doubles. */
  const DoublesName: string := "\U{00E1}\U{20AC}\U{00A1}\U{00E1}\U{20AC}\U{2022}\U{00E1}\U{20AC}\U{00B0}\U{00E1}\U{20AC}\U{00B8}"
  /** "pawa": the power numbers. */
  const PowerName: string := "\U{00E1}\U{20AC}\U{2022}\U{00E1}\U{20AC}\U{00AB}\U{00E1}\U{20AC}\U{00E1}\U{20AC}\U{00AB}"
  /** "nakha" */
  const NakhaName: string := "\U{00E1}\U{20AC}\U{201D}\U{00E1}\U{20AC}\U{20AC}\U{00E1}\U{20AC}\U{00B9}\U{00E1}\U{20AC}"
  /** "nyi-ko": units digit one above the tens digit. */
  const BrothersName: string := "\U{00E1}\U{20AC}\U{0160}\U{00E1}\U{20AC}\U{00AE}\U{00E1}\U{20AC}\U{20AC}\U{00E1}\U{20AC}\U{00AD}\U{00E1}\U{20AC}\U{00AF}"
  /** "ko-nyi": units digit one below the tens digit. */
  const BrothersReversedName: string := "\U{00E1}\U{20AC}\U{20AC}\U{00E1}\U{20AC}\U{00AD}\U{00E1}\U{20AC}\U{00AF}\U{00E1}\U{20AC}\U{0160}\U{00E1}\U{20AC}\U{00AE}"

  const DoublesTable: seq<int> := [0, 11, 22, 33, 44, 55, 66, 77, 88, 99]
  const PowerTable: seq<int> := [5, 16, 27, 38, 49, 50, 61, 72, 83, 94]
  const NakhaTable: seq<int> := [7, 18, 24, 35, 42, 53, 69, 70, 81, 96]
  const BrothersTable: seq<int> := [1, 12, 23, 34, 45, 56, 67, 78, 89, 90]
  const BrothersReversedTable: seq<int> := [9, 10, 21, 32, 43, 54, 65, 76, 87, 98]

  /** `fixed_special_cases[entry]`, when the token is one of the five names. */
  function FixedTable(entry: string): (r: Option<seq<int>>)
    ensures r.Some? ==> |r.value| == 10 && forall j :: 0 <= j < 10 ==> InRange(r.value[j])
    ensures r.Some? <==> entry in {DoublesName, PowerName, NakhaName, BrothersName, BrothersReversedName}
  {
    if entry == DoublesName then Some(DoublesTable)
    else if entry == PowerName then Some(PowerTable)
    else if entry == NakhaName then Some(NakhaTable)
    else if entry == BrothersName then Some(BrothersTable)
    else if entry == BrothersReversedName then Some(BrothersReversedTable)
    else None
  }

  predicate Distinct(s: seq<int>) {
    forall j, k :: 0 <= j < k < |s| ==> s[j] != s[k]
  }

  /** The doubles table holds the multiples of eleven in 00..99. */
  lemma DoublesTableMeaning(n: int)
    requires InRange(n)
    ensures n in DoublesTable <==> n % 11 == 0
  {
    forall j | 0 <= j < 10
      ensures DoublesTable[j] == 11 * j && (11 * j) % 11 == 0
    {
    }
    if n in DoublesTable {
      var j :| 0 <= j < |DoublesTable| && DoublesTable[j] == n;
    }
    if n % 11 == 0 {
      var k := n / 11;
      assert DoublesTable[k] == n;
    }
  }

  /** The doubles table holds exactly the numbers that are their own reverse. */
  lemma DoublesAreTheFixedPoints(n: nat)
    requires InRange(n)
    ensures n in DoublesTable <==> ReverseNumber(n) == n
  {
    ReverseNumberFixedPoints(n);
    DoublesTableMeaning(n);
  }

  /** Where the reverse of each entry of the power and nakha tables sits in
      the same table, and of each "brothers" entry in the other table. */
  const PowerPartner: seq<nat> := [5, 6, 7, 8, 9, 0, 1, 2, 3, 4]
  const NakhaPartner: seq<nat> := [7, 8, 4, 5, 2, 3, 9, 0, 1, 6]

  /** Tens and units digit exchanged. */
  function SwapDigits(n: int): int {
    (n % 10) * 10 + n / 10
  }

  lemma TablesSwapped(k: nat)
    requires k < 10
    ensures SwapDigits(PowerTable[k]) == PowerTable[PowerPartner[k]]
    ensures SwapDigits(NakhaTable[k]) == NakhaTable[NakhaPartner[k]]
    ensures SwapDigits(BrothersTable[k]) == BrothersReversedTable[(k + 1) % 10]
  {
    if k == 0 {} else if k == 1 {} else if k == 2 {} else if k == 3 {} else if k == 4 {}
    else if k == 5 {} else if k == 6 {} else if k == 7 {} else if k == 8 {} else {}
  }

  /** The power and nakha tables are closed under reversal; the two
      "brothers" tables are each other's reverse. */
  lemma TablesUnderReverse(k: nat)
    requires k < 10
    ensures ReverseNumber(PowerTable[k] as nat) == PowerTable[PowerPartner[k]]
    ensures ReverseNumber(NakhaTable[k] as nat) == NakhaTable[NakhaPartner[k]]
    ensures ReverseNumber(BrothersTable[k] as nat) == BrothersReversedTable[(k + 1) % 10]
  {
    TablesSwapped(k);
    ReverseNumberSwapsDigits(PowerTable[k] as nat);
    ReverseNumberSwapsDigits(NakhaTable[k] as nat);
    ReverseNumberSwapsDigits(BrothersTable[k] as nat);
  }

  // ---------------------------------------------------- digit categories

  /** "hteik" (head): the ten numbers with the digit in the tens place. */
  const HeadSuffix: string := "\U{00E1}\U{20AC}\U{2018}\U{00E1}\U{20AC}\U{00AD}\U{00E1}\U{20AC}\U{2022}\U{00E1}\U{20AC}\U{00BA}"
  /** "peik" (tail): the ten numbers with the digit in the units place. */
  const TailSuffix: string := "\U{00E1}\U{20AC}\U{2022}\U{00E1}\U{20AC}\U{00AD}\U{00E1}\U{20AC}\U{00E1}\U{20AC}\U{00BA}"
  /** "break": the numbers whose digit sum ends in the digit. */
  const BreakSuffix: string := "\U{00E1}\U{20AC}\U{02DC}\U{00E1}\U{20AC}\U{203A}\U{00E1}\U{20AC}\U{00AD}\U{00E1}\U{20AC}\U{00E1}\U{20AC}\U{00BA}"
  /** "a-pa" (including): head and tail together. */
  const IncludeSuffix: string := "\U{00E1}\U{20AC}\U{00A1}\U{00E1}\U{20AC}\U{2022}\U{00E1}\U{20AC}\U{00AB}"

  datatype Category = Head | Tail | Break | Include

  /** `dynamic_types`, in the order they are tried. */
  const Suffixes: seq<(string, Category)> :=
    [(HeadSuffix, Head), (TailSuffix, Tail), (BreakSuffix, Break), (IncludeSuffix, Include)]

  /** Whether `n` belongs to category `c` of digit `d`. */
  predicate Belongs(c: Category, d: nat, n: int) {
    match c
    case Head => n / 10 == d
    case Tail => n % 10 == d
    case Break => (n / 10 + n % 10) % 10 == d
    case Include => n / 10 == d || n % 10 == d
  }

  /** `[n for n in range(lo, 100) if ...]` for the categories the source filters. */
  function Select(c: Category, d: nat, lo: nat): seq<int>
    requires lo <= 100
    decreases 100 - lo
  {
    if lo == 100 then []
    else (if Belongs(c, d, lo) then [lo] else []) + Select(c, d, lo + 1)
  }

  /** The filter keeps exactly the numbers from `lo` on that belong to the
      category, in ascending order. */
  lemma SelectMeaning(c: Category, d: nat, lo: nat)
    requires lo <= 100
    ensures var r := Select(c, d, lo);
      && (forall j :: 0 <= j < |r| ==> lo <= r[j] < 100)
      && (forall j, k :: 0 <= j < k < |r| ==> r[j] < r[k])
      && (forall n :: n in r <==> lo <= n < 100 && Belongs(c, d, n))
  {
    SelectAscending(c, d, lo);
    SelectMembers(c, d, lo);
  }

  /** Strictly ascending, and every element in `lo` .. 99. */
  predicate AscendingFrom(s: seq<int>, lo: int) {
    && (forall j :: 0 <= j < |s| ==> lo <= s[j] < 100)
    && (forall j, k :: 0 <= j < k < |s| ==> s[j] < s[k])
  }

  lemma {:induction false} SelectAscending(c: Category, d: nat, lo: nat)
    requires lo <= 100
    ensures AscendingFrom(Select(c, d, lo), lo)
    decreases 100 - lo
  {
    if lo < 100 {
      SelectAscending(c, d, lo + 1);
      var rest := Select(c, d, lo + 1);
      var head := if Belongs(c, d, lo) then [lo] else [];
      assert Select(c, d, lo) == head + rest;
      ConsAscending(lo, head, rest);
    }
  }

  /** Putting nothing, or a number below all of an ascending sequence, in front keeps it ascending. */
  lemma ConsAscending(lo: nat, head: seq<int>, rest: seq<int>)
    requires lo < 100 && (head == [] || head == [lo])
    requires AscendingFrom(rest, lo + 1)
    ensures AscendingFrom(head + rest, lo)
  {
    var r := head + rest;
    forall j | 0 <= j < |r|
      ensures lo <= r[j] < 100
    {
      if j >= |head| {
        assert r[j] == rest[j - |head|];
      }
    }
    forall j, k | 0 <= j < k < |r|
      ensures r[j] < r[k]
    {
      assert r[k] == rest[k - |head|];
      if j >= |head| {
        assert r[j] == rest[j - |head|];
      }
    }
  }

  lemma {:induction false} SelectMembers(c: Category, d: nat, lo: nat)
    requires lo <= 100
    ensures forall n :: n in Select(c, d, lo) <==> lo <= n < 100 && Belongs(c, d, n)
    decreases 100 - lo
  {
    if lo < 100 {
      SelectMembers(c, d, lo + 1);
    }
  }

  /** The numbers the category of a digit selects (bot.py:259-269). The
      union for "including" comes from a Python set, whose order the source
      leaves unspecified; it is listed here in ascending order. */
  function CategoryNumbers(c: Category, d: nat): seq<int>
    requires d <= 9
  {
    match c
    case Head => seq(10, j => d * 10 + j)
    case Tail => seq(10, j => j * 10 + d)
    case Break => Select(Break, d, 0)
    case Include => Select(Include, d, 0)
  }

  /** How many numbers of the chunk 10t .. 10t+9, from 10t+k on, the category keeps. */
  function ChunkCount(c: Category, d: nat, t: nat, k: nat): nat
    requires c == Break || c == Include
    requires k <= 10
  {
    if c == Break then (if (d + 10 - t) % 10 >= k then 1 else 0)
    else if t == d then 10 - k
    else if d >= k then 1 else 0
  }

  /** In the chunk of tens digit `t`, the one units digit whose digit sum ends in `d`. */
  lemma BreakUnits(d: nat, t: nat, k: nat)
    requires d <= 9 && t <= 9 && k < 10
    ensures (t + k) % 10 == d <==> k == (d + 10 - t) % 10
  {
    if t + k < 10 {
      assert (t + k) % 10 == t + k;
    } else {
      assert (t + k) % 10 == t + k - 10;
    }
    if d >= t {
      assert (d + 10 - t) % 10 == d - t;
    } else {
      assert (d + 10 - t) % 10 == d + 10 - t;
    }
  }

  /** One when `n` belongs to the category, else zero. */
  function Hit(c: Category, d: nat, n: int): nat {
    if Belongs(c, d, n) then 1 else 0
  }

  /** The filter from `lo` keeps `lo` or not, then filters from `lo + 1`. */
  lemma SelectLength(c: Category, d: nat, lo: nat)
    requires lo < 100
    ensures |Select(c, d, lo)| == Hit(c, d, lo) + |Select(c, d, lo + 1)|
  {
  }

  lemma {:induction false} SelectChunk(c: Category, d: nat, t: nat, k: nat)
    requires c == Break || c == Include
    requires d <= 9 && t <= 9 && k <= 10
    ensures |Select(c, d, 10 * t + k)| == ChunkCount(c, d, t, k) + |Select(c, d, 10 * t + 10)|
    decreases 10 - k
  {
    if k < 10 {
      var n := 10 * t + k;
      SelectLength(c, d, n);
      SelectChunk(c, d, t, k + 1);
      assert 10 * t + (k + 1) == n + 1;
      ChunkCountStep(c, d, t, k);
    }
  }

  /** The count from `k` on is the count from `k+1` on, plus one when `10t+k` belongs. */
  lemma ChunkCountStep(c: Category, d: nat, t: nat, k: nat)
    requires c == Break || c == Include
    requires d <= 9 && t <= 9 && k < 10
    ensures ChunkCount(c, d, t, k) == Hit(c, d, 10 * t + k) + ChunkCount(c, d, t, k + 1)
  {
    FromDigits(t, k);
    if c == Break {
      BreakUnits(d, t, k);
    }
  }

  lemma {:induction false} SelectCount(c: Category, d: nat, t: nat)
    requires c == Break || c == Include
    requires d <= 9 && t <= 10
    ensures |Select(c, d, 10 * t)| == (10 - t) + (if c == Include && t <= d then 9 else 0)
    decreases 10 - t
  {
    if t < 10 {
      SelectChunk(c, d, t, 0);
      SelectCount(c, d, t + 1);
    }
  }

  /** Every category holds exactly the numbers 00..99 it describes, each
      once: ten for head, tail and break, nineteen for "including". */
  lemma CategoryNumbersMeaning(c: Category, d: nat)
    requires d <= 9
    ensures var ns := CategoryNumbers(c, d);
      && |ns| == (if c == Include then 19 else 10)
      && Distinct(ns)
      && forall n :: n in ns <==> InRange(n) && Belongs(c, d, n)
  {
    match c {
      case Head => HeadMeaning(d);
      case Tail => TailMeaning(d);
      case Break => SelectedMeaning(c, d);
      case Include => SelectedMeaning(c, d);
    }
  }

  lemma HeadMeaning(d: nat)
    requires d <= 9
    ensures var ns := CategoryNumbers(Head, d);
      && |ns| == 10 && Distinct(ns)
      && forall n :: n in ns <==> InRange(n) && Belongs(Head, d, n)
  {
    var ns := CategoryNumbers(Head, d);
    forall n | InRange(n) && Belongs(Head, d, n) ensures n in ns {
      assert ns[n % 10] == n;
    }
  }

  lemma TailMeaning(d: nat)
    requires d <= 9
    ensures var ns := CategoryNumbers(Tail, d);
      && |ns| == 10 && Distinct(ns)
      && forall n :: n in ns <==> InRange(n) && Belongs(Tail, d, n)
  {
    var ns := CategoryNumbers(Tail, d);
    forall n | InRange(n) && Belongs(Tail, d, n) ensures n in ns {
      assert ns[n / 10] == n;
    }
  }

  lemma SelectedMeaning(c: Category, d: nat)
    requires c == Break || c == Include
    requires d <= 9
    ensures var ns := CategoryNumbers(c, d);
      && |ns| == (if c == Include then 19 else 10) && Distinct(ns)
      && forall n :: n in ns <==> InRange(n) && Belongs(c, d, n)
  {
    SelectCount(c, d, 0);
    SelectMeaning(c, d, 0);
  }

  /** The category a token such as "5" + suffix selects: the first suffix in
      `Suffixes` order that the token ends with and whose prefix is a single
      digit value 0..9 (leading zeros allowed, as `int()` reads them). */
  function CategoryOf(entry: string, from: nat): (r: Option<(Category, nat)>)
    requires from <= |Suffixes|
    ensures r.Some? ==> r.value.1 <= 9
    decreases |Suffixes| - from
  {
    if from == |Suffixes| then None
    else
      var (suffix, c) := Suffixes[from];
      if EndsWith(entry, suffix) && IsDigits(entry[..|entry| - |suffix|])
         && DecimalValue(entry[..|entry| - |suffix|]) <= 9
      then Some((c, DecimalValue(entry[..|entry| - |suffix|])))
      else CategoryOf(entry, from + 1)
  }

  // ------------------------------------------------------------- combos

  /** "a-khway": every ordered pair of different positions of the digits. */
  const ComboMarker: string := "\U{00E1}\U{20AC}\U{00A1}\U{00E1}\U{20AC}\U{00E1}\U{20AC}\U{00BD}\U{00E1}\U{20AC}\U{00B1}"
  /** "a-pu-pa": the word that, put before the combo marker, adds the doubles. */
  const DoublesPrefix: string := "\U{00E1}\U{20AC}\U{00A1}\U{00E1}\U{20AC}\U{2022}\U{00E1}\U{20AC}\U{00B0}\U{00E1}\U{20AC}\U{00B8}\U{00E1}\U{20AC}\U{2022}\U{00E1}\U{20AC}\U{00AB}"
  /** "a-pu-pa a-khway": combos including the doubles. */
  const ComboDoublesMarker: string := "\U{00E1}\U{20AC}\U{00A1}\U{00E1}\U{20AC}\U{2022}\U{00E1}\U{20AC}\U{00B0}\U{00E1}\U{20AC}\U{00B8}\U{00E1}\U{20AC}\U{2022}\U{00E1}\U{20AC}\U{00AB}\U{00E1}\U{20AC}\U{00A1}\U{00E1}\U{20AC}\U{00E1}\U{20AC}\U{00BD}\U{00E1}\U{20AC}\U{00B1}"

  /** The second marker is the first with the doubles word in front, so any
      token holding it also holds the plain marker. */
  lemma ComboDoublesMarkerSpelling()
    ensures ComboDoublesMarker == DoublesPrefix + ComboMarker
  {
  }

  predicate AreDigits(ds: seq<nat>) {
    forall j :: 0 <= j < |ds| ==> ds[j] <= 9
  }

  /** `[int(c) for c in base]` */
  function DigitsOf(base: string): (ds: seq<nat>)
    requires AllDigits(base)
    ensures |ds| == |base| && AreDigits(ds)
  {
    seq(|base|, j requires 0 <= j < |base| => DigitOf(base[j]))
  }

  /** The inner loop over `k` of bot.py:214-218 for a fixed `j`: append
      each new `digits[j]*10 + digits[k]`, `k != j`, in order. */
  function ComboRow(ds: seq<nat>, j: nat, k: nat, acc: seq<int>): seq<int>
    requires j < |ds| && k <= |ds|
    decreases |ds| - k
  {
    if k == |ds| then acc
    else
      var x := ds[j] * 10 + ds[k];
      ComboRow(ds, j, k + 1, if j != k && x !in acc then acc + [x] else acc)
  }

  /** The row keeps `acc` in front, adds each `ds[j]*10 + ds[k']`,
      `k' != j`, from `k` on, and adds nothing already there. */
  lemma ComboRowMeaning(ds: seq<nat>, j: nat, k: nat, acc: seq<int>)
    requires j < |ds| && k <= |ds|
    ensures var r := ComboRow(ds, j, k, acc);
      && acc <= r
      && (Distinct(acc) ==> Distinct(r))
      && forall x :: x in r <==> (x in acc || exists k' :: k <= k' < |ds| && k' != j && x == ds[j] * 10 + ds[k'])
  {
    ComboRowDistinct(ds, j, k, acc);
    ComboRowMembers(ds, j, k, acc);
    ComboRowDedup(ds, j, k, acc);
    DedupOntoMeaning(acc, RowFrom(ds, j, k));
  }

  lemma {:induction false} ComboRowDistinct(ds: seq<nat>, j: nat, k: nat, acc: seq<int>)
    requires j < |ds| && k <= |ds|
    ensures Distinct(acc) ==> Distinct(ComboRow(ds, j, k, acc))
    decreases |ds| - k
  {
    if k < |ds| {
      var x := ds[j] * 10 + ds[k];
      var next := if j != k && x !in acc then acc + [x] else acc;
      ComboRowDistinct(ds, j, k + 1, next);
      if Distinct(acc) && next != acc {
        SnocDistinct(acc, x);
      }
    }
  }

  /** Appending a number not yet present keeps the elements distinct. */
  lemma SnocDistinct(acc: seq<int>, x: int)
    requires Distinct(acc) && x !in acc
    ensures Distinct(acc + [x])
  {
    var r := acc + [x];
    forall j, k | 0 <= j < k < |r|
      ensures r[j] != r[k]
    {
      assert r[j] == acc[j];
      if k < |acc| {
        assert r[k] == acc[k];
      }
    }
  }

  lemma {:induction false} ComboRowMembers(ds: seq<nat>, j: nat, k: nat, acc: seq<int>)
    requires j < |ds| && k <= |ds|
    ensures forall x :: x in ComboRow(ds, j, k, acc) <==>
      (x in acc || exists k' :: k <= k' < |ds| && k' != j && x == ds[j] * 10 + ds[k'])
    decreases |ds| - k
  {
    if k < |ds| {
      var x := ds[j] * 10 + ds[k];
      var next := if j != k && x !in acc then acc + [x] else acc;
      ComboRowMembers(ds, j, k + 1, next);
      assert forall y :: y in next <==> y in acc || (j != k && y == x);
    }
  }

  /** The outer loop over `j` of bot.py:213-218. */
  function ComboRows(ds: seq<nat>, j: nat, acc: seq<int>): seq<int>
    requires j <= |ds|
    decreases |ds| - j
  {
    if j == |ds| then acc
    else ComboRows(ds, j + 1, ComboRow(ds, j, 0, acc))
  }

  lemma {:induction false} ComboRowsMeaning(ds: seq<nat>, j: nat, acc: seq<int>)
    requires j <= |ds|
    ensures var r := ComboRows(ds, j, acc);
      && (Distinct(acc) ==> Distinct(r))
      && forall x :: x in r <==> (x in acc ||
           exists j', k' :: j <= j' < |ds| && 0 <= k' < |ds| && j' != k' && x == ds[j'] * 10 + ds[k'])
    decreases |ds| - j
  {
    if j < |ds| {
      ComboRowMeaning(ds, j, 0, acc);
      ComboRowsMeaning(ds, j + 1, ComboRow(ds, j, 0, acc));
    }
  }

  /** `pairs` of bot.py:212-218: each `digits[j]*10 + digits[k]` with `j != k`,
      once, in the order of first occurrence. */
  function ComboPairs(ds: seq<nat>): seq<int> {
    ComboRows(ds, 0, [])
  }

  /** bot.py:220-224: append each `d*10 + d` that is not there yet. */
  function WithDoubles(pairs: seq<int>, ds: seq<nat>): seq<int>
    decreases |ds|
  {
    if ds == [] then pairs
    else
      var dd := ds[0] * 10 + ds[0];
      WithDoubles(if dd in pairs then pairs else pairs + [dd], ds[1..])
  }

  lemma {:induction false} WithDoublesMeaning(pairs: seq<int>, ds: seq<nat>)
    ensures var r := WithDoubles(pairs, ds);
      && pairs <= r
      && (Distinct(pairs) ==> Distinct(r))
      && forall x :: x in r <==> (x in pairs || exists j :: 0 <= j < |ds| && x == ds[j] * 11)
    decreases |ds|
  {
    if ds != [] {
      var dd := ds[0] * 10 + ds[0];
      var next := if dd in pairs then pairs else pairs + [dd];
      WithDoublesMeaning(next, ds[1..]);
      assert forall j :: 0 <= j < |ds| - 1 ==> ds[1..][j] == ds[j + 1];
      var r := WithDoubles(next, ds[1..]);
      assert r[..|next|] == next;
      assert r[..|pairs|] == next[..|pairs|];
    }
  }

  /** The combo set of some digits, with or without the doubles. */
  function ComboNumbers(ds: seq<nat>, withDoubles: bool): seq<int> {
    var pairs := ComboPairs(ds);
    if withDoubles then WithDoubles(pairs, ds) else pairs
  }

  /** The combo set holds every digit pair from two different positions (and,
      with doubles, every digit twice), each once, all in 00..99. */
  lemma ComboNumbersMeaning(ds: seq<nat>, withDoubles: bool)
    requires AreDigits(ds)
    ensures var r := ComboNumbers(ds, withDoubles);
      && Distinct(r)
      && (forall x :: x in r ==> InRange(x))
      && (forall j, k :: 0 <= j < |ds| && 0 <= k < |ds| && j != k ==> ds[j] * 10 + ds[k] in r)
      && (forall j :: 0 <= j < |ds| && withDoubles ==> ds[j] * 11 in r)
      && (forall x :: x in r ==>
            (exists j, k :: 0 <= j < |ds| && 0 <= k < |ds| && j != k && x == ds[j] * 10 + ds[k])
            || (withDoubles && exists j :: 0 <= j < |ds| && x == ds[j] * 11))
  {
    ComboRowsMeaning(ds, 0, []);
    WithDoublesMeaning(ComboPairs(ds), ds);
  }

  // ------------------------------------------------- combo order

  /** Scans `xs` left to right and appends each element `acc` does not
      hold yet. */
  function DedupOnto(acc: seq<int>, xs: seq<int>): seq<int>
    decreases |xs|
  {
    if xs == [] then acc
    else DedupOnto(if xs[0] in acc then acc else acc + [xs[0]], xs[1..])
  }

  /** Each element once, at its first occurrence, in the order of the input. */
  function Dedup(xs: seq<int>): seq<int> {
    DedupOnto([], xs)
  }

  /** `acc` is kept as a prefix; what follows is new, without repeats, and
      comes from `xs`. */
  lemma {:induction false} DedupOntoMeaning(acc: seq<int>, xs: seq<int>)
    ensures var r := DedupOnto(acc, xs);
      && acc <= r
      && (Distinct(acc) ==> Distinct(r))
      && forall x :: x in r <==> x in acc || x in xs
    decreases |xs|
  {
    if xs != [] {
      var next := if xs[0] in acc then acc else acc + [xs[0]];
      DedupOntoMeaning(next, xs[1..]);
      if xs[0] !in acc && Distinct(acc) {
        SnocDistinct(acc, xs[0]);
      }
      assert xs == [xs[0]] + xs[1..];
      var r := DedupOnto(acc, xs);
      assert r[..|next|] == next;
      assert r[..|acc|] == next[..|acc|];
    }
  }

  /** Scanning `a + b` is scanning `a`, then `b`. */
  lemma {:induction false} DedupOntoAppend(acc: seq<int>, a: seq<int>, b: seq<int>)
    ensures DedupOnto(acc, a + b) == DedupOnto(DedupOnto(acc, a), b)
    decreases |a|
  {
    if a == [] {
      assert a + b == b;
    } else {
      var next := if a[0] in acc then acc else acc + [a[0]];
      assert (a + b)[0] == a[0] && (a + b)[1..] == a[1..] + b;
      DedupOntoAppend(next, a[1..], b);
    }
  }

  /** No repeats, and exactly the elements of the input. */
  lemma DedupMeaning(xs: seq<int>)
    ensures Distinct(Dedup(xs))
    ensures forall x :: x in Dedup(xs) <==> x in xs
  {
    DedupOntoMeaning([], xs);
  }

  /** One more element is appended exactly when it is new; with
      `Dedup([]) == []` this pins `Dedup` down. */
  lemma DedupSnoc(ys: seq<int>, x: int)
    ensures Dedup(ys + [x]) == Dedup(ys) + (if x in Dedup(ys) then [] else [x])
  {
    DedupOntoAppend([], ys, [x]);
    var d := Dedup(ys);
    assert DedupOnto(d, [x]) == DedupOnto(if x in d then d else d + [x], []);
  }

  /** What comes first in the input comes first in the output. */
  lemma DedupPrefix(xs: seq<int>, ys: seq<int>)
    ensures Dedup(xs) <= Dedup(xs + ys)
  {
    DedupOntoAppend([], xs, ys);
    DedupOntoMeaning(Dedup(xs), ys);
  }

  /** `digits[j]*10 + digits[k]` for `k` from `k` on, `k != j`, repeats kept. */
  function RowFrom(ds: seq<nat>, j: nat, k: nat): seq<int>
    requires j < |ds| && k <= |ds|
    decreases |ds| - k
  {
    if k == |ds| then []
    else if j == k then RowFrom(ds, j, k + 1)
    else [ds[j] * 10 + ds[k]] + RowFrom(ds, j, k + 1)
  }

  /** The rows from `j` on, one after the other. */
  function RowsFrom(ds: seq<nat>, j: nat): seq<int>
    requires j <= |ds|
    decreases |ds| - j
  {
    if j == |ds| then [] else RowFrom(ds, j, 0) + RowsFrom(ds, j + 1)
  }

  /** Every pair from two different positions, ordered by the first
      position and then the second, repeats kept. */
  function AllPairs(ds: seq<nat>): seq<int> {
    RowsFrom(ds, 0)
  }

  /** Each digit doubled, in digit order. */
  function Doubles(ds: seq<nat>): seq<int> {
    seq(|ds|, j requires 0 <= j < |ds| => ds[j] * 10 + ds[j])
  }

  lemma {:induction false} ComboRowDedup(ds: seq<nat>, j: nat, k: nat, acc: seq<int>)
    requires j < |ds| && k <= |ds|
    ensures ComboRow(ds, j, k, acc) == DedupOnto(acc, RowFrom(ds, j, k))
    decreases |ds| - k
  {
    if k < |ds| {
      var x, rest := ds[j] * 10 + ds[k], RowFrom(ds, j, k + 1);
      if j != k {
        var next := if x in acc then acc else acc + [x];
        ComboRowDedup(ds, j, k + 1, next);
        var row := RowFrom(ds, j, k);
        assert row[0] == x && row[1..] == rest;
      } else {
        ComboRowDedup(ds, j, k + 1, acc);
      }
    }
  }

  lemma {:induction false} ComboRowsDedup(ds: seq<nat>, j: nat, acc: seq<int>)
    requires j <= |ds|
    ensures ComboRows(ds, j, acc) == DedupOnto(acc, RowsFrom(ds, j))
    decreases |ds| - j
  {
    if j < |ds| {
      var row, rest := RowFrom(ds, j, 0), RowsFrom(ds, j + 1);
      ComboRowDedup(ds, j, 0, acc);
      ComboRowsDedup(ds, j + 1, ComboRow(ds, j, 0, acc));
      DedupOntoAppend(acc, row, rest);
    }
  }

  lemma {:induction false} WithDoublesDedup(acc: seq<int>, ds: seq<nat>)
    ensures WithDoubles(acc, ds) == DedupOnto(acc, Doubles(ds))
    decreases |ds|
  {
    if ds != [] {
      var dd := ds[0] * 10 + ds[0];
      var next := if dd in acc then acc else acc + [dd];
      WithDoublesDedup(next, ds[1..]);
      var dbl := Doubles(ds);
      assert dbl[0] == dd && dbl[1..] == Doubles(ds[1..]);
    }
  }

  /** The pairs loop keeps each pair once, at its first occurrence in
      row-then-column order; the doubles loop then adds the new doubles in
      digit order, after all the pairs. */
  lemma ComboNumbersOrder(ds: seq<nat>, withDoubles: bool)
    ensures ComboPairs(ds) == Dedup(AllPairs(ds))
    ensures ComboNumbers(ds, withDoubles) == Dedup(AllPairs(ds) + (if withDoubles then Doubles(ds) else []))
    ensures ComboPairs(ds) <= ComboNumbers(ds, withDoubles)
  {
    var all := AllPairs(ds);
    ComboRowsDedup(ds, 0, []);
    if withDoubles {
      WithDoublesDedup(Dedup(all), ds);
      DedupOntoAppend([], all, Doubles(ds));
      DedupPrefix(all, Doubles(ds));
    } else {
      assert all + [] == all;
    }
  }

  lemma ComboPairsExample()
    ensures ComboPairs([1, 2, 3]) == [12, 13, 21, 23, 31, 32]
  {
    var ds: seq<nat> := [1, 2, 3];
    ComboRowsExample(2);
    ComboRowsExample(1);
    ComboRowsExample(0);
    assert ComboRows(ds, 2, [12, 13, 21, 23]) == [12, 13, 21, 23, 31, 32];
    assert ComboRows(ds, 1, [12, 13]) == [12, 13, 21, 23, 31, 32];
  }

  /** Row `j` of the digits 1, 2, 3: the pairs before it, then its own. */
  lemma ComboRowsExample(j: nat)
    requires j < 3
    ensures var rows := [[], [12, 13], [12, 13, 21, 23], [12, 13, 21, 23, 31, 32]];
      ComboRow([1, 2, 3], j, 0, rows[j]) == rows[j + 1]
  {
    var ds: seq<nat> := [1, 2, 3];
    if j == 0 {
      assert ComboRow(ds, 0, 2, [12]) == [12, 13];
    } else if j == 1 {
      assert ComboRow(ds, 1, 2, [12, 13, 21]) == [12, 13, 21, 23];
    } else {
      assert ComboRow(ds, 2, 1, [12, 13, 21, 23, 31]) == [12, 13, 21, 23, 31, 32];
    }
  }

  /** "123" with the combo marker gives 12, 13, 21, 23, 31, 32, in that
      order; with the doubles marker 11, 22, 33 follow. */
  lemma ComboExample()
    ensures ComboNumbers([1, 2, 3], false) == [12, 13, 21, 23, 31, 32]
    ensures ComboNumbers([1, 2, 3], true) == [12, 13, 21, 23, 31, 32, 11, 22, 33]
  {
    ComboPairsExample();
    DoublesExample();
  }

  /** The doubles of 1, 2, 3 follow the pairs, none of them already there. */
  lemma DoublesExample()
    ensures WithDoubles([12, 13, 21, 23, 31, 32], [1, 2, 3]) == [12, 13, 21, 23, 31, 32, 11, 22, 33]
  {
    var all := [12, 13, 21, 23, 31, 32, 11, 22, 33];
    assert WithDoubles([12, 13, 21, 23, 31, 32, 11, 22], [3]) == all;
    assert WithDoubles([12, 13, 21, 23, 31, 32, 11], [2, 3]) == all;
  }

  /** A repeated digit gives its double once, and no pair twice: "112" gives 11, 12, 21. */
  lemma ComboRepeatedDigitExample()
    ensures ComboNumbers([1, 1, 2], false) == [11, 12, 21]
  {
    var ds: seq<nat> := [1, 1, 2];
    assert ComboRow(ds, 0, 1, []) == [11, 12];
    assert ComboRow(ds, 0, 0, []) == [11, 12];
    assert ComboRow(ds, 1, 1, [11, 12]) == [11, 12];
    assert ComboRow(ds, 1, 0, [11, 12]) == [11, 12];
    assert ComboRow(ds, 2, 1, [11, 12, 21]) == [11, 12, 21];
    assert ComboRow(ds, 2, 0, [11, 12]) == [11, 12, 21];
    assert ComboRows(ds, 2, [11, 12]) == [11, 12, 21];
    assert ComboRows(ds, 1, [11, 12]) == [11, 12, 21];
  }
}
