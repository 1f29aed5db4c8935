/**
 * The Python string primitives the bet book relies on, stated over Dafny
 * strings (sequences of Unicode scalar values): `str.isdigit`, `int(...)`,
 * `str(n)`, `str.split()`, `str.split(sep)`, `str.count`, `str.endswith`,
 * the `in` substring test and `str.replace(old, '')`.
 */
module Strings {
  import opened Wrappers

  // ---------------------------------------------------------------- digits

  predicate IsAsciiDigit(c: char) {
    '0' <= c <= '9'
  }

  predicate AllDigits(s: string) {
    forall i :: 0 <= i < |s| ==> IsAsciiDigit(s[i])
  }

  /** `s.isdigit()`: non-empty and made of decimal digits (ASCII digits only). */
  predicate IsDigits(s: string) {
    |s| > 0 && AllDigits(s)
  }

  function DigitOf(c: char): (d: nat)
    requires IsAsciiDigit(c)
    ensures d <= 9 && CharOf(d) == c
  {
    c as int - '0' as int
  }

  function CharOf(d: nat): (c: char)
    requires d <= 9
    ensures IsAsciiDigit(c)
  {
    ('0' as int + d) as char
  }

  /** `int(s)` for a string of ASCII digits; leading zeros are allowed ("05" is 5). */
  function DecimalValue(s: string): nat
    requires AllDigits(s)
  {
    if s == [] then 0 else 10 * DecimalValue(s[..|s| - 1]) + DigitOf(s[|s| - 1])
  }

  /** A digit appended on the right: ten times the value, plus the digit. */
  lemma DecimalValueSnoc(s: string, c: char)
    requires AllDigits(s) && IsAsciiDigit(c)
    ensures AllDigits(s + [c]) && DecimalValue(s + [c]) == 10 * DecimalValue(s) + DigitOf(c)
  {
    assert (s + [c])[..|s|] == s;
  }

  /** `str(n)` for a non-negative integer: its shortest decimal spelling. */
  function Decimal(n: nat): (s: string)
    ensures IsDigits(s)
    ensures |s| == 1 <==> n < 10
    ensures n >= 10 ==> |s| >= 2
  {
    if n < 10 then [CharOf(n)] else Decimal(n / 10) + [CharOf(n % 10)]
  }

  lemma {:induction false} DecimalRoundTrip(n: nat)
    ensures DecimalValue(Decimal(n)) == n
  {
    if n >= 10 {
      var s := Decimal(n);
      assert s[..|s| - 1] == Decimal(n / 10);
      DecimalRoundTrip(n / 10);
    }
  }

  /** `str(n)` for any integer. */
  function Str(n: int): string {
    if n < 0 then "-" + Decimal(-n) else Decimal(n)
  }


  // ------------------------------------------------------------ whitespace

  /** The characters Python's `str.isspace` accepts. */
  predicate IsSpace(c: char) {
    || ('\t' <= c <= '\r')
    || ('\U{001C}' <= c <= ' ')
    || c == '\U{0085}' || c == '\U{00A0}' || c == '\U{1680}'
    || ('\U{2000}' <= c <= '\U{200A}')
    || c == '\U{2028}' || c == '\U{2029}' || c == '\U{202F}' || c == '\U{205F}'
    || c == '\U{3000}'
  }

  predicate NoSpace(s: string) {
    forall i :: 0 <= i < |s| ==> !IsSpace(s[i])
  }

  /** The length of the longest prefix of `s` without whitespace. */
  function WordLength(s: string): (n: nat)
    ensures n <= |s| && NoSpace(s[..n])
    ensures n < |s| ==> IsSpace(s[n])
    ensures |s| > 0 && !IsSpace(s[0]) ==> n >= 1
  {
    if s == [] || IsSpace(s[0]) then 0
    else
      var n := 1 + WordLength(s[1..]);
      assert s[..n] == [s[0]] + s[1..][..n - 1];
      n
  }

  /** `s.split()`: the maximal runs of non-whitespace characters, in order. */
  function Words(s: string): (ws: seq<string>)
    ensures forall j :: 0 <= j < |ws| ==> |ws[j]| > 0 && NoSpace(ws[j])
    decreases |s|
  {
    if s == [] then []
    else if IsSpace(s[0]) then Words(s[1..])
    else
      var n := WordLength(s);
      [s[..n]] + Words(s[n..])
  }

  /** The characters of `s` that are not whitespace, in order. */
  function WithoutSpace(s: string): string {
    if s == [] then [] else (if IsSpace(s[0]) then [] else [s[0]]) + WithoutSpace(s[1..])
  }

  function Concat(ws: seq<string>): string {
    if ws == [] then [] else ws[0] + Concat(ws[1..])
  }

  lemma {:induction false} WithoutSpaceAppend(a: string, b: string)
    ensures WithoutSpace(a + b) == WithoutSpace(a) + WithoutSpace(b)
    decreases |a|
  {
    if a != [] {
      var head := if IsSpace(a[0]) then [] else [a[0]];
      assert (a + b)[0] == a[0];
      assert (a + b)[1..] == a[1..] + b;
      WithoutSpaceAppend(a[1..], b);
      calc {
        WithoutSpace(a + b);
        head + WithoutSpace(a[1..] + b);
        head + (WithoutSpace(a[1..]) + WithoutSpace(b));
        (head + WithoutSpace(a[1..])) + WithoutSpace(b);
      }
    } else {
      assert a + b == b;
    }
  }

  lemma {:induction false} WithoutSpaceOfWord(w: string)
    requires NoSpace(w)
    ensures WithoutSpace(w) == w
    decreases |w|
  {
    if w != [] {
      WithoutSpaceOfWord(w[1..]);
    }
  }

  /** Splitting on whitespace loses exactly the whitespace: the words, put
      back together, are the text with its whitespace deleted. */
  lemma {:induction false} WordsKeepEveryOtherCharacter(s: string)
    ensures Concat(Words(s)) == WithoutSpace(s)
    decreases |s|
  {
    if s == [] {
    } else if IsSpace(s[0]) {
      WordsKeepEveryOtherCharacter(s[1..]);
    } else {
      var n := WordLength(s);
      assert s == s[..n] + s[n..];
      WithoutSpaceAppend(s[..n], s[n..]);
      WithoutSpaceOfWord(s[..n]);
      WordsKeepEveryOtherCharacter(s[n..]);
      assert ([s[..n]] + Words(s[n..]))[1..] == Words(s[n..]);
    }
  }

  /** A word ends where whitespace or the text does. */
  lemma {:induction false} WordLengthOfWord(w: string, s: string)
    requires NoSpace(w) && (s == [] || IsSpace(s[0]))
    ensures WordLength(w + s) == |w|
    decreases |w|
  {
    if w == [] {
      assert w + s == s;
    } else {
      assert (w + s)[1..] == w[1..] + s;
      WordLengthOfWord(w[1..], s);
    }
  }

  /** A word followed by whitespace or the end is the first word. */
  lemma WordsOfWordThen(w: string, s: string)
    requires |w| > 0 && NoSpace(w) && (s == [] || IsSpace(s[0]))
    ensures Words(w + s) == [w] + Words(s)
  {
    var e := w + s;
    WordLengthOfWord(w, s);
    assert e[..|w|] == w && e[|w|..] == s;
  }

  /** Leading whitespace is skipped; with WordsOfWordThen this fixes the
      words of every text, since each text is whitespace, then a word, then
      the rest. */
  lemma {:induction false} WordsAfterSpace(g: string, s: string)
    requires forall j :: 0 <= j < |g| ==> IsSpace(g[j])
    ensures Words(g + s) == Words(s)
    decreases |g|
  {
    if g == [] {
      assert g + s == s;
    } else {
      assert (g + s)[1..] == g[1..] + s;
      WordsAfterSpace(g[1..], s);
    }
  }

  /** Splitting words joined by single spaces gives the words back. */
  lemma {:induction false} WordsOfJoin(ws: seq<string>)
    requires |ws| > 0
    requires forall j :: 0 <= j < |ws| ==> |ws[j]| > 0 && NoSpace(ws[j])
    ensures Words(Join(ws, ' ')) == ws
    decreases |ws|
  {
    if |ws| == 1 {
      WordsOfWordThen(ws[0], []);
      assert ws[0] + [] == ws[0];
    } else {
      var rest := Join(ws[1..], ' ');
      var gap := [' '] + rest;
      WordsOfJoin(ws[1..]);
      assert gap[1..] == rest;
      WordsOfWordThen(ws[0], gap);
      assert Join(ws, ' ') == ws[0] + gap;
      assert ws == [ws[0]] + ws[1..];
    }
  }

  /** Python's `int(text)` in base 10: surrounding whitespace is stripped,
      an optional sign may lead, and single underscores may separate digits. */
  function ParseInt(text: string): Option<int> {
    var t := Strip(text);
    if |t| > 0 && (t[0] == '+' || t[0] == '-') then
      if IsGrouped(t[1..]) then
        var v: int := GroupedValue(t[1..]);
        Some(if t[0] == '-' then -v else v)
      else None
    else if IsGrouped(t) then Some(GroupedValue(t))
    else None
  }

  function StripLeft(s: string): string {
    if |s| > 0 && IsSpace(s[0]) then StripLeft(s[1..]) else s
  }

  function StripRight(s: string): string {
    if |s| > 0 && IsSpace(s[|s| - 1]) then StripRight(s[..|s| - 1]) else s
  }

  /** `s.strip()` */
  function Strip(s: string): string {
    StripRight(StripLeft(s))
  }

  /** Digits, with single underscores allowed between two digits. */
  predicate IsGrouped(s: string) {
    && |s| > 0
    && IsAsciiDigit(s[0])
    && IsAsciiDigit(s[|s| - 1])
    && (forall i :: 0 <= i < |s| ==> IsAsciiDigit(s[i]) || s[i] == '_')
    && (forall i :: 0 < i < |s| && s[i - 1] == '_' ==> s[i] != '_')
  }

  function DropUnderscores(s: string): (r: string)
    requires forall i :: 0 <= i < |s| ==> IsAsciiDigit(s[i]) || s[i] == '_'
    ensures AllDigits(r)
  {
    if s == [] then []
    else (if s[0] == '_' then [] else [s[0]]) + DropUnderscores(s[1..])
  }

  function GroupedValue(s: string): nat
    requires IsGrouped(s)
  {
    DecimalValue(DropUnderscores(s))
  }

  lemma {:induction false} DropUnderscoresOfDigits(s: string)
    requires AllDigits(s)
    ensures DropUnderscores(s) == s
  {
    if s != [] {
      DropUnderscoresOfDigits(s[1..]);
    }
  }

  lemma StripOfNoSpace(s: string)
    requires NoSpace(s)
    ensures Strip(s) == s
  {
  }

  /** An `isdigit` token is a valid underscore-grouped literal of the same value. */
  lemma GroupedOfDigits(s: string)
    requires IsDigits(s)
    ensures IsGrouped(s) && GroupedValue(s) == DecimalValue(s)
  {
    DropUnderscoresOfDigits(s);
  }

  /** On an `isdigit` token, `int()` gives its decimal value. */
  lemma ParseIntOfDigits(s: string)
    requires IsDigits(s)
    ensures ParseInt(s) == Some(DecimalValue(s))
  {
    StripOfNoSpace(s);
    GroupedOfDigits(s);
    assert s[0] != '+' && s[0] != '-';
  }

  /** `int(str(n)) == n` for every integer. */
  lemma ParseIntOfStr(n: int)
    ensures ParseInt(Str(n)) == Some(n)
  {
    var m := if n < 0 then -n else n;
    DecimalRoundTrip(m);
    if n < 0 {
      assert Str(n)[0] == '-' && Str(n)[1..] == Decimal(m);
      ParseIntOfNegated(Str(n));
    } else {
      ParseIntOfDigits(Decimal(m));
    }
  }

  /** A minus sign in front of an `isdigit` token negates its value. */
  lemma ParseIntOfNegated(t: string)
    requires |t| > 0 && t[0] == '-' && IsDigits(t[1..])
    ensures ParseInt(t) == Some(-(DecimalValue(t[1..]) as int))
  {
    SignedNoSpace(t);
    StripOfNoSpace(t);
    GroupedOfDigits(t[1..]);
  }

  lemma SignedNoSpace(t: string)
    requires |t| > 0 && t[0] == '-' && AllDigits(t[1..])
    ensures NoSpace(t)
  {
    forall i | 0 <= i < |t|
      ensures !IsSpace(t[i])
    {
      if i > 0 {
        assert t[i] == t[1..][i - 1];
      }
    }
  }

  lemma StrInjective(a: int, b: int)
    requires Str(a) == Str(b)
    ensures a == b
  {
    ParseIntOfStr(a);
    ParseIntOfStr(b);
  }

  // --------------------------------------------------- separators, markers

  /** `s.count(c)` for a one-character `c`. */
  function Count(s: string, c: char): nat {
    if s == [] then 0 else (if s[0] == c then 1 else 0) + Count(s[1..], c)
  }

  lemma {:induction false} CountZero(s: string, c: char)
    ensures Count(s, c) == 0 <==> c !in s
  {
    if s != [] {
      CountZero(s[1..], c);
      assert s == [s[0]] + s[1..];
    }
  }

  /** `s.split(sep)` for a one-character separator: always one more part
      than separators, and no part contains the separator. */
  function Split(s: string, sep: char): (parts: seq<string>)
    ensures |parts| == Count(s, sep) + 1
    ensures forall j :: 0 <= j < |parts| ==> sep !in parts[j]
    decreases |s|
  {
    if s == [] then [""]
    else
      var rest := Split(s[1..], sep);
      if s[0] == sep then [""] + rest
      else [[s[0]] + rest[0]] + rest[1..]
  }

  /** `sep.join(parts)` */
  function Join(parts: seq<string>, sep: char): string
    requires |parts| > 0
  {
    if |parts| == 1 then parts[0] else parts[0] + [sep] + Join(parts[1..], sep)
  }

  /** Splitting loses nothing: joining the parts gives the text back. */
  lemma {:induction false} JoinSplit(s: string, sep: char)
    ensures Join(Split(s, sep), sep) == s
    decreases |s|
  {
    if s != [] {
      var rest := Split(s[1..], sep);
      JoinSplit(s[1..], sep);
      if s[0] == sep {
        assert ([""] + rest)[1..] == rest;
      } else {
        var parts := [[s[0]] + rest[0]] + rest[1..];
        if |rest| > 1 {
          assert parts[1..] == rest[1..];
        }
      }
    }
  }

  /** Text without the separator is one part. */
  lemma {:induction false} SplitWithoutSeparator(s: string, sep: char)
    requires sep !in s
    ensures Split(s, sep) == [s]
    decreases |s|
  {
    if s != [] {
      SplitWithoutSeparator(s[1..], sep);
      assert [s[0]] + s[1..] == s;
    }
  }

  /** Text before the first separator is the first part; the rest splits on its own. */
  lemma {:induction false} SplitAtFirst(a: string, sep: char, b: string)
    requires sep !in a
    ensures Split(a + [sep] + b, sep) == [a] + Split(b, sep)
    decreases |a|
  {
    var s := a + [sep] + b;
    if a == [] {
      assert s[1..] == b;
    } else {
      assert s[1..] == a[1..] + [sep] + b;
      SplitAtFirst(a[1..], sep, b);
      assert [a[0]] + a[1..] == a;
    }
  }

  /** Joining parts that hold no separator and splitting again gives the parts back. */
  lemma {:induction false} SplitJoin(parts: seq<string>, sep: char)
    requires |parts| > 0
    requires forall j :: 0 <= j < |parts| ==> sep !in parts[j]
    ensures Split(Join(parts, sep), sep) == parts
    decreases |parts|
  {
    if |parts| == 1 {
      SplitWithoutSeparator(parts[0], sep);
    } else {
      SplitJoin(parts[1..], sep);
      SplitAtFirst(parts[0], sep, Join(parts[1..], sep));
      assert [parts[0]] + parts[1..] == parts;
    }
  }

  lemma {:induction false} CountAppend(a: string, b: string, c: char)
    ensures Count(a + b, c) == Count(a, c) + Count(b, c)
    decreases |a|
  {
    if a == [] {
      assert a + b == b;
    } else {
      assert (a + b)[1..] == a[1..] + b;
      CountAppend(a[1..], b, c);
    }
  }

  /** The index of the first `c` in `s`. */
  function IndexOf(s: string, c: char): (i: nat)
    requires c in s
    ensures i < |s| && s[i] == c && c !in s[..i]
  {
    if s[0] == c then 0
    else
      var i := 1 + IndexOf(s[1..], c);
      assert s[..i] == [s[0]] + s[1..][..i - 1];
      i
  }

  /** `s.split(sep, 1)` when `sep` occurs in `s`: the text before the first
      separator and the text after it. */
  function SplitOnce(s: string, sep: char): (halves: (string, string))
    requires sep in s
    ensures s == halves.0 + [sep] + halves.1 && sep !in halves.0
  {
    var i := IndexOf(s, sep);
    assert s == s[..i] + [sep] + s[i + 1..];
    (s[..i], s[i + 1..])
  }

  /** The first separator of `a + [sep] + b` is the one after `a`. */
  lemma SplitOnceAt(a: string, sep: char, b: string)
    requires sep !in a
    ensures SplitOnce(a + [sep] + b, sep) == (a, b)
  {
    var s := a + [sep] + b;
    var i := IndexOf(s, sep);
    assert forall k :: 0 <= k < |a| ==> s[k] == a[k];
    assert forall k :: 0 <= k < i ==> s[..i][k] == s[k];
    assert s[|a|] == sep;
    assert s[..|a|] == a && s[|a| + 1..] == b;
  }

  predicate StartsWith(s: string, p: string) {
    |p| <= |s| && s[..|p|] == p
  }

  /** `s.endswith(p)` */
  predicate EndsWith(s: string, p: string) {
    |p| <= |s| && s[|s| - |p|..] == p
  }

  /** `sub in s`, the substring test. */
  predicate Contains(s: string, sub: string)
    decreases |s|
  {
    StartsWith(s, sub) || (|s| > 0 && Contains(s[1..], sub))
  }

  /** Nothing contains a piece longer than itself. */
  lemma {:induction false} ContainsLonger(s: string, sub: string)
    requires |s| < |sub|
    ensures !Contains(s, sub)
    decreases |s|
  {
    if |s| > 0 {
      ContainsLonger(s[1..], sub);
    }
  }

  /** A text holding a piece holds each of its characters. */
  lemma {:induction false} ContainsChar(s: string, sub: string, k: nat)
    requires k < |sub| && Contains(s, sub)
    ensures sub[k] in s
    decreases |s|
  {
    if StartsWith(s, sub) {
      assert s[..|sub|][k] == s[k];
    } else {
      ContainsChar(s[1..], sub, k);
    }
  }

  lemma {:induction false} ContainsSuffix(a: string, w: string)
    ensures Contains(a + w, w)
    decreases |a|
  {
    if a != [] {
      assert (a + w)[1..] == a[1..] + w;
      ContainsSuffix(a[1..], w);
    }
  }

  /** `s.replace(w, '')`: every occurrence of `w`, found left to right
      without overlap, is deleted. */
  function RemoveAll(s: string, w: string): (r: string)
    requires |w| > 0
    ensures |r| <= |s|
    ensures forall c :: c in r ==> c in s
    decreases |s|
  {
    if |s| < |w| then s
    else if s[..|w|] == w then RemoveAll(s[|w|..], w)
    else [s[0]] + RemoveAll(s[1..], w)
  }

  lemma {:induction false} RemoveAllAbsent(s: string, w: string)
    requires |w| > 0 && !Contains(s, w)
    ensures RemoveAll(s, w) == s
    decreases |s|
  {
    if |s| >= |w| {
      RemoveAllAbsent(s[1..], w);
      assert s == [s[0]] + s[1..];
    }
  }

  /** Deleting a marker that starts with a non-digit leaves a leading run of digits alone. */
  lemma {:induction false} RemoveAllAfterDigits(d: string, x: string, w: string)
    requires AllDigits(d) && |w| > 0 && !IsAsciiDigit(w[0])
    ensures RemoveAll(d + x, w) == d + RemoveAll(x, w)
    decreases |d|
  {
    if d != [] {
      var s := d + x;
      assert s[0] == d[0];
      if |s| < |w| {
        assert RemoveAll(s, w) == s;
        assert RemoveAll(x, w) == x;
      } else {
        assert s[..|w|][0] == d[0];
        assert s[..|w|] != w;
        assert RemoveAll(s, w) == [s[0]] + RemoveAll(s[1..], w);
        assert s[1..] == d[1..] + x;
        RemoveAllAfterDigits(d[1..], x, w);
        assert d == [d[0]] + d[1..];
      }
    } else {
      assert d + x == x;
    }
  }

  /** Removing `w` from `x + w` leaves `x` when no occurrence of `w` can start
      inside `x`: some character of `w` appears neither in `x` nor earlier in `w`. */
  lemma {:induction false} RemoveAllBefore(x: string, w: string, idx: nat)
    requires idx < |w| && w[idx] !in x && w[idx] !in w[..idx]
    ensures RemoveAll(x + w, w) == x
    decreases |x|
  {
    var s := x + w;
    if x == [] {
      assert s == w && s[|w|..] == [];
    } else {
      assert s[..|w|][idx] == s[idx];
      assert idx < |x| ==> s[idx] == x[idx];
      assert idx >= |x| ==> s[idx] == w[..idx][idx - |x|];
      assert s[..|w|] != w;
      assert s[1..] == x[1..] + w;
      RemoveAllBefore(x[1..], w, idx);
      assert [x[0]] + x[1..] == x;
    }
  }

  lemma RemoveAllSelf(w: string)
    requires |w| > 0
    ensures RemoveAll(w, w) == ""
  {
    assert w[..|w|] == w;
    assert w[|w|..] == "";
  }
}
