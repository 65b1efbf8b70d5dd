/**
 * Helpers shared by every module of the model: the Option and Result
 * wrappers used for error paths, the JavaScript string operations the
 * application relies on (trim, toLowerCase, includes, split, join,
 * parseInt, number-to-string), and fixed-point scaling.
 *
 * Strings are sequences of characters. Whitespace is ECMAScript's full
 * WhiteSpace and LineTerminator set, the characters trim removes; case
 * mapping covers the ASCII letters only.
 */
module Common {

  datatype Option<+T> = None | Some(value: T)

  datatype Result<+T, +E> = Success(value: T) | Failure(error: E)

  /** Document identifiers. Orders are never deleted, so an order is
      identified by its position in the order collection. */
  type MenuId = nat
  type InvId = nat
  type UserId = nat
  type OrderId = nat

  /** Quantities (stock, ingredient amounts) are fixed-point numbers with
      four decimals: the integer q stands for q / Scale. */
  const Scale: int := 10000

  // ---------------------------------------------------------------------
  // Whitespace and trimming (String.prototype.trim)
  // ---------------------------------------------------------------------

  /** The characters `trim` removes: ECMAScript's WhiteSpace (tab, vertical
      tab, form feed, space, no-break space, the byte-order mark and every
      other space separator) and LineTerminator (line feed, carriage return,
      line and paragraph separators). */
  predicate IsSpace(c: char)
  {
    c == ' ' || c == '\t' || c == '\n' || c == '\r' || c == '\U{000B}' || c == '\U{000C}'
    || c == '\U{00A0}' || c == '\U{FEFF}' || c == '\U{1680}' || ('\U{2000}' <= c <= '\U{200A}')
    || c == '\U{2028}' || c == '\U{2029}' || c == '\U{202F}' || c == '\U{205F}' || c == '\U{3000}'
  }

  /** The number of whitespace characters `s` starts with. */
  function LeadingSpaces(s: string): (n: nat)
    ensures n <= |s|
    ensures forall i :: 0 <= i < n ==> IsSpace(s[i])
    ensures n < |s| ==> !IsSpace(s[n])
  {
    if |s| > 0 && IsSpace(s[0]) then 1 + LeadingSpaces(s[1..]) else 0
  }

  function TrimStart(s: string): string
  {
    s[LeadingSpaces(s)..]
  }

  function TrimEnd(s: string): (r: string)
    ensures |r| <= |s| && r == s[..|r|]
    ensures |r| > 0 ==> !IsSpace(r[|r| - 1])
    ensures forall i :: |r| <= i < |s| ==> IsSpace(s[i])
  {
    if |s| > 0 && IsSpace(s[|s| - 1]) then TrimEnd(s[..|s| - 1]) else s
  }

  /** `s.trim()`: the string without its leading and trailing whitespace. */
  function Trim(s: string): (r: string)
    ensures |r| <= |s|
    ensures |r| > 0 ==> !IsSpace(r[0]) && !IsSpace(r[|r| - 1])
  {
    TrimEnd(TrimStart(s))
  }

  /** The trimmed string is the part of the input between its leading and
      its trailing whitespace: everything dropped is whitespace, and what is
      kept neither starts nor ends with it. */
  lemma TrimSlice(s: string)
    ensures var n := LeadingSpaces(s); var r := Trim(s);
      && n + |r| <= |s| && r == s[n..n + |r|]
      && (forall i :: 0 <= i < n ==> IsSpace(s[i]))
      && (forall i :: n + |r| <= i < |s| ==> IsSpace(s[i]))
      && (|r| > 0 ==> !IsSpace(r[0]) && !IsSpace(r[|r| - 1]))
  {
    var n := LeadingSpaces(s);
    var t := s[n..];
    var r := TrimEnd(t);
    assert Trim(s) == r;
    assert s[n..n + |r|] == t[..|r|];
    forall i | n + |r| <= i < |s| ensures IsSpace(s[i]) {
      assert t[i - n] == s[i];
    }
  }

  /** `!s || !s.trim()`: the string is empty or only whitespace. */
  predicate IsBlank(s: string)
  {
    Trim(s) == ""
  }

  /** Neither starts nor ends with whitespace: what a trimmed schema field holds. */
  predicate Trimmed(s: string)
  {
    |s| > 0 ==> !IsSpace(s[0]) && !IsSpace(s[|s| - 1])
  }

  /** A string is its own trim exactly when it neither starts nor ends with
      whitespace. */
  lemma TrimFixed(s: string)
    ensures Trim(s) == s <==> Trimmed(s)
  {
  }

  lemma TrimIdempotent(s: string)
    ensures Trimmed(Trim(s)) && Trim(Trim(s)) == Trim(s)
  {
    TrimFixed(Trim(s));
  }

  /** Stripping a leading space and trimming is the same as trimming. */
  lemma TrimLeadingSpace(s: string)
    ensures Trim([' '] + s) == Trim(s)
  {
    assert ([' '] + s)[1..] == s;
  }

  // ---------------------------------------------------------------------
  // Case mapping and substring search
  // ---------------------------------------------------------------------

  function LowerChar(c: char): char
  {
    if 'A' <= c <= 'Z' then (c as int + 32) as char else c
  }

  /** `s.toLowerCase()` on the ASCII letters. */
  function ToLower(s: string): (r: string)
    ensures |r| == |s|
    ensures forall i :: 0 <= i < |s| ==> r[i] == LowerChar(s[i])
  {
    if |s| == 0 then "" else [LowerChar(s[0])] + ToLower(s[1..])
  }

  lemma ToLowerIdempotent(s: string)
    ensures ToLower(ToLower(s)) == ToLower(s)
  {
  }

  /** `sub` occurs in `s` starting at position `i`. */
  predicate OccursAt(s: string, sub: string, i: int)
  {
    0 <= i && i + |sub| <= |s| && s[i..i + |sub|] == sub
  }

  /** `s.includes(sub)`: `sub` occurs in `s` at some position. */
  predicate Contains(s: string, sub: string)
  {
    exists i :: 0 <= i <= |s| && OccursAt(s, sub, i)
  }

  lemma ContainsEmpty(s: string)
    ensures Contains(s, "")
  {
    assert OccursAt(s, "", 0);
  }

  // ---------------------------------------------------------------------
  // split and join
  // ---------------------------------------------------------------------

  /** `s.split(sep)` for a one-character separator: the maximal runs of
      characters between separators, always at least one (possibly empty). */
  function Split(s: string, sep: char): (parts: seq<string>)
    ensures |parts| >= 1
  {
    if |s| == 0 then [""]
    else
      var rest := Split(s[1..], sep);
      if s[0] == sep then [""] + rest else [[s[0]] + rest[0]] + rest[1..]
  }

  lemma {:induction false} SplitNoSeparator(s: string, sep: char)
    requires sep !in s
    ensures Split(s, sep) == [s]
  {
    if |s| > 0 {
      SplitNoSeparator(s[1..], sep);
      assert [s[0]] + s[1..] == s;
    }
  }

  /** A separator-free prefix followed by a separator splits off as one part. */
  lemma {:induction false} SplitAtSeparator(a: string, sep: char, b: string)
    requires sep !in a
    ensures Split(a + [sep] + b, sep) == [a] + Split(b, sep)
  {
    if |a| == 0 {
      assert a + [sep] + b == [sep] + b;
      assert ([sep] + b)[1..] == b;
    } else {
      assert (a + [sep] + b)[1..] == a[1..] + [sep] + b;
      SplitAtSeparator(a[1..], sep, b);
      assert [a[0]] + a[1..] == a;
    }
  }

  /** A non-separator first character joins the first part. */
  lemma SplitCons(c: char, s: string, sep: char)
    requires c != sep
    ensures Split([c] + s, sep) == [[c] + Split(s, sep)[0]] + Split(s, sep)[1..]
  {
    assert ([c] + s)[1..] == s;
  }

  /** `parts.join(sep)`. */
  function Join(parts: seq<string>, sep: string): (r: string)
    ensures |parts| == 0 ==> r == ""
  {
    if |parts| == 0 then ""
    else if |parts| == 1 then parts[0]
    else parts[0] + sep + Join(parts[1..], sep)
  }

  /** A join is empty only when there is nothing to join or every part is
      empty; with a non-empty first part it is never empty. */
  lemma JoinNonEmpty(parts: seq<string>, sep: string)
    requires |parts| > 0 && parts[0] != ""
    ensures Join(parts, sep) != ""
  {
  }

  // ---------------------------------------------------------------------
  // Decimal digits: number-to-string and parseInt
  // ---------------------------------------------------------------------

  predicate IsDigit(c: char)
  {
    '0' <= c <= '9'
  }

  predicate AllDigits(s: string)
  {
    forall i :: 0 <= i < |s| ==> IsDigit(s[i])
  }

  function DigitChar(d: nat): char
    requires d < 10
  {
    ('0' as int + d) as char
  }

  /** `${n}` for a natural number: its decimal digits, no sign, no leading zero. */
  function NatToString(n: nat): (s: string)
    ensures |s| > 0 && AllDigits(s)
    decreases n
  {
    if n < 10 then [DigitChar(n)] else NatToString(n / 10) + [DigitChar(n % 10)]
  }

  /** The value of a digit string, most significant digit first. */
  function DigitsValue(s: string): nat
    requires AllDigits(s)
  {
    if |s| == 0 then 0 else DigitsValue(s[..|s| - 1]) * 10 + (s[|s| - 1] as int - '0' as int)
  }

  /** The longest prefix of `s` made of digits. */
  function LeadingDigits(s: string): (d: string)
    ensures AllDigits(d) && d <= s
    ensures |d| < |s| ==> !IsDigit(s[|d|])
  {
    if |s| > 0 && IsDigit(s[0]) then [s[0]] + LeadingDigits(s[1..]) else ""
  }

  /** `parseInt(s, 10)`: skip leading whitespace, an optional sign, then the
      longest run of digits; no digit gives NaN (None). */
  function ParseInt(s: string): Option<int>
  {
    var t := TrimStart(s);
    if |t| > 0 && (t[0] == '+' || t[0] == '-') then
      var d := LeadingDigits(t[1..]);
      if d == "" then None
      else if t[0] == '-' then Some(-(DigitsValue(d) as int))
      else Some(DigitsValue(d))
    else
      var d := LeadingDigits(t);
      if d == "" then None else Some(DigitsValue(d))
  }

  lemma {:induction false} LeadingDigitsOfDigits(s: string)
    requires AllDigits(s)
    ensures LeadingDigits(s) == s
  {
    if |s| > 0 {
      LeadingDigitsOfDigits(s[1..]);
      assert [s[0]] + s[1..] == s;
    }
  }

  lemma {:induction false} DigitsValueOfNat(n: nat)
    ensures DigitsValue(NatToString(n)) == n
    decreases n
  {
    var s := NatToString(n);
    if n >= 10 {
      DigitsValueOfNat(n / 10);
      assert s[..|s| - 1] == NatToString(n / 10);
    }
  }

  /** Printing a natural number and parsing it back gives the number. */
  lemma ParseIntOfNat(n: nat)
    ensures ParseInt(NatToString(n)) == Some(n)
  {
    var s := NatToString(n);
    assert IsDigit(s[0]) && !IsSpace(s[0]);
    assert TrimStart(s) == s;
    LeadingDigitsOfDigits(s);
    DigitsValueOfNat(n);
  }

  // ---------------------------------------------------------------------
  // Array.prototype.filter
  // ---------------------------------------------------------------------

  /** The entries `keep` accepts, in their original order. */
  function Filter<T(!new)>(xs: seq<T>, keep: T -> bool): (r: seq<T>)
    ensures |r| <= |xs|
    ensures forall x :: x in r <==> x in xs && keep(x)
  {
    if |xs| == 0 then [] else (if keep(xs[0]) then [xs[0]] else []) + Filter(xs[1..], keep)
  }

  /** `ps` lists, in increasing order, exactly the positions of `xs` whose
      entries pass `keep`, and `r` holds the entries at those positions. */
  ghost predicate KeptAt<T>(xs: seq<T>, r: seq<T>, keep: T -> bool, ps: seq<nat>)
  {
    && |ps| == |r|
    && (forall k :: 0 <= k < |ps| ==> ps[k] < |xs| && keep(xs[ps[k]]) && r[k] == xs[ps[k]])
    && (forall a, b :: 0 <= a < b < |ps| ==> ps[a] < ps[b])
    && (forall i :: 0 <= i < |xs| && keep(xs[i]) ==> i in ps)
  }

  function Shifted(ps: seq<nat>): (r: seq<nat>)
    ensures |r| == |ps| && forall k :: 0 <= k < |ps| ==> r[k] == ps[k] + 1
  {
    seq(|ps|, k requires 0 <= k < |ps| => ps[k] + 1)
  }

  /** The positions whose entries `Filter` keeps: the filtered list is the
      entries at exactly these positions, so it keeps every passing entry
      once, in its original order, and nothing else. */
  function FilterPositions<T(!new)>(xs: seq<T>, keep: T -> bool): (ps: seq<nat>)
    ensures KeptAt(xs, Filter(xs, keep), keep, ps)
  {
    if |xs| == 0 then []
    else
      var rest := FilterPositions(xs[1..], keep);
      KeptAtCons(xs, keep, rest);
      (if keep(xs[0]) then [0] else []) + Shifted(rest)
  }

  lemma KeptAtCons<T(!new)>(xs: seq<T>, keep: T -> bool, rest: seq<nat>)
    requires |xs| > 0 && KeptAt(xs[1..], Filter(xs[1..], keep), keep, rest)
    ensures KeptAt(xs, Filter(xs, keep), keep, (if keep(xs[0]) then [0] else []) + Shifted(rest))
  {
    var head: seq<nat> := if keep(xs[0]) then [0] else [];
    var ps := head + Shifted(rest);
    var f1 := Filter(xs[1..], keep);
    var f := Filter(xs, keep);
    assert f == (if keep(xs[0]) then [xs[0]] else []) + f1;
    ConsKept(xs, keep, rest, f1, f, head, ps);
  }

  lemma ConsKept<T>(xs: seq<T>, keep: T -> bool, rest: seq<nat>, f1: seq<T>, f: seq<T>, head: seq<nat>, ps: seq<nat>)
    requires |xs| > 0 && KeptAt(xs[1..], f1, keep, rest)
    requires head == (if keep(xs[0]) then [0] else []) && f == (if keep(xs[0]) then [xs[0]] else []) + f1
    requires ps == head + Shifted(rest)
    ensures KeptAt(xs, f, keep, ps)
  {
    ConsEntries(xs, keep, rest, f1, f, head, ps);
    ConsIncreasing(rest, head, ps);
    ConsComplete(xs, keep, rest, head, ps);
  }

  lemma ConsEntries<T>(xs: seq<T>, keep: T -> bool, rest: seq<nat>, f1: seq<T>, f: seq<T>, head: seq<nat>, ps: seq<nat>)
    requires |xs| > 0 && |rest| == |f1|
    requires forall k :: 0 <= k < |rest| ==>
      rest[k] < |xs| - 1 && keep(xs[1..][rest[k]]) && f1[k] == xs[1..][rest[k]]
    requires head == (if keep(xs[0]) then [0] else []) && f == (if keep(xs[0]) then [xs[0]] else []) + f1
    requires ps == head + Shifted(rest)
    ensures |ps| == |f|
    ensures forall k :: 0 <= k < |ps| ==> ps[k] < |xs| && keep(xs[ps[k]]) && f[k] == xs[ps[k]]
  {
    var h := |head|;
    forall k | 0 <= k < |ps| ensures ps[k] < |xs| && keep(xs[ps[k]]) && f[k] == xs[ps[k]] {
      if k >= h {
        assert ps[k] == rest[k - h] + 1 && f[k] == f1[k - h];
        assert xs[1..][rest[k - h]] == xs[ps[k]];
      }
    }
  }

  lemma ConsIncreasing(rest: seq<nat>, head: seq<nat>, ps: seq<nat>)
    requires forall a, b :: 0 <= a < b < |rest| ==> rest[a] < rest[b]
    requires head == [] || head == [0]
    requires ps == head + Shifted(rest)
    ensures forall a, b :: 0 <= a < b < |ps| ==> ps[a] < ps[b]
  {
    var h := |head|;
    forall a, b | 0 <= a < b < |ps| ensures ps[a] < ps[b] {
      assert ps[b] == rest[b - h] + 1;
      if a >= h {
        assert ps[a] == rest[a - h] + 1;
      }
    }
  }

  lemma ConsComplete<T>(xs: seq<T>, keep: T -> bool, rest: seq<nat>, head: seq<nat>, ps: seq<nat>)
    requires |xs| > 0
    requires forall i :: 0 <= i < |xs| - 1 && keep(xs[1..][i]) ==> i in rest
    requires head == (if keep(xs[0]) then [0] else [])
    requires ps == head + Shifted(rest)
    ensures forall i :: 0 <= i < |xs| && keep(xs[i]) ==> i in ps
  {
    var h := |head|;
    forall i | 0 <= i < |xs| && keep(xs[i]) ensures i in ps {
      if i > 0 {
        assert xs[1..][i - 1] == xs[i];
        var k :| 0 <= k < |rest| && rest[k] == i - 1;
        assert ps[h + k] == i;
      } else {
        assert ps[0] == 0;
      }
    }
  }

  /** Filtering keeps each passing value as often as it occurs and drops
      every other value. */
  lemma {:induction false} FilterCounts<T(!new)>(xs: seq<T>, keep: T -> bool)
    ensures forall x :: multiset(Filter(xs, keep))[x] == if keep(x) then multiset(xs)[x] else 0
  {
    if |xs| > 0 {
      FilterCounts(xs[1..], keep);
      assert xs == [xs[0]] + xs[1..];
      assert multiset(xs) == multiset([xs[0]]) + multiset(xs[1..]);
    }
  }

  /** Filtering distributes over concatenation: the kept entries keep their
      relative order. */
  lemma {:induction false} FilterAppend<T(!new)>(a: seq<T>, b: seq<T>, keep: T -> bool)
    ensures Filter(a + b, keep) == Filter(a, keep) + Filter(b, keep)
  {
    if |a| > 0 {
      assert (a + b)[0] == a[0];
      assert (a + b)[1..] == a[1..] + b;
      FilterAppend(a[1..], b, keep);
    } else {
      assert a + b == b;
    }
  }

  /** A filter that rejects nothing returns the list itself. */
  lemma {:induction false} FilterKeepsAll<T(!new)>(xs: seq<T>, keep: T -> bool)
    requires forall x :: x in xs ==> keep(x)
    ensures Filter(xs, keep) == xs
  {
    if |xs| > 0 {
      assert forall x :: x in xs[1..] ==> x in xs;
      FilterKeepsAll(xs[1..], keep);
    }
  }
}
