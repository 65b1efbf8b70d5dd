/**
 * The table-range helpers of the admin settings page
 * (frontend/src/pages/admin/Settings.tsx).
 *
 * A hall's tables are edited as text such as "1-5, 7, 9-12".
 * `parseTableRange` turns the text into the sorted list of distinct table
 * numbers; `formatTableRange` turns a list back into text, one entry per
 * run of consecutive numbers. Editing a hall fills the text box with the
 * formatted tables and saves what the parser makes of it, so the two must
 * round-trip. A cabinet keeps only its first table. Category entries
 * stored by older versions as bare names are read as kitchen categories.
 */
module SettingsPage {
  import opened Common
  import opened SettingsModel

  // ---------------------------------------------------------------------
  // Ordered lists of table numbers
  // ---------------------------------------------------------------------

  /** Strictly increasing: sorted and free of duplicates. */
  predicate Increasing(xs: seq<int>)
  {
    forall i, j :: 0 <= i < j < |xs| ==> xs[i] < xs[j]
  }

  /** Sorted, duplicates allowed. */
  predicate Ascending(xs: seq<int>)
  {
    forall i, j :: 0 <= i < j < |xs| ==> xs[i] <= xs[j]
  }

  /** `x` placed into a strictly increasing list, unless already there. */
  function InsertDistinct(xs: seq<int>, x: int): (r: seq<int>)
    requires Increasing(xs)
    ensures Increasing(r)
    ensures forall y :: y in r <==> y in xs || y == x
  {
    if |xs| == 0 then [x]
    else if x < xs[0] then
      PrependIncreasing(x, xs);
      [x] + xs
    else if x == xs[0] then xs
    else
      var rest := InsertDistinct(xs[1..], x);
      assert |rest| > 0 ==> rest[0] in rest && rest[0] > xs[0];
      PrependIncreasing(xs[0], rest);
      [xs[0]] + rest
  }

  /** A value below every value of a strictly increasing list can go in
      front of it. */
  lemma PrependIncreasing(h: int, xs: seq<int>)
    requires Increasing(xs)
    requires |xs| > 0 ==> h < xs[0]
    ensures Increasing([h] + xs)
  {
    var r := [h] + xs;
    forall i, j | 0 <= i < j < |r| ensures r[i] < r[j] {
      if i == 0 {
        assert r[j] == xs[j - 1];
        if j > 1 {
          assert xs[0] < xs[j - 1];
        }
      } else {
        assert r[i] == xs[i - 1] && r[j] == xs[j - 1];
      }
    }
  }

  /** `[...new Set(xs)].sort((a, b) => a - b)`: the distinct values of `xs`
      in increasing order. */
  function SortedDistinct(xs: seq<int>): (r: seq<int>)
    ensures Increasing(r)
    ensures forall y :: y in r <==> y in xs
  {
    if |xs| == 0 then []
    else
      var init := xs[..|xs| - 1];
      assert forall y :: y in xs <==> y in init || y == xs[|xs| - 1] by {
        assert xs == init + [xs[|xs| - 1]];
      }
      InsertDistinct(SortedDistinct(init), xs[|xs| - 1])
  }

  /** A strictly increasing list is determined by its elements. */
  lemma {:induction false} IncreasingUnique(a: seq<int>, b: seq<int>)
    requires Increasing(a) && Increasing(b)
    requires forall y :: y in a <==> y in b
    ensures a == b
    decreases |a|
  {
    assert |a| > 0 ==> a[0] in a;
    assert |b| > 0 ==> b[0] in b;
    if |a| > 0 && |b| > 0 {
      var i :| 0 <= i < |a| && a[i] == b[0];
      var j :| 0 <= j < |b| && b[j] == a[0];
      assert a[0] <= a[i] && b[0] <= b[j];
      forall y ensures y in a[1..] <==> y in b[1..] {
        if y in a[1..] {
          var k :| 1 <= k < |a| && a[k] == y;
          assert y in b && y != b[0];
        }
        if y in b[1..] {
          var k :| 1 <= k < |b| && b[k] == y;
          assert y in a && y != a[0];
        }
      }
      IncreasingUnique(a[1..], b[1..]);
      assert a == [a[0]] + a[1..] && b == [b[0]] + b[1..];
    }
  }

  /** A strictly increasing list is its own sorted distinct form. */
  lemma SortedDistinctOfIncreasing(xs: seq<int>)
    requires Increasing(xs)
    ensures SortedDistinct(xs) == xs
  {
    IncreasingUnique(SortedDistinct(xs), xs);
  }

  /** `x` placed into a sorted list. */
  function InsertAscending(xs: seq<int>, x: int): (r: seq<int>)
    requires Ascending(xs)
    ensures Ascending(r)
    ensures multiset(r) == multiset(xs) + multiset{x}
  {
    if |xs| == 0 then [x]
    else if x <= xs[0] then [x] + xs
    else
      var rest := InsertAscending(xs[1..], x);
      assert xs == [xs[0]] + xs[1..];
      AboveAll(rest, xs[1..], x, xs[0]);
      [xs[0]] + rest
  }

  /** Every value of a permutation of `xs` plus `x` is at least `lo` when
      every value of `xs` and `x` are. */
  lemma AboveAll(r: seq<int>, xs: seq<int>, x: int, lo: int)
    requires multiset(r) == multiset(xs) + multiset{x}
    requires x >= lo && forall k :: 0 <= k < |xs| ==> xs[k] >= lo
    ensures forall k :: 0 <= k < |r| ==> r[k] >= lo
  {
    forall k | 0 <= k < |r| ensures r[k] >= lo {
      assert r[k] in multiset(r);
      if r[k] != x {
        assert r[k] in multiset(xs);
        var j :| 0 <= j < |xs| && xs[j] == r[k];
      }
    }
  }

  /** Inserting a value above every other appends it. */
  lemma {:induction false} InsertAscendingLast(xs: seq<int>, x: int)
    requires Ascending(xs) && forall k :: 0 <= k < |xs| ==> xs[k] < x
    ensures InsertAscending(xs, x) == xs + [x]
  {
    if |xs| > 0 {
      InsertAscendingLast(xs[1..], x);
      assert xs == [xs[0]] + xs[1..];
    }
  }

  /** `[...tables].sort((a, b) => a - b)`: the same values, ascending. */
  function Sort(xs: seq<int>): (r: seq<int>)
    ensures Ascending(r)
    ensures multiset(r) == multiset(xs)
  {
    if |xs| == 0 then []
    else
      var init := xs[..|xs| - 1];
      assert xs == init + [xs[|xs| - 1]];
      InsertAscending(Sort(init), xs[|xs| - 1])
  }

  /** A strictly increasing list is already sorted. */
  lemma {:induction false} SortOfIncreasing(xs: seq<int>)
    requires Increasing(xs)
    ensures Sort(xs) == xs
  {
    if |xs| > 0 {
      var init := xs[..|xs| - 1];
      SortOfIncreasing(init);
      InsertAscendingLast(init, xs[|xs| - 1]);
      assert init + [xs[|xs| - 1]] == xs;
    }
  }

  // ---------------------------------------------------------------------
  // parseTableRange
  // ---------------------------------------------------------------------

  /** The integers lo, lo + 1, ..., hi - 1. */
  function Range(lo: int, hi: int): (r: seq<int>)
    ensures |r| == if lo < hi then hi - lo else 0
    ensures forall k :: 0 <= k < |r| ==> r[k] == lo + k
    decreases hi - lo
  {
    if lo >= hi then [] else Range(lo, hi - 1) + [hi - 1]
  }

  lemma RangeElements(lo: int, hi: int, y: int)
    ensures y in Range(lo, hi) <==> lo <= y < hi
  {
    if lo <= y < hi {
      assert Range(lo, hi)[y - lo] == y;
    }
  }

  /** `parseInt(s.trim())` of every piece. */
  function ParseEach(pieces: seq<string>): (r: seq<Option<int>>)
    ensures |r| == |pieces|
    ensures forall k :: 0 <= k < |pieces| ==> r[k] == ParseInt(Trim(pieces[k]))
  {
    if |pieces| == 0 then [] else [ParseInt(Trim(pieces[0]))] + ParseEach(pieces[1..])
  }

  /** The tables one comma-separated part contributes: every integer from a
      to b for "a-b", the number itself for a single number, and nothing
      for an empty part, a part that does not parse, or a part with two or
      more dashes. */
  function PartTables(part: string): seq<int>
  {
    var t := Trim(part);
    if t == "" then []
    else
      var ends := ParseEach(Split(t, '-'));
      if |ends| == 2 && ends[0].Some? && ends[1].Some? then Range(ends[0].value, ends[1].value + 1)
      else if |ends| == 1 && ends[0].Some? then [ends[0].value]
      else []
  }

  /** The tables of each part. */
  function Tables(parts: seq<string>): (tss: seq<seq<int>>)
    ensures |tss| == |parts| && forall k :: 0 <= k < |parts| ==> tss[k] == PartTables(parts[k])
  {
    if |parts| == 0 then [] else [PartTables(parts[0])] + Tables(parts[1..])
  }

  /** The lists one after another. */
  function Flatten(xss: seq<seq<int>>): seq<int>
  {
    if |xss| == 0 then [] else Flatten(xss[..|xss| - 1]) + xss[|xss| - 1]
  }

  /** The tables of the parts, in the order they are pushed. */
  function Collect(parts: seq<string>): seq<int>
  {
    Flatten(Tables(parts))
  }

  /** What `parseTableRange` returns for `input`. */
  function Parsed(input: string): (r: seq<int>)
    ensures Increasing(r)
    ensures forall y :: y in r <==> y in Collect(Split(input, ','))
  {
    SortedDistinct(Collect(Split(input, ',')))
  }

  lemma {:induction false} FlattenElements(xss: seq<seq<int>>, y: int)
    ensures y in Flatten(xss) <==> exists k :: 0 <= k < |xss| && y in xss[k]
  {
    if |xss| > 0 {
      var n := |xss| - 1;
      FlattenElements(xss[..n], y);
      if y in Flatten(xss[..n]) {
        var k :| 0 <= k < n && y in xss[..n][k];
        assert xss[k] == xss[..n][k];
      }
      if exists k :: 0 <= k < |xss| && y in xss[k] {
        var k :| 0 <= k < |xss| && y in xss[k];
        if k < n {
          assert xss[..n][k] == xss[k];
        }
      }
    }
  }

  /** A table is parsed exactly when some part contributes it. */
  lemma CollectElements(parts: seq<string>, y: int)
    ensures y in Collect(parts) <==> exists k :: 0 <= k < |parts| && y in PartTables(parts[k])
  {
    var tss := Tables(parts);
    FlattenElements(tss, y);
    if exists k :: 0 <= k < |parts| && y in PartTables(parts[k]) {
      var k :| 0 <= k < |parts| && y in PartTables(parts[k]);
      assert y in tss[k];
    }
  }

  /** A range part "a-b" contributes exactly the integers from a to b, and
      nothing when a > b; a single number contributes itself. */
  lemma RangePart(part: string, a: int, b: int, y: int)
    requires Trim(part) != ""
    requires ParseEach(Split(Trim(part), '-')) == [Some(a), Some(b)]
    ensures y in PartTables(part) <==> a <= y <= b
    ensures a > b ==> PartTables(part) == []
  {
    RangeElements(a, b + 1, y);
  }

  /** The loop of a range part: lo, lo + 1, ..., hi pushed onto `pushed`. */
  method PushRange(pushed: seq<int>, lo: int, hi: int) returns (pushed': seq<int>)
    ensures pushed' == pushed + Range(lo, hi + 1)
  {
    pushed' := pushed;
    var i := lo;
    while i <= hi
      invariant lo <= i <= if lo <= hi + 1 then hi + 1 else lo
      invariant pushed' == pushed + Range(lo, i)
      decreases hi - i
    {
      pushed' := pushed' + [i];
      i := i + 1;
    }
    assert i == hi + 1 || Range(lo, hi + 1) == Range(lo, i);
  }

  lemma TablesSnoc(parts: seq<string>, k: nat)
    requires k < |parts|
    ensures Tables(parts[..k + 1]) == Tables(parts[..k]) + [PartTables(parts[k])]
  {
  }

  lemma FlattenSnoc(xss: seq<seq<int>>, xs: seq<int>)
    ensures Flatten(xss + [xs]) == Flatten(xss) + xs
  {
    assert (xss + [xs])[..|xss|] == xss;
  }

  /** The tables of one part pushed onto `pushed`. */
  method PushPart(pushed: seq<int>, part: string) returns (pushed': seq<int>)
    ensures pushed' == pushed + PartTables(part)
  {
    pushed' := pushed;
    var trimmed := Trim(part);
    if trimmed == "" {
      return;
    }
    var ends := ParseEach(Split(trimmed, '-'));
    if |ends| == 2 && ends[0].Some? && ends[1].Some? {
      pushed' := PushRange(pushed', ends[0].value, ends[1].value);
    } else if |ends| == 1 && ends[0].Some? {
      pushed' := pushed' + [ends[0].value];
    }
  }

  /** `parseTableRange` on the page. */
  method ParseTableRange(input: string) returns (tables: seq<int>)
    ensures tables == Parsed(input)
  {
    var parts := Split(input, ',');
    var pushed: seq<int> := [];
    var k := 0;
    while k < |parts|
      invariant 0 <= k <= |parts|
      invariant pushed == Collect(parts[..k])
    {
      TablesSnoc(parts, k);
      FlattenSnoc(Tables(parts[..k]), PartTables(parts[k]));
      pushed := PushPart(pushed, parts[k]);
      k := k + 1;
    }
    assert parts[..|parts|] == parts;
    tables := SortedDistinct(pushed);
  }

  // ---------------------------------------------------------------------
  // formatTableRange
  // ---------------------------------------------------------------------

  /** A run of consecutive table numbers, first to last. */
  datatype Run = Run(first: int, last: int)

  /** The runs of a sorted list, scanned left to right with the current run
      `start`..`end` still open: a value one above `end` extends the run,
      any other value closes it and opens a new one. */
  function RunsFrom(xs: seq<int>, start: int, end: int): seq<Run>
  {
    if |xs| == 0 then [Run(start, end)]
    else if xs[0] == end + 1 then RunsFrom(xs[1..], start, xs[0])
    else [Run(start, end)] + RunsFrom(xs[1..], xs[0], xs[0])
  }

  function Runs(sorted: seq<int>): seq<Run>
    requires |sorted| > 0
  {
    RunsFrom(sorted[1..], sorted[0], sorted[0])
  }

  /** `${n}` for any integer. */
  function IntText(n: int): string
  {
    if n >= 0 then NatToString(n) else "-" + NatToString(-n)
  }

  /** "s" for a single table, "s-e" for a longer run. */
  function RunText(r: Run): string
  {
    if r.first == r.last then IntText(r.first) else IntText(r.first) + "-" + IntText(r.last)
  }

  function RunTexts(rs: seq<Run>): (ts: seq<string>)
    ensures |ts| == |rs| && forall k :: 0 <= k < |rs| ==> ts[k] == RunText(rs[k])
  {
    if |rs| == 0 then [] else [RunText(rs[0])] + RunTexts(rs[1..])
  }

  /** What `formatTableRange` returns for `tables`. */
  function Formatted(tables: seq<int>): (s: string)
    ensures |tables| == 0 ==> s == ""
  {
    if |tables| == 0 then "" else Join(RunTexts(Runs(Sort(tables))), ", ")
  }

  /** Some run covers `y`. */
  predicate Covered(rs: seq<Run>, y: int)
  {
    exists k :: 0 <= k < |rs| && rs[k].first <= y <= rs[k].last
  }

  lemma CoveredCons(r: Run, rest: seq<Run>, y: int)
    ensures Covered([r] + rest, y) <==> (r.first <= y <= r.last || Covered(rest, y))
  {
    if r.first <= y <= r.last {
      assert ([r] + rest)[0] == r;
    }
    if Covered(rest, y) {
      var k :| 0 <= k < |rest| && rest[k].first <= y <= rest[k].last;
      assert ([r] + rest)[k + 1] == rest[k];
    }
    if Covered([r] + rest, y) {
      var k :| 0 <= k < |[r] + rest| && ([r] + rest)[k].first <= y <= ([r] + rest)[k].last;
      if k > 0 {
        assert rest[k - 1] == ([r] + rest)[k];
        assert rest[k - 1].first <= y <= rest[k - 1].last;
      }
    }
  }

  /** The runs cover exactly the open run and the values still to scan. */
  lemma {:induction false} RunsFromCover(xs: seq<int>, start: int, end: int, y: int)
    requires start <= end
    ensures Covered(RunsFrom(xs, start, end), y) <==> (start <= y <= end || y in xs)
    decreases |xs|
  {
    assert y in xs <==> |xs| > 0 && (y == xs[0] || y in xs[1..]);
    if |xs| == 0 {
      assert RunsFrom(xs, start, end)[0] == Run(start, end);
    } else if xs[0] == end + 1 {
      RunsFromCover(xs[1..], start, xs[0], y);
    } else {
      RunsFromCover(xs[1..], xs[0], xs[0], y);
      CoveredCons(Run(start, end), RunsFrom(xs[1..], xs[0], xs[0]), y);
    }
  }

  /** Every run starts at or below its end, and no run reaches below a
      bound that the open run and the values to scan respect. */
  lemma {:induction false} RunsFromBounds(xs: seq<int>, start: int, end: int, lo: int)
    requires lo <= start <= end
    requires forall k :: 0 <= k < |xs| ==> xs[k] >= lo
    ensures forall r :: r in RunsFrom(xs, start, end) ==> lo <= r.first <= r.last
    decreases |xs|
  {
    if |xs| > 0 {
      if xs[0] == end + 1 {
        RunsFromBounds(xs[1..], start, xs[0], lo);
      } else {
        RunsFromBounds(xs[1..], xs[0], xs[0], lo);
      }
    }
  }

  /** On a strictly increasing list the runs are maximal and ascending:
      each run ends more than one below where the next begins, so two
      consecutive numbers never land in different runs. */
  lemma {:induction false} RunsFromSeparated(xs: seq<int>, start: int, end: int)
    requires start <= end && Increasing(xs)
    requires forall k :: 0 <= k < |xs| ==> xs[k] > end
    ensures |RunsFrom(xs, start, end)| >= 1 && RunsFrom(xs, start, end)[0].first == start
    ensures var rs := RunsFrom(xs, start, end);
      forall k :: 0 <= k < |rs| - 1 ==> rs[k].last + 1 < rs[k + 1].first
    decreases |xs|
  {
    if |xs| > 0 {
      if xs[0] == end + 1 {
        RunsFromSeparated(xs[1..], start, xs[0]);
      } else {
        RunsFromSeparated(xs[1..], xs[0], xs[0]);
        var rest := RunsFrom(xs[1..], xs[0], xs[0]);
        assert RunsFrom(xs, start, end) == [Run(start, end)] + rest;
      }
    }
  }

  /** The formatted runs of a strictly increasing list are maximal and in
      ascending order, and they cover exactly its values. */
  lemma RunsOfIncreasing(tables: seq<int>, y: int)
    requires |tables| > 0 && Increasing(tables)
    ensures var rs := Runs(Sort(tables));
      && (forall k :: 0 <= k < |rs| - 1 ==> rs[k].last + 1 < rs[k + 1].first)
      && (Covered(rs, y) <==> y in tables)
  {
    SortOfIncreasing(tables);
    var xs := tables[1..];
    assert Runs(Sort(tables)) == RunsFrom(xs, tables[0], tables[0]);
    assert Increasing(xs) by {
      forall i, j | 0 <= i < j < |xs| ensures xs[i] < xs[j] {
        assert xs[i] == tables[i + 1] && xs[j] == tables[j + 1];
      }
    }
    forall k | 0 <= k < |xs| ensures xs[k] > tables[0] {
      assert xs[k] == tables[k + 1];
    }
    RunsFromSeparated(xs, tables[0], tables[0]);
    RunsFromCover(xs, tables[0], tables[0], y);
    assert y in tables <==> y == tables[0] || y in xs;
  }

  lemma RunTextsSnoc(rs: seq<Run>, r: Run)
    ensures RunTexts(rs + [r]) == RunTexts(rs) + [RunText(r)]
  {
  }

  lemma RunsFromClose(xs: seq<int>, start: int, end: int)
    requires |xs| > 0 && xs[0] != end + 1
    ensures RunsFrom(xs, start, end) == [Run(start, end)] + RunsFrom(xs[1..], xs[0], xs[0])
  {
  }

  /** One step of the formatting loop: the next value either extends the
      open run or closes it and opens its own. */
  lemma RunsStep(sorted: seq<int>, i: nat, closed: seq<Run>, start: int, end: int)
    requires i < |sorted| && closed + RunsFrom(sorted[i..], start, end) == Runs(sorted)
    ensures sorted[i] == end + 1 ==> closed + RunsFrom(sorted[i + 1..], start, sorted[i]) == Runs(sorted)
    ensures sorted[i] != end + 1 ==>
      (closed + [Run(start, end)]) + RunsFrom(sorted[i + 1..], sorted[i], sorted[i]) == Runs(sorted)
  {
    var xs := sorted[i..];
    assert xs[0] == sorted[i] && xs[1..] == sorted[i + 1..];
    if sorted[i] != end + 1 {
      RunsFromClose(xs, start, end);
      var rest := RunsFrom(sorted[i + 1..], sorted[i], sorted[i]);
      assert (closed + [Run(start, end)]) + rest == closed + ([Run(start, end)] + rest);
    }
  }

  /** `formatTableRange` on the page. */
  method FormatTableRange(tables: seq<int>) returns (s: string)
    ensures s == Formatted(tables)
  {
    if |tables| == 0 {
      return "";
    }
    var sorted := Sort(tables);
    var ranges: seq<string> := [];
    ghost var closed: seq<Run> := [];
    var start, end := sorted[0], sorted[0];
    var i := 1;
    while i < |sorted|
      invariant 1 <= i <= |sorted|
      invariant closed + RunsFrom(sorted[i..], start, end) == Runs(sorted)
      invariant ranges == RunTexts(closed)
    {
      RunsStep(sorted, i, closed, start, end);
      if sorted[i] == end + 1 {
        end := sorted[i];
      } else {
        RunTextsSnoc(closed, Run(start, end));
        ranges := ranges + [RunText(Run(start, end))];
        closed := closed + [Run(start, end)];
        start, end := sorted[i], sorted[i];
      }
      i := i + 1;
    }
    assert sorted[i..] == [];
    RunTextsSnoc(closed, Run(start, end));
    ranges := ranges + [RunText(Run(start, end))];
    closed := closed + [Run(start, end)];
    s := Join(ranges, ", ");
  }

  // ---------------------------------------------------------------------
  // Round trip
  // ---------------------------------------------------------------------

  /** Splitting a ", "-joined list of comma-free pieces on ',' gives the
      first piece and every later one behind a space. */
  lemma {:induction false} SplitJoin(texts: seq<string>)
    requires |texts| >= 1
    requires forall k :: 0 <= k < |texts| ==> ',' !in texts[k]
    ensures var parts := Split(Join(texts, ", "), ',');
      && |parts| == |texts| && parts[0] == texts[0]
      && forall k :: 1 <= k < |texts| ==> parts[k] == " " + texts[k]
  {
    if |texts| > 1 {
      var rest := texts[1..];
      forall k | 0 <= k < |rest| ensures ',' !in rest[k] {
        assert rest[k] == texts[k + 1];
      }
      SplitJoin(rest);
      var tail := Join(rest, ", ");
      var tp := Split(tail, ',');
      assert Join(texts, ", ") == texts[0] + [','] + ([' '] + tail);
      SplitAtSeparator(texts[0], ',', [' '] + tail);
      SplitCons(' ', tail, ',');
      var parts := Split(Join(texts, ", "), ',');
      assert parts == [texts[0]] + ([[' '] + tp[0]] + tp[1..]);
      forall k | 1 <= k < |texts| ensures parts[k] == " " + texts[k] {
        if k > 1 {
          assert parts[k] == tp[k - 1] && texts[k] == rest[k - 1];
        }
      }
    } else {
      SplitNoSeparator(texts[0], ',');
    }
  }

  /** A digit string neither starts nor ends with whitespace and has
      neither comma nor dash. */
  lemma DigitsPlain(s: string)
    requires AllDigits(s)
    ensures Trimmed(s) && ',' !in s && '-' !in s
  {
    if |s| > 0 {
      assert IsDigit(s[0]) && IsDigit(s[|s| - 1]);
    }
  }

  /** "a-b" of two numbers neither starts nor ends with whitespace and has
      no comma. */
  lemma DashedPlain(x: nat, y: nat)
    ensures var t := NatToString(x) + ['-'] + NatToString(y);
      ',' !in t && Trimmed(t)
  {
    var a, b := NatToString(x), NatToString(y);
    DigitsPlain(a);
    DigitsPlain(b);
    var t := a + ['-'] + b;
    assert t[0] == a[0] && t[|t| - 1] == b[|b| - 1];
    assert IsDigit(a[0]) && IsDigit(b[|b| - 1]);
  }

  /** The text of a run of non-negative tables is not empty, is its own
      trim and has no comma. */
  lemma RunTextPlain(r: Run)
    requires 0 <= r.first <= r.last
    ensures ',' !in RunText(r) && RunText(r) != "" && Trim(RunText(r)) == RunText(r)
  {
    var t := RunText(r);
    if r.first == r.last {
      assert t == NatToString(r.first);
      DigitsPlain(t);
    } else {
      assert t == NatToString(r.first) + ['-'] + NatToString(r.last);
      DashedPlain(r.first, r.last);
    }
    TrimFixed(t);
  }

  /** A printed number, trimmed and parsed, is the number. */
  lemma ParseNumber(x: nat)
    ensures ParseInt(Trim(NatToString(x))) == Some(x)
  {
    var a := NatToString(x);
    DigitsPlain(a);
    TrimFixed(a);
    ParseIntOfNat(x);
  }

  lemma SplitNumber(x: nat)
    ensures Split(NatToString(x), '-') == [NatToString(x)]
  {
    DigitsPlain(NatToString(x));
    SplitNoSeparator(NatToString(x), '-');
  }

  lemma SplitDashed(x: nat, y: nat)
    ensures Split(NatToString(x) + ['-'] + NatToString(y), '-') == [NatToString(x), NatToString(y)]
  {
    var a, b := NatToString(x), NatToString(y);
    DigitsPlain(a);
    DigitsPlain(b);
    SplitAtSeparator(a, '-', b);
    SplitNoSeparator(b, '-');
  }

  lemma ParseEachPair(a: string, b: string)
    ensures ParseEach([a, b]) == [ParseInt(Trim(a)), ParseInt(Trim(b))]
  {
  }

  /** The pieces of a printed number parse to the number. */
  lemma NumberPieces(x: nat)
    ensures ParseEach(Split(NatToString(x), '-')) == [Some(x)]
  {
    ParseNumber(x);
    SplitNumber(x);
  }

  /** The pieces of "a-b" parse to a and b. */
  lemma DashedPieces(x: nat, y: nat)
    ensures ParseEach(Split(NatToString(x) + ['-'] + NatToString(y), '-')) == [Some(x), Some(y)]
  {
    ParseNumber(x);
    ParseNumber(y);
    SplitDashed(x, y);
    ParseEachPair(NatToString(x), NatToString(y));
  }

  /** The dash-separated pieces of a run's text parse to its ends. */
  lemma RunTextPieces(r: Run)
    requires 0 <= r.first <= r.last
    ensures ParseEach(Split(RunText(r), '-')) ==
      if r.first == r.last then [Some(r.first)] else [Some(r.first), Some(r.last)]
  {
    if r.first == r.last {
      assert RunText(r) == NatToString(r.first);
      NumberPieces(r.first);
    } else {
      assert RunText(r) == NatToString(r.first) + ['-'] + NatToString(r.last);
      DashedPieces(r.first, r.last);
    }
  }

  /** A part whose trimmed text is a single number contributes it. */
  lemma PartSingle(part: string, x: int)
    requires Trim(part) != "" && ParseEach(Split(Trim(part), '-')) == [Some(x)]
    ensures PartTables(part) == [x]
  {
  }

  /** A part whose trimmed text is "a-b" contributes a to b. */
  lemma PartPair(part: string, x: int, y: int)
    requires Trim(part) != "" && ParseEach(Split(Trim(part), '-')) == [Some(x), Some(y)]
    ensures PartTables(part) == Range(x, y + 1)
  {
  }

  /** Trimming the text of a run, with or without a leading space, gives
      the text back. */
  lemma RunPartTrim(r: Run, spaced: bool)
    requires 0 <= r.first <= r.last
    ensures var t := RunText(r);
      Trim(if spaced then " " + t else t) == t && t != ""
  {
    var t := RunText(r);
    RunTextPlain(r);
    if spaced {
      TrimLeadingSpace(t);
      assert " " + t == [' '] + t;
    }
  }

  /** A part that trims to the text of a run of non-negative tables gives
      back exactly the run. */
  lemma PartOfRunText(part: string, r: Run)
    requires 0 <= r.first <= r.last && Trim(part) == RunText(r)
    ensures PartTables(part) == Range(r.first, r.last + 1)
  {
    RunTextPlain(r);
    RunTextPieces(r);
    if r.first == r.last {
      PartSingle(part, r.first);
      assert Range(r.first, r.last + 1) == [r.first];
    } else {
      PartPair(part, r.first, r.last);
    }
  }

  /** The text of a run, with or without the space the join puts before
      it, contributes a table exactly when the run covers it. */
  lemma PartOfRun(r: Run, spaced: bool, y: int)
    requires 0 <= r.first <= r.last
    ensures y in PartTables(if spaced then " " + RunText(r) else RunText(r)) <==> r.first <= y <= r.last
  {
    RunPartTrim(r, spaced);
    PartOfRunText(if spaced then " " + RunText(r) else RunText(r), r);
    RangeElements(r.first, r.last + 1, y);
  }

  /** The texts of runs of non-negative tables have no comma. */
  lemma RunTextsPlain(rs: seq<Run>)
    requires forall r :: r in rs ==> 0 <= r.first <= r.last
    ensures forall k :: 0 <= k < |rs| ==> ',' !in RunTexts(rs)[k]
  {
    forall k | 0 <= k < |rs| ensures ',' !in RunTexts(rs)[k] {
      assert rs[k] in rs;
      RunTextPlain(rs[k]);
    }
  }

  /** Parsing the joined texts of runs of non-negative tables gives back
      exactly what the runs cover. */
  lemma ParseRuns(rs: seq<Run>, y: int)
    requires |rs| >= 1 && forall r :: r in rs ==> 0 <= r.first <= r.last
    ensures y in Collect(Split(Join(RunTexts(rs), ", "), ',')) <==> Covered(rs, y)
  {
    var texts := RunTexts(rs);
    RunTextsPlain(rs);
    var parts := Split(Join(texts, ", "), ',');
    SplitJoin(texts);
    CollectElements(parts, y);
    PartsOfRuns(rs, parts, y);
  }

  /** Parts that are the runs' texts, every one after the first behind a
      space, contribute a table exactly when some run covers it. */
  lemma PartsOfRuns(rs: seq<Run>, parts: seq<string>, y: int)
    requires forall r :: r in rs ==> 0 <= r.first <= r.last
    requires |parts| == |rs| && |rs| >= 1 && parts[0] == RunText(rs[0])
    requires forall k :: 1 <= k < |rs| ==> parts[k] == " " + RunText(rs[k])
    ensures (exists k :: 0 <= k < |parts| && y in PartTables(parts[k])) <==> Covered(rs, y)
  {
    forall k | 0 <= k < |parts| ensures y in PartTables(parts[k]) <==> rs[k].first <= y <= rs[k].last {
      assert rs[k] in rs;
      PartOfRun(rs[k], k > 0, y);
    }
  }

  /** The runs of a sorted list of non-negative tables are runs of
      non-negative tables and cover exactly its values. */
  lemma RunsOfSorted(sorted: seq<int>, y: int)
    requires |sorted| > 0 && forall k :: 0 <= k < |sorted| ==> sorted[k] >= 0
    ensures |Runs(sorted)| >= 1
    ensures forall r :: r in Runs(sorted) ==> 0 <= r.first <= r.last
    ensures Covered(Runs(sorted), y) <==> y in sorted
  {
    RunsFromBounds(sorted[1..], sorted[0], sorted[0], 0);
    RunsFromCover(sorted[1..], sorted[0], sorted[0], y);
    RunsFromCover(sorted[1..], sorted[0], sorted[0], sorted[0]);
    assert y in sorted <==> y == sorted[0] || y in sorted[1..];
  }

  /** Sorting keeps the values. */
  lemma SortElements(tables: seq<int>)
    ensures forall z :: z in Sort(tables) <==> z in tables
  {
    var sorted := Sort(tables);
    assert forall z :: z in sorted <==> z in multiset(tables);
  }

  /** The parts of a formatted list give back exactly its values. */
  lemma FormattedElements(tables: seq<int>, y: int)
    requires |tables| > 0 && forall k :: 0 <= k < |tables| ==> tables[k] >= 0
    ensures y in Collect(Split(Formatted(tables), ',')) <==> y in tables
  {
    var sorted := Sort(tables);
    SortElements(tables);
    forall k | 0 <= k < |sorted| ensures sorted[k] >= 0 {
      assert sorted[k] in sorted;
    }
    RunsOfSorted(sorted, y);
    ParseRuns(Runs(sorted), y);
  }

  /** The round trip: parsing the formatted text of non-negative tables
      gives them back sorted and without duplicates. */
  lemma RoundTrip(tables: seq<int>)
    requires forall k :: 0 <= k < |tables| ==> tables[k] >= 0
    ensures Parsed(Formatted(tables)) == SortedDistinct(tables)
  {
    if |tables| == 0 {
      assert Split("", ',') == [""];
      assert Collect([""]) == [] by {
        assert [""][..0] == [];
      }
    } else {
      forall y ensures y in Parsed(Formatted(tables)) <==> y in SortedDistinct(tables) {
        FormattedElements(tables, y);
      }
    }
    IncreasingUnique(Parsed(Formatted(tables)), SortedDistinct(tables));
  }

  /** Opening a hall for editing and saving without touching its tables
      keeps them, for any list the parser can have produced. */
  lemma EditKeepsTables(tables: seq<int>)
    requires Increasing(tables) && forall k :: 0 <= k < |tables| ==> tables[k] >= 0
    ensures Parsed(Formatted(tables)) == tables
  {
    RoundTrip(tables);
    SortedDistinctOfIncreasing(tables);
  }

  // ---------------------------------------------------------------------
  // Cabinets and legacy categories
  // ---------------------------------------------------------------------

  /** The tables sent when a hall is added or edited: a cabinet keeps only
      the first parsed table (`slice(0, 1)`), which is the smallest, and
      keeps one whenever any parsed. */
  function HallTables(kind: HallType, input: string): (r: seq<int>)
    ensures kind == Cabinet ==> |r| <= 1 && (r == [] <==> Parsed(input) == [])
    ensures kind == Cabinet && r != [] ==> r[0] in Parsed(input) && forall y :: y in Parsed(input) ==> r[0] <= y
    ensures kind == HallRoom ==> r == Parsed(input)
  {
    var parsed := Parsed(input);
    if kind == Cabinet then parsed[..if |parsed| < 1 then |parsed| else 1] else parsed
  }

  /** A stored category entry: a bare name from older versions, or a name
      with its department. */
  datatype StoredCategory = LegacyName(name: string) | Entry(category: Category)

  /** The categories as the page reads them. */
  function Normalised(stored: seq<StoredCategory>): (cs: seq<Category>)
    ensures |cs| == |stored|
    ensures forall k :: 0 <= k < |stored| ==>
      cs[k] == (match stored[k] case LegacyName(n) => Category(n, Kitchen) case Entry(c) => c)
  {
    if |stored| == 0 then []
    else
      var c := match stored[0] case LegacyName(n) => Category(n, Kitchen) case Entry(c) => c;
      [c] + Normalised(stored[1..])
  }

  /** Normalising keeps every name and sends every legacy name to the
      kitchen; reading already normalised entries again changes nothing. */
  lemma NormalisedNames(stored: seq<StoredCategory>)
    ensures CategoryNames(Normalised(stored)) == seq(|stored|, k requires 0 <= k < |stored| =>
      match stored[k] case LegacyName(n) => n case Entry(c) => c.name)
    ensures forall k :: 0 <= k < |stored| && stored[k].LegacyName? ==> Normalised(stored)[k].role == Kitchen
    ensures var cs := Normalised(stored);
      Normalised(seq(|cs|, k requires 0 <= k < |cs| => Entry(cs[k]))) == cs
  {
  }
}
