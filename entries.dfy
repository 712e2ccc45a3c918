/**
 * What each of the six extractors of the scraper service does with the text
 * it has pulled out of a page: the table cells (PYPL, TIOBE) or the labels
 * captured by the numbered-list pattern (GeeksforGeeks, withcodeexample,
 * Digitalogy, LinkedIn), turned into ranked entries and, for four of the six
 * sources, cut down to the top ten.
 */
module Entries {
  import opened JsText

  /** The `ranking` field as JavaScript holds it: missing, a string or a number. */
  datatype RankValue = Undefined | Str(text: string) | Num(n: int)

  /** One `{ ranking, language }` object; `language` is missing when its cell is. */
  datatype Entry = Entry(ranking: RankValue, language: Option<string>)

  /** `Number(val.ranking)`. */
  function RankNumber(v: RankValue): JsNumber {
    match v
    case Undefined => NaN
    case Str(s) => StringToNumber(s)
    case Num(n) => Finite(n as real)
  }

  /** The test of the top-10 filters: `Number(val.ranking) <= 10`. */
  predicate InTopTen(e: Entry) {
    AtMostTen(RankNumber(e.ranking))
  }

  // ---------------------------------------------------------------------------
  // The top-10 filter

  /** `entries.filter((val) => Number(val.ranking) <= 10)`. */
  function TopTen(entries: seq<Entry>): (r: seq<Entry>)
    ensures |r| <= |entries|
  {
    if entries == [] then []
    else (if InTopTen(entries[0]) then [entries[0]] else []) + TopTen(entries[1..])
  }

  /** An entry survives the filter exactly when it was in the input and passes the test. */
  lemma {:induction false} TopTenMembers(entries: seq<Entry>)
    ensures forall e :: e in TopTen(entries) <==> e in entries && InTopTen(e)
  {
    if entries != [] {
      TopTenMembers(entries[1..]);
      assert entries == [entries[0]] + entries[1..];
    }
  }

  /**
   * Every occurrence of a passing entry survives and no occurrence of a
   * failing one does: each entry appears in the result exactly as often as in
   * the input if it passes the test, and not at all otherwise.
   */
  lemma {:induction false} TopTenCounts(entries: seq<Entry>)
    ensures forall e :: multiset(TopTen(entries))[e] == if InTopTen(e) then multiset(entries)[e] else 0
  {
    if entries != [] {
      TopTenCounts(entries[1..]);
      assert entries == [entries[0]] + entries[1..];
      assert multiset(entries) == multiset{entries[0]} + multiset(entries[1..]);
    }
  }

  /** `r` is `s` with some elements left out and the others in their order. */
  predicate IsSubsequence<T(==)>(r: seq<T>, s: seq<T>)
    decreases |s|
  {
    if r == [] then true
    else if s == [] then false
    else (r[0] == s[0] && IsSubsequence(r[1..], s[1..])) || IsSubsequence(r, s[1..])
  }

  /** The filter keeps the order of what it keeps. */
  lemma {:induction false} TopTenIsSubsequence(entries: seq<Entry>)
    ensures IsSubsequence(TopTen(entries), entries)
  {
    if entries != [] {
      TopTenIsSubsequence(entries[1..]);
      var r := TopTen(entries);
      if InTopTen(entries[0]) {
        assert r[0] == entries[0] && r[1..] == TopTen(entries[1..]);
      } else {
        assert r == TopTen(entries[1..]);
      }
    }
  }

  /** Filtering a second time changes nothing. */
  lemma {:induction false} TopTenIdempotent(entries: seq<Entry>)
    ensures TopTen(TopTen(entries)) == TopTen(entries)
  {
    if entries != [] {
      TopTenIdempotent(entries[1..]);
      var r := TopTen(entries);
      if InTopTen(entries[0]) {
        assert r == [entries[0]] + TopTen(entries[1..]);
        assert r[0] == entries[0] && r[1..] == TopTen(entries[1..]);
        assert TopTen(r) == [r[0]] + TopTen(r[1..]);
      } else {
        assert r == TopTen(entries[1..]);
      }
    }
  }

  /**
   * When the first `m` entries pass the filter and the rest fail it, the
   * filter returns exactly the first `m`.
   */
  lemma {:induction false} TopTenKeepsPrefix(entries: seq<Entry>, m: nat)
    requires m <= |entries|
    requires forall k :: 0 <= k < m ==> InTopTen(entries[k])
    requires forall k :: m <= k < |entries| ==> !InTopTen(entries[k])
    ensures TopTen(entries) == entries[..m]
  {
    if entries != [] {
      if m == 0 {
        TopTenKeepsPrefix(entries[1..], 0);
      } else {
        TopTenKeepsPrefix(entries[1..], m - 1);
        assert entries[..m] == [entries[0]] + entries[1..][..m - 1];
      }
    }
  }

  // ---------------------------------------------------------------------------
  // Table sources: each row is given as the inner texts of its `td` cells.

  /** `cols[i]?.innerText.trim()`. */
  function Cell(row: seq<string>, i: nat): Option<string> {
    if i < |row| then Some(Trim(row[i])) else None
  }

  /** A PYPL row: rank from cell 0, language from cell 2, either missing when the row is short. */
  function PyplEntry(row: seq<string>): Entry {
    Entry(if |row| > 0 then Str(Trim(row[0])) else Undefined, Cell(row, 2))
  }

  /** The rows' `map` step: one entry per table row, in table order. */
  function PyplEntries(rows: seq<seq<string>>): (r: seq<Entry>)
    ensures |r| == |rows|
    ensures forall k :: 0 <= k < |rows| ==> r[k] == PyplEntry(rows[k])
  {
    seq(|rows|, k requires 0 <= k < |rows| => PyplEntry(rows[k]))
  }

  /**
   * PYPL: one entry per table row, then the top-10 filter. The result keeps
   * the table order and every occurrence of a passing row's entry.
   */
  function PyplRanking(rows: seq<seq<string>>): (r: seq<Entry>)
    ensures |r| <= |rows|
    ensures forall e :: e in r ==> InTopTen(e) && e.ranking.Str?
    ensures forall k :: 0 <= k < |rows| && InTopTen(PyplEntry(rows[k])) ==> PyplEntry(rows[k]) in r
    ensures IsSubsequence(r, PyplEntries(rows))
    ensures forall e :: multiset(r)[e] == if InTopTen(e) then multiset(PyplEntries(rows))[e] else 0
  {
    TopTenMembers(PyplEntries(rows));
    TopTenIsSubsequence(PyplEntries(rows));
    TopTenCounts(PyplEntries(rows));
    TopTen(PyplEntries(rows))
  }

  /** A TIOBE row with at least six cells: rank from cell 0, language from cell 4, both trimmed. */
  function TiobeEntry(row: seq<string>): Entry
    requires |row| >= 6
  {
    Entry(Str(Trim(row[0])), Some(Trim(row[4])))
  }

  /** The map step: `undefined` for a row with fewer than six cells. */
  function TiobeCells(rows: seq<seq<string>>): (r: seq<Option<Entry>>)
    ensures |r| == |rows|
    ensures forall k :: 0 <= k < |rows| ==>
      r[k] == if |rows[k]| >= 6 then Some(TiobeEntry(rows[k])) else None
  {
    seq(|rows|, k requires 0 <= k < |rows| =>
      if |rows[k]| >= 6 then Some(TiobeEntry(rows[k])) else None)
  }

  /** `.filter((item) => item !== undefined)`. */
  function Defined(s: seq<Option<Entry>>): (r: seq<Entry>)
    ensures |r| <= |s|
    ensures forall e :: e in r <==> Some(e) in s
  {
    if s == [] then []
    else (if s[0].Some? then [s[0].value] else []) + Defined(s[1..])
  }

  /** Number of defined items. */
  function SomeCount(s: seq<Option<Entry>>): nat {
    if s == [] then 0 else (if s[0].Some? then 1 else 0) + SomeCount(s[1..])
  }

  /**
   * Dropping the `undefined` items keeps the defined ones in their order and
   * with their repetitions: the item at index `k`, when defined, lands at the
   * index that counts the defined items before it, and nothing else is kept.
   */
  lemma {:induction false} DefinedKeepsOrder(s: seq<Option<Entry>>)
    ensures |Defined(s)| == SomeCount(s)
    ensures forall k :: 0 <= k < |s| && s[k].Some? ==>
      SomeCount(s[..k]) < |Defined(s)| && Defined(s)[SomeCount(s[..k])] == s[k].value
  {
    if s != [] {
      DefinedKeepsOrder(s[1..]);
      var h: seq<Entry> := if s[0].Some? then [s[0].value] else [];
      assert Defined(s) == h + Defined(s[1..]);
      forall k | 0 <= k < |s| && s[k].Some?
        ensures SomeCount(s[..k]) < |Defined(s)| && Defined(s)[SomeCount(s[..k])] == s[k].value
      {
        if k > 0 {
          assert s[..k][1..] == s[1..][..k - 1];
          assert SomeCount(s[..k]) == |h| + SomeCount(s[1..][..k - 1]);
        }
      }
    }
  }

  /** The entries TIOBE's table yields before the top-10 filter. */
  function TiobeRows(rows: seq<seq<string>>): seq<Entry> {
    Defined(TiobeCells(rows))
  }

  /** Number of rows with at least six cells. */
  function WideRows(rows: seq<seq<string>>): nat {
    if rows == [] then 0 else (if |rows[0]| >= 6 then 1 else 0) + WideRows(rows[1..])
  }

  /** The map step yields a defined item for exactly the rows with at least six cells. */
  lemma {:induction false} TiobeCellsCount(rows: seq<seq<string>>)
    ensures SomeCount(TiobeCells(rows)) == WideRows(rows)
  {
    if rows != [] {
      TiobeCellsCount(rows[1..]);
      assert TiobeCells(rows)[1..] == TiobeCells(rows[1..]);
    }
  }

  /**
   * Short rows are skipped and only they: one entry per row with at least six
   * cells, in table order, so the entry of full row `k` sits at the index that
   * counts the full rows before it; nothing comes from any other row.
   */
  lemma TiobeRowsSkipShortRows(rows: seq<seq<string>>)
    ensures |TiobeRows(rows)| == WideRows(rows)
    ensures forall k :: 0 <= k < |rows| && |rows[k]| >= 6 ==>
      WideRows(rows[..k]) < |TiobeRows(rows)| && TiobeRows(rows)[WideRows(rows[..k])] == TiobeEntry(rows[k])
    ensures forall e :: e in TiobeRows(rows) ==>
      exists k :: 0 <= k < |rows| && |rows[k]| >= 6 && e == TiobeEntry(rows[k])
  {
    var cells := TiobeCells(rows);
    DefinedKeepsOrder(cells);
    TiobeCellsCount(rows);
    forall k | 0 <= k < |rows| && |rows[k]| >= 6
      ensures WideRows(rows[..k]) < |TiobeRows(rows)| && TiobeRows(rows)[WideRows(rows[..k])] == TiobeEntry(rows[k])
    {
      assert cells[..k] == TiobeCells(rows[..k]);
      TiobeCellsCount(rows[..k]);
      assert cells[k] == Some(TiobeEntry(rows[k]));
    }
    forall e | e in TiobeRows(rows)
      ensures exists k :: 0 <= k < |rows| && |rows[k]| >= 6 && e == TiobeEntry(rows[k])
    {
      var k :| 0 <= k < |cells| && cells[k] == Some(e);
      assert |rows[k]| >= 6 && e == TiobeEntry(rows[k]);
    }
  }

  /**
   * TIOBE: the entries of its full rows, then the top-10 filter. The result
   * keeps the rows' order and every occurrence of a passing entry.
   */
  function TiobeRanking(rows: seq<seq<string>>): (r: seq<Entry>)
    ensures |r| <= WideRows(rows)
    ensures forall e :: e in r ==> InTopTen(e) && e.ranking.Str? && e.language.Some?
    ensures forall e :: e in r ==> e in TiobeRows(rows)
    ensures forall k :: 0 <= k < |rows| && |rows[k]| >= 6 && InTopTen(TiobeEntry(rows[k])) ==>
      TiobeEntry(rows[k]) in r
    ensures IsSubsequence(r, TiobeRows(rows))
    ensures forall e :: multiset(r)[e] == if InTopTen(e) then multiset(TiobeRows(rows))[e] else 0
  {
    TiobeRowsSkipShortRows(rows);
    TopTenMembers(TiobeRows(rows));
    TopTenIsSubsequence(TiobeRows(rows));
    TopTenCounts(TiobeRows(rows));
    TopTen(TiobeRows(rows))
  }

  // ---------------------------------------------------------------------------
  // Pattern sources: the labels captured by `/\d+\.\s([A-Za-z\+\#]+)/g`, in match order.

  /**
   * `matches.map((match, index) => ({ ranking: (index + 1).toString(),
   * language: match[1].trim() }))`: one entry per match, in match order.
   */
  function PatternEntries(captures: seq<string>): (r: seq<Entry>)
    ensures |r| == |captures|
    ensures forall k :: 0 <= k < |r| ==> r[k].ranking == Str(NatToString(k + 1))
    ensures forall k :: 0 <= k < |r| ==> r[k].language == Some(Trim(captures[k]))
  {
    seq(|captures|, k requires 0 <= k < |captures| =>
      Entry(Str(NatToString(k + 1)), Some(Trim(captures[k]))))
  }

  /**
   * The rank of a pattern entry is its place among the matches, whatever
   * number the text printed before the label; so exactly the first ten pass
   * the top-10 test.
   */
  lemma PatternEntriesRankByMatchOrder(captures: seq<string>)
    ensures forall k :: 0 <= k < |captures| ==>
      RankNumber(PatternEntries(captures)[k].ranking) == Finite((k + 1) as real)
      && (InTopTen(PatternEntries(captures)[k]) <==> k < 10)
  {
    forall k | 0 <= k < |captures|
      ensures RankNumber(PatternEntries(captures)[k].ranking) == Finite((k + 1) as real)
    {
      NumberOfNatString(k + 1);
    }
  }

  /** Of the pattern entries exactly the first ten pass the filter. */
  lemma PatternEntriesTopTen(captures: seq<string>)
    ensures TopTen(PatternEntries(captures)) == PatternEntries(captures)[..Min(|captures|, 10)]
  {
    PatternEntriesRankByMatchOrder(captures);
    TopTenKeepsPrefix(PatternEntries(captures), Min(|captures|, 10));
  }

  /** GeeksforGeeks: the pattern entries, then the top-10 filter. */
  function GeeksforGeeksRanking(captures: seq<string>): (r: seq<Entry>)
    ensures |r| == Min(|captures|, 10)
    ensures forall k :: 0 <= k < |r| ==>
      RankNumber(r[k].ranking) == Finite((k + 1) as real) && r[k].language == Some(Trim(captures[k]))
  {
    PatternEntriesRankByMatchOrder(captures);
    PatternEntriesTopTen(captures);
    TopTen(PatternEntries(captures))
  }

  /**
   * Digitalogy and LinkedIn: the pattern entries with no filter, so a match
   * past the tenth is returned although the top-10 test would drop it.
   */
  function LearningCurveRanking(captures: seq<string>): (r: seq<Entry>)
    ensures |r| == |captures|
    ensures forall k :: 0 <= k < |r| ==> r[k].ranking == Str(NatToString(k + 1))
    ensures forall k :: 0 <= k < |r| ==> r[k].language == Some(Trim(captures[k]))
    ensures forall k :: 0 <= k < |r| ==> (InTopTen(r[k]) <==> k < 10)
  {
    PatternEntriesRankByMatchOrder(captures);
    PatternEntries(captures)
  }

  /** Entries numbered 1, 2, 3, ... as numbers: exactly the first ten pass the filter. */
  lemma RenumberedTopTen(entries: seq<Entry>)
    requires forall k :: 0 <= k < |entries| ==> entries[k].ranking == Num(k + 1)
    ensures TopTen(entries) == entries[..Min(|entries|, 10)]
  {
    forall k | 0 <= k < |entries| ensures InTopTen(entries[k]) <==> k < 10 {
      assert RankNumber(entries[k].ranking) == Finite((k + 1) as real);
    }
    TopTenKeepsPrefix(entries, Min(|entries|, 10));
  }

  /** `array.reverse()`: reverses `a` in place. */
  method ReverseInPlace<T>(a: array<T>)
    modifies a
    ensures forall k :: 0 <= k < a.Length ==> a[k] == old(a[a.Length - 1 - k])
  {
    var lo, hi := 0, a.Length - 1;
    while lo < hi
      invariant 0 <= lo <= a.Length && hi == a.Length - 1 - lo
      invariant forall k :: 0 <= k < lo || hi < k < a.Length ==> a[k] == old(a[a.Length - 1 - k])
      invariant forall k :: lo <= k <= hi ==> a[k] == old(a[k])
    {
      a[lo], a[hi] := a[hi], a[lo];
      lo, hi := lo + 1, hi - 1;
    }
  }

  /**
   * withcodeexample's entries before renumbering: the pattern entries copied
   * into an array and reversed in place, so the k-th carries the label of the
   * k-th match counted from the end of the text.
   */
  method ReversedPatternEntries(captures: seq<string>) returns (reversed: seq<Entry>)
    ensures |reversed| == |captures|
    ensures forall k :: 0 <= k < |reversed| ==>
      reversed[k].language == Some(Trim(captures[|captures| - 1 - k]))
  {
    var matches := PatternEntries(captures);
    var languagesData := new Entry[|matches|](k requires 0 <= k < |matches| => matches[k]);
    ReverseInPlace(languagesData);
    reversed := languagesData[..];
    forall k | 0 <= k < |reversed|
      ensures reversed[k].language == Some(Trim(captures[|captures| - 1 - k]))
    {
      assert reversed[k] == matches[|matches| - 1 - k];
    }
  }

  /**
   * What withcodeexample returns, stated directly: `min(n, 10)` entries, the
   * k-th numbered `k + 1` as a number and labelled with the trimmed capture
   * of match `n - 1 - k`.
   */
  predicate IsWithCodeExampleRanking(captures: seq<string>, ranking: seq<Entry>) {
    && |ranking| == Min(|captures|, 10)
    && forall k :: 0 <= k < |ranking| ==>
         ranking[k] == Entry(Num(k + 1), Some(Trim(captures[|captures| - 1 - k])))
  }

  /**
   * withcodeexample: the page lists its languages from the bottom up, so the
   * pattern entries are reversed in place and renumbered from 1 with a
   * counter, as numbers, before the top-10 filter. The k-th result is the
   * k-th match counted from the end of the text.
   */
  method WithCodeExampleRanking(captures: seq<string>) returns (ranking: seq<Entry>)
    ensures IsWithCodeExampleRanking(captures, ranking)
  {
    var reversed := ReversedPatternEntries(captures);
    var count := 1;
    var renumbered: seq<Entry> := [];
    for i := 0 to |reversed|
      invariant count == i + 1 && |renumbered| == i
      invariant forall k :: 0 <= k < i ==> renumbered[k] == Entry(Num(k + 1), reversed[k].language)
    {
      renumbered := renumbered + [Entry(Num(count), reversed[i].language)];
      count := count + 1;
    }
    RenumberedTopTen(renumbered);
    ranking := TopTen(renumbered);
  }
}
