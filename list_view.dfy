/** The search-and-pagination engine that the Frontend, Backend, ProjectLead,
    FigmaRepository and Accounts work-queue screens each carry a copy of.
    A screen supplies its fixed rows and the list of values searched in a
    row; the engine filters the rows by a query and shows them ten at a time. */
module ListView {
  import opened Text
  import Seqs

  /** `PER_PAGE` of every work-queue screen. */
  const PerPage: nat := 10

  /** Some value of the row, lower-cased, includes `q`
      (`[...].some((v) => String(v).toLowerCase().includes(q))`). */
  predicate AnyFieldIncludes(values: seq<string>, q: string)
  {
    exists i :: 0 <= i < |values| && Contains(Lower(values[i]), q)
  }

  /** A row matches a non-blank query when one of its searchable values,
      lower-cased, includes the lower-cased query. The query is not trimmed. */
  predicate Matches<R>(fields: R -> seq<string>, query: string, r: R)
  {
    AnyFieldIncludes(fields(r), Lower(query))
  }

  /** `filtered`: every row when the query is blank after trimming, otherwise
      the matching rows in their original order. */
  function Filtered<R>(rows: seq<R>, fields: R -> seq<string>, query: string): seq<R>
  {
    if Trim(query) == "" then rows
    else Seqs.Filter(rows, r => Matches(fields, query, r))
  }

  /** A query made only of white space filters nothing out. */
  lemma FilteredBlank<R>(rows: seq<R>, fields: R -> seq<string>, query: string)
    requires IsBlank(query)
    ensures Filtered(rows, fields, query) == rows
  {
    TrimEmptyIffBlank(query);
  }

  /** For a query with some non-white-space character, a row is kept iff it
      matches, and each matching row is kept as often as it occurs. */
  lemma FilteredExactly<R>(rows: seq<R>, fields: R -> seq<string>, query: string, r: R)
    requires !IsBlank(query)
    ensures multiset(Filtered(rows, fields, query))[r]
         == if Matches(fields, query, r) then multiset(rows)[r] else 0
    ensures r in Filtered(rows, fields, query) <==> r in rows && Matches(fields, query, r)
  {
    TrimEmptyIffBlank(query);
    Seqs.FilterCount(rows, (x: R) => Matches(fields, query, x), r);
    Seqs.FilterMembership(rows, (x: R) => Matches(fields, query, x), r);
  }

  /** Filtering never reorders: the result is a subsequence of the rows. */
  lemma FilteredInOrder<R>(rows: seq<R>, fields: R -> seq<string>, query: string)
    ensures Seqs.IsSubsequence(Filtered(rows, fields, query), rows)
    ensures |Filtered(rows, fields, query)| <= |rows|
  {
    if Trim(query) == "" {
      SubsequenceOfItself(rows);
    } else {
      Seqs.FilterIsSubsequence(rows, (x: R) => Matches(fields, query, x));
    }
  }

  lemma {:induction false} SubsequenceOfItself<T>(s: seq<T>)
    ensures Seqs.IsSubsequence(s, s)
    decreases |s|
  {
    if s != [] {
      SubsequenceOfItself(s[1..]);
    }
  }

  /** Blankness is judged on the trimmed query, matching on the query as typed:
      a trailing space turns a query that matches a row into one that does not. */
  lemma QueryNotTrimmedForMatching()
    ensures Filtered(["a"], Single, "A") == ["a"]
    ensures Filtered(["a"], Single, "A ") == []
  {
    ExampleQueriesNotBlank();
    ExampleMatches();
    assert ["a"][1..] == [];
  }

  function Single(v: string): seq<string>
  {
    [v]
  }

  lemma ExampleQueriesNotBlank()
    ensures Trim("A") != "" && Trim("A ") != ""
  {
    TrimEmptyIffBlank("A");
    TrimEmptyIffBlank("A ");
    assert !IsWhitespace("A"[0]) && !IsWhitespace("A "[0]);
  }

  lemma ExampleMatches()
    ensures Matches(Single, "A", "a")
    ensures !Matches(Single, "A ", "a")
  {
    assert Lower("a") == "a" && Lower("A") == "a" && Lower("A ") == "a ";
    assert Contains(Lower(Single("a")[0]), Lower("A"));
    assert !Contains("a"[1..], "a ");
  }

  /** `Matches` in terms of positions: some searchable value has the
      lower-cased query at some index once lower-cased. */
  lemma MatchesIffOccurs<R>(fields: R -> seq<string>, query: string, r: R)
    ensures Matches(fields, query, r)
        <==> exists i, k :: 0 <= i < |fields(r)| && OccursAt(Lower(fields(r)[i]), Lower(query), k)
  {
    forall i | 0 <= i < |fields(r)| {
      ContainsIff(Lower(fields(r)[i]), Lower(query));
    }
  }

  /** `Math.max(1, Math.ceil(n / PER_PAGE))`: the fewest pages, at least one,
      that hold `n` rows. */
  function PageCount(n: nat): (c: nat)
    ensures c >= 1
    ensures n <= c * PerPage
    ensures c == 1 || (c - 1) * PerPage < n
  {
    if n == 0 then 1 else (n + PerPage - 1) / PerPage
  }

  /** Index that `Array.prototype.slice` starts or stops at for argument `k`. */
  function SliceIndex(len: nat, k: int): (r: nat)
    ensures r <= len
  {
    if k < 0 then (if len + k < 0 then 0 else len + k)
    else if k < len then k else len
  }

  /** `s.slice(start, end)`. */
  function JsSlice<T>(s: seq<T>, start: int, end: int): seq<T>
  {
    var lo := SliceIndex(|s|, start);
    var hi := SliceIndex(|s|, end);
    if lo < hi then s[lo..hi] else []
  }

  /** `pageData`: `filtered.slice((page - 1) * PER_PAGE, page * PER_PAGE)`. */
  function PageData<T>(s: seq<T>, page: int): seq<T>
  {
    JsSlice(s, (page - 1) * PerPage, page * PerPage)
  }

  /** Page `page` (from 1) is the window of at most ten rows that starts at
      row `(page - 1) * 10`, and holds exactly the rows left there, up to ten. */
  lemma PageWindow<T>(s: seq<T>, page: int)
    requires page >= 1
    ensures |PageData(s, page)| <= PerPage
    ensures |PageData(s, page)|
         == if (page - 1) * PerPage >= |s| then 0
            else if |s| - (page - 1) * PerPage < PerPage then |s| - (page - 1) * PerPage
            else PerPage
    ensures forall k :: 0 <= k < |PageData(s, page)| ==>
              (page - 1) * PerPage + k < |s| && PageData(s, page)[k] == s[(page - 1) * PerPage + k]
  {
  }

  /** Pages 1 to `k` laid end to end. */
  function Pages<T>(s: seq<T>, k: nat): seq<T>
    decreases k
  {
    if k == 0 then [] else Pages(s, k - 1) + PageData(s, k)
  }

  /** The first `k` pages are the first `k * 10` rows. */
  lemma {:induction false} PagesArePrefix<T>(s: seq<T>, k: nat)
    ensures k * PerPage <= |s| ==> Pages(s, k) == s[..k * PerPage]
    ensures k * PerPage > |s| ==> Pages(s, k) == s[..|s|] || (k > 0 && (k - 1) * PerPage >= |s|)
    ensures k * PerPage > |s| && (k == 0 || (k - 1) * PerPage < |s|) ==> Pages(s, k) == s
    decreases k
  {
    if k > 0 {
      PagesArePrefix(s, k - 1);
      PageWindow(s, k);
      if (k - 1) * PerPage < |s| {
        var lo := (k - 1) * PerPage;
        var hi := if k * PerPage <= |s| then k * PerPage else |s|;
        assert PageData(s, k) == s[lo..hi];
        assert s[..lo] + s[lo..hi] == s[..hi];
      }
    }
  }

  /** The pages partition the filtered rows: reading pages 1 to `pageCount`
      in order gives back every row once, in order. */
  lemma PagesPartition<T>(s: seq<T>)
    ensures Pages(s, PageCount(|s|)) == s
  {
    var c := PageCount(|s|);
    PagesArePrefix(s, c);
    if c * PerPage <= |s| {
      assert s[..c * PerPage] == s;
    } else if |s| == 0 {
      assert PageData(s, 1) == [];
    }
  }

  /** Every page before the last is full, the last holds the remainder
      (between 1 and 10 rows when there are any), and pages after it are empty. */
  lemma PageSizes<T>(s: seq<T>, page: int)
    requires page >= 1
    ensures page < PageCount(|s|) ==> |PageData(s, page)| == PerPage
    ensures |s| > 0 && page == PageCount(|s|) ==>
              |PageData(s, page)| == |s| - (PageCount(|s|) - 1) * PerPage
              && 1 <= |PageData(s, page)| <= PerPage
    ensures page > PageCount(|s|) ==> PageData(s, page) == []
  {
    PageWindow(s, page);
  }

  /** The seeded screens: 48 rows give five pages, four full ones and a last one of eight. */
  lemma FortyEightRows<T>(s: seq<T>)
    requires |s| == 48
    ensures PageCount(|s|) == 5
    ensures forall p :: 1 <= p <= 4 ==> |PageData(s, p)| == 10
    ensures |PageData(s, 5)| == 8
  {
    forall p | 1 <= p <= 4 ensures |PageData(s, p)| == 10 {
      PageSizes(s, p);
    }
    PageSizes(s, 5);
  }

  /** `Math.min(pageCount, Math.max(1, p))`. */
  function Clamp(p: int, count: int): (r: int)
    requires count >= 1
    ensures 1 <= r <= count
  {
    if p < 1 then 1 else if p > count then count else p
  }

  /** Clamping picks the page in `[1, count]` nearest to the requested one:
      itself when in range, otherwise the bound it overshot. */
  lemma ClampNearest(p: int, count: int, q: int)
    requires count >= 1 && 1 <= q <= count
    ensures 1 <= p <= count ==> Clamp(p, count) == p
    ensures p < 1 ==> Clamp(p, count) == 1
    ensures p > count ==> Clamp(p, count) == count
    ensures Dist(Clamp(p, count), p) <= Dist(q, p)
  {
  }

  function Dist(a: int, b: int): nat
  {
    if a < b then b - a else a - b
  }

  /** Numbered buttons `Array.from({ length: Math.min(5, pageCount) })`, numbered from 1. */
  function PageButtons(count: int): (r: seq<int>)
    ensures |r| == if count < 0 then 0 else if count < 5 then count else 5
    ensures forall i :: 0 <= i < |r| ==> r[i] == i + 1
  {
    var n := if count < 0 then 0 else if count < 5 then count else 5;
    seq(n, i => i + 1)
  }

  /** Every numbered button names a page in range, so `go` on it lands exactly there. */
  lemma ButtonsLandOnTheirPage(count: int)
    requires count >= 1
    ensures forall i :: 0 <= i < |PageButtons(count)| ==> Clamp(PageButtons(count)[i], count) == i + 1
    ensures |PageButtons(count)| <= 5 && |PageButtons(count)| <= count
  {
  }

  /** "Previous" is disabled on page 1. */
  predicate PrevDisabled(page: int)
  {
    page == 1
  }

  /** "Next" is disabled on the last page. */
  predicate NextDisabled(page: int, count: int)
  {
    page == count
  }

  /** On a page in range, each arrow button is disabled exactly when pressing it would not move. */
  lemma ArrowsDisabledExactlyWhenNoOp(page: int, count: int)
    requires 1 <= page <= count
    ensures PrevDisabled(page) <==> Clamp(page - 1, count) == page
    ensures NextDisabled(page, count) <==> Clamp(page + 1, count) == page
    ensures !PrevDisabled(page) ==> Clamp(page - 1, count) == page - 1
    ensures !NextDisabled(page, count) ==> Clamp(page + 1, count) == page + 1
  {
  }

  /** `String(1 + i).padStart(5, "0")`: the seeded project or client identifier of row `i`. */
  function SampleId(i: nat): string
  {
    PadStart(NatToString(i + 1), 5, '0')
  }

  /** Seeded identifiers are five digits and distinct rows get distinct identifiers. */
  lemma SampleIdsDistinct(i: nat, j: nat)
    requires i < 99999 && j < 99999
    ensures |SampleId(i)| == 5 && IsDigits(SampleId(i))
    ensures SampleId(i) == SampleId(j) ==> i == j
  {
    NatToStringFits(i + 1, 5);
    SampleIdValue(i);
    SampleIdValue(j);
  }

  lemma SampleIdValue(i: nat)
    ensures IsDigits(SampleId(i)) && DecimalValue(SampleId(i)) == i + 1
  {
    PaddedIdRoundTrip(i + 1);
  }

  /** The state of one work-queue screen: its fixed rows, the searched values
      of a row, and the `query` and `page` state cells. */
  class ListScreen<R> {
    const rows: seq<R>
    const fields: R -> seq<string>
    var query: string
    var page: int

    /** The page shown is always one of the pages of the current result. */
    ghost predicate Valid()
      reads this
    {
      1 <= page <= PageCount(|Filtered(rows, fields, query)|)
    }

    /** `useState("")` and `useState(1)`. */
    constructor (rows: seq<R>, fields: R -> seq<string>)
      ensures this.rows == rows && this.fields == fields
      ensures query == "" && page == 1
      ensures Valid()
    {
      this.rows := rows;
      this.fields := fields;
      query := "";
      page := 1;
    }

    function FilteredRows(): seq<R>
      reads this
    {
      Filtered(rows, fields, query)
    }

    function Count(): (c: nat)
      reads this
      ensures c >= 1
    {
      PageCount(|FilteredRows()|)
    }

    /** The rows on screen: the whole window of up to ten filtered rows that
        starts at the page's first index, and none only when nothing matches. */
    function PageRows(): (r: seq<R>)
      reads this
      requires Valid()
      ensures |r| <= PerPage
      ensures |r| == if (page - 1) * PerPage >= |FilteredRows()| then 0
                     else if |FilteredRows()| - (page - 1) * PerPage < PerPage then |FilteredRows()| - (page - 1) * PerPage
                     else PerPage
      ensures r == [] ==> FilteredRows() == []
      ensures forall k :: 0 <= k < |r| ==>
                (page - 1) * PerPage + k < |FilteredRows()| && r[k] == FilteredRows()[(page - 1) * PerPage + k]
    {
      PageWindow(FilteredRows(), page);
      PageData(FilteredRows(), page)
    }

    /** The search box's `onChange`: `setQuery(value)` then `setPage(1)`. */
    method OnQueryChange(value: string)
      modifies this
      ensures query == value && page == 1
      ensures Valid()
    {
      query := value;
      page := 1;
    }

    /** `go(p)`: move to `p`, clamped into `[1, pageCount]`. */
    method Go(p: int)
      requires Valid()
      modifies this
      ensures query == old(query)
      ensures page == Clamp(p, old(Count()))
      ensures Valid()
    {
      page := Clamp(p, Count());
    }
  }
}
