/**
 The bounded logs of src/log_buffer.rs and src/audit.rs, their newest-first
 pages, and the table pager of static/table-pager.js.
 */
module Paging {
  const MAX_LIMIT: nat := 500
  const MAX_SAFE_INTEGER: int := 9007199254740991

  function Clamp(x: int, low: int, high: int): int
    requires low <= high
  {
    if x < low then low else if x > high then high else x
  }

  // ---- The ring ----

  /** The last `n` elements, or all of them when there are fewer. */
  function Last<T>(s: seq<T>, n: nat): seq<T> {
    if |s| <= n then s else s[|s| - n..]
  }

  /** A bounded log; `stored` lists every entry it ever took in. */
  class RingLog<T> {
    const capacity: nat
    var nextId: nat
    var entries: seq<T>
    ghost var stored: seq<T>

    ghost predicate Valid()
      reads this
    {
      capacity > 0 && entries == Last(stored, capacity)
    }

    constructor (capacity: nat)
      ensures Valid() && entries == [] && stored == [] && nextId == 1
      ensures this.capacity == if capacity == 0 then 1 else capacity
    {
      this.capacity := if capacity == 0 then 1 else capacity;
      nextId, entries, stored := 1, [], [];
    }

    /** push_event; an entry that comes while somebody reads the log (`busy`) is not stored. */
    method Push(entry: T, busy: bool)
      requires Valid()
      modifies this
      ensures Valid()
      ensures stored == if busy then old(stored) else old(stored) + [entry]
      ensures nextId == old(nextId) + 1
    {
      nextId := nextId + 1;
      if busy {
        return;
      }
      if |entries| == capacity {
        entries := entries[1..];
      }
      entries := entries + [entry];
      stored := stored + [entry];
    }

    /** record of the audit log, which waits for the lock and tests for `at least`. */
    method Record(entry: T)
      requires Valid()
      modifies this`entries, this`stored
      ensures Valid() && stored == old(stored) + [entry]
    {
      if |entries| >= capacity {
        entries := entries[1..];
      }
      entries := entries + [entry];
      stored := stored + [entry];
    }

    /** Many pushes leave exactly the last `capacity` of what was stored. */
    method PushAll(batch: seq<(T, bool)>)
      requires Valid()
      modifies this
      ensures Valid()
      ensures stored == old(stored) + Taken(batch)
      ensures entries == Last(old(stored) + Taken(batch), capacity)
    {
      for i := 0 to |batch|
        invariant Valid() && stored == old(stored) + Taken(batch[..i])
      {
        assert batch[..i + 1][..i] == batch[..i];
        Push(batch[i].0, batch[i].1);
      }
      assert batch[..|batch|] == batch;
    }
  }

  /** The entries that come while nobody reads. */
  function Taken<T>(batch: seq<(T, bool)>): seq<T> {
    if batch == [] then []
    else
      var last := batch[|batch| - 1];
      Taken(batch[..|batch| - 1]) + if last.1 then [] else [last.0]
  }

  // ---- Pages ----

  /** The entries that pass, newest first. */
  function Matching<T>(entries: seq<T>, passes: T -> bool): seq<T> {
    if entries == [] then []
    else
      var newest := entries[|entries| - 1];
      (if passes(newest) then [newest] else []) + Matching(entries[..|entries| - 1], passes)
  }

  /** Where the last page starts: before the end, and no further from it than one page. */
  function LastOffset(limit: nat, total: nat): (r: nat)
    requires limit > 0 && total > 0
    ensures r < total <= r + limit
  {
    LastPageBounds(limit, total);
    ((total - 1) / limit) * limit
  }

  function ClampedOffset(offset: nat, limit: nat, total: nat): (r: nat)
    requires limit > 0
    ensures r <= total && (total > 0 ==> r < total)
  {
    if total == 0 then 0
    else if offset <= LastOffset(limit, total) then offset
    else LastOffset(limit, total)
  }

  function Page<T>(matching: seq<T>, limit: nat, offset: nat): seq<T> {
    var n := Clamp(limit, 1, MAX_LIMIT);
    var rest := matching[ClampedOffset(offset, n, |matching|)..];
    if |rest| <= n then rest else rest[..n]
  }

  /** The last page starts before the end, and one page reaches it. */
  lemma LastPageBounds(limit: nat, total: nat)
    requires limit > 0
    ensures total > 0 ==> ((total - 1) / limit) * limit < total <= ((total - 1) / limit) * limit + limit
  {
    if total > 0 {
      var q := (total - 1) / limit;
      assert total - 1 == q * limit + (total - 1) % limit;
    }
  }

  lemma {:induction false} MatchingIs<T>(entries: seq<T>, passes: T -> bool)
    ensures forall x :: x in Matching(entries, passes) <==> x in entries && passes(x)
    ensures |Matching(entries, passes)| <= |entries|
  {
    if entries != [] {
      MatchingIs(entries[..|entries| - 1], passes);
      assert entries == entries[..|entries| - 1] + [entries[|entries| - 1]];
    }
  }

  lemma MatchingSnoc<T>(entries: seq<T>, newest: T, passes: T -> bool)
    ensures Matching(entries + [newest], passes)
         == (if passes(newest) then [newest] else []) + Matching(entries, passes)
  {
    assert (entries + [newest])[..|entries|] == entries;
  }

  /** What was pushed later comes first. */
  lemma {:induction false} MatchingConcat<T>(older: seq<T>, newer: seq<T>, passes: T -> bool)
    ensures Matching(older + newer, passes) == Matching(newer, passes) + Matching(older, passes)
  {
    if newer == [] {
      assert older + newer == older;
    } else {
      var front, last := newer[..|newer| - 1], newer[|newer| - 1];
      assert newer == front + [last] && older + newer == (older + front) + [last];
      MatchingSnoc(older + front, last, passes);
      MatchingSnoc(front, last, passes);
      MatchingConcat(older, front, passes);
    }
  }

  /** The first k pages, one after another. */
  function Pages<T>(matching: seq<T>, limit: nat, k: nat): seq<T> {
    if k == 0 then [] else Pages(matching, limit, k - 1) + Page(matching, limit, (k - 1) * Clamp(limit, 1, MAX_LIMIT))
  }

  lemma MulSucc(k: nat, n: nat)
    ensures (k + 1) * n == k * n + n
  {}

  lemma DivTimes(a: nat, k: nat, n: nat)
    requires n > 0 && k * n <= a
    ensures k <= a / n
  {
    var q := a / n;
    assert a == q * n + a % n;
    if q < k {
      assert (q + 1) * n <= k * n by { MulMono(q + 1, k, n); }
      MulSucc(q, n);
    }
  }

  lemma MulMono(a: nat, b: nat, n: nat)
    requires a <= b
    ensures a * n <= b * n
  {
    assert b * n == a * n + (b - a) * n;
  }

  /** A page whose offset is a multiple of the limit below the total starts there and is full, unless it is the last. */
  lemma PageAt<T>(matching: seq<T>, limit: nat, k: nat)
    requires k * Clamp(limit, 1, MAX_LIMIT) < |matching|
    ensures var n := Clamp(limit, 1, MAX_LIMIT);
            var from := k * n;
            Page(matching, limit, from) == matching[from..if |matching| < from + n then |matching| else from + n]
  {
    var n := Clamp(limit, 1, MAX_LIMIT);
    DivTimes(|matching| - 1, k, n);
    MulMono(k, (|matching| - 1) / n, n);
    assert ClampedOffset(k * n, n, |matching|) == k * n;
  }

  /** Pages 0 to k concatenate to the first entries of the result: no gap and no repeat. */
  lemma {:induction false} PagesAreAPrefix<T>(matching: seq<T>, limit: nat, k: nat)
    requires k > 0 ==> (k - 1) * Clamp(limit, 1, MAX_LIMIT) < |matching|
    ensures var n := Clamp(limit, 1, MAX_LIMIT);
            Pages(matching, limit, k) == matching[..if |matching| < k * n then |matching| else k * n]
  {
    var n := Clamp(limit, 1, MAX_LIMIT);
    if k > 0 {
      MulSucc(k - 1, n);
      if k > 1 {
        MulSucc(k - 2, n);
      }
      PagesAreAPrefix(matching, limit, k - 1);
      PageAt(matching, limit, k - 1);
    }
  }

  /** The pages up to the one that reaches the end. */
  lemma PagesToTheEnd<T>(matching: seq<T>, limit: nat, q: nat)
    requires var n := Clamp(limit, 1, MAX_LIMIT); q * n < |matching| <= q * n + n
    ensures Pages(matching, limit, q + 1) == matching
  {
    var n := Clamp(limit, 1, MAX_LIMIT);
    MulSucc(q, n);
    assert q + 1 - 1 == q;
    PagesAreAPrefix(matching, limit, q + 1);
    assert matching[..|matching|] == matching;
  }

  /** How many pages the result has. */
  function PagesNeeded(total: nat, limit: nat): nat {
    if total == 0 then 0 else (total - 1) / Clamp(limit, 1, MAX_LIMIT) + 1
  }

  /** All pages together are the result, whatever the filter and the limit. */
  lemma PagesCoverResult<T>(entries: seq<T>, passes: T -> bool, limit: nat)
    ensures var matching := Matching(entries, passes);
            Pages(matching, limit, PagesNeeded(|matching|, limit)) == matching
  {
    var matching := Matching(entries, passes);
    if matching != [] {
      LastPageBounds(Clamp(limit, 1, MAX_LIMIT), |matching|);
      PagesToTheEnd(matching, limit, (|matching| - 1) / Clamp(limit, 1, MAX_LIMIT));
    }
  }

  /** An offset beyond the last page gives the last page, which is not empty. */
  lemma LargeOffsetGivesLastPage<T>(matching: seq<T>, limit: nat, offset: nat)
    requires matching != []
    requires offset >= LastOffset(Clamp(limit, 1, MAX_LIMIT), |matching|)
    ensures Page(matching, limit, offset) == matching[LastOffset(Clamp(limit, 1, MAX_LIMIT), |matching|)..]
    ensures Page(matching, limit, offset) != []
  {}

  /** The ring holds the newest entries, in order, up to its capacity. */
  lemma LastIs<T>(s: seq<T>, n: nat)
    ensures var last := Last(s, n);
            && |last| == (if |s| < n then |s| else n)
            && forall i | 0 <= i < |last| :: last[i] == s[|s| - |last| + i]
  {}

  /**
   A page holds the entries of the result from its offset on, or from the start of the last page when the offset is
   beyond that, as many as the limit allows; a limit counts as at least 1 and at most 500.
   */
  lemma PageIs<T>(matching: seq<T>, limit: nat, offset: nat, k: nat)
    requires var n := if limit < 1 then 1 else if limit > 500 then 500 else limit;
             k * n < |matching| <= k * n + n
    ensures var n := if limit < 1 then 1 else if limit > 500 then 500 else limit;
            var from := if offset < k * n then offset else k * n;
            var page := Page(matching, limit, offset);
            && |page| == (if |matching| - from < n then |matching| - from else n)
            && forall i | 0 <= i < |page| :: page[i] == matching[from + i]
  {
    var n := Clamp(limit, 1, MAX_LIMIT);
    LastOffsetIs(n, |matching|, k);
  }

  lemma LastOffsetIs(n: nat, total: nat, k: nat)
    requires n > 0 && k * n < total <= k * n + n
    ensures LastOffset(n, total) == k * n
  {
    OnPage(total - 1, n, k);
  }

  // ---- The table pager ----

  function PageCount(total: nat, pageSize: nat): nat
    requires pageSize > 0
  {
    var up := (total + pageSize - 1) / pageSize;
    if up < 1 then 1 else up
  }

  /** Every page has a row, and the pages have all rows; without rows there is one page. */
  lemma PagesHaveRows(total: nat, pageSize: nat)
    requires pageSize > 0
    ensures var count := PageCount(total, pageSize);
            if total == 0 then count == 1 else (count - 1) * pageSize < total <= count * pageSize
  {
    var sum := total + pageSize - 1;
    var up := sum / pageSize;
    assert sum == up * pageSize + sum % pageSize;
    if total > 0 {
      MulSucc(up - 1, pageSize);
      assert up >= 1 by {
        DivTimes(sum, 1, pageSize);
      }
    } else {
      assert up == 0;
    }
  }

  /** So whatever page the pager is set to, it shows a row, and the last page shows the last one. */
  lemma ClampedPageShowsRow(total: nat, pageSize: nat, page: int)
    requires total > 0 && pageSize > 0
    ensures var shown := Clamp(page, 1, PageCount(total, pageSize));
            && 0 <= (shown - 1) * pageSize < total && ((shown - 1) * pageSize) / pageSize == shown - 1
            && (page >= PageCount(total, pageSize) ==> (total - 1) / pageSize == shown - 1)
            && (page <= 1 ==> shown == 1)
            && (1 <= page <= PageCount(total, pageSize) ==> shown == page)
  {
    var count := PageCount(total, pageSize);
    var shown := Clamp(page, 1, count);
    PagesHaveRows(total, pageSize);
    MulMono(shown - 1, count - 1, pageSize);
    OnPage((shown - 1) * pageSize, pageSize, shown - 1);
    if page >= count {
      MulSucc(count - 1, pageSize);
      OnPage(total - 1, pageSize, count - 1);
    }
  }

  class TablePager {
    var page: int
    var pageSize: nat

    constructor (pageSize: nat)
      requires pageSize > 0
      ensures page == 1 && this.pageSize == pageSize
    {
      page, this.pageSize := 1, pageSize;
    }

    /** `total` counts the rows, except that a lone placeholder row counts as none. */
    method ApplyTablePager(shown: array<bool>, emptyOnly: bool, reset: bool, last: bool)
      requires pageSize > 0 && (emptyOnly ==> shown.Length == 1)
      modifies this`page, shown
      ensures shown.Length <= pageSize ==> forall i | 0 <= i < shown.Length :: shown[i]
      ensures shown.Length > pageSize ==>
                && 1 <= page <= PageCount(shown.Length, pageSize)
                && page == Clamp(if last then MAX_SAFE_INTEGER else if reset then 1 else old(page),
                                 1, PageCount(shown.Length, pageSize))
                && forall i | 0 <= i < shown.Length :: shown[i] <==> i / pageSize == page - 1
    {
      var total := if emptyOnly then 0 else shown.Length;
      if reset {
        page := 1;
      }
      if last {
        page := MAX_SAFE_INTEGER;
      }
      if total <= pageSize {
        for i := 0 to shown.Length
          invariant forall j | 0 <= j < i :: shown[j]
        {
          shown[i] := true;
        }
        return;
      }
      var pageCount := PageCount(total, pageSize);
      page := Clamp(page, 1, pageCount);
      var start := (page - 1) * pageSize;
      var end := if start + pageSize <= total then start + pageSize else total;
      ghost var current := page;
      for i := 0 to shown.Length
        invariant page == current
        invariant forall j | 0 <= j < i :: shown[j] <==> j / pageSize == page - 1
      {
        OnPage(i, pageSize, page - 1);
        shown[i] := start <= i < end;
      }
    }

    /** The pager goes to the one page that shows the row. */
    method ShowTableRowPage(shown: array<bool>, row: nat)
      requires pageSize > 0 && row < shown.Length
      modifies this`page, shown
      ensures shown[row]
      ensures shown.Length > pageSize ==>
                && page == row / pageSize + 1
                && forall i | 0 <= i < shown.Length :: shown[i] <==> i / pageSize == row / pageSize
    {
      page := row / pageSize + 1;
      RowPageExists(row, shown.Length, pageSize);
      ApplyTablePager(shown, false, false, false);
      OnPage(row, pageSize, row / pageSize);
    }
  }

  /** A row is between the bounds of a page exactly when division says it is on it. */
  lemma OnPage(i: nat, pageSize: nat, page: int)
    requires pageSize > 0 && page >= 0
    ensures page * pageSize <= i < page * pageSize + pageSize <==> i / pageSize == page
  {
    var q := i / pageSize;
    assert i == q * pageSize + i % pageSize;
    if page * pageSize <= i < page * pageSize + pageSize {
      DivTimes(i, page, pageSize);
      if q > page {
        MulMono(page + 1, q, pageSize);
        MulSucc(page, pageSize);
      }
    }
  }

  lemma RowPageExists(row: nat, total: nat, pageSize: nat)
    requires pageSize > 0 && row < total
    ensures row / pageSize + 1 <= PageCount(total, pageSize)
  {
    var q := row / pageSize;
    assert row == q * pageSize + row % pageSize;
    MulSucc(q, pageSize);
    DivTimes(total + pageSize - 1, q + 1, pageSize);
  }
}
