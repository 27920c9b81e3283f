/**
 Resumable minute-bar backfill (src/kline/okx_history.py).  Times are integer milliseconds since the
 epoch, so UTC midnights are the multiples of DAY_MS; the store is the one series being filled.
 */
module Backfill {
  import opened Results

  const SECOND_MS: int := 1_000
  const MINUTE_MS: int := 60_000
  const DAY_MS: int := 86_400_000

  // ----- day windows -----

  datatype Span = Span(start: int, end: int) {
    predicate Has(t: int) {
      start <= t < end
    }

    /** Begins and ends on a minute. */
    predicate Whole() {
      start % MINUTE_MS == 0 && end % MINUTE_MS == 0 && start < end
    }

    function Minutes(): int {
      (end - start) / MINUTE_MS
    }
  }

  function NextMidnight(t: int): (m: int)
    ensures t < m
  {
    t - t % DAY_MS + DAY_MS
  }

  /** [start, end) cut at UTC midnight, oldest first. */
  function Windows(start: int, end: int): seq<Span>
    decreases end - start
  {
    if start >= end then []
    else
      var midnight := NextMidnight(start);
      [Span(start, if midnight < end then midnight else end)] + Windows(midnight, end)
  }

  function Reversed<T>(s: seq<T>): (r: seq<T>)
    ensures |r| == |s| && forall i :: 0 <= i < |s| ==> r[i] == s[|s| - 1 - i]
  {
    seq(|s|, i requires 0 <= i < |s| => s[|s| - 1 - i])
  }

  /** Each window ends where the next begins, and lies within one UTC day. */
  predicate Tiles(ws: seq<Span>, start: int, end: int) {
    && (forall i :: 0 <= i < |ws| ==> ws[i].start < ws[i].end && ws[i].start / DAY_MS == (ws[i].end - 1) / DAY_MS)
    && (forall i :: 0 < i < |ws| ==> ws[i].start == ws[i - 1].end)
    && (if ws == [] then end <= start else ws[0].start == start && ws[|ws| - 1].end == end)
  }

  lemma {:induction false} WindowsTile(start: int, end: int)
    ensures Tiles(Windows(start, end), start, end)
    ensures start % MINUTE_MS == 0 && end % MINUTE_MS == 0 ==> forall i :: 0 <= i < |Windows(start, end)| ==> Windows(start, end)[i].Whole()
    decreases end - start
  {
    hide NextMidnight;
    if start < end {
      var midnight := NextMidnight(start);
      Midnight(start);
      WindowsTile(midnight, end);
      var ws, rest := Windows(start, end), Windows(midnight, end);
      SameDay(start, ws[0].end - 1);
      assert forall i :: 1 <= i < |ws| ==> ws[i] == rest[i - 1];
    }
  }

  lemma Midnight(t: int)
    ensures NextMidnight(t) % MINUTE_MS == 0
  {
    assert NextMidnight(t) == MINUTE_MS * (1440 * (t / DAY_MS + 1));
  }

  lemma SameDay(start: int, t: int)
    requires start <= t < NextMidnight(start)
    ensures t / DAY_MS == start / DAY_MS
  {
    assert t == DAY_MS * (start / DAY_MS) + (start % DAY_MS + (t - start));
  }

  predicate Disjoint(ws: seq<Span>) {
    forall i, j :: 0 <= i < j < |ws| ==> ws[i].end <= ws[j].start || ws[j].end <= ws[i].start
  }

  lemma {:induction false} TilesAscend(ws: seq<Span>, start: int, end: int, i: nat, j: nat)
    requires Tiles(ws, start, end) && i < j < |ws|
    ensures ws[i].end <= ws[j].start
    decreases j
  {
    if i + 1 < j {
      TilesAscend(ws, start, end, i, j - 1);
    }
  }

  /** Windows never overlap, and every instant of the range is in one. */
  lemma WindowsPartition(start: int, end: int)
    ensures Disjoint(Windows(start, end)) && Disjoint(Reversed(Windows(start, end)))
    ensures forall t :: start <= t < end <==> InSome(Windows(start, end), t)
  {
    hide Windows;
    var ws := Windows(start, end);
    WindowsTile(start, end);
    forall i, j | 0 <= i < j < |ws|
      ensures ws[i].end <= ws[j].start
    {
      TilesAscend(ws, start, end, i, j);
    }
    forall t
      ensures start <= t < end <==> InSome(ws, t)
    {
      WindowsCover(start, end, t);
    }
  }

  ghost predicate InSome(ws: seq<Span>, t: int) {
    exists i :: 0 <= i < |ws| && ws[i].Has(t)
  }

  lemma {:induction false} WindowsCover(start: int, end: int, t: int)
    ensures start <= t < end <==> InSome(Windows(start, end), t)
    decreases end - start
  {
    if start < end {
      var ws, rest := Windows(start, end), Windows(NextMidnight(start), end);
      WindowsCover(NextMidnight(start), end, t);
      assert ws == [ws[0]] + rest;
      if InSome(ws, t) && !ws[0].Has(t) {
        var i :| 0 <= i < |ws| && ws[i].Has(t);
        assert rest[i - 1].Has(t);
      }
      if InSome(rest, t) {
        var i :| 0 <= i < |rest| && rest[i].Has(t);
        assert ws[i + 1].Has(t);
      }
    }
  }

  /** `day_windows` */
  method DayWindows(start: int, end: int) returns (windows: seq<Span>)
    ensures windows == Reversed(Windows(start, end))
  {
    windows := [];
    var cursor := start;
    while cursor < end
      invariant windows + Windows(cursor, end) == Windows(start, end)
      decreases end - cursor
    {
      hide NextMidnight;
      var midnight := NextMidnight(cursor);
      windows := windows + [Span(cursor, if midnight < end then midnight else end)];
      cursor := midnight;
    }
    windows := Reversed(windows);
  }

  // ----- fetching one window -----

  datatype Bar = Bar(open: real, high: real, low: real, close: real, volume: real, amount: real)

  /** A row as the venue sent it; `confirmed` is false while the bar is forming. */
  datatype Row = Row(ms: int, bar: Bar, confirmed: bool)

  /** What one page request comes to, retries included. */
  datatype Answer = Page(rows: seq<Row>) | Refused

  /** The answer to the n-th request made for a window, at a cursor. */
  type Venue = (Span, nat, int) -> Answer

  function Oldest(page: seq<Row>): (ms: int)
    requires page != []
    ensures forall r :: r in page ==> ms <= r.ms
    ensures exists r :: r in page && r.ms == ms
  {
    var last := page[|page| - 1];
    if |page| == 1 then last.ms
    else
      var before := Oldest(page[..|page| - 1]);
      assert forall r :: r in page ==> r in page[..|page| - 1] || r == last;
      if last.ms < before then last.ms else before
  }

  /** The rows of a page inside the window, under their times. */
  function Kept(rows: map<int, Row>, page: seq<Row>, w: Span): map<int, Row> {
    if page == [] then rows
    else
      var r := page[|page| - 1];
      var before := Kept(rows, page[..|page| - 1], w);
      if w.Has(r.ms) then before[r.ms := r] else before
  }

  /** The rows the pages of a window come to, None when a page is refused. */
  function Scan(venue: Venue, w: Span, n: nat, cursor: int, rows: map<int, Row>): Option<map<int, Row>>
    decreases cursor - w.start
  {
    if cursor <= w.start then Some(rows)
    else
      match venue(w, n, cursor)
      case Refused => None
      case Page(page) =>
        if page == [] then Some(rows)
        else
          var kept := Kept(rows, page, w);
          if Oldest(page) >= cursor then Some(kept) else Scan(venue, w, n + 1, Oldest(page), kept)
  }

  /** The paging loop ends whatever the venue answers, however often and in whatever order. */
  method Collect(venue: Venue, w: Span) returns (r: Option<map<int, Row>>)
    ensures r == Scan(venue, w, 0, w.end, map[])
  {
    var rows: map<int, Row> := map[];
    var cursor, n := w.end, 0;
    while cursor > w.start
      invariant Scan(venue, w, n, cursor, rows) == Scan(venue, w, 0, w.end, map[])
      decreases cursor - w.start
    {
      var answer := venue(w, n, cursor);
      if answer.Refused? {
        return None;
      }
      var page := answer.rows;
      if page == [] {
        break;
      }
      ghost var before := rows;
      for i := 0 to |page|
        invariant rows == Kept(before, page[..i], w)
      {
        assert page[..i + 1][..i] == page[..i];
        if w.Has(page[i].ms) {
          rows := rows[page[i].ms := page[i]];
        }
      }
      assert page[..|page|] == page;
      if Oldest(page) >= cursor {
        break;
      }
      cursor, n := Oldest(page), n + 1;
    }
    r := Some(rows);
  }

  /**
   The cursors of successive requests for a window: the first is its end, and each later one is the
   oldest time of the page before, earlier than that page's cursor and still inside the window.
   */
  ghost predicate Cursors(venue: Venue, w: Span, cursors: seq<int>) {
    && cursors != [] && cursors[0] == w.end && (forall i :: 0 <= i < |cursors| ==> cursors[i] > w.start)
    && forall i :: 0 < i < |cursors| ==> NextCursor(venue(w, i - 1, cursors[i - 1]), cursors[i - 1], cursors[i])
  }

  ghost predicate NextCursor(a: Answer, cursor: int, next: int) {
    a.Page? && next < cursor && (forall r :: r in a.rows ==> next <= r.ms) && exists r :: r in a.rows && r.ms == next
  }

  ghost predicate EndsRefused(venue: Venue, w: Span, cursors: seq<int>) {
    Cursors(venue, w, cursors) && venue(w, |cursors| - 1, cursors[|cursors| - 1]).Refused?
  }

  /** The venue refuses one of the pages the window needs. */
  ghost predicate RefusesAPage(venue: Venue, w: Span) {
    exists cursors :: EndsRefused(venue, w, cursors)
  }

  lemma OneOldest(page: seq<Row>, cursor: int, next: int)
    requires page != []
    ensures NextCursor(Page(page), cursor, next) <==> next == Oldest(page) < cursor
  {
  }

  /** Paging that ends in a refusal gives the cursors that led to it. */
  lemma {:induction false} CursorsTo(venue: Venue, w: Span, cursors: seq<int>, rows: map<int, Row>) returns (all: seq<int>)
    requires Cursors(venue, w, cursors) && Scan(venue, w, |cursors| - 1, cursors[|cursors| - 1], rows).None?
    ensures EndsRefused(venue, w, all)
    decreases cursors[|cursors| - 1] - w.start
  {
    hide Kept, NextCursor;
    var cursor := cursors[|cursors| - 1];
    var a := venue(w, |cursors| - 1, cursor);
    if a.Refused? {
      all := cursors;
    } else {
      OneOldest(a.rows, cursor, Oldest(a.rows));
      all := CursorsTo(venue, w, cursors + [Oldest(a.rows)], Kept(rows, a.rows, w));
    }
  }

  lemma NotLastPage(venue: Venue, w: Span, all: seq<int>, i: nat)
    requires Cursors(venue, w, all) && i + 1 < |all|
    ensures var a := venue(w, i, all[i]);
            all[i] > w.start && a.Page? && a.rows != [] && Oldest(a.rows) == all[i + 1] < all[i]
  {
    hide NextCursor;
    var a := venue(w, i, all[i]);
    assert NextCursor(venue(w, i + 1 - 1, all[i + 1 - 1]), all[i], all[i + 1]);
    IsPage(a, all[i], all[i + 1]);
    OneOldest(a.rows, all[i], all[i + 1]);
  }

  lemma IsPage(a: Answer, cursor: int, next: int)
    requires NextCursor(a, cursor, next)
    ensures a.Page? && a.rows != []
  {
  }

  lemma {:induction false} RefusalStops(venue: Venue, w: Span, all: seq<int>, i: nat, rows: map<int, Row>)
    requires EndsRefused(venue, w, all) && i < |all|
    ensures Scan(venue, w, i, all[i], rows).None?
    decreases |all| - i
  {
    hide Kept, NextCursor;
    if i + 1 < |all| {
      NotLastPage(venue, w, all, i);
      RefusalStops(venue, w, all, i + 1, Kept(rows, venue(w, i, all[i]).rows, w));
    }
  }

  /** A window's fetch fails exactly when the venue refuses one of its pages. */
  lemma RefusedIff(venue: Venue, w: Span)
    requires w.start < w.end
    ensures Scan(venue, w, 0, w.end, map[]).None? <==> RefusesAPage(venue, w)
  {
    hide Scan, NextCursor;
    if Scan(venue, w, 0, w.end, map[]).None? {
      var _ := CursorsTo(venue, w, [w.end], map[]);
    }
    if RefusesAPage(venue, w) {
      var all :| EndsRefused(venue, w, all);
      RefusalStops(venue, w, all, 0, map[]);
    }
  }

  lemma {:induction false} KeptRows(rows: map<int, Row>, page: seq<Row>, w: Span)
    ensures forall k :: k in Kept(rows, page, w) <==> k in rows || (w.Has(k) && exists r :: r in page && r.ms == k)
    ensures forall k :: k in Kept(rows, page, w) ==>
              Kept(rows, page, w)[k] in page || (k in rows && Kept(rows, page, w)[k] == rows[k])
    ensures (forall k :: k in rows ==> rows[k].ms == k) ==> forall k :: k in Kept(rows, page, w) ==> Kept(rows, page, w)[k].ms == k
  {
    if page != [] {
      var n := |page| - 1;
      KeptRows(rows, page[..n], w);
      assert forall r :: r in page <==> r in page[..n] || r == page[n];
    }
  }

  /** Whatever the venue answers, only rows of the window are kept, each under its own time. */
  lemma {:induction false} ScanInside(venue: Venue, w: Span, n: nat, cursor: int, rows: map<int, Row>)
    requires forall k :: k in rows ==> rows[k].ms == k && w.Has(k)
    ensures var r := Scan(venue, w, n, cursor, rows);
            r.Some? ==> forall k :: k in r.value ==> r.value[k].ms == k && w.Has(k)
    decreases cursor - w.start
  {
    if cursor > w.start {
      var answer := venue(w, n, cursor);
      if answer.Page? && answer.rows != [] {
        KeptRows(rows, answer.rows, w);
        if Oldest(answer.rows) < cursor {
          ScanInside(venue, w, n + 1, Oldest(answer.rows), Kept(rows, answer.rows, w));
        }
      }
    }
  }

  /**
   A page request honoured: refused, or the newest run of the venue's bars strictly before the
   cursor, empty only when there is none.
   */
  ghost predicate HonestPage(a: Answer, bars: map<int, Row>, cursor: int) {
    a.Page? ==>
      && (forall r :: r in a.rows ==> r.ms < cursor && r.ms in bars && bars[r.ms] == r)
      && (forall k :: k in bars && k < cursor ==> a.rows != [] && (Oldest(a.rows) <= k ==> bars[k] in a.rows))
  }

  ghost predicate Honest(venue: Venue, bars: map<int, Row>) {
    && (forall k :: k in bars ==> bars[k].ms == k)
    && forall w, n, cursor :: HonestPage(venue(w, n, cursor), bars, cursor)
  }

  function Within(bars: map<int, Row>, w: Span, from: int): map<int, Row> {
    map k | k in bars && w.Has(k) && from <= k :: bars[k]
  }

  lemma PageExtends(bars: map<int, Row>, w: Span, cursor: int, rows: map<int, Row>, answer: Answer)
    requires (forall k :: k in bars ==> bars[k].ms == k) && HonestPage(answer, bars, cursor) && answer.Page? && answer.rows != []
    requires rows == Within(bars, w, cursor)
    ensures Oldest(answer.rows) < cursor && Kept(rows, answer.rows, w) == Within(bars, w, Oldest(answer.rows))
  {
    var kept, wanted := Kept(rows, answer.rows, w), Within(bars, w, Oldest(answer.rows));
    KeptRows(rows, answer.rows, w);
    forall k
      ensures k in kept <==> k in wanted
      ensures k in kept ==> kept[k] == bars[k]
    {
      assert k in wanted && k < cursor ==> bars[k] in answer.rows;
      assert k in kept && kept[k] in answer.rows ==> bars[kept[k].ms] == kept[k];
    }
  }

  /** Paging an honest venue comes to exactly its bars of the window. */
  lemma {:induction false} ScanComplete(venue: Venue, bars: map<int, Row>, w: Span, n: nat, cursor: int, rows: map<int, Row>)
    requires Honest(venue, bars) && rows == Within(bars, w, cursor)
    ensures var r := Scan(venue, w, n, cursor, rows);
            r.Some? ==> r.value == Within(bars, w, w.start)
    decreases cursor - w.start
  {
    if cursor > w.start {
      var answer := venue(w, n, cursor);
      assert HonestPage(answer, bars, cursor);
      if answer.Page? && answer.rows != [] {
        var kept := Kept(rows, answer.rows, w);
        PageExtends(bars, w, cursor, rows, answer);
        ScanComplete(venue, bars, w, n + 1, Oldest(answer.rows), kept);
      }
    }
  }

  // ----- saving -----

  /** A stored time keeps whole seconds only. */
  function Second(ms: int): int {
    ms - ms % SECOND_MS
  }

  ghost predicate Ascending(rows: seq<Row>) {
    forall i, j :: 0 <= i < j < |rows| ==> rows[i].ms < rows[j].ms
  }

  predicate Keyed(rows: map<int, Row>) {
    forall k :: k in rows ==> rows[k].ms == k
  }

  /** The rows of a map in ascending order of time. */
  ghost predicate Sorts(list: seq<Row>, rows: map<int, Row>) {
    && Keyed(rows) && Ascending(list)
    && (forall i :: 0 <= i < |list| ==> list[i].ms in rows && rows[list[i].ms] == list[i])
    && (forall k :: k in rows ==> rows[k] in list)
  }

  lemma Least(s: set<int>) returns (x: int)
    requires s != {}
    ensures x in s && forall y :: y in s ==> x <= y
    decreases |s|
  {
    x := Member(s);
    if s != {x} {
      var y := Least(s - {x});
      assert s == (s - {x}) + {x};
      x := if y < x then y else x;
    }
  }

  /** The list holds the rows taken so far, in order and before all that are left. */
  ghost predicate Sorting(list: seq<Row>, left: set<int>, rows: map<int, Row>) {
    && left <= rows.Keys && Ascending(list)
    && (forall i :: 0 <= i < |list| ==> list[i].ms in rows.Keys - left && rows[list[i].ms] == list[i])
    && (forall k :: k in rows.Keys - left ==> rows[k] in list)
    && (forall i, k :: 0 <= i < |list| && k in left ==> list[i].ms < k)
  }

  lemma OneMoreSorted(list: seq<Row>, left: set<int>, rows: map<int, Row>, k: int)
    requires Keyed(rows) && Sorting(list, left, rows) && k in left && forall y :: y in left ==> k <= y
    ensures Sorting(list + [rows[k]], left - {k}, rows)
  {
    var after := list + [rows[k]];
    assert forall i :: 0 <= i < |list| ==> after[i] == list[i];
    forall x | x in rows.Keys - (left - {k})
      ensures rows[x] in after
    {
      assert x == k || rows[x] in list;
    }
  }

  method SortRows(rows: map<int, Row>) returns (list: seq<Row>)
    requires Keyed(rows)
    ensures Sorts(list, rows)
  {
    list := [];
    var left := rows.Keys;
    while left != {}
      invariant Sorting(list, left, rows)
      decreases |left|
    {
      hide Ascending;
      ghost var _ := Least(left);
      var k :| k in left && forall y :: y in left ==> k <= y;
      OneMoreSorted(list, left, rows, k);
      list := list + [rows[k]];
      left := left - {k};
    }
  }

  /** `save`: confirmed rows replace what is stored at their second, in order. */
  function Upserts(store: map<int, Bar>, list: seq<Row>): map<int, Bar> {
    if list == [] then store
    else
      var r := list[|list| - 1];
      var before := Upserts(store, list[..|list| - 1]);
      if r.confirmed then before[Second(r.ms) := r.bar] else before
  }

  lemma LastIsGreatest(a: seq<Row>, rows: map<int, Row>)
    requires Sorts(a, rows) && rows != map[]
    ensures a != [] && a[|a| - 1].ms in rows && forall k :: k in rows ==> k <= a[|a| - 1].ms
  {
    var any := Member(rows.Keys);
    assert rows[any] in a;
    forall k | k in rows
      ensures k <= a[|a| - 1].ms
    {
      var i :| 0 <= i < |a| && a[i] == rows[k];
      assert rows[k].ms == k;
    }
  }

  lemma FirstIn(a: seq<Row>, rows: map<int, Row>)
    requires Sorts(a, rows) && a != []
    ensures a[0].ms in rows
  {
  }

  lemma NoRows(a: seq<Row>, rows: map<int, Row>)
    requires Sorts(a, rows) && rows == map[]
    ensures a == []
  {
    if a != [] {
      FirstIn(a, rows);
    }
  }

  lemma {:induction false} OneOrder(a: seq<Row>, b: seq<Row>, rows: map<int, Row>)
    requires Sorts(a, rows) && Sorts(b, rows)
    ensures a == b
    decreases |a|
  {
    if rows == map[] {
      NoRows(a, rows);
      NoRows(b, rows);
    } else {
      LastIsGreatest(a, rows);
      LastIsGreatest(b, rows);
      SortsRest(a, rows);
      SortsRest(b, rows);
      var n, m := |a| - 1, |b| - 1;
      assert a[n].ms == b[m].ms && rows[a[n].ms] == a[n] && rows[b[m].ms] == b[m];
      hide Sorts;
      OneOrder(a[..n], b[..m], rows - {a[n].ms});
      assert a == a[..n] + [a[n]] && b == b[..m] + [b[m]];
    }
  }

  lemma SortsRest(a: seq<Row>, rows: map<int, Row>)
    requires Sorts(a, rows) && a != []
    ensures Sorts(a[..|a| - 1], rows - {a[|a| - 1].ms})
  {
    var n := |a| - 1;
    forall k | k in rows && k != a[n].ms
      ensures rows[k] in a[..n]
    {
      var i :| 0 <= i < |a| && a[i] == rows[k];
      assert i < n ==> a[..n][i] == a[i];
    }
  }

  lemma GreatestExists(s: set<int>) returns (x: int)
    requires s != {}
    ensures x in s && forall y :: y in s ==> y <= x
    decreases |s|
  {
    x := Member(s);
    if s != {x} {
      var y := GreatestExists(s - {x});
      assert s == (s - {x}) + {x};
      x := if y > x then y else x;
    }
  }

  ghost function Greatest(s: set<int>): (x: int)
    requires s != {}
    ensures x in s && forall y :: y in s ==> y <= x
  {
    assert exists x :: x in s && forall y :: y in s ==> y <= x by {
      var x := GreatestExists(s);
    }
    var x :| x in s && forall y :: y in s ==> y <= x;
    x
  }

  ghost function Ordered(rows: map<int, Row>): seq<Row>
    decreases |rows|
  {
    if rows == map[] then []
    else
      var k := Greatest(rows.Keys);
      assert rows.Keys == (rows - {k}).Keys + {k};
      Ordered(rows - {k}) + [rows[k]]
  }

  lemma {:induction false} OrderedSorts(rows: map<int, Row>)
    requires Keyed(rows)
    ensures Sorts(Ordered(rows), rows)
    decreases |rows|
  {
    if rows != map[] {
      var k := Greatest(rows.Keys);
      assert rows.Keys == (rows - {k}).Keys + {k};
      OrderedSorts(rows - {k});
      SortsMore(Ordered(rows - {k}), rows, k);
    }
  }

  lemma SortsMore(list: seq<Row>, rows: map<int, Row>, k: int)
    requires Keyed(rows) && k in rows && (forall y :: y in rows ==> y <= k) && Sorts(list, rows - {k})
    ensures Sorts(list + [rows[k]], rows)
  {
    var more, before := list + [rows[k]], rows - {k};
    assert forall y :: y in before <==> y in rows && y != k;
    forall i | 0 <= i < |list|
      ensures list[i].ms in rows && rows[list[i].ms] == list[i] && list[i].ms < k
    {
      assert list[i].ms in before;
    }
    forall y | y in rows
      ensures rows[y] in more
    {
      assert more[|list|] == rows[k];
      if y != k {
        assert before[y] in list;
      }
    }
    assert Ascending(more);
  }

  /** Saving is laying the bars of the rows over the store. */
  lemma {:induction false} UpsertsOverlay(store: map<int, Bar>, list: seq<Row>)
    ensures Upserts(store, list) == store + Upserts(map[], list)
  {
    if list != [] {
      UpsertsOverlay(store, list[..|list| - 1]);
    }
  }

  /** Row i is the last confirmed row of its second. */
  predicate LastOf(list: seq<Row>, i: nat, t: int) {
    i < |list| && list[i].confirmed && Second(list[i].ms) == t &&
    forall j :: i < j < |list| && list[j].confirmed ==> Second(list[j].ms) != t
  }

  /** Which seconds saving touches, and with which bar: the last confirmed row of the second. */
  lemma {:induction false} UpsertsExactly(list: seq<Row>, t: int)
    ensures t in Upserts(map[], list) <==> exists i: nat :: LastOf(list, i, t)
    ensures forall i: nat :: LastOf(list, i, t) ==> t in Upserts(map[], list) && Upserts(map[], list)[t] == list[i].bar
  {
    hide Second;
    if list != [] {
      var n := |list| - 1;
      UpsertsExactly(list[..n], t);
      LastSplit(list, t);
    }
  }

  lemma LastSplit(list: seq<Row>, t: int)
    requires list != []
    ensures var n := |list| - 1;
            var hit := list[n].confirmed && Second(list[n].ms) == t;
            && (LastOf(list, n, t) <==> hit)
            && forall i: nat :: i != n ==> (LastOf(list, i, t) <==> !hit && LastOf(list[..n], i, t))
  {
    hide Second;
    var n := |list| - 1;
    assert forall i :: 0 <= i < n ==> list[..n][i] == list[i];
  }

  // ----- one window of a run -----

  function Stamps(store: map<int, Bar>, w: Span): set<int> {
    set t | t in store && w.Has(t)
  }

  /** The window already holds as many bars as it has minutes. */
  predicate Skipped(store: map<int, Bar>, w: Span) {
    |Stamps(store, w)| >= w.Minutes()
  }

  /** The bars a window's pages come to, empty when one is refused. */
  ghost function Fetched(venue: Venue, w: Span): map<int, Bar> {
    match Scan(venue, w, 0, w.end, map[])
    case None => map[]
    case Some(rows) => Upserts(map[], Ordered(rows))
  }

  /** The store after one window. */
  ghost function Fill(venue: Venue, store: map<int, Bar>, w: Span): map<int, Bar> {
    if Skipped(store, w) then store else store + Fetched(venue, w)
  }

  /** Only seconds of the window are touched. */
  lemma FetchedInside(venue: Venue, w: Span)
    requires w.Whole()
    ensures forall t :: t in Fetched(venue, w) ==> w.Has(t)
  {
    hide Second, Span.Whole;
    ScanInside(venue, w, 0, w.end, map[]);
    var scanned := Scan(venue, w, 0, w.end, map[]);
    if scanned.Some? {
      OrderedSorts(scanned.value);
      var list := Ordered(scanned.value);
      forall t | t in Fetched(venue, w)
        ensures w.Has(t)
      {
        UpsertsExactly(list, t);
        var i: nat :| LastOf(list, i, t);
        SecondInside(w, list[i].ms);
      }
    }
  }

  lemma SecondInside(w: Span, ms: int)
    requires w.Whole() && w.Has(ms)
    ensures w.Has(Second(ms))
  {
    var a, q := w.start / MINUTE_MS, ms / SECOND_MS;
    assert w.start == SECOND_MS * (60 * a) && Second(ms) == SECOND_MS * q;
    assert q >= 60 * a;
  }

  lemma StampsElsewhere(store: map<int, Bar>, over: map<int, Bar>, v: Span, w: Span)
    requires (v.end <= w.start || w.end <= v.start) && forall t :: t in over ==> v.Has(t)
    ensures Stamps(store + over, w) == Stamps(store, w)
  {
  }

  lemma OverlayOrder(store: map<int, Bar>, a: map<int, Bar>, b: map<int, Bar>)
    requires forall t :: t in a ==> t !in b
    ensures store + a + b == store + b + a
  {
    assert forall t :: t in a ==> t !in b;
  }

  /** Windows that do not overlap may be filled in either order. */
  lemma FillCommutes(venue: Venue, venue': Venue, store: map<int, Bar>, v: Span, w: Span)
    requires v.Whole() && w.Whole() && (v.end <= w.start || w.end <= v.start)
    ensures Fill(venue, Fill(venue', store, v), w) == Fill(venue', Fill(venue, store, w), v)
  {
    hide Stamps, Fetched, Span.Whole;
    FetchedInside(venue', v);
    FetchedInside(venue, w);
    var fv, fw := Fetched(venue', v), Fetched(venue, w);
    StampsElsewhere(store, fv, v, w);
    StampsElsewhere(store, fw, w, v);
    assert forall t :: t in fv ==> v.Has(t) && !w.Has(t);
    assert forall t :: t in fw ==> w.Has(t);
    OverlayOrder(store, fv, fw);
  }

  lemma FillTwice(venue: Venue, store: map<int, Bar>, w: Span)
    ensures Fill(venue, Fill(venue, store, w), w) == Fill(venue, store, w)
  {
    hide Fetched, Stamps;
    assert store + Fetched(venue, w) + Fetched(venue, w) == store + Fetched(venue, w);
  }

  // ----- a whole run, and running again -----

  ghost function Run(venue: Venue, store: map<int, Bar>, ws: seq<Span>): map<int, Bar> {
    if ws == [] then store else Fill(venue, Run(venue, store, ws[..|ws| - 1]), ws[|ws| - 1])
  }

  predicate AllWhole(ws: seq<Span>) {
    forall i :: 0 <= i < |ws| ==> ws[i].Whole()
  }

  predicate Apart(v: Span, w: Span) {
    v.end <= w.start || w.end <= v.start
  }

  predicate AllApart(ws: seq<Span>, w: Span) {
    forall i :: 0 <= i < |ws| ==> Apart(ws[i], w)
  }

  lemma {:induction false} RunCommutes(venue: Venue, venue': Venue, store: map<int, Bar>, ws: seq<Span>, w: Span)
    requires AllWhole(ws) && w.Whole() && AllApart(ws, w)
    ensures Run(venue, Fill(venue', store, w), ws) == Fill(venue', Run(venue, store, ws), w)
  {
    hide Fill, Span.Whole;
    if ws != [] {
      var p, last := ws[..|ws| - 1], ws[|ws| - 1];
      RunCommutes(venue, venue', store, p, w);
      FillCommutes(venue, venue', Run(venue, store, p), w, last);
    }
  }

  /** For every window the earlier run got what the later one gets, or was refused. */
  ghost predicate AgreeOrRefused(earlier: Venue, later: Venue, ws: seq<Span>) {
    forall i :: 0 <= i < |ws| ==> Fetched(earlier, ws[i]) == Fetched(later, ws[i]) || Fetched(earlier, ws[i]) == map[]
  }

  lemma FillAgain(earlier: Venue, later: Venue, store: map<int, Bar>, w: Span)
    requires Fetched(earlier, w) == Fetched(later, w) || Fetched(earlier, w) == map[]
    ensures Fill(later, Fill(earlier, store, w), w) == Fill(later, store, w)
  {
    hide Fetched, Skipped;
    if Fetched(earlier, w) == map[] {
      assert store + map[] == store;
    } else {
      FillTwice(later, store, w);
    }
  }

  /** A run makes good whatever a window of it was left as. */
  lemma {:induction false} Absorbed(earlier: Venue, later: Venue, store: map<int, Bar>, ws: seq<Span>, j: nat)
    requires AllWhole(ws) && Disjoint(ws) && j < |ws| && AgreeOrRefused(earlier, later, ws)
    ensures Run(later, Fill(earlier, store, ws[j]), ws) == Run(later, store, ws)
  {
    hide Fill, Span.Whole, Fetched;
    var n := |ws| - 1;
    var p := ws[..n];
    if j < n {
      Absorbed(earlier, later, store, p, j);
    } else {
      RunCommutes(later, earlier, store, p, ws[n]);
      FillAgain(earlier, later, Run(later, store, p), ws[n]);
    }
  }

  /**
   Killing a run after any number of windows, some of them refused, and running again ends in the
   store one uninterrupted run would have left.
   */
  lemma {:induction false} Resumed(earlier: Venue, later: Venue, store: map<int, Bar>, ws: seq<Span>, k: nat)
    requires AllWhole(ws) && Disjoint(ws) && k <= |ws| && AgreeOrRefused(earlier, later, ws)
    ensures Run(later, Run(earlier, store, ws[..k]), ws) == Run(later, store, ws)
    decreases k
  {
    hide Fill, AgreeOrRefused;
    if k > 0 {
      assert ws[..k][..k - 1] == ws[..k - 1];
      Resumed(earlier, later, store, ws, k - 1);
      Absorbed(earlier, later, Run(earlier, store, ws[..k - 1]), ws, k - 1);
    }
  }

  /** Windows of the others leave a window's bars alone. */
  lemma {:induction false} RunElsewhere(venue: Venue, store: map<int, Bar>, ws: seq<Span>, w: Span, t: int)
    requires AllWhole(ws) && AllApart(ws, w) && w.Has(t)
    ensures t in Run(venue, store, ws) <==> t in store
    ensures t in store ==> Run(venue, store, ws)[t] == store[t]
  {
    hide Span.Whole, Fetched, Skipped;
    if ws != [] {
      var n := |ws| - 1;
      RunElsewhere(venue, store, ws[..n], w, t);
      FetchedInside(venue, ws[n]);
    }
  }

  lemma WindowsSound(start: int, end: int)
    requires start % MINUTE_MS == 0 && end % MINUTE_MS == 0
    ensures AllWhole(Reversed(Windows(start, end))) && Disjoint(Reversed(Windows(start, end)))
  {
    hide Windows, Span.Whole;
    WindowsTile(start, end);
    WindowsPartition(start, end);
  }

  lemma PrefixApart(ws: seq<Span>, i: nat)
    requires AllWhole(ws) && Disjoint(ws) && i < |ws|
    ensures ws[i].Whole() && AllWhole(ws[..i]) && AllApart(ws[..i], ws[i])
  {
  }

  lemma RunKeepsSkipped(venue: Venue, store: map<int, Bar>, ws: seq<Span>, w: Span)
    requires AllWhole(ws) && AllApart(ws, w)
    ensures Stamps(Run(venue, store, ws), w) == Stamps(store, w)
  {
    forall t | w.Has(t)
      ensures t in Run(venue, store, ws) <==> t in store
    {
      RunElsewhere(venue, store, ws, w, t);
    }
    assert forall t :: t in Stamps(Run(venue, store, ws), w) <==> t in Stamps(store, w);
  }

  class History {
    var bars: map<int, Bar>

    constructor ()
      ensures bars == map[]
    {
      bars := map[];
    }

    /** `save`, of the confirmed rows of a list. */
    method Save(list: seq<Row>)
      modifies this
      ensures bars == Upserts(old(bars), list)
    {
      for i := 0 to |list|
        invariant bars == Upserts(old(bars), list[..i])
      {
        assert list[..i + 1][..i] == list[..i];
        if list[i].confirmed {
          bars := bars[Second(list[i].ms) := list[i].bar];
        }
      }
      assert list[..|list|] == list;
    }

    /** `_fetch_window`: everything the pages of one window come to, saved at once, or nothing when one is refused. */
    method FetchWindow(venue: Venue, w: Span) returns (ok: bool)
      requires w.Whole()
      modifies this
      ensures ok == Scan(venue, w, 0, w.end, map[]).Some?
      ensures bars == old(bars) + Fetched(venue, w)
    {
      hide Upserts, Sorts, Scan, Ordered, Span.Whole;
      var rows := Collect(venue, w);
      if rows.None? {
        return false;
      }
      ScanInside(venue, w, 0, w.end, map[]);
      var list := SortRows(rows.value);
      OrderedSorts(rows.value);
      OneOrder(list, Ordered(rows.value), rows.value);
      Save(list);
      UpsertsOverlay(old(bars), list);
      ok := true;
    }

    /**
     `backfill`: the windows newest first, each skipped when it looks complete.  The failures are the
     windows that were not complete at the start and had a page refused.
     */
    method Backfill(venue: Venue, start: int, end: int) returns (failures: set<int>)
      requires start % MINUTE_MS == 0 && end % MINUTE_MS == 0
      modifies this
      ensures bars == Run(venue, old(bars), Reversed(Windows(start, end)))
      ensures failures == FailedStarts(venue, old(bars), Windows(start, end))
    {
      hide Skipped, Fetched, Windows, Span.Whole, FailedStarts, Stamps, Scan, Disjoint, AllWhole, AllApart, Reversed, Tiles;
      var ws := DayWindows(start, end);
      WindowsSound(start, end);
      failures := {};
      NoWindow(venue, bars);
      for i := 0 to |ws|
        invariant bars == Run(venue, old(bars), ws[..i])
        invariant failures == FailedStarts(venue, old(bars), ws[..i])
      {
        assert ws[..i + 1][..i] == ws[..i];
        OneMoreWindow(venue, old(bars), ws, i);
        PrefixApart(ws, i);
        RunKeepsSkipped(venue, old(bars), ws[..i], ws[i]);
        SkippedByStamps(bars, old(bars), ws[i]);
        if !Skipped(bars, ws[i]) {
          var ok := FetchWindow(venue, ws[i]);
          if !ok {
            failures := failures + {ws[i].start};
          }
        }
      }
      assert ws[..|ws|] == ws;
      SameStarts(venue, old(bars), Windows(start, end));
    }
  }

  predicate Fails(venue: Venue, store: map<int, Bar>, w: Span) {
    !Skipped(store, w) && Scan(venue, w, 0, w.end, map[]).None?
  }

  ghost function FailedStarts(venue: Venue, store: map<int, Bar>, ws: seq<Span>): set<int> {
    set i | 0 <= i < |ws| && Fails(venue, store, ws[i]) :: ws[i].start
  }

  lemma NoWindow(venue: Venue, store: map<int, Bar>)
    ensures FailedStarts(venue, store, []) == {}
  {
  }

  lemma OneMoreWindow(venue: Venue, store: map<int, Bar>, ws: seq<Span>, i: nat)
    requires i < |ws|
    ensures FailedStarts(venue, store, ws[..i + 1]) ==
            FailedStarts(venue, store, ws[..i]) + if Fails(venue, store, ws[i]) then {ws[i].start} else {}
  {
    hide Fails;
    assert forall j :: 0 <= j < i ==> ws[..i + 1][j] == ws[..i][j];
  }

  lemma SkippedByStamps(store: map<int, Bar>, store': map<int, Bar>, w: Span)
    requires Stamps(store, w) == Stamps(store', w)
    ensures Skipped(store, w) == Skipped(store', w)
  {
  }

  /** Naming the failed windows in either order names the same starts. */
  lemma SameStarts(venue: Venue, store: map<int, Bar>, ws: seq<Span>)
    ensures FailedStarts(venue, store, Reversed(ws)) == FailedStarts(venue, store, ws)
  {
    hide Fails;
    assert forall i :: 0 <= i < |ws| ==> ws[i] == Reversed(ws)[|ws| - 1 - i];
  }

  // ----- what a skipped window holds -----

  predicate Minute(w: Span, t: int) {
    w.Has(t) && t % MINUTE_MS == 0
  }

  /** The minutes of a whole window. */
  function MinuteSet(start: int, n: nat): set<int> {
    if n == 0 then {} else MinuteSet(start, n - 1) + {start + (n - 1) * MINUTE_MS}
  }

  lemma {:induction false} MinuteCount(start: int, n: nat)
    ensures |MinuteSet(start, n)| == n
    ensures forall t :: t in MinuteSet(start, n) <==> start <= t < start + n * MINUTE_MS && (t - start) % MINUTE_MS == 0
  {
    if n > 0 {
      MinuteCount(start, n - 1);
    }
  }

  lemma MinuteMembers(w: Span)
    requires w.Whole()
    ensures w.Minutes() >= 0 && forall t :: t in MinuteSet(w.start, w.Minutes()) <==> Minute(w, t)
  {
    hide MinuteSet;
    var n := w.Minutes();
    assert w.end == w.start + n * MINUTE_MS;
    MinuteCount(w.start, n);
    forall t
      ensures (t - w.start) % MINUTE_MS == 0 <==> t % MINUTE_MS == 0
    {
      SameMinute(w.start, t);
    }
  }

  lemma SameMinute(a: int, t: int)
    requires a % MINUTE_MS == 0
    ensures (t - a) % MINUTE_MS == t % MINUTE_MS
  {
    assert t - a == MINUTE_MS * (t / MINUTE_MS - a / MINUTE_MS) + t % MINUTE_MS;
  }

  predicate OnMinutes(store: map<int, Bar>) {
    forall t :: t in store ==> t % MINUTE_MS == 0
  }

  /** Of stored minute bars, a window is skipped exactly when it holds every one of its minutes. */
  lemma SkippedIff(store: map<int, Bar>, w: Span)
    requires w.Whole() && OnMinutes(store)
    ensures Skipped(store, w) <==> forall t :: Minute(w, t) ==> t in store
  {
    hide Span.Whole;
    var n := w.Minutes();
    MinuteMembers(w);
    var minutes, have := MinuteSet(w.start, n), Stamps(store, w);
    MinuteCount(w.start, n);
    SubsetCount(have, minutes);
    assert (forall t :: Minute(w, t) ==> t in store) <==> minutes <= have by {
      hide Span.Minutes, MinuteSet;
      if forall t :: Minute(w, t) ==> t in store {
        assert forall t :: t in minutes ==> t in have;
      }
    }
  }

  /** A subset as large as the whole is the whole. */
  lemma SubsetCount(a: set<int>, b: set<int>)
    ensures (forall t :: t in a ==> t in b) ==> (|a| >= |b| <==> b <= a)
  {
    if forall t :: t in a ==> t in b {
      assert forall t :: t in a ==> t in b;
      assert b == a + (b - a);
    }
  }

  // ----- completeness against an honest venue -----

  /** The venue's bars sit on minutes. */
  predicate MinuteBars(bars: map<int, Row>) {
    forall k :: k in bars ==> k % MINUTE_MS == 0
  }

  /** Saving sorted rows of whole minutes stores each confirmed one at its own time. */
  lemma SavedExactly(list: seq<Row>, rows: map<int, Row>, t: int)
    requires Sorts(list, rows) && MinuteBars(rows)
    ensures t in Upserts(map[], list) <==> t in rows && rows[t].confirmed
    ensures t in Upserts(map[], list) ==> Upserts(map[], list)[t] == rows[t].bar
  {
    hide Second, Upserts;
    UpsertsExactly(list, t);
    forall i | 0 <= i < |list|
      ensures Second(list[i].ms) == list[i].ms
    {
      OnSecond(list[i].ms);
    }
    if t in rows && rows[t].confirmed {
      var i :| 0 <= i < |list| && list[i] == rows[t];
      assert LastOf(list, i, t);
    }
    forall i: nat | LastOf(list, i, t)
      ensures t in rows && rows[t] == list[i]
    {
    }
  }

  /** A window that is fetched gets exactly the venue's confirmed bars of it. */
  lemma FetchedExactly(venue: Venue, bars: map<int, Row>, w: Span, t: int)
    requires Honest(venue, bars) && MinuteBars(bars) && Scan(venue, w, 0, w.end, map[]).Some?
    ensures t in Fetched(venue, w) <==> t in bars && w.Has(t) && bars[t].confirmed
    ensures t in Fetched(venue, w) ==> Fetched(venue, w)[t] == bars[t].bar
  {
    hide Upserts, Sorts, Scan, Ordered;
    assert Within(bars, w, w.end) == map[];
    ScanComplete(venue, bars, w, 0, w.end, map[]);
    OrderedSorts(Within(bars, w, w.start));
    SavedExactly(Ordered(Within(bars, w, w.start)), Within(bars, w, w.start), t);
  }

  lemma OnSecond(ms: int)
    ensures ms % MINUTE_MS == 0 ==> Second(ms) == ms
  {
  }

  /** No page of a window that needs fetching is refused; what a skipped window would meet does not matter. */
  ghost predicate NeverRefused(venue: Venue, store: map<int, Bar>, ws: seq<Span>) {
    forall i :: 0 <= i < |ws| && !Skipped(store, ws[i]) ==> Scan(venue, ws[i], 0, ws[i].end, map[]).Some?
  }

  /** The time lies in a window that was not skipped. */
  ghost predicate InFetched(store: map<int, Bar>, ws: seq<Span>, t: int) {
    exists i :: 0 <= i < |ws| && ws[i].Has(t) && !Skipped(store, ws[i])
  }

  lemma FetchedSplit(store: map<int, Bar>, ws: seq<Span>, t: int)
    requires ws != []
    ensures var last := ws[|ws| - 1];
            InFetched(store, ws, t) <==> InFetched(store, ws[..|ws| - 1], t) || (last.Has(t) && !Skipped(store, last))
  {
    hide Span.Has, Skipped;
    var n := |ws| - 1;
    if InFetched(store, ws[..n], t) {
      var i :| 0 <= i < n && ws[..n][i].Has(t) && !Skipped(store, ws[..n][i]);
      assert ws[i].Has(t);
    }
    if InFetched(store, ws, t) {
      var i :| 0 <= i < |ws| && ws[i].Has(t) && !Skipped(store, ws[i]);
      assert i < n ==> ws[..n][i].Has(t);
    }
  }

  /**
   Whatever the store held before, after such a run a time is stored exactly when it was before, or the
   venue has a confirmed bar of it and its window was not skipped.
   */
  lemma {:induction false} RunExactly(venue: Venue, bars: map<int, Row>, store: map<int, Bar>, ws: seq<Span>, t: int)
    requires AllWhole(ws) && Disjoint(ws) && Honest(venue, bars) && MinuteBars(bars) && NeverRefused(venue, store, ws)
    ensures t in Run(venue, store, ws) <==> t in store || (InFetched(store, ws, t) && t in bars && bars[t].confirmed)
  {
    hide Skipped, Scan, Fetched, Honest, Span.Whole, Span.Has, Stamps, MinuteBars;
    if ws != [] {
      var n := |ws| - 1;
      var p := ws[..n];
      RunExactly(venue, bars, store, p, t);
      PrefixApart(ws, n);
      RunKeepsSkipped(venue, store, p, ws[n]);
      SkippedByStamps(Run(venue, store, p), store, ws[n]);
      FetchedSplit(store, ws, t);
      if !Skipped(store, ws[n]) {
        FetchedExactly(venue, bars, ws[n], t);
      }
    }
  }

  /**
   After a run on stored minute bars against an honest venue, a minute of the range is stored exactly
   when it was before or the venue has a confirmed bar of it: a skipped window already held it.
   */
  lemma RunComplete(venue: Venue, bars: map<int, Row>, store: map<int, Bar>, ws: seq<Span>, t: int)
    requires AllWhole(ws) && Disjoint(ws) && Honest(venue, bars) && MinuteBars(bars) && NeverRefused(venue, store, ws) && OnMinutes(store)
    ensures t in Run(venue, store, ws) <==> t in store || (InSome(ws, t) && t in bars && bars[t].confirmed)
  {
    hide Skipped, Scan, Run, Honest, Span.Whole, Span.Has, OnMinutes, MinuteBars, Disjoint, NeverRefused, Minute;
    RunExactly(venue, bars, store, ws, t);
    if InSome(ws, t) && t in bars {
      var i :| 0 <= i < |ws| && ws[i].Has(t);
      SkippedIff(store, ws[i]);
      MinuteOf(bars, ws[i], t);
    }
  }

  lemma MinuteOf(bars: map<int, Row>, w: Span, t: int)
    requires MinuteBars(bars)
    ensures t in bars && w.Has(t) ==> Minute(w, t)
  {
  }

  lemma InSomeSplit(ws: seq<Span>, t: int)
    requires ws != []
    ensures InSome(ws, t) <==> InSome(ws[..|ws| - 1], t) || ws[|ws| - 1].Has(t)
  {
    hide Span.Has;
    var n := |ws| - 1;
    if InSome(ws[..n], t) {
      var i :| 0 <= i < n && ws[..n][i].Has(t);
      assert ws[i].Has(t);
    }
    if InSome(ws, t) {
      var i :| 0 <= i < |ws| && ws[i].Has(t);
      assert i < n ==> ws[..n][i].Has(t);
    }
  }

  // ----- the same, of the range a caller asks for -----

  /** Killed after any number of windows and run again, a backfill ends where one run would have. */
  lemma BackfillResumes(earlier: Venue, later: Venue, store: map<int, Bar>, start: int, end: int, k: nat)
    requires start % MINUTE_MS == 0 && end % MINUTE_MS == 0 && k <= |Windows(start, end)|
    requires AgreeOrRefused(earlier, later, Reversed(Windows(start, end)))
    ensures var ws := Reversed(Windows(start, end));
            Run(later, Run(earlier, store, ws[..k]), ws) == Run(later, store, ws)
  {
    hide Windows, Span.Whole, AgreeOrRefused, AllWhole, Disjoint;
    WindowsSound(start, end);
    Resumed(earlier, later, store, Reversed(Windows(start, end)), k);
  }

  lemma InSomeReversed(ws: seq<Span>, t: int)
    ensures InSome(Reversed(ws), t) <==> InSome(ws, t)
  {
    hide Span.Has;
    if InSome(ws, t) {
      var i :| 0 <= i < |ws| && ws[i].Has(t);
      assert Reversed(ws)[|ws| - 1 - i].Has(t);
    }
    if InSome(Reversed(ws), t) {
      var i :| 0 <= i < |ws| && Reversed(ws)[i].Has(t);
      assert ws[|ws| - 1 - i].Has(t);
    }
  }

  /** The same of the range, for any store: what is added is the venue's confirmed bars of the windows that were not skipped. */
  lemma BackfillExactly(venue: Venue, bars: map<int, Row>, store: map<int, Bar>, start: int, end: int, t: int)
    requires start % MINUTE_MS == 0 && end % MINUTE_MS == 0
    requires Honest(venue, bars) && MinuteBars(bars) && NeverRefused(venue, store, Reversed(Windows(start, end)))
    ensures t in Run(venue, store, Reversed(Windows(start, end))) <==>
            t in store || (InFetched(store, Reversed(Windows(start, end)), t) && t in bars && bars[t].confirmed)
  {
    hide Windows, Span.Whole, AllWhole, Disjoint, Honest, Reversed, MinuteBars, NeverRefused;
    WindowsSound(start, end);
    RunExactly(venue, bars, store, Reversed(Windows(start, end)), t);
  }

  /** Against an honest venue that refuses no page it is asked for, every confirmed bar of the range ends up stored, and nothing else is added. */
  lemma BackfillComplete(venue: Venue, bars: map<int, Row>, store: map<int, Bar>, start: int, end: int, t: int)
    requires start % MINUTE_MS == 0 && end % MINUTE_MS == 0
    requires Honest(venue, bars) && MinuteBars(bars) && NeverRefused(venue, store, Reversed(Windows(start, end))) && OnMinutes(store)
    ensures t in Run(venue, store, Reversed(Windows(start, end))) <==>
            t in store || (start <= t < end && t in bars && bars[t].confirmed)
  {
    hide Windows, Span.Whole, AllWhole, Disjoint, Honest, Reversed, MinuteBars, OnMinutes, NeverRefused, Run;
    WindowsSound(start, end);
    WindowsPartition(start, end);
    InSomeReversed(Windows(start, end), t);
    RunComplete(venue, bars, store, Reversed(Windows(start, end)), t);
  }

  /** Whatever the venue answers, nothing outside the range changes. */
  lemma {:induction false} RunOutside(venue: Venue, store: map<int, Bar>, ws: seq<Span>, t: int)
    requires AllWhole(ws) && !InSome(ws, t)
    ensures t in Run(venue, store, ws) <==> t in store
    ensures t in store ==> Run(venue, store, ws)[t] == store[t]
  {
    hide Span.Whole, Span.Has, Skipped, Fetched;
    if ws != [] {
      var n := |ws| - 1;
      InSomeSplit(ws, t);
      RunOutside(venue, store, ws[..n], t);
      FetchedInside(venue, ws[n]);
    }
  }
}
