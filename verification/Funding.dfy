/** Funding settlements, paged back to the first (src/kline/okx_history.py `_fetch_funding`). */
module Funding {
  import opened Results

  /** The first and last millisecond the program can write as a date; any other raises. */
  const FIRST_MS: int := -62_135_596_800_000
  const LAST_MS: int := 253_402_300_799_999

  datatype Settlement = Settlement(ms: int, rate: real, realized: Option<real>)

  datatype FundingAnswer = FundingPage(rows: seq<Settlement>) | FundingRefused

  /** The answer to the n-th request, at a cursor or at none. */
  type FundingVenue = (nat, Option<int>) -> FundingAnswer

  datatype FundingError = ProviderRefused | DateOutOfRange

  predicate Datable(ms: int) {
    FIRST_MS <= ms <= LAST_MS
  }

  predicate AllDatable(page: seq<Settlement>) {
    forall i :: 0 <= i < |page| ==> Datable(page[i].ms)
  }

  function Earliest(page: seq<Settlement>): (ms: int)
    requires page != []
    ensures forall r :: r in page ==> ms <= r.ms
    ensures exists r :: r in page && r.ms == ms
    ensures AllDatable(page) ==> Datable(ms)
  {
    var last := page[|page| - 1];
    if |page| == 1 then last.ms
    else
      var before := Earliest(page[..|page| - 1]);
      assert forall r :: r in page ==> r in page[..|page| - 1] || r == last;
      if last.ms < before then last.ms else before
  }

  /** `save_funding`: rows replace what is stored at their time, in order. */
  function SaveAll(table: map<int, Settlement>, page: seq<Settlement>): map<int, Settlement> {
    if page == [] then table else SaveAll(table, page[..|page| - 1])[page[|page| - 1].ms := page[|page| - 1]]
  }

  datatype Outcome = Outcome(table: map<int, Settlement>, saved: nat, error: Option<FundingError>)

  /** How far a cursor can still fall. */
  function Room(cursor: Option<int>): nat
    requires cursor.Some? ==> Datable(cursor.value)
  {
    if cursor.None? then LAST_MS - FIRST_MS + 2 else cursor.value - FIRST_MS + 1
  }

  /** The pages from a cursor on: each is stored before the next is asked for. */
  function Settle(venue: FundingVenue, n: nat, cursor: Option<int>, table: map<int, Settlement>, saved: nat): Outcome
    requires cursor.Some? ==> Datable(cursor.value)
    decreases Room(cursor)
  {
    match venue(n, cursor)
    case FundingRefused => Outcome(table, saved, Some(ProviderRefused))
    case FundingPage(page) =>
      if page == [] then Outcome(table, saved, None)
      else if !AllDatable(page) then Outcome(table, saved, Some(DateOutOfRange))
      else
        var stored, count, oldest := SaveAll(table, page), saved + |page|, Earliest(page);
        if cursor.Some? && oldest >= cursor.value then Outcome(stored, count, None)
        else Settle(venue, n + 1, Some(oldest), stored, count)
  }

  class FundingHistory {
    var table: map<int, Settlement>

    constructor ()
      ensures table == map[]
    {
      table := map[];
    }

    /**
     `_fetch_funding`: no lower bound is asked for, yet the loop ends against any venue, because a
     page must move the cursor back and a time before the first year cannot be stored.
     */
    method FetchFunding(venue: FundingVenue) returns (saved: nat, error: Option<FundingError>)
      modifies this
      ensures Outcome(table, saved, error) == Settle(venue, 0, None, old(table), 0)
    {
      var cursor: Option<int> := None;
      var n := 0;
      saved, error := 0, None;
      while true
        invariant cursor.Some? ==> Datable(cursor.value)
        invariant Settle(venue, n, cursor, table, saved) == Settle(venue, 0, None, old(table), 0)
        invariant error == None
        decreases Room(cursor)
      {
        var answer := venue(n, cursor);
        if answer.FundingRefused? {
          return saved, Some(ProviderRefused);
        }
        var page := answer.rows;
        if page == [] {
          return saved, None;
        }
        if !AllDatable(page) {
          return saved, Some(DateOutOfRange);
        }
        table := SaveAll(table, page);
        saved := saved + |page|;
        var oldest := Earliest(page);
        if cursor.Some? && oldest >= cursor.value {
          return saved, None;
        }
        cursor, n := Some(oldest), n + 1;
      }
    }
  }

  // ----- completeness -----

  predicate Before(k: int, cursor: Option<int>) {
    cursor.Some? ==> k < cursor.value
  }

  /** Refused, or the newest run of settlements before the cursor, empty only when there is none. */
  ghost predicate HonestFundingPage(a: FundingAnswer, all: map<int, Settlement>, cursor: Option<int>) {
    a.FundingPage? ==>
      && (forall r :: r in a.rows ==> Before(r.ms, cursor) && r.ms in all && all[r.ms] == r)
      && (forall k :: k in all && Before(k, cursor) ==> a.rows != [] && (Earliest(a.rows) <= k ==> all[k] in a.rows))
  }

  ghost predicate HonestFunding(venue: FundingVenue, all: map<int, Settlement>) {
    && (forall k :: k in all ==> all[k].ms == k && Datable(k))
    && forall n, cursor :: HonestFundingPage(venue(n, cursor), all, cursor)
  }

  lemma {:induction false} SaveAllExactly(table: map<int, Settlement>, page: seq<Settlement>)
    ensures forall k :: k in SaveAll(table, page) <==> k in table || exists r :: r in page && r.ms == k
    ensures forall k :: k in SaveAll(table, page) ==>
              (SaveAll(table, page)[k] in page && SaveAll(table, page)[k].ms == k) || (k in table && SaveAll(table, page)[k] == table[k])
    ensures forall r :: r in page ==> SaveAll(table, page)[r.ms] in page && SaveAll(table, page)[r.ms].ms == r.ms
  {
    if page != [] {
      var n := |page| - 1;
      SaveAllExactly(table, page[..n]);
      assert forall r :: r in page <==> r in page[..n] || r == page[n];
    }
  }

  /** What paging has stored: everything from the cursor on, over what was there. */
  ghost predicate StoredFrom(table: map<int, Settlement>, was: map<int, Settlement>, all: map<int, Settlement>, cursor: Option<int>) {
    && (forall k :: k in table <==> k in was || (k in all && !Before(k, cursor)))
    && (forall k :: k in table ==> table[k] == if k in all && !Before(k, cursor) then all[k] else was[k])
  }

  lemma PageStores(table: map<int, Settlement>, was: map<int, Settlement>, all: map<int, Settlement>, cursor: Option<int>, a: FundingAnswer)
    requires (forall k :: k in all ==> all[k].ms == k) && HonestFundingPage(a, all, cursor) && a.FundingPage? && a.rows != []
    requires StoredFrom(table, was, all, cursor)
    ensures StoredFrom(SaveAll(table, a.rows), was, all, Some(Earliest(a.rows))) && Before(Earliest(a.rows), cursor)
  {
    hide Earliest, SaveAll, HonestFundingPage;
    var stored, oldest := SaveAll(table, a.rows), Earliest(a.rows);
    EarliestBefore(all, cursor, a);
    forall k
      ensures k in stored <==> k in was || (k in all && k >= oldest)
      ensures k in stored ==> stored[k] == if k in all && k >= oldest then all[k] else was[k]
    {
      OnePlace(table, all, cursor, a, k);
    }
  }

  lemma EarliestBefore(all: map<int, Settlement>, cursor: Option<int>, a: FundingAnswer)
    requires HonestFundingPage(a, all, cursor) && a.FundingPage? && a.rows != []
    ensures Before(Earliest(a.rows), cursor)
  {
  }

  /** What a page does at one time. */
  lemma OnePlace(table: map<int, Settlement>, all: map<int, Settlement>, cursor: Option<int>, a: FundingAnswer, k: int)
    requires (forall k :: k in all ==> all[k].ms == k) && HonestFundingPage(a, all, cursor) && a.FundingPage? && a.rows != []
    ensures var stored, taken := SaveAll(table, a.rows), k in all && Before(k, cursor) && Earliest(a.rows) <= k;
            (k in stored <==> k in table || taken) && (k in stored ==> stored[k] == if taken then all[k] else table[k])
  {
    hide Earliest, SaveAll;
    SaveAllExactly(table, a.rows);
    var stored := SaveAll(table, a.rows);
    assert k in stored && stored[k] in a.rows ==> all[stored[k].ms] == stored[k];
  }

  /** When there is nothing before the cursor, everything is stored. */
  lemma StoredIs(table: map<int, Settlement>, was: map<int, Settlement>, all: map<int, Settlement>, cursor: Option<int>, a: FundingAnswer)
    requires HonestFundingPage(a, all, cursor) && StoredFrom(table, was, all, cursor)
    ensures a == FundingPage([]) ==>
              (forall k :: k in table <==> k in was || k in all) && (forall k :: k in table ==> table[k] == if k in all then all[k] else was[k])
  {
    hide Earliest;
  }

  lemma PageIsDatable(venue: FundingVenue, all: map<int, Settlement>, n: nat, cursor: Option<int>)
    requires HonestFunding(venue, all) && venue(n, cursor).FundingPage? && venue(n, cursor).rows != []
    ensures AllDatable(venue(n, cursor).rows)
  {
    var a := venue(n, cursor);
    assert HonestFundingPage(a, all, cursor);
    assert forall i :: 0 <= i < |a.rows| ==> a.rows[i] in a.rows;
  }

  /** Against an honest venue, paging that meets no refusal stores every settlement and keeps the rest. */
  lemma {:induction false} FundingComplete(venue: FundingVenue, all: map<int, Settlement>, was: map<int, Settlement>, n: nat,
                                           cursor: Option<int>, table: map<int, Settlement>, saved: nat)
    requires HonestFunding(venue, all) && (cursor.Some? ==> Datable(cursor.value)) && StoredFrom(table, was, all, cursor)
    ensures var r := Settle(venue, n, cursor, table, saved);
            && r.error != Some(DateOutOfRange)
            && (r.error == None ==> forall k :: k in r.table <==> k in was || k in all)
            && (r.error == None ==> forall k :: k in r.table ==> r.table[k] == if k in all then all[k] else was[k])
    decreases Room(cursor)
  {
    hide Earliest, SaveAll, StoredFrom;
    var a := venue(n, cursor);
    assert HonestFundingPage(a, all, cursor);
    StoredIs(table, was, all, cursor, a);
    if a.FundingPage? && a.rows != [] {
      PageIsDatable(venue, all, n, cursor);
      PageStores(table, was, all, cursor, a);
      FundingComplete(venue, all, was, n + 1, Some(Earliest(a.rows)), SaveAll(table, a.rows), saved + |a.rows|);
    }
  }
}
