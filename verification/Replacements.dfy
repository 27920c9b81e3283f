/** What every replacement, and every chain of replacements, keeps (src/kline/mvp_manifest.py). */
module Replacements {
  import opened Results
  import opened Timestamps
  import opened Manifest

  datatype Request = Request(universe: Universe, failedSymbol: string, replacement: Instrument, evidence: Evidence)

  function Apply(m: Manifest, r: Request): Result<Manifest, ManifestError> {
    Replace(m, r.universe, r.failedSymbol, r.replacement, r.evidence)
  }

  predicate MemberAmong(active: seq<Instrument>, u: Universe, key: string, but: int) {
    exists i :: 0 <= i < |active| && i != but && active[i].universe == u && Fold(active[i].symbol) == key
  }

  predicate HasKey(reserves: seq<string>, key: string) {
    exists k :: 0 <= k < |reserves| && Fold(reserves[k]) == key
  }

  predicate IsMember(m: Manifest, u: Universe, key: string) {
    MemberAmong(m.active, u, key, -1)
  }

  predicate IsReserve(m: Manifest, u: Universe, key: string) {
    HasKey(PoolOf(m, u).reserves, key)
  }

  function EligibleCount(records: seq<Record>): nat {
    if records == [] then 0 else EligibleCount(records[..|records| - 1]) + if Eligible(records[|records| - 1]) then 1 else 0
  }

  function Left(m: Manifest, u: Universe): nat {
    EligibleCount(PoolOf(m, u).records)
  }

  /** The symbol stands in the reserve as a record that is not eligible. */
  predicate Quarantined(m: Manifest, u: Universe, key: string) {
    exists k :: 0 <= k < |PoolOf(m, u).records| && Fold(PoolOf(m, u).records[k].symbol) == key && !Eligible(PoolOf(m, u).records[k])
  }

  /** What an accepted replacement makes: everything the later lemmas need of it. */
  ghost predicate Moves(m: Manifest, r: Request, m': Manifest) {
    var f, u := FindMember(m.active, r.universe, r.failedSymbol), r.universe;
    && Valid(m) && Valid(m') && Stock(u) && f >= 0 && r.replacement.universe == u
    && |PoolOf(m, u).records| == |PoolOf(m, u).reserves| >= 20
    && Eligible(PoolOf(m, u).records[0])
    && Fold(r.replacement.symbol) == Fold(PoolOf(m, u).reserves[0])
    && m' == Next(m, u, r.failedSymbol, f, Trim(r.replacement))
  }

  lemma AcceptedMoves(m: Manifest, r: Request)
    requires Valid(m) && Apply(m, r).Ok?
    ensures Moves(m, r, Apply(m, r).value)
  {
    hide Valid, Fold, Strip, Trim, FindMember, Edited, Next, Acceptable, Detach, Refusal, PoolOk, ActiveOk, IdentityMatches, InstrumentOk;
    DetachValid(m);
    ReadyFacts(m, r.universe, r.failedSymbol, r.replacement, r.evidence);
    AcceptedIff(m, r.universe, r.failedSymbol, r.replacement, r.evidence);
  }

  // ----- one replacement -----

  lemma {:induction false} CountSplit(a: seq<Record>, b: seq<Record>)
    ensures EligibleCount(a + b) == EligibleCount(a) + EligibleCount(b)
    decreases |b|
  {
    hide Eligible;
    if b == [] {
      assert a + b == a;
    } else {
      assert (a + b)[..|a + b| - 1] == a + b[..|b| - 1];
      CountSplit(a, b[..|b| - 1]);
    }
  }

  lemma {:induction false} CountRanked(records: seq<Record>)
    ensures EligibleCount(Ranked(records)) == EligibleCount(records)
  {
    hide StatusOf;
    if records != [] {
      CountRanked(records[..|records| - 1]);
      assert Ranked(records)[..|records| - 1] == Ranked(records[..|records| - 1]);
      RankedStatus(records[|records| - 1], |records|);
    }
  }

  lemma RankedStatus(r: Record, rank: int)
    ensures Eligible(r.(rank := rank)) == Eligible(r)
  {
  }

  lemma QuarantineStatus(failedSymbol: string, failed: Instrument, rank: int)
    ensures !Eligible(QuarantineRecord(failedSymbol, failed, rank))
  {
    QuarantineText();
  }

  /** One eligible reserve is used up, none of another universe. */
  lemma UsesOne(m: Manifest, r: Request, m': Manifest)
    requires Moves(m, r, m')
    ensures Left(m, r.universe) > 0 && Left(m', r.universe) == Left(m, r.universe) - 1
    ensures Left(m', Other(r.universe)) == Left(m, Other(r.universe))
  {
    hide Eligible, Fold, Valid, Trim, Strip, FindMember, Ranked, QuarantineRecord;
    var u := r.universe;
    var p, failed := PoolOf(m, u), m.active[FindMember(m.active, u, r.failedSymbol)];
    var q := QuarantineRecord(r.failedSymbol, failed, |p.records|);
    assert p.records == [p.records[0]] + p.records[1..];
    CountSplit([p.records[0]], p.records[1..]);
    CountSplit(p.records[1..], [q]);
    CountRanked(p.records[1..] + [q]);
    OneCount(p.records[0]);
    OneCount(q);
    QuarantineStatus(r.failedSymbol, failed, |p.records|);
  }

  lemma {:induction false} OneCount(r: Record)
    ensures EligibleCount([r]) == if Eligible(r) then 1 else 0
  {
    hide Eligible;
    assert [r][..0] == [];
  }

  /** Active and reserve symbols together are what they were, in every universe. */
  lemma KeepsSymbols(m: Manifest, r: Request, m': Manifest, u: Universe, key: string)
    requires Moves(m, r, m') && Stock(u)
    ensures IsMember(m', u, key) || IsReserve(m', u, key) <==> IsMember(m, u, key) || IsReserve(m, u, key)
  {
    hide Eligible, Fold, Valid, Trim, Strip, FindMember, NextVersion, Ranked, MemberAmong, HasKey;
    var f := FindMember(m.active, r.universe, r.failedSymbol);
    var x := Trim(r.replacement);
    TrimFold(r.replacement);
    MemberMoves(m.active, f, x, u, key);
    if u == r.universe {
      FoldStrip(r.failedSymbol);
      ReserveMoves(PoolOf(m, u).reserves, Strip(r.failedSymbol), key);
    }
  }

  lemma TrimFold(i: Instrument)
    ensures Fold(Trim(i).symbol) == Fold(i.symbol) && Trim(i).universe == i.universe
  {
    FoldStrip(i.symbol);
  }

  lemma {:induction false} ReserveMoves(reserves: seq<string>, added: string, key: string)
    requires reserves != []
    ensures HasKey(reserves[1..] + [added], key) <==> HasKey(reserves[1..], key) || Fold(added) == key
    ensures HasKey(reserves, key) <==> HasKey(reserves[1..], key) || Fold(reserves[0]) == key
  {
    hide Fold;
    var rest, after := reserves[1..], reserves[1..] + [added];
    assert after[|rest|] == added;
    if HasKey(rest, key) {
      var k :| 0 <= k < |rest| && Fold(rest[k]) == key;
      assert Fold(after[k]) == key && Fold(reserves[k + 1]) == key;
    }
    if HasKey(reserves, key) && Fold(reserves[0]) != key {
      var k :| 0 <= k < |reserves| && Fold(reserves[k]) == key;
      assert Fold(rest[k - 1]) == key;
    }
    if HasKey(after, key) && Fold(added) != key {
      var k :| 0 <= k < |after| && Fold(after[k]) == key;
      assert Fold(rest[k]) == key;
    }
  }

  /** Replacing one member changes the symbols of its universe only at its place. */
  lemma {:induction false} MemberMoves(active: seq<Instrument>, f: nat, x: Instrument, u: Universe, key: string)
    requires f < |active|
    ensures MemberAmong(active, u, key, -1) <==>
            MemberAmong(active, u, key, f) || (active[f].universe == u && Fold(active[f].symbol) == key)
    ensures MemberAmong(active[f := x], u, key, -1) <==>
            MemberAmong(active, u, key, f) || (x.universe == u && Fold(x.symbol) == key)
  {
    hide Fold;
    var after := active[f := x];
    assert after[f] == x && forall i :: 0 <= i < |active| && i != f ==> after[i] == active[i];
    if MemberAmong(active, u, key, f) {
      var i :| 0 <= i < |active| && i != f && active[i].universe == u && Fold(active[i].symbol) == key;
      assert after[i].universe == u && Fold(after[i].symbol) == key;
    }
  }

  // ----- quarantine -----

  lemma QuarantineStays(m: Manifest, r: Request, m': Manifest, u: Universe, key: string)
    requires Moves(m, r, m') && Stock(u) && Quarantined(m, u, key)
    ensures Quarantined(m', u, key)
  {
    hide Eligible, Fold, Valid, Trim, Strip, FindMember, NextVersion, QuarantineRecord;
    if u == r.universe {
      var records := PoolOf(m, u).records;
      var k :| 0 <= k < |records| && Fold(records[k].symbol) == key && !Eligible(records[k]);
      RankedStatus(records[k], k);
      assert PoolOf(m', u).records[k - 1] == records[k].(rank := k);
    } else {
      assert PoolOf(m', u) == PoolOf(m, u);
    }
  }

  lemma FailedIsQuarantined(m: Manifest, r: Request, m': Manifest)
    requires Moves(m, r, m')
    ensures Quarantined(m', r.universe, Fold(r.failedSymbol))
  {
    hide StatusOf, Fold, Valid, Trim, Strip, FindMember, NextVersion;
    var p, failed := PoolOf(m, r.universe), m.active[FindMember(m.active, r.universe, r.failedSymbol)];
    var n := |p.records| - 1;
    QuarantineStatus(r.failedSymbol, failed, |p.records|);
    var last := PoolOf(m', r.universe).records[n];
    assert last == QuarantineRecord(r.failedSymbol, failed, |p.records|).(rank := n + 1);
    RankedStatus(QuarantineRecord(r.failedSymbol, failed, |p.records|), n + 1);
  }

  lemma QuarantinedIsOut(m: Manifest, u: Universe, key: string)
    requires Valid(m) && Stock(u) && Quarantined(m, u, key)
    ensures !IsMember(m, u, key)
  {
    hide Eligible, Fold, Trim, Strip, InstrumentOk, Unrelated, ActiveOk, Blank;
    ValidPool(m, u);
    var p := PoolOf(m, u);
    ReserveSymbols(m.active, u, p);
    var k :| 0 <= k < |p.records| && Fold(p.records[k].symbol) == key;
    assert Fold(p.reserves[k]) == key;
  }

  // ----- chains -----

  ghost predicate Chain(ms: seq<Manifest>, rs: seq<Request>) {
    |ms| == |rs| + 1 && Valid(ms[0]) && forall i :: 0 <= i < |rs| ==> Apply(ms[i], rs[i]) == Ok(ms[i + 1])
  }

  lemma {:induction false} ChainValid(ms: seq<Manifest>, rs: seq<Request>, i: nat)
    requires Chain(ms, rs) && i <= |rs|
    ensures Valid(ms[i])
  {
    hide Valid, Apply;
    if i > 0 {
      ChainValid(ms, rs, i - 1);
      assert Apply(ms[i - 1], rs[i - 1]) == Ok(ms[i - 1 + 1]);
      AcceptedMoves(ms[i - 1], rs[i - 1]);
    }
  }

  lemma ChainMoves(ms: seq<Manifest>, rs: seq<Request>, i: nat)
    requires Chain(ms, rs) && i < |rs|
    ensures |ms| == |rs| + 1 && Moves(ms[i], rs[i], ms[i + 1])
  {
    hide Valid, Apply, Moves;
    ChainValid(ms, rs, i);
    assert Apply(ms[i], rs[i]) == Ok(ms[i + 1]);
    AcceptedMoves(ms[i], rs[i]);
  }

  function RequestsIn(rs: seq<Request>, n: nat, u: Universe): nat
    requires n <= |rs|
  {
    if n == 0 then 0 else RequestsIn(rs, n - 1, u) + if rs[n - 1].universe == u then 1 else 0
  }

  /** Each accepted request uses up one eligible reserve of its universe, so a chain is no longer than they last. */
  lemma {:induction false} ChainBudget(ms: seq<Manifest>, rs: seq<Request>, n: nat)
    requires Chain(ms, rs) && n <= |rs|
    ensures Left(ms[n], AShare) + RequestsIn(rs, n, AShare) == Left(ms[0], AShare)
    ensures Left(ms[n], UsStock) + RequestsIn(rs, n, UsStock) == Left(ms[0], UsStock)
    ensures n == RequestsIn(rs, n, AShare) + RequestsIn(rs, n, UsStock) <= Left(ms[0], AShare) + Left(ms[0], UsStock)
  {
    hide Left, Chain, Moves;
    if n > 0 {
      ChainBudget(ms, rs, n - 1);
      ChainMoves(ms, rs, n - 1);
      UsesOne(ms[n - 1], rs[n - 1], ms[n]);
      StockRequest(ms[n - 1], rs[n - 1], ms[n]);
    }
  }

  lemma StockRequest(m: Manifest, r: Request, m': Manifest)
    requires Moves(m, r, m')
    ensures r.universe == AShare || r.universe == UsStock
  {
  }

  /** Every manifest of a chain holds the same symbols, active and in reserve. */
  lemma {:induction false} ChainKeepsSymbols(ms: seq<Manifest>, rs: seq<Request>, n: nat, u: Universe, key: string)
    requires Chain(ms, rs) && n <= |rs| && Stock(u)
    ensures IsMember(ms[n], u, key) || IsReserve(ms[n], u, key) <==> IsMember(ms[0], u, key) || IsReserve(ms[0], u, key)
  {
    hide IsMember, IsReserve, Moves, Chain;
    if n > 0 {
      ChainKeepsSymbols(ms, rs, n - 1, u, key);
      ChainMoves(ms, rs, n - 1);
      KeepsSymbols(ms[n - 1], rs[n - 1], ms[n], u, key);
    }
  }

  /** A member that failed stays in quarantine and never returns. */
  lemma {:induction false} NeverReturns(ms: seq<Manifest>, rs: seq<Request>, i: nat, j: nat)
    requires Chain(ms, rs) && i < j <= |rs|
    ensures Quarantined(ms[j], rs[i].universe, Fold(rs[i].failedSymbol))
    ensures !IsMember(ms[j], rs[i].universe, Fold(rs[i].failedSymbol))
    decreases j
  {
    hide Quarantined, IsMember, Moves, Chain, Valid, Fold;
    ChainMoves(ms, rs, j - 1);
    ChainMoves(ms, rs, i);
    ChainValid(ms, rs, j);
    StockRequest(ms[i], rs[i], ms[i + 1]);
    if i + 1 == j {
      FailedIsQuarantined(ms[i], rs[i], ms[j]);
    } else {
      NeverReturns(ms, rs, i, j - 1);
      QuarantineStays(ms[j - 1], rs[j - 1], ms[j], rs[i].universe, Fold(rs[i].failedSymbol));
    }
    QuarantinedIsOut(ms[j], rs[i].universe, Fold(rs[i].failedSymbol));
  }

  /** The version counts the replacements, and the sizes never change. */
  lemma {:induction false} ChainCounts(ms: seq<Manifest>, rs: seq<Request>, n: nat)
    requires Chain(ms, rs) && n <= |rs|
    ensures Revision(ms[n].version) == Revision(ms[0].version) + n && StemOf(ms[n].version) == StemOf(ms[0].version)
    ensures |ms[n].active| == |ms[0].active|
    ensures |ms[n].aShare.reserves| == |ms[0].aShare.reserves| && |ms[n].usStock.reserves| == |ms[0].usStock.reserves|
  {
    hide Valid, Chain, Apply, NextVersion, FindMember, Fold, Strip, Trim, Eligible, Revision, StemOf;
    if n > 0 {
      ChainCounts(ms, rs, n - 1);
      ChainMoves(ms, rs, n - 1);
      ChainValid(ms, rs, n - 1);
      MovesVersion(ms[n - 1], rs[n - 1], ms[n]);
    }
  }

  lemma MovesVersion(m: Manifest, r: Request, m': Manifest)
    requires Moves(m, r, m')
    ensures Revision(m'.version) == Revision(m.version) + 1 && StemOf(m'.version) == StemOf(m.version)
  {
    hide Revision, StemOf, NextVersion, FindMember, Fold, ActiveOk, PoolOk, ValidVersion;
    NextVersionCounts(m.version);
  }
}
