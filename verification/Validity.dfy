/** What a valid manifest is, rule by rule, told from its fields. */
module Validity {
  import opened Timestamps
  import opened Manifest
  import opened Refusals

  predicate Digits(s: string) {
    |s| > 0 && forall i :: 0 <= i < |s| ==> '0' <= s[i] <= '9'
  }

  /** The first version, or one that counts on from it after a dot. */
  predicate SoundVersion(v: string) {
    v == "mvp_universe_v1" || CountsOn("mvp_universe_v1", v)
  }

  predicate CountsOn(base: string, v: string) {
    |v| > |base| && v[..|base|] == base && v[|base|] == '.' && exists dot :: |base| <= dot < |v| && v[dot] == '.' && Digits(v[dot + 1..])
  }

  /** Neither end of the text is white space. */
  predicate Tight(s: string) {
    Strip(s) == s
  }

  predicate TightFields(x: Instrument) {
    Tight(x.id) && Tight(x.symbol) && Tight(x.name) && Tight(x.provider) && Tight(x.source) && Tight(x.assetClass)
  }

  /** The instrument answers to this name: its symbol, its provider's or an alias, but for case and surrounding space. */
  predicate AnswersTo(x: Instrument, name: string) {
    name == Fold(x.symbol) || name == Fold(x.provider) || exists k :: 0 <= k < |x.aliases| && name == Fold(x.aliases[k])
  }

  ghost predicate ShareAName(x: Instrument, y: Instrument) {
    exists name :: AnswersTo(x, name) && AnswersTo(y, name)
  }

  function Members(active: seq<Instrument>, u: Universe): set<int> {
    set i | 0 <= i < |active| && active[i].universe == u
  }

  ghost predicate SoundActive(active: seq<Instrument>) {
    && |Members(active, AShare)| == 100 && |Members(active, UsStock)| == 100 && |Members(active, CrossMarket)| == 16
    && (forall x :: x in active ==> Usable(x) && TightFields(x))
    && (forall i, j :: 0 <= i < j < |active| ==> active[i].id != active[j].id)
    && (forall i, j :: 0 <= i < j < |active| ==> !OneFeed(active[i], active[j]))
    && (forall i, j :: 0 <= i < j < |active| && active[i].universe == active[j].universe ==> !ShareAName(active[i], active[j]))
  }

  predicate OneFeed(x: Instrument, y: Instrument) {
    Fold(x.source) == Fold(y.source) && Fold(x.provider) == Fold(y.provider) && Fold(x.assetClass) == Fold(y.assetClass)
  }

  predicate SoundReserves(active: seq<Instrument>, u: Universe, reserves: seq<string>) {
    && |reserves| >= 20 && (forall s :: s in reserves ==> Present(s) && Tight(s))
    && (forall k, l :: 0 <= k < l < |reserves| ==> Fold(reserves[k]) != Fold(reserves[l]))
    && (forall s, x :: s in reserves && x in active && x.universe == u ==> Fold(s) != Fold(x.symbol))
  }

  predicate Present(s: string) {
    !Blank(s)
  }

  /** The k-th record describes the k-th reserve, is ranked so, repeats its identity, and is open only when it was screened. */
  predicate SoundRecord(u: Universe, r: Record, rank: int, reserve: string) {
    && Present(r.symbol) && Present(r.name) && Present(r.provider) && Present(r.source) && r.rank == rank && Fold(r.symbol) == Fold(reserve)
    && r.identity.symbol == r.symbol && r.identity.name == r.name && r.identity.provider == r.provider && r.identity.source == r.source
    && r.identity.universe == u && r.identity.assetClass == (if u == AShare then "a_share" else if u == UsStock then "us_stock" else "cross_market")
    && Usable(Trim(r.identity))
    && (Open(r) || (Closed(r) && !r.preScreened && r.reason.Some? && Present(r.reason.value))) && (Open(r) ==> r.preScreened)
  }

  /** The record is closed: it says it is quarantined, or says nothing and was not screened. */
  predicate Closed(r: Record) {
    match r.status
    case Some(status) => Fold(status) == "quarantined"
    case None => !r.preScreened
  }

  ghost predicate SoundRecords(active: seq<Instrument>, u: Universe, p: Pool) {
    && |p.records| == |p.reserves|
    && (forall k :: 0 <= k < |p.records| ==> SoundRecord(u, p.records[k], k + 1, p.reserves[k]))
    && (forall k, l :: 0 <= k < l < |p.records| ==> Fold(p.records[k].identity.id) != Fold(p.records[l].identity.id))
    && (forall k, l :: 0 <= k < l < |p.records| ==> !ShareAName(p.records[k].identity, p.records[l].identity))
    && (forall r, x :: r in p.records && x in active && x.universe == u ==> !ShareAName(r.identity, x))
    && (forall k, l :: 0 <= k < l < |p.records| && Open(p.records[l]) ==> Open(p.records[k]))
  }

  /** All rules of a manifest. */
  ghost predicate Sound(m: Manifest) {
    && SoundVersion(m.version) && SoundActive(m.active)
    && SoundReserves(m.active, AShare, m.aShare.reserves) && SoundRecords(m.active, AShare, m.aShare)
    && SoundReserves(m.active, UsStock, m.usStock.reserves) && SoundRecords(m.active, UsStock, m.usStock)
  }

  // ----- rule by rule -----

  lemma {:induction false} AllDigitsIff(s: string)
    ensures AllDigits(s) <==> forall i :: 0 <= i < |s| ==> '0' <= s[i] <= '9'
  {
  }

  lemma DotIs(v: string, dot: nat)
    requires dot < |v| && v[dot] == '.' && Digits(v[dot + 1..])
    ensures LastDot(v) == dot
  {
    forall k | dot < k < |v|
      ensures v[k] != '.'
    {
      assert v[dot + 1..][k - dot - 1] == v[k];
    }
  }

  lemma NumberIff(s: string)
    ensures IsNumber(s) <==> Digits(s)
  {
    AllDigitsIff(s);
  }

  lemma Starts(base: string, v: string)
    ensures base + "." <= v <==> |v| > |base| && v[..|base|] == base && v[|base|] == '.'
  {
    if |v| > |base| {
      assert v[..|base| + 1] == v[..|base|] + [v[|base|]];
    }
  }

  lemma CountsOnIff(base: string, v: string)
    ensures VersionOn(base, v) <==> v == base || CountsOn(base, v)
  {
    hide Digits, IsNumber, LastDot;
    Starts(base, v);
    var i := LastDot(v);
    NumberIff(v[i + 1..]);
    if CountsOn(base, v) {
      var dot :| |base| <= dot < |v| && v[dot] == '.' && Digits(v[dot + 1..]);
      DotIs(v, dot);
    }
  }

  lemma VersionIff(v: string)
    ensures ValidVersion(v) <==> SoundVersion(v)
  {
    hide VersionOn, CountsOn;
    CountsOnIff(BASE, v);
  }

  lemma OneMoreMember(active: seq<Instrument>, u: Universe)
    requires active != []
    ensures var n := |active| - 1;
            n !in Members(active[..n], u) && Members(active, u) == Members(active[..n], u) + if active[n].universe == u then {n} else {}
  {
    var n := |active| - 1;
    forall i
      ensures i in Members(active, u) <==> i in Members(active[..n], u) || (i == n && active[n].universe == u)
    {
    }
  }

  lemma {:induction false} CountIs(active: seq<Instrument>, u: Universe)
    ensures CountOf(active, u) == |Members(active, u)|
  {
    if active != [] {
      hide Members;
      CountIs(active[..|active| - 1], u);
      OneMoreMember(active, u);
    }
  }

  lemma NamesSay(x: Instrument, name: string)
    ensures name in Names(x) <==> AnswersTo(x, name)
  {
    hide Fold;
    if name in Names(x) && name != Fold(x.symbol) && name != Fold(x.provider) {
      assert name in FoldAll(x.aliases);
      var k :| 0 <= k < |x.aliases| && FoldAll(x.aliases)[k] == name;
    }
    if k :| 0 <= k < |x.aliases| && name == Fold(x.aliases[k]) {
      assert FoldAll(x.aliases)[k] == name;
    }
  }

  lemma UnrelatedIff(x: Instrument, y: Instrument)
    ensures Unrelated(x, y) <==> !ShareAName(x, y)
  {
    hide Names, AnswersTo;
    forall name
      ensures name in Names(x) <==> AnswersTo(x, name)
      ensures name in Names(y) <==> AnswersTo(y, name)
    {
      NamesSay(x, name);
      NamesSay(y, name);
    }
    if !ShareAName(x, y) {
      assert forall name :: name in Names(x) ==> name !in Names(y);
    }
  }

  lemma TrimmedIff(x: Instrument)
    ensures Trimmed(x) <==> TightFields(x)
  {
    hide Strip;
  }

  lemma ActiveIff(active: seq<Instrument>)
    ensures ActiveOk(active) <==> SoundActive(active)
  {
    hide Usable, InstrumentOk, Trimmed, TightFields, Fold, Unrelated, ShareAName, CountOf, Members;
    CountIs(active, AShare);
    CountIs(active, UsStock);
    CountIs(active, CrossMarket);
    forall x
      ensures InstrumentOk(x) <==> Usable(x)
      ensures Trimmed(x) <==> TightFields(x)
    {
      UsableIff(x);
      TrimmedIff(x);
    }
    forall x, y
      ensures Unrelated(x, y) <==> !ShareAName(x, y)
    {
      UnrelatedIff(x, y);
    }
    CountsIff(active);
    assert forall i :: 0 <= i < |active| ==> active[i] in active;
    forall x: Instrument, y: Instrument
      ensures ProviderKey(x) == ProviderKey(y) <==> OneFeed(x, y)
    {
    }
  }

  lemma CountsIff(active: seq<Instrument>)
    ensures (forall u :: CountOf(active, u) == ExpectedCount(u)) <==>
            CountOf(active, AShare) == 100 && CountOf(active, UsStock) == 100 && CountOf(active, CrossMarket) == 16
  {
    hide CountOf;
    if CountOf(active, AShare) == 100 && CountOf(active, UsStock) == 100 && CountOf(active, CrossMarket) == 16 {
      forall u
        ensures CountOf(active, u) == ExpectedCount(u)
      {
        match u {
          case AShare =>
          case UsStock =>
          case CrossMarket =>
        }
      }
    }
  }

  lemma ReservesIff(active: seq<Instrument>, u: Universe, reserves: seq<string>)
    ensures ReservesOk(active, u, reserves) <==> SoundReserves(active, u, reserves)
  {
    hide Fold, Blank, Strip;
    assert forall k :: 0 <= k < |reserves| ==> reserves[k] in reserves;
    assert forall i :: 0 <= i < |active| ==> active[i] in active;
  }

  lemma StatusIff(r: Record)
    ensures StatusOf(r) == "eligible" <==> Open(r)
    ensures StatusOf(r) == "quarantined" <==> Closed(r)
  {
    hide Fold;
  }

  lemma RecordIff(u: Universe, r: Record, rank: int, reserve: string)
    ensures RecordOk(u, r, rank, reserve) <==> SoundRecord(u, r, rank, reserve)
  {
    hide Fold, Blank, Trim, InstrumentOk, Usable, StatusOf, Open, Closed;
    StatusIff(r);
    UsableIff(Trim(r.identity));
  }

  /** Open records come first when none follows a closed one. */
  lemma {:induction false} OpenFirst(records: seq<Record>, k: nat, l: nat)
    requires k < l < |records| && Open(records[l])
    requires forall i :: 0 < i < |records| && Open(records[i]) ==> Open(records[i - 1])
    ensures Open(records[k])
    decreases l
  {
    hide Open;
    if k + 1 < l {
      assert Open(records[l - 1]);
      OpenFirst(records, k, l - 1);
    }
  }

  lemma OrderIff(records: seq<Record>)
    ensures (forall k :: 0 < k < |records| ==> !(Eligible(records[k]) && !Eligible(records[k - 1]))) <==>
            forall k, l :: 0 <= k < l < |records| && Open(records[l]) ==> Open(records[k])
  {
    hide Open, StatusOf;
    forall r
      ensures Eligible(r) <==> Open(r)
    {
      StatusIff(r);
    }
    hide Eligible;
    if forall k :: 0 < k < |records| ==> !(Eligible(records[k]) && !Eligible(records[k - 1])) {
      forall k, l | 0 <= k < l < |records| && Open(records[l])
        ensures Open(records[k])
      {
        OpenFirst(records, k, l);
      }
    }
  }

  lemma ApartIff(records: seq<Record>)
    ensures (forall k, l :: 0 <= k < l < |records| ==>
               Fold(records[k].identity.id) != Fold(records[l].identity.id) && Unrelated(records[k].identity, records[l].identity)) <==>
            (forall k, l :: 0 <= k < l < |records| ==> Fold(records[k].identity.id) != Fold(records[l].identity.id)) &&
            (forall k, l :: 0 <= k < l < |records| ==> !ShareAName(records[k].identity, records[l].identity))
  {
    hide Unrelated, ShareAName, Fold;
    forall k, l | 0 <= k < l < |records|
      ensures Unrelated(records[k].identity, records[l].identity) <==> !ShareAName(records[k].identity, records[l].identity)
    {
      UnrelatedIff(records[k].identity, records[l].identity);
    }
  }

  lemma ApartFromIff(records: seq<Record>, active: seq<Instrument>, u: Universe)
    ensures (forall k, i :: 0 <= k < |records| && 0 <= i < |active| && active[i].universe == u ==> Unrelated(records[k].identity, active[i])) <==>
            (forall r, x :: r in records && x in active && x.universe == u ==> !ShareAName(r.identity, x))
  {
    hide Unrelated, ShareAName;
    forall k, i | 0 <= k < |records| && 0 <= i < |active|
      ensures Unrelated(records[k].identity, active[i]) <==> !ShareAName(records[k].identity, active[i])
    {
      UnrelatedIff(records[k].identity, active[i]);
    }
    assert forall k :: 0 <= k < |records| ==> records[k] in records;
    assert forall i :: 0 <= i < |active| ==> active[i] in active;
  }

  lemma EachRecordIff(u: Universe, p: Pool)
    requires |p.records| == |p.reserves|
    ensures (forall k :: 0 <= k < |p.records| ==> RecordOk(u, p.records[k], k + 1, p.reserves[k])) <==>
            (forall k :: 0 <= k < |p.records| ==> SoundRecord(u, p.records[k], k + 1, p.reserves[k]))
  {
    hide RecordOk, SoundRecord;
    forall k | 0 <= k < |p.records|
      ensures RecordOk(u, p.records[k], k + 1, p.reserves[k]) <==> SoundRecord(u, p.records[k], k + 1, p.reserves[k])
    {
      RecordIff(u, p.records[k], k + 1, p.reserves[k]);
    }
  }

  lemma RecordsIff(active: seq<Instrument>, u: Universe, p: Pool)
    ensures RecordsOk(active, u, p) <==> SoundRecords(active, u, p)
  {
    hide RecordOk, SoundRecord, Unrelated, ShareAName, Fold, Open, Eligible;
    if |p.records| == |p.reserves| {
      EachRecordIff(u, p);
      ApartIff(p.records);
      ApartFromIff(p.records, active, u);
      OrderIff(p.records);
    }
  }

  /** A manifest is valid exactly when it keeps every one of these rules. */
  lemma ValidIff(m: Manifest)
    ensures Valid(m) <==> Sound(m)
  {
    hide ValidVersion, SoundVersion, ActiveOk, SoundActive, ReservesOk, SoundReserves, RecordsOk, SoundRecords;
    VersionIff(m.version);
    ActiveIff(m.active);
    ReservesIff(m.active, AShare, m.aShare.reserves);
    ReservesIff(m.active, UsStock, m.usStock.reserves);
    RecordsIff(m.active, AShare, m.aShare);
    RecordsIff(m.active, UsStock, m.usStock);
  }
}
