/**
 Replacing a failed member of the universe (src/kline/mvp_manifest.py).  The rules on one instrument
 taken alone are one flag, `sound`; text is compared stripped and in lower case.
 */
module Manifest {
  import opened Results
  import opened Timestamps
  import opened RunWrites

  datatype Universe = AShare | UsStock | CrossMarket

  function NameOf(u: Universe): string {
    match u
    case AShare => "a_share"
    case UsStock => "us_stock"
    case CrossMarket => "cross_market"
  }

  predicate Stock(u: Universe) {
    u != CrossMarket
  }

  /** EXPECTED_COUNTS */
  function ExpectedCount(u: Universe): nat {
    if u == CrossMarket then 16 else 100
  }

  /** `details` stands for the remaining identity fields. */
  datatype Instrument = Instrument(
    universe: Universe, id: string, symbol: string, name: string, provider: string, source: string,
    assetClass: string, aliases: seq<string>, details: string, sound: bool)

  datatype Record = Record(
    symbol: string, name: string, provider: string, source: string, rank: int, preScreened: bool,
    status: Option<string>, reason: Option<string>, identity: Instrument)

  datatype Pool = Pool(reserves: seq<string>, records: seq<Record>)

  datatype Manifest = Manifest(version: string, active: seq<Instrument>, aShare: Pool, usStock: Pool)

  function PoolOf(m: Manifest, u: Universe): Pool {
    if u == AShare then m.aShare else m.usStock
  }

  /** `_canonical_identity` */
  function Fold(s: string): string {
    Lower(Strip(s))
  }

  // ----- versions -----

  const BASE: string := "mvp_universe_v1"

  /** Position of the last dot, -1 when there is none. */
  function LastDot(s: string): (i: int)
    ensures -1 <= i < |s|
    ensures i >= 0 ==> s[i] == '.'
    ensures forall k :: i < k < |s| ==> s[k] != '.'
  {
    if s == "" then -1 else if s[|s| - 1] == '.' then |s| - 1 else LastDot(s[..|s| - 1])
  }

  predicate IsNumber(s: string) {
    s != "" && AllDigits(s)
  }

  /** The base itself, or the base with a dotted tail that ends in a number. */
  predicate VersionOn(base: string, v: string) {
    v == base || (base + "." <= v && IsNumber(v[LastDot(v) + 1..]))
  }

  predicate ValidVersion(v: string) {
    VersionOn(BASE, v)
  }

  function Decimal(n: nat): (s: string)
    ensures IsNumber(s)
  {
    if n < 10 then [Digit(n)] else Decimal(n / 10) + [Digit(n % 10)]
  }

  /** `_next_manifest_version` */
  function NextVersion(v: string): string {
    var i := LastDot(v);
    if i >= 0 && IsNumber(v[i + 1..]) then v[..i] + "." + Decimal(NumberOf(v[i + 1..]) + 1) else v + ".1"
  }

  /** How many replacements a version counts. */
  function Revision(v: string): nat {
    var i := LastDot(v);
    if i >= 0 && IsNumber(v[i + 1..]) then NumberOf(v[i + 1..]) else 0
  }

  function StemOf(v: string): string {
    var i := LastDot(v);
    if i >= 0 && IsNumber(v[i + 1..]) then v[..i] else v
  }

  lemma {:induction false} DecimalNumber(n: nat)
    ensures NumberOf(Decimal(n)) == n
  {
    if n >= 10 {
      DecimalNumber(n / 10);
      var s := Decimal(n);
      assert s[..|s| - 1] == Decimal(n / 10);
    }
  }

  lemma {:induction false} DotAt(s: string, t: string)
    requires '.' !in t
    ensures LastDot(s + "." + t) == |s|
  {
    var v := s + "." + t;
    assert v[|s|] == '.';
    assert forall k :: |s| < k < |v| ==> v[k] == t[k - |s| - 1];
  }

  lemma BaseHasNoDot()
    ensures '.' !in BASE && LastDot(BASE) == -1
  {
    assert '.' !in BASE;
  }

  /** Counting on behind a stem. */
  lemma {:induction false} Counted(stem: string, n: nat)
    ensures var v := stem + "." + Decimal(n);
            LastDot(v) == |stem| && v[|stem| + 1..] == Decimal(n) && Revision(v) == n && StemOf(v) == stem
  {
    var digits := Decimal(n);
    assert '.' !in digits;
    DotAt(stem, digits);
    DecimalNumber(n);
    var v := stem + "." + digits;
    assert v[|stem| + 1..] == digits && v[..|stem|] == stem;
  }

  lemma PrefixKept(a: string, v: string, i: nat)
    requires a + "." <= v && '.' !in a && i < |v| && v[i] == '.' && (forall k :: i < k < |v| ==> v[k] != '.')
    ensures a + "." <= v[..i] + "."
  {
    assert v[|a|] == '.';
    assert v[..i] + "." == v[..i + 1];
  }

  lemma {:induction false} FirstRevision(base: string)
    requires '.' !in base && LastDot(base) == -1
    ensures NextVersion(base) == base + "." + Decimal(1) && VersionOn(base, NextVersion(base)) && Revision(base) == 0 && StemOf(base) == base
  {
    hide LastDot, NumberOf, Decimal;
    OneText();
    Counted(base, 1);
    assert base + "." <= base + "." + Decimal(1);
  }

  lemma {:induction false} LaterRevision(base: string, v: string)
    requires '.' !in base && base + "." <= v && IsNumber(v[LastDot(v) + 1..])
    ensures NextVersion(v) == StemOf(v) + "." + Decimal(Revision(v) + 1) && VersionOn(base, NextVersion(v))
  {
    hide NumberOf, Decimal, LastDot;
    assert v[|base|] == '.';
    var i := LastDot(v);
    PrefixKept(base, v, i);
    Counted(v[..i], Revision(v) + 1);
    assert v[..i] + "." <= v[..i] + "." + Decimal(Revision(v) + 1);
  }

  lemma {:induction false} RevisionOn(base: string, v: string)
    requires '.' !in base && LastDot(base) == -1 && VersionOn(base, v)
    ensures VersionOn(base, NextVersion(v)) && Revision(NextVersion(v)) == Revision(v) + 1 && StemOf(NextVersion(v)) == StemOf(v)
  {
    hide NumberOf, Decimal, LastDot, NextVersion, Revision, StemOf;
    Counted(StemOf(v), Revision(v) + 1);
    if v == base {
      FirstRevision(base);
    } else {
      LaterRevision(base, v);
    }
  }

  /** The next version is valid again, counts one more and keeps the stem. */
  lemma {:induction false} NextVersionCounts(v: string)
    requires ValidVersion(v)
    ensures ValidVersion(NextVersion(v)) && Revision(NextVersion(v)) == Revision(v) + 1 && StemOf(NextVersion(v)) == StemOf(v)
  {
    hide LastDot, NextVersion, Revision, StemOf, VersionOn;
    BaseHasNoDot();
    RevisionOn(BASE, v);
  }

  lemma OneText()
    ensures Decimal(1) == "1" && forall v: string :: v + ".1" == v + "." + "1"
  {
    assert forall v: string :: v + ".1" == v + ("." + "1");
  }

  // ----- what a valid manifest is -----

  function FoldAll(xs: seq<string>): (r: seq<string>)
    ensures |r| == |xs| && forall i :: 0 <= i < |xs| ==> r[i] == Fold(xs[i])
  {
    seq(|xs|, i requires 0 <= i < |xs| => Fold(xs[i]))
  }

  /** Every name an instrument answers to. */
  function Names(i: Instrument): set<string> {
    {Fold(i.symbol), Fold(i.provider)} + set a | a in FoldAll(i.aliases)
  }

  predicate Unrelated(i: Instrument, j: Instrument) {
    Names(i) !! Names(j)
  }

  function ProviderKey(i: Instrument): (string, string, string) {
    (Fold(i.source), Fold(i.provider), Fold(i.assetClass))
  }

  predicate NoBlank(i: Instrument) {
    && !Blank(i.id) && !Blank(i.symbol) && !Blank(i.name) && !Blank(i.assetClass) && !Blank(i.source) && !Blank(i.provider)
  }

  /** `_validate_instrument`, its asset-class rule written out. */
  predicate InstrumentOk(i: Instrument) {
    && i.sound && NoBlank(i)
    && (if i.universe == CrossMarket then i.assetClass in {"index", "etf", "crypto", "commodity"} else i.assetClass == NameOf(i.universe))
  }

  function Trim(i: Instrument): Instrument {
    i.(id := Strip(i.id), symbol := Strip(i.symbol), name := Strip(i.name), provider := Strip(i.provider), source := Strip(i.source),
       assetClass := Strip(i.assetClass))
  }

  predicate Trimmed(i: Instrument) {
    Trim(i) == i
  }

  function CountOf(active: seq<Instrument>, u: Universe): nat {
    if active == [] then 0
    else CountOf(active[..|active| - 1], u) + if active[|active| - 1].universe == u then 1 else 0
  }

  predicate ActiveOk(active: seq<Instrument>) {
    && (forall u :: CountOf(active, u) == ExpectedCount(u))
    && (forall i :: 0 <= i < |active| ==> InstrumentOk(active[i]) && Trimmed(active[i]))
    && (forall i, j :: 0 <= i < j < |active| ==> active[i].id != active[j].id && ProviderKey(active[i]) != ProviderKey(active[j]))
    && (forall i, j :: 0 <= i < j < |active| && active[i].universe == active[j].universe ==> Unrelated(active[i], active[j]))
  }

  /** `_reserve_status` */
  function StatusOf(r: Record): string {
    if r.status.None? then (if r.preScreened then "eligible" else "quarantined") else Fold(r.status.value)
  }

  predicate Eligible(r: Record) {
    StatusOf(r) == "eligible"
  }

  predicate RecordOk(u: Universe, r: Record, rank: int, reserve: string) {
    && !Blank(r.symbol) && !Blank(r.name) && !Blank(r.provider) && !Blank(r.source)
    && r.identity.symbol == r.symbol && r.identity.name == r.name && r.identity.provider == r.provider && r.identity.source == r.source
    && r.identity.universe == u && r.identity.assetClass == NameOf(u) && InstrumentOk(Trim(r.identity))
    && r.rank == rank
    && StatusOf(r) in {"eligible", "quarantined"}
    && (Eligible(r) ==> r.preScreened)
    && (!Eligible(r) ==> !r.preScreened && r.reason.Some? && !Blank(r.reason.value))
    && Fold(r.symbol) == Fold(reserve)
  }

  predicate ReservesOk(active: seq<Instrument>, u: Universe, reserves: seq<string>) {
    && |reserves| >= 20
    && (forall k :: 0 <= k < |reserves| ==> !Blank(reserves[k]) && Strip(reserves[k]) == reserves[k])
    && (forall k, l :: 0 <= k < l < |reserves| ==> Fold(reserves[k]) != Fold(reserves[l]))
    && (forall k, i :: 0 <= k < |reserves| && 0 <= i < |active| && active[i].universe == u ==> Fold(reserves[k]) != Fold(active[i].symbol))
  }

  predicate RecordsOk(active: seq<Instrument>, u: Universe, p: Pool) {
    && |p.records| == |p.reserves|
    && (forall k :: 0 <= k < |p.records| ==> RecordOk(u, p.records[k], k + 1, p.reserves[k]))
    && (forall k, l :: 0 <= k < l < |p.records| ==>
          Fold(p.records[k].identity.id) != Fold(p.records[l].identity.id) && Unrelated(p.records[k].identity, p.records[l].identity))
    && (forall k, i :: 0 <= k < |p.records| && 0 <= i < |active| && active[i].universe == u ==> Unrelated(p.records[k].identity, active[i]))
    && (forall k :: 0 < k < |p.records| ==> !(Eligible(p.records[k]) && !Eligible(p.records[k - 1])))
  }

  predicate PoolOk(active: seq<Instrument>, u: Universe, p: Pool) {
    ReservesOk(active, u, p.reserves) && RecordsOk(active, u, p)
  }

  predicate Valid(m: Manifest) {
    ValidVersion(m.version) && ActiveOk(m.active) && PoolOk(m.active, AShare, m.aShare) && PoolOk(m.active, UsStock, m.usStock)
  }

  function TrimAll(active: seq<Instrument>): (r: seq<Instrument>)
    ensures |r| == |active| && forall i :: 0 <= i < |active| ==> r[i] == Trim(active[i])
  {
    seq(|active|, i requires 0 <= i < |active| => Trim(active[i]))
  }

  function StripAll(xs: seq<string>): (r: seq<string>)
    ensures |r| == |xs| && forall i :: 0 <= i < |xs| ==> r[i] == Strip(xs[i])
  {
    seq(|xs|, i requires 0 <= i < |xs| => Strip(xs[i]))
  }

  /** What `validate_manifest` detaches: texts stripped, reserve records as they are. */
  function Detach(m: Manifest): Manifest {
    Manifest(m.version, TrimAll(m.active), Pool(StripAll(m.aShare.reserves), m.aShare.records),
             Pool(StripAll(m.usStock.reserves), m.usStock.records))
  }

  datatype ManifestError =
    | Invalid | NotStock | NoSymbol | BadReplacement | OtherUniverse | NotActive | BadEvidence | EvidenceElsewhere
    | NotRejected | NotSelected | NoEligible | NotNext | IdentityDiffers | AlreadyActive

  /** `validate_manifest` */
  function Validate(m: Manifest): Result<Manifest, ManifestError> {
    if Valid(Detach(m)) then Ok(Detach(m)) else Err(Invalid)
  }

  // ----- evidence -----

  /** A selection receipt; `bound` when its version, digest, dates and texts match the manifest. */
  datatype Evidence = Evidence(bound: bool, universe: Universe, selected: seq<string>, rejected: seq<string>)

  predicate KnownTo(m: Manifest, u: Universe, key: string) {
    || (exists i :: 0 <= i < |m.active| && m.active[i].universe == u && Fold(m.active[i].symbol) == key)
    || key in FoldAll(PoolOf(m, u).reserves)
  }

  predicate DistinctKeys(xs: seq<string>) {
    forall i, j :: 0 <= i < j < |xs| ==> xs[i] != xs[j]
  }

  predicate EvidenceOk(m: Manifest, e: Evidence) {
    && e.bound && Stock(e.universe) && e.selected != []
    && (forall k :: 0 <= k < |e.selected + e.rejected| ==> !Blank((e.selected + e.rejected)[k]))
    && DistinctKeys(FoldAll(e.selected) + FoldAll(e.rejected))
    && (forall k :: k in FoldAll(e.selected) + FoldAll(e.rejected) ==> KnownTo(m, e.universe, k))
  }

  // ----- replacing -----

  /** Position of the first active member of the universe with this symbol, -1 when there is none. */
  function FindMember(active: seq<Instrument>, u: Universe, symbol: string): (i: int)
    ensures -1 <= i < |active|
    ensures i >= 0 ==> active[i].universe == u && Fold(active[i].symbol) == Fold(symbol)
    ensures forall k :: 0 <= k < (if i < 0 then |active| else i) ==> !(active[k].universe == u && Fold(active[k].symbol) == Fold(symbol))
    decreases |active|
  {
    if active == [] then -1
    else
      var n := |active| - 1;
      var i := FindMember(active[..n], u, symbol);
      assert forall k :: 0 <= k < n ==> active[..n][k] == active[k];
      if i >= 0 then i else if active[n].universe == u && Fold(active[n].symbol) == Fold(symbol) then n else -1
  }

  function FirstTrue(flags: seq<bool>): (i: int)
    ensures -1 <= i < |flags|
    ensures i >= 0 ==> flags[i]
    ensures forall k :: 0 <= k < (if i < 0 then |flags| else i) ==> !flags[k]
    decreases |flags|
  {
    if flags == [] then -1
    else
      var n := |flags| - 1;
      var i := FirstTrue(flags[..n]);
      assert forall k :: 0 <= k < n ==> flags[..n][k] == flags[k];
      if i >= 0 then i else if flags[n] then n else -1
  }

  function Flags(records: seq<Record>): (r: seq<bool>)
    ensures |r| == |records| && forall k :: 0 <= k < |records| ==> r[k] == Eligible(records[k])
  {
    hide Eligible;
    seq(|records|, k requires 0 <= k < |records| => Eligible(records[k]))
  }

  /** Position of the first eligible record, -1 when there is none. */
  function FirstEligible(records: seq<Record>): (i: int)
    ensures -1 <= i < |records|
    ensures i >= 0 ==> Eligible(records[i])
    ensures forall k :: 0 <= k < (if i < 0 then |records| else i) ==> !Eligible(records[k])
  {
    hide Eligible, FirstTrue;
    FirstTrue(Flags(records))
  }

  predicate IdentityMatches(e: Instrument, a: Instrument) {
    && e.universe == a.universe && Fold(e.id) == Fold(a.id) && Fold(e.symbol) == Fold(a.symbol) && Fold(e.name) == Fold(a.name)
    && Fold(e.provider) == Fold(a.provider) && Fold(e.source) == Fold(a.source) && Fold(e.assetClass) == Fold(a.assetClass)
    && FoldAll(e.aliases) == FoldAll(a.aliases) && Fold(e.details) == Fold(a.details)
  }

  predicate RecordMatches(r: Record, a: Instrument) {
    && Fold(r.name) == Fold(a.name) && Fold(r.provider) == Fold(a.provider) && Fold(r.source) == Fold(a.source)
    && IdentityMatches(r.identity, a)
  }

  function WithoutSymbol(reserves: seq<string>, key: string): seq<string> {
    if reserves == [] then []
    else WithoutSymbol(reserves[..|reserves| - 1], key) +
         if Fold(reserves[|reserves| - 1]) != key then [reserves[|reserves| - 1]] else []
  }

  function WithoutRecord(records: seq<Record>, key: string): seq<Record> {
    if records == [] then []
    else WithoutRecord(records[..|records| - 1], key) +
         if Fold(records[|records| - 1].symbol) != key then [records[|records| - 1]] else []
  }

  function Ranked(records: seq<Record>): (r: seq<Record>)
    ensures |r| == |records| && forall k :: 0 <= k < |records| ==> r[k] == records[k].(rank := k + 1)
  {
    seq(|records|, k requires 0 <= k < |records| => records[k].(rank := k + 1))
  }

  /** The record a replaced member leaves behind. */
  function QuarantineRecord(failedSymbol: string, failed: Instrument, rank: int): Record {
    Record(failedSymbol, failed.name, failed.provider, failed.source, rank, false, Some("quarantined"), Some("failed_candidate"), failed)
  }

  function ReplacedPool(p: Pool, failedSymbol: string, failed: Instrument, replacement: Instrument): Pool {
    var key := Fold(replacement.symbol);
    var left := WithoutRecord(p.records, key);
    Pool(WithoutSymbol(p.reserves, key) + [failedSymbol], Ranked(left + [QuarantineRecord(failedSymbol, failed, |left| + 1)]))
  }

  function WithPool(m: Manifest, u: Universe, p: Pool): Manifest {
    if u == AShare then m.(aShare := p) else m.(usStock := p)
  }

  /** The payload after the edit, before it is validated again. */
  function Edited(m: Manifest, u: Universe, failedSymbol: string, i: nat, replacement: Instrument): Manifest
    requires i < |m.active|
  {
    WithPool(m.(active := m.active[i := replacement], version := NextVersion(m.version)), u,
             ReplacedPool(PoolOf(m, u), failedSymbol, m.active[i], replacement))
  }

  /** The first check a replacement of a valid manifest fails before the edit. */
  function Refusal(m: Manifest, u: Universe, failedSymbol: string, replacement: Instrument, e: Evidence): (r: Option<ManifestError>)
    ensures r.None? ==> FindMember(m.active, u, failedSymbol) >= 0
  {
    hide Fold, Blank, InstrumentOk, EvidenceOk, RecordMatches, FoldAll, FindMember, FirstEligible;
    if !Stock(u) then Some(NotStock)
    else if Blank(failedSymbol) then Some(NoSymbol)
    else if !InstrumentOk(replacement) then Some(BadReplacement)
    else if replacement.universe != u then Some(OtherUniverse)
    else if FindMember(m.active, u, failedSymbol) < 0 then Some(NotActive)
    else if !EvidenceOk(m, e) then Some(BadEvidence)
    else if e.universe != u then Some(EvidenceElsewhere)
    else if Fold(failedSymbol) !in FoldAll(e.rejected) then Some(NotRejected)
    else if Fold(replacement.symbol) !in FoldAll(e.selected) then Some(NotSelected)
    else
      var records := PoolOf(m, u).records;
      if FirstEligible(records) < 0 then Some(NoEligible)
      else
        var expected := records[FirstEligible(records)];
        if Fold(replacement.symbol) != Fold(expected.symbol) then Some(NotNext)
        else if !RecordMatches(expected, replacement) then Some(IdentityDiffers)
        else if exists i :: 0 <= i < |m.active| && Fold(m.active[i].symbol) == Fold(replacement.symbol) then Some(AlreadyActive)
        else None
  }

  /** `replace_candidate` */
  function Replace(manifest: Manifest, u: Universe, failedSymbol: string, replacement: Instrument, e: Evidence): Result<Manifest, ManifestError> {
    hide Refusal, Valid, Detach, FindMember;
    var m := Detach(manifest);
    if !Valid(m) then Err(Invalid)
    else if Refusal(m, u, failedSymbol, replacement, e).Some? then Err(Refusal(m, u, failedSymbol, replacement, e).value)
    else Validate(Edited(m, u, failedSymbol, FindMember(m.active, u, failedSymbol), replacement))
  }

  // ----- text -----

  lemma StripTwice(s: string)
    ensures Strip(Strip(s)) == Strip(s)
  {
    var l := StripLeft(s);
    var r := StripRight(l);
    RightEnd(l);
    if r != "" {
      assert r[0] == l[0];
    }
  }

  lemma {:induction false} RightEnd(s: string)
    ensures StripRight(s) == "" || !IsSpace(StripRight(s)[|StripRight(s)| - 1])
  {
    if s != "" && IsSpace(s[|s| - 1]) {
      RightEnd(s[..|s| - 1]);
    }
  }

  lemma FoldStrip(s: string)
    ensures Fold(Strip(s)) == Fold(s)
  {
    StripTwice(s);
  }

  lemma TrimKeeps(i: Instrument)
    ensures Trimmed(Trim(i)) && Names(Trim(i)) == Names(i) && ProviderKey(Trim(i)) == ProviderKey(i)
    ensures Fold(Trim(i).id) == Fold(i.id) && Fold(Trim(i).symbol) == Fold(i.symbol)
  {
    hide Strip;
    StripTwice(i.id);
    StripTwice(i.symbol);
    StripTwice(i.name);
    StripTwice(i.provider);
    StripTwice(i.source);
    StripTwice(i.assetClass);
    FoldStrip(i.id);
    FoldStrip(i.symbol);
    FoldStrip(i.provider);
    FoldStrip(i.source);
    FoldStrip(i.assetClass);
  }

  // ----- the next reserve is the first -----

  /** Eligible records come first, so the next eligible one is the first of all. */
  lemma {:induction false} EligibleFirst(active: seq<Instrument>, u: Universe, p: Pool, k: nat)
    requires RecordsOk(active, u, p) && k < |p.records| && Eligible(p.records[k])
    ensures Eligible(p.records[0])
    decreases k
  {
    hide Eligible, RecordOk;
    if k > 0 {
      EligibleFirst(active, u, p, k - 1);
    }
  }

  lemma {:induction false} OnlyFirstGoes(reserves: seq<string>, key: string)
    requires reserves != [] && Fold(reserves[0]) == key && forall k :: 1 <= k < |reserves| ==> Fold(reserves[k]) != key
    ensures WithoutSymbol(reserves, key) == reserves[1..]
    decreases |reserves|
  {
    hide Fold;
    if |reserves| > 1 {
      var p := reserves[..|reserves| - 1];
      OnlyFirstGoes(p, key);
      assert reserves[1..] == p[1..] + [reserves[|reserves| - 1]];
    } else {
      assert reserves[..0] == [];
    }
  }

  lemma {:induction false} OnlyFirstRecordGoes(records: seq<Record>, key: string)
    requires records != [] && Fold(records[0].symbol) == key && forall k :: 1 <= k < |records| ==> Fold(records[k].symbol) != key
    ensures WithoutRecord(records, key) == records[1..]
    decreases |records|
  {
    hide Fold;
    if |records| > 1 {
      var p := records[..|records| - 1];
      OnlyFirstRecordGoes(p, key);
      assert records[1..] == p[1..] + [records[|records| - 1]];
    } else {
      assert records[..0] == [];
    }
  }

  // ----- the edit in closed form -----

  /** The manifest after the edit: the first reserve has moved up, the failed member has gone to the end. */
  function Next(m: Manifest, u: Universe, failedSymbol: string, f: nat, x: Instrument): Manifest
    requires f < |m.active| && |PoolOf(m, u).reserves| > 0 && |PoolOf(m, u).records| > 0
  {
    var p := PoolOf(m, u);
    WithPool(m.(active := m.active[f := x], version := NextVersion(m.version)), u,
             Pool(p.reserves[1..] + [Strip(failedSymbol)],
                  Ranked(p.records[1..] + [QuarantineRecord(failedSymbol, m.active[f], |p.records|)])))
  }

  /** A replacement that reaches the edit. */
  predicate Ready(m: Manifest, u: Universe, failedSymbol: string, replacement: Instrument, e: Evidence) {
    Valid(m) && Refusal(m, u, failedSymbol, replacement, e).None?
  }

  lemma NamesMatch(a: Instrument, b: Instrument)
    requires IdentityMatches(a, b)
    ensures Names(a) == Names(b)
  {
    hide Fold;
  }

  lemma ReserveSymbols(active: seq<Instrument>, u: Universe, p: Pool)
    requires PoolOk(active, u, p)
    ensures |p.reserves| == |p.records| >= 20
    ensures forall k :: 0 <= k < |p.records| ==> Fold(p.records[k].symbol) == Fold(p.reserves[k])
    ensures forall k :: 1 <= k < |p.records| ==> Fold(p.reserves[k]) != Fold(p.reserves[0])
  {
    hide Fold, InstrumentOk, Trim, Eligible, StatusOf, Names, Blank;
    assert forall k :: 0 <= k < |p.records| ==> RecordOk(u, p.records[k], k + 1, p.reserves[k]);
  }

  lemma ValidPool(m: Manifest, u: Universe)
    requires Valid(m) && Stock(u)
    ensures PoolOk(m.active, u, PoolOf(m, u)) && ActiveOk(m.active) && ValidVersion(m.version)
  {
  }

  /** The next eligible reserve is the first record, and the replacement carries its names. */
  lemma ReadyFacts(m: Manifest, u: Universe, failedSymbol: string, replacement: Instrument, e: Evidence)
    requires Ready(m, u, failedSymbol, replacement, e)
    ensures var p, f := PoolOf(m, u), FindMember(m.active, u, failedSymbol);
            && Stock(u) && f >= 0 && replacement.universe == u && InstrumentOk(replacement) && !Blank(failedSymbol)
            && PoolOk(m.active, u, p) && ActiveOk(m.active) && |p.records| == |p.reserves| >= 20
            && FirstEligible(p.records) == 0
            && Fold(replacement.symbol) == Fold(p.reserves[0]) == Fold(p.records[0].symbol)
            && IdentityMatches(p.records[0].identity, replacement)
  {
    hide Fold, InstrumentOk, Eligible, Names, Blank, EvidenceOk, ActiveOk, PoolOk, Valid, FoldAll, IdentityMatches;
    ValidPool(m, u);
    var p := PoolOf(m, u);
    ReserveSymbols(m.active, u, p);
    FirstIsFirst(m.active, u, p);
  }

  lemma FirstIsFirst(active: seq<Instrument>, u: Universe, p: Pool)
    requires PoolOk(active, u, p)
    ensures FirstEligible(p.records) >= 0 ==> FirstEligible(p.records) == 0
  {
    hide FirstEligible, Eligible, RecordOk, ReservesOk;
    var k := FirstEligible(p.records);
    if k >= 0 {
      EligibleFirst(active, u, p, k);
    }
  }

  lemma EditIsNext(m: Manifest, u: Universe, failedSymbol: string, replacement: Instrument, e: Evidence)
    requires Ready(m, u, failedSymbol, replacement, e)
    ensures var f := FindMember(m.active, u, failedSymbol);
            && Stock(u) && 0 <= f && |PoolOf(m, u).reserves| > 0 && |PoolOf(m, u).records| > 0
            && Detach(Edited(m, u, failedSymbol, f, replacement)) == Next(m, u, failedSymbol, f, Trim(replacement))
  {
    hide Ready, Fold, InstrumentOk, Eligible, Names, Blank, ActiveOk, PoolOk, FindMember, FirstEligible, Strip, NextVersion, Trim, IdentityMatches;
    ReadyFacts(m, u, failedSymbol, replacement, e);
    var p, f := PoolOf(m, u), FindMember(m.active, u, failedSymbol);
    ReserveSymbols(m.active, u, p);
    OnlyFirstGoes(p.reserves, Fold(replacement.symbol));
    OnlyFirstRecordGoes(p.records, Fold(replacement.symbol));
    DetachStays(m, u, failedSymbol, replacement, e);
    assert StripAll(p.reserves[1..] + [failedSymbol]) == p.reserves[1..] + [Strip(failedSymbol)];
    assert TrimAll(m.active[f := replacement]) == m.active[f := Trim(replacement)];
  }

  /** A valid manifest is already stripped. */
  lemma DetachStays(m: Manifest, u: Universe, failedSymbol: string, replacement: Instrument, e: Evidence)
    requires Ready(m, u, failedSymbol, replacement, e)
    ensures forall i :: 0 <= i < |m.active| ==> Trim(m.active[i]) == m.active[i]
    ensures StripAll(m.aShare.reserves) == m.aShare.reserves && StripAll(m.usStock.reserves) == m.usStock.reserves
    ensures forall k :: 0 <= k < |m.aShare.reserves| ==> Strip(m.aShare.reserves[k]) == m.aShare.reserves[k]
    ensures forall k :: 0 <= k < |m.usStock.reserves| ==> Strip(m.usStock.reserves[k]) == m.usStock.reserves[k]
  {
    hide Refusal, RecordsOk, InstrumentOk, Fold, Unrelated, ProviderKey, Strip, Trim;
    assert forall i :: 0 <= i < |m.active| ==> Trimmed(m.active[i]);
  }

  // ----- when the edited manifest is valid -----

  lemma {:induction false} CountReplace(active: seq<Instrument>, f: nat, x: Instrument, u: Universe)
    requires f < |active| && active[f].universe == x.universe
    ensures CountOf(active[f := x], u) == CountOf(active, u)
    decreases |active|
  {
    var n := |active| - 1;
    if f < n {
      CountReplace(active[..n], f, x, u);
      assert active[f := x][..n] == active[..n][f := x];
    } else {
      assert active[f := x][..n] == active[..n];
    }
  }

  /** Two sound instruments share a provider key only within one universe, and there share a name. */
  lemma KeysApart(x: Instrument, y: Instrument)
    requires InstrumentOk(x) && InstrumentOk(y) && Stock(x.universe)
    requires x.universe == y.universe ==> Unrelated(x, y)
    ensures ProviderKey(x) != ProviderKey(y)
  {
    if x.universe == y.universe {
      assert Fold(x.provider) in Names(x);
      assert Fold(x.provider) !in Names(y);
    } else {
      FoldLength(x.assetClass);
      FoldLength(y.assetClass);
    }
  }

  lemma FoldLength(s: string)
    requires s in {"a_share", "us_stock", "index", "etf", "crypto", "commodity"}
    ensures |Fold(s)| == |s| && Strip(s) == s
  {
  }

  lemma BlankStrip(s: string)
    ensures Blank(Strip(s)) == Blank(s)
  {
    StripTwice(s);
  }

  lemma TrimOk(i: Instrument)
    requires InstrumentOk(i)
    ensures InstrumentOk(Trim(i))
  {
    hide Strip, Blank;
    BlankStrip(i.id);
    BlankStrip(i.symbol);
    BlankStrip(i.name);
    BlankStrip(i.assetClass);
    BlankStrip(i.source);
    BlankStrip(i.provider);
    FoldLength(i.assetClass);
  }

  predicate NewId(active: seq<Instrument>, f: nat, x: Instrument) {
    forall i :: 0 <= i < |active| && i != f ==> active[i].id != x.id
  }

  lemma NextActive(active: seq<Instrument>, f: nat, x: Instrument)
    requires ActiveOk(active) && f < |active| && active[f].universe == x.universe && Stock(x.universe)
    requires InstrumentOk(x) && Trimmed(x)
    requires forall i :: 0 <= i < |active| && active[i].universe == x.universe ==> Unrelated(x, active[i])
    ensures ActiveOk(active[f := x]) <==> NewId(active, f, x)
  {
    hide InstrumentOk, Trimmed, Unrelated, ProviderKey;
    var after := active[f := x];
    forall u
      ensures CountOf(after, u) == ExpectedCount(u)
    {
      CountReplace(active, f, x, u);
    }
    forall i | 0 <= i < |active| && i != f
      ensures ProviderKey(active[i]) != ProviderKey(x)
    {
      KeysApart(x, active[i]);
    }
    forall i | 0 <= i < |active| && active[i].universe == x.universe
      ensures Unrelated(active[i], x)
    {
      UnrelatedBoth(x, active[i]);
    }
    if ActiveOk(after) {
      forall i | 0 <= i < |active| && i != f
        ensures active[i].id != x.id
      {
        assert after[i] == active[i] && after[f] == x;
      }
    }
  }

  lemma UnrelatedBoth(i: Instrument, j: Instrument)
    ensures Unrelated(i, j) == Unrelated(j, i)
  {
  }

  lemma SymbolApart(i: Instrument, j: Instrument)
    requires Unrelated(i, j)
    ensures Fold(i.symbol) != Fold(j.symbol)
  {
    assert Fold(i.symbol) in Names(i);
  }

  /** The reserves after the edit meet their rules. */
  lemma NextReserves(active: seq<Instrument>, f: nat, x: Instrument, u: Universe, p: Pool, symbol: string)
    requires ActiveOk(active) && PoolOk(active, u, p) && f < |active| && active[f].universe == u == x.universe
    requires Fold(symbol) == Fold(active[f].symbol) && !Blank(symbol) && Fold(x.symbol) == Fold(p.reserves[0])
    ensures ReservesOk(active[f := x], u, p.reserves[1..] + [Strip(symbol)])
  {
    hide Fold, Blank, Strip, RecordsOk, InstrumentOk, Trimmed, ProviderKey, Unrelated;
    var kept, after := p.reserves[1..] + [Strip(symbol)], active[f := x];
    var n := |p.reserves| - 1;
    BlankStrip(symbol);
    StripTwice(symbol);
    FoldStrip(symbol);
    assert forall k :: 0 <= k < n ==> kept[k] == p.reserves[k + 1];
    forall k, l | 0 <= k < l < |kept|
      ensures Fold(kept[k]) != Fold(kept[l])
    {
      assert l < n ==> Fold(p.reserves[k + 1]) != Fold(p.reserves[l + 1]);
    }
    forall k, i | 0 <= k < |kept| && 0 <= i < |after| && after[i].universe == u
      ensures Fold(kept[k]) != Fold(after[i].symbol)
    {
      if k < n {
        assert Fold(p.reserves[0]) != Fold(p.reserves[k + 1]);
      } else if i == f {
        assert Fold(p.reserves[0]) != Fold(active[f].symbol);
      } else {
        OthersApart(active, i, f);
      }
    }
  }

  lemma OthersApart(active: seq<Instrument>, i: nat, j: nat)
    requires ActiveOk(active) && i < |active| && j < |active| && i != j && active[i].universe == active[j].universe
    ensures Unrelated(active[i], active[j]) && Fold(active[i].symbol) != Fold(active[j].symbol)
  {
    hide Unrelated, Fold;
    UnrelatedBoth(active[i], active[j]);
    SymbolApart(active[i], active[j]);
  }

  /** The records after the edit. */
  function NextRecords(p: Pool, failedSymbol: string, failed: Instrument): (r: seq<Record>)
    requires |p.records| > 0
    ensures |r| == |p.records|
  {
    Ranked(p.records[1..] + [QuarantineRecord(failedSymbol, failed, |p.records|)])
  }

  predicate NewReserveId(p: Pool, failed: Instrument) {
    forall k :: 1 <= k < |p.records| ==> Fold(p.records[k].identity.id) != Fold(failed.id)
  }

  lemma RankedRecord(u: Universe, r: Record, rank: int, rank': int, reserve: string)
    requires RecordOk(u, r, rank, reserve)
    ensures RecordOk(u, r.(rank := rank'), rank', reserve) && Eligible(r.(rank := rank')) == Eligible(r)
  {
    hide Fold, Blank, Trim, InstrumentOk;
  }

  lemma QuarantinedOk(u: Universe, failedSymbol: string, failed: Instrument, rank: int)
    requires Stock(u) && InstrumentOk(failed) && Trimmed(failed) && failed.universe == u && Fold(failedSymbol) == Fold(failed.symbol) && !Blank(failedSymbol)
    ensures RecordOk(u, QuarantineRecord(failedSymbol, failed, rank), rank, Strip(failedSymbol)) <==> failedSymbol == failed.symbol
    ensures !Eligible(QuarantineRecord(failedSymbol, failed, rank))
  {
    QuarantineText();
    FoldStrip(failedSymbol);
    hide Fold, Blank, Strip;
  }

  lemma QuarantineText()
    ensures Fold("quarantined") == "quarantined" && !Blank("failed_candidate")
  {
    assert Strip("quarantined") == "quarantined";
    var s := "quarantined";
    LowerStays(s);
  }

  lemma {:induction false} LowerStays(s: string)
    requires forall i :: 0 <= i < |s| ==> !('A' <= s[i] <= 'Z')
    ensures Lower(s) == s
  {
    if s != "" {
      LowerStays(s[1..]);
    }
  }

  lemma NextRecordShape(u: Universe, p: Pool, active: seq<Instrument>, failedSymbol: string, failed: Instrument, k: nat)
    requires RecordsOk(active, u, p) && |p.records| > 0 && k < |p.records| && Stock(u)
    requires InstrumentOk(failed) && Trimmed(failed) && failed.universe == u && Fold(failedSymbol) == Fold(failed.symbol) && !Blank(failedSymbol)
    ensures var r, n := NextRecords(p, failedSymbol, failed)[k], |p.records| - 1;
            && r.identity == (if k < n then p.records[k + 1].identity else failed)
            && Eligible(r) == (k < n && Eligible(p.records[k + 1]))
            && (RecordOk(u, r, k + 1, (p.reserves[1..] + [Strip(failedSymbol)])[k]) <==> k < n || failedSymbol == failed.symbol)
  {
    hide Fold, Blank, Strip, InstrumentOk, Trimmed, Eligible, RecordOk, Unrelated;
    var n := |p.records| - 1;
    if k < n {
      RankedRecord(u, p.records[k + 1], k + 2, k + 1, p.reserves[k + 1]);
    } else {
      QuarantinedOk(u, failedSymbol, failed, k + 1);
    }
  }

  /** Names of the moved-up records and of the failed member stay apart from the new members. */
  lemma NextUnrelated(active: seq<Instrument>, f: nat, x: Instrument, u: Universe, p: Pool, i: nat)
    requires ActiveOk(active) && PoolOk(active, u, p) && f < |active| && active[f].universe == u == x.universe && |p.records| > 0
    requires Names(x) == Names(p.records[0].identity)
    requires i < |active| && active[f := x][i].universe == u
    ensures forall k :: 1 <= k < |p.records| ==> Unrelated(p.records[k].identity, active[f := x][i])
    ensures Unrelated(active[f], active[f := x][i])
  {
    hide Names, RecordOk, InstrumentOk, Trimmed, ReservesOk, Fold, Eligible, ProviderKey;
    if i == f {
      forall k | 1 <= k < |p.records|
        ensures Unrelated(p.records[k].identity, x)
      {
        assert Unrelated(p.records[0].identity, p.records[k].identity);
      }
      assert Unrelated(p.records[0].identity, active[f]);
    } else {
      OthersApart(active, f, i);
    }
  }

  lemma NextRecordsOk(active: seq<Instrument>, f: nat, x: Instrument, u: Universe, p: Pool, failedSymbol: string)
    requires ActiveOk(active) && PoolOk(active, u, p) && f < |active| && active[f].universe == u == x.universe && Stock(u) && |p.records| > 0
    requires Names(x) == Names(p.records[0].identity) && Fold(failedSymbol) == Fold(active[f].symbol) && !Blank(failedSymbol)
    ensures RecordsOk(active[f := x], u, Pool(p.reserves[1..] + [Strip(failedSymbol)], NextRecords(p, failedSymbol, active[f]))) <==>
            failedSymbol == active[f].symbol && NewReserveId(p, active[f])
  {
    hide Names, RecordOk, InstrumentOk, Trimmed, ReservesOk, Fold, Eligible, ProviderKey, Unrelated, Blank, Strip, NextRecords, ActiveOk;
    var after, pool := active[f := x], Pool(p.reserves[1..] + [Strip(failedSymbol)], NextRecords(p, failedSymbol, active[f]));
    var n := |p.records| - 1;
    MemberOk(active, f);
    forall k | 0 <= k <= n
      ensures var r := pool.records[k];
              && r.identity == (if k < n then p.records[k + 1].identity else active[f])
              && Eligible(r) == (k < n && Eligible(p.records[k + 1]))
              && (RecordOk(u, r, k + 1, pool.reserves[k]) <==> k < n || failedSymbol == active[f].symbol)
    {
      NextRecordShape(u, p, active, failedSymbol, active[f], k);
    }
    forall i | 0 <= i < |after| && after[i].universe == u
      ensures forall k :: 0 <= k <= n ==> Unrelated(pool.records[k].identity, after[i])
    {
      NextUnrelated(active, f, x, u, p, i);
    }
    if RecordsOk(after, u, pool) {
      assert RecordOk(u, pool.records[n], n + 1, pool.reserves[n]);
      forall k | 1 <= k <= n
        ensures Fold(p.records[k].identity.id) != Fold(active[f].id)
      {
        assert Fold(pool.records[k - 1].identity.id) != Fold(pool.records[n].identity.id);
      }
    }
  }

  lemma MemberOk(active: seq<Instrument>, f: nat)
    requires ActiveOk(active) && f < |active|
    ensures InstrumentOk(active[f]) && Trimmed(active[f])
  {
  }

  /** The other universe's pool is not affected. */
  lemma OtherPool(active: seq<Instrument>, f: nat, x: Instrument, u: Universe, v: Universe, p: Pool)
    requires f < |active| && active[f].universe == u == x.universe && v != u && PoolOk(active, v, p)
    ensures PoolOk(active[f := x], v, p)
  {
    hide Fold, RecordOk, Unrelated, Eligible, Blank, Strip;
    assert forall i :: 0 <= i < |active| && active[f := x][i].universe == v ==> active[f := x][i] == active[i];
  }

  function Other(u: Universe): Universe {
    if u == AShare then UsStock else AShare
  }

  lemma ValidByPools(m: Manifest, u: Universe)
    requires Stock(u)
    ensures Valid(m) <==> ValidVersion(m.version) && ActiveOk(m.active) && PoolOk(m.active, u, PoolOf(m, u)) && PoolOk(m.active, Other(u), PoolOf(m, Other(u)))
  {
  }

  /** What the caller must see to for a replacement that reaches the edit to be accepted. */
  predicate Acceptable(m: Manifest, u: Universe, failedSymbol: string, replacement: Instrument) {
    var f := FindMember(m.active, u, failedSymbol);
    && f >= 0 && failedSymbol == m.active[f].symbol
    && NewId(m.active, f, Trim(replacement)) && NewReserveId(PoolOf(m, u), m.active[f])
  }

  lemma NextValid(m: Manifest, u: Universe, failedSymbol: string, replacement: Instrument, e: Evidence)
    requires Ready(m, u, failedSymbol, replacement, e)
    ensures var f := FindMember(m.active, u, failedSymbol);
            && Stock(u) && 0 <= f && |PoolOf(m, u).reserves| > 0 && |PoolOf(m, u).records| > 0
            && (Valid(Next(m, u, failedSymbol, f, Trim(replacement))) <==> Acceptable(m, u, failedSymbol, replacement))
  {
    hide Fold, Blank, Strip, Trim, Refusal, ActiveOk, ReservesOk, RecordsOk, InstrumentOk, FindMember, FirstEligible, IdentityMatches, Names,
      NextVersion, ValidVersion, NewId, NewReserveId, Eligible, ProviderKey, Trimmed, Ready, Ranked;
    ReadyFacts(m, u, failedSymbol, replacement, e);
    var f, p, x := FindMember(m.active, u, failedSymbol), PoolOf(m, u), Trim(replacement);
    var next := Next(m, u, failedSymbol, f, x);
    TrimKeeps(replacement);
    TrimOk(replacement);
    TrimUniverse(replacement);
    NamesMatch(p.records[0].identity, replacement);
    assert Names(x) == Names(p.records[0].identity);
    NamesApart(m.active, u, p, x);
    NextActive(m.active, f, x);
    NextReserves(m.active, f, x, u, p, failedSymbol);
    NextRecordsOk(m.active, f, x, u, p, failedSymbol);
    assert PoolOf(next, u).records == NextRecords(p, failedSymbol, m.active[f]);
    ReadyValid(m, u, failedSymbol, replacement, e);
    ValidByPools(m, u);
    OtherPool(m.active, f, x, u, Other(u), PoolOf(m, Other(u)));
    NextVersionCounts(m.version);
    ValidByPools(next, u);
  }

  lemma ReadyValid(m: Manifest, u: Universe, failedSymbol: string, replacement: Instrument, e: Evidence)
    requires Ready(m, u, failedSymbol, replacement, e)
    ensures Valid(m)
  {
  }

  lemma TrimUniverse(i: Instrument)
    ensures Trim(i).universe == i.universe
  {
  }

  lemma NamesApart(active: seq<Instrument>, u: Universe, p: Pool, x: Instrument)
    requires RecordsOk(active, u, p) && |p.records| > 0 && Names(x) == Names(p.records[0].identity)
    ensures forall i :: 0 <= i < |active| && active[i].universe == u ==> Unrelated(x, active[i])
  {
    hide Names, RecordOk, Fold, Eligible;
    forall i | 0 <= i < |active| && active[i].universe == u
      ensures Unrelated(x, active[i])
    {
      assert Unrelated(p.records[0].identity, active[i]);
    }
  }

  /** A valid manifest detaches as itself. */
  lemma DetachValid(m: Manifest)
    requires Valid(m)
    ensures Detach(m) == m
  {
    hide RecordsOk, InstrumentOk, Fold, Unrelated, ProviderKey, Strip, Trim;
    assert forall i :: 0 <= i < |m.active| ==> Trimmed(m.active[i]);
    assert TrimAll(m.active) == m.active;
    assert StripAll(m.aShare.reserves) == m.aShare.reserves;
    assert StripAll(m.usStock.reserves) == m.usStock.reserves;
  }

  /**
   A replacement that passes every check before the edit is accepted exactly when the caller spelled
   the failed member's symbol as the manifest does, the replacement's id is no other member's, and the
   failed member's id is no other reserve's.  The lookup ignores case and spaces; the last
   validation does not.
   */
  lemma AcceptedIff(m: Manifest, u: Universe, failedSymbol: string, replacement: Instrument, e: Evidence)
    requires Ready(m, u, failedSymbol, replacement, e)
    ensures Replace(m, u, failedSymbol, replacement, e).Ok? <==> Acceptable(m, u, failedSymbol, replacement)
    ensures var f := FindMember(m.active, u, failedSymbol);
            && Stock(u) && 0 <= f && |PoolOf(m, u).reserves| > 0 && |PoolOf(m, u).records| > 0
            && (Replace(m, u, failedSymbol, replacement, e).Ok? ==>
                  Replace(m, u, failedSymbol, replacement, e).value == Next(m, u, failedSymbol, f, Trim(replacement)) &&
                  Valid(Next(m, u, failedSymbol, f, Trim(replacement))))
  {
    hide Fold, Strip, Trim, Refusal, FindMember, Edited, Next, Acceptable, Valid, Detach;
    ReadyValid(m, u, failedSymbol, replacement, e);
    DetachValid(m);
    EditIsNext(m, u, failedSymbol, replacement, e);
    NextValid(m, u, failedSymbol, replacement, e);
  }

  // ----- the program's loops -----

  function Values(i: Instrument): seq<string> {
    [Fold(i.symbol), Fold(i.provider)] + FoldAll(i.aliases)
  }

  lemma ValuesAreNames(i: Instrument)
    ensures forall v :: v in Values(i) <==> v in Names(i)
  {
    hide Fold;
  }

  type Owners = map<(Universe, string), string>

  /** Every name of the first n instruments is owned, by an instrument of the same id. */
  ghost predicate OwnersOf(owners: Owners, active: seq<Instrument>, n: nat) {
    && n <= |active|
    && (forall a, v :: 0 <= a < n && v in Values(active[a]) ==> (active[a].universe, v) in owners && owners[(active[a].universe, v)] == active[a].id)
    && (forall k :: k in owners ==> exists a :: 0 <= a < n && active[a].universe == k.0 && k.1 in Values(active[a]))
  }

  /** The same, with some names of the next instrument entered. */
  ghost predicate OwnersPlus(owners: Owners, before: Owners, i: Instrument, values: seq<string>) {
    && (forall k :: k in owners <==> k in before || (k.0 == i.universe && k.1 in values))
    && (forall k :: k in before ==> owners[k] == before[k])
    && (forall k :: k in owners && k.0 == i.universe && k.1 in values ==> owners[k] == i.id)
  }

  /** Instruments of one universe that share a name are the same instrument. */
  predicate NamesOwned(active: seq<Instrument>, n: nat)
    requires n <= |active|
  {
    forall a, b :: 0 <= a < b < n && active[a].universe == active[b].universe && active[a].id != active[b].id ==>
      forall v :: v in Values(active[a]) ==> v !in Values(active[b])
  }

  /** Enters the names of one instrument; stops at one that another instrument owns. */
  method Enter(before: Owners, i: Instrument) returns (owners: Owners, ok: bool)
    ensures ok ==> OwnersPlus(owners, before, i, Values(i))
    ensures ok <==> forall v :: v in Values(i) && (i.universe, v) in before ==> before[(i.universe, v)] == i.id
  {
    hide Values;
    owners := before;
    var values := Values(i);
    for j := 0 to |values|
      invariant OwnersPlus(owners, before, i, values[..j])
      invariant forall v :: v in values[..j] && (i.universe, v) in before ==> before[(i.universe, v)] == i.id
    {
      var key := (i.universe, values[j]);
      assert values[..j + 1] == values[..j] + [values[j]];
      if key in owners && owners[key] != i.id {
        return owners, false;
      }
      owners := owners[key := i.id];
    }
    assert values[..|values|] == values;
    ok := true;
  }

  lemma {:induction false} OneMoreOwner(owners: Owners, after: Owners, active: seq<Instrument>, n: nat)
    requires n < |active| && OwnersOf(owners, active, n) && OwnersPlus(after, owners, active[n], Values(active[n]))
    ensures OwnersOf(after, active, n + 1)
  {
    hide Values;
  }

  /** A name of the next instrument is owned by another exactly when the two break the rule. */
  lemma {:induction false} ClashIff(owners: Owners, active: seq<Instrument>, n: nat)
    requires n < |active| && OwnersOf(owners, active, n) && NamesOwned(active, n)
    ensures (forall v :: v in Values(active[n]) && (active[n].universe, v) in owners ==> owners[(active[n].universe, v)] == active[n].id) <==>
            NamesOwned(active, n + 1)
  {
    hide Values;
    forall v | v in Values(active[n]) && (active[n].universe, v) in owners && owners[(active[n].universe, v)] != active[n].id
      ensures !NamesOwned(active, n + 1)
    {
      var a :| 0 <= a < n && active[a].universe == active[n].universe && v in Values(active[a]);
    }
  }

  /** `identity_owners`: no name of a universe answers for two instruments. */
  method CheckOwners(active: seq<Instrument>) returns (ok: bool)
    ensures ok == NamesOwned(active, |active|)
  {
    hide OwnersOf, NamesOwned, OwnersPlus, Values;
    var owners: Owners := map[];
    NoOwners(active);
    for i := 0 to |active|
      invariant OwnersOf(owners, active, i) && NamesOwned(active, i)
    {
      var entered, fine := Enter(owners, active[i]);
      ClashIff(owners, active, i);
      if !fine {
        NamesShrink(active, i + 1);
        return false;
      }
      OneMoreOwner(owners, entered, active, i);
      owners := entered;
    }
    ok := true;
  }

  lemma NoOwners(active: seq<Instrument>)
    ensures OwnersOf(map[], active, 0) && NamesOwned(active, 0)
  {
  }

  lemma NamesShrink(active: seq<Instrument>, n: nat)
    requires n <= |active|
    ensures NamesOwned(active, |active|) ==> NamesOwned(active, n)
  {
  }

  /** Among instruments with distinct ids this is the rule that names never overlap. */
  lemma OwnedIffUnrelated(active: seq<Instrument>)
    requires forall i, j :: 0 <= i < j < |active| ==> active[i].id != active[j].id
    ensures NamesOwned(active, |active|) <==>
            forall i, j :: 0 <= i < j < |active| && active[i].universe == active[j].universe ==> Unrelated(active[i], active[j])
  {
    hide Values, Names;
    forall i | 0 <= i < |active|
      ensures forall v :: v in Values(active[i]) <==> v in Names(active[i])
    {
      ValuesAreNames(active[i]);
    }
  }

  /** The edit itself: the lists filtered, the failed member appended, the ranks renumbered. */
  method EditPool(p: Pool, failedSymbol: string, failed: Instrument, replacement: Instrument) returns (r: Pool)
    ensures r == ReplacedPool(p, failedSymbol, failed, replacement)
  {
    hide Fold;
    var key := Fold(replacement.symbol);
    var reserves: seq<string> := [];
    for i := 0 to |p.reserves|
      invariant reserves == WithoutSymbol(p.reserves[..i], key)
    {
      assert p.reserves[..i + 1][..i] == p.reserves[..i];
      if Fold(p.reserves[i]) != key {
        reserves := reserves + [p.reserves[i]];
      }
    }
    assert p.reserves[..|p.reserves|] == p.reserves;
    var records: seq<Record> := [];
    for i := 0 to |p.records|
      invariant records == WithoutRecord(p.records[..i], key)
    {
      assert p.records[..i + 1][..i] == p.records[..i];
      if Fold(p.records[i].symbol) != key {
        records := records + [p.records[i]];
      }
    }
    assert p.records[..|p.records|] == p.records;
    records := records + [QuarantineRecord(failedSymbol, failed, |records| + 1)];
    ghost var before := records;
    for i := 0 to |records|
      invariant |records| == |before|
      invariant forall k :: 0 <= k < |before| ==> records[k] == if k < i then before[k].(rank := k + 1) else before[k]
    {
      records := records[i := records[i].(rank := i + 1)];
    }
    r := Pool(reserves + [failedSymbol], records);
  }

  /** `replace_candidate` */
  method ReplaceCandidate(manifest: Manifest, u: Universe, failedSymbol: string, replacement: Instrument, e: Evidence)
    returns (r: Result<Manifest, ManifestError>)
    ensures r == Replace(manifest, u, failedSymbol, replacement, e)
  {
    hide Valid, Fold, Eligible, InstrumentOk, EvidenceOk, FoldAll, RecordMatches, Blank, Detach, ReplacedPool;
    var validated := Validate(manifest);
    if validated.Err? {
      return validated;
    }
    var m := validated.value;
    var refusal := Refusal(m, u, failedSymbol, replacement, e);
    if refusal.Some? {
      return Err(refusal.value);
    }
    var index := -1;
    for i := 0 to |m.active|
      invariant index == FindMember(m.active[..i], u, failedSymbol)
    {
      assert m.active[..i + 1][..i] == m.active[..i];
      if index < 0 && m.active[i].universe == u && Fold(m.active[i].symbol) == Fold(failedSymbol) {
        index := i;
      }
    }
    assert m.active[..|m.active|] == m.active;
    var pool := EditPool(PoolOf(m, u), failedSymbol, m.active[index], replacement);
    r := Validate(WithPool(m.(active := m.active[index := replacement], version := NextVersion(m.version)), u, pool));
  }
}
