/** When a replacement is refused, and why: each error told from the manifest, the request and its evidence alone. */
module Refusals {
  import opened Results
  import opened Timestamps
  import opened Manifest

  /** The list names the symbol, but for case and surrounding space. */
  predicate Listed(xs: seq<string>, symbol: string) {
    exists k :: 0 <= k < |xs| && Fold(xs[k]) == Fold(symbol)
  }

  predicate NamesMember(m: Manifest, u: Universe, symbol: string) {
    exists i :: 0 <= i < |m.active| && m.active[i].universe == u && Fold(m.active[i].symbol) == Fold(symbol)
  }

  /** The receipt belongs to this manifest, and its two lists name members and reserves of one stock universe, each once. */
  predicate SoundEvidence(m: Manifest, e: Evidence) {
    var all := e.selected + e.rejected;
    && e.bound && e.universe != CrossMarket && |e.selected| > 0
    && (forall k :: 0 <= k < |all| ==> !Blank(all[k]))
    && (forall k, l :: 0 <= k < l < |all| ==> Fold(all[k]) != Fold(all[l]))
    && (forall k :: 0 <= k < |all| ==> NamesMember(m, e.universe, all[k]) || Listed(if e.universe == AShare then m.aShare.reserves else m.usStock.reserves, all[k]))
  }

  /** The record is open for promotion: it says so, or says nothing and was screened. */
  predicate Open(r: Record) {
    match r.status
    case Some(status) => Fold(status) == "eligible"
    case None => r.preScreened
  }

  /** Every field that identifies the reserve is the replacement's, but for case and surrounding space. */
  predicate SameReserve(r: Record, x: Instrument) {
    && Fold(r.name) == Fold(x.name) && Fold(r.provider) == Fold(x.provider) && Fold(r.source) == Fold(x.source)
    && r.identity.universe == x.universe && Fold(r.identity.id) == Fold(x.id) && Fold(r.identity.symbol) == Fold(x.symbol)
    && Fold(r.identity.name) == Fold(x.name) && Fold(r.identity.provider) == Fold(x.provider) && Fold(r.identity.source) == Fold(x.source)
    && Fold(r.identity.assetClass) == Fold(x.assetClass) && Fold(r.identity.details) == Fold(x.details)
    && |r.identity.aliases| == |x.aliases| && forall k :: 0 <= k < |x.aliases| ==> Fold(r.identity.aliases[k]) == Fold(x.aliases[k])
  }

  /** A usable instrument: nothing it is identified by is blank, and its asset class is one of its universe. */
  predicate Usable(x: Instrument) {
    && x.sound && !Blank(x.id) && !Blank(x.symbol) && !Blank(x.name) && !Blank(x.assetClass) && !Blank(x.source) && !Blank(x.provider)
    && match x.universe
       case AShare => x.assetClass == "a_share"
       case UsStock => x.assetClass == "us_stock"
       case CrossMarket => x.assetClass == "index" || x.assetClass == "etf" || x.assetClass == "crypto" || x.assetClass == "commodity"
  }

  function RecordsOf(m: Manifest, u: Universe): seq<Record> {
    match u
    case AShare => m.aShare.records
    case _ => m.usStock.records
  }

  datatype Ask = Ask(universe: Universe, failed: string, replacement: Instrument, evidence: Evidence)

  /** What each error objects to. */
  predicate Objects(error: ManifestError, m: Manifest, a: Ask) {
    var records := RecordsOf(m, a.universe);
    match error
    case NotStock => a.universe == CrossMarket
    case NoSymbol => Blank(a.failed)
    case BadReplacement => !Usable(a.replacement)
    case OtherUniverse => a.replacement.universe != a.universe
    case NotActive => !NamesMember(m, a.universe, a.failed)
    case BadEvidence => !SoundEvidence(m, a.evidence)
    case EvidenceElsewhere => a.evidence.universe != a.universe
    case NotRejected => !Listed(a.evidence.rejected, a.failed)
    case NotSelected => !Listed(a.evidence.selected, a.replacement.symbol)
    case NoEligible => forall k :: 0 <= k < |records| ==> !Open(records[k])
    case NotNext => records != [] && Fold(a.replacement.symbol) != Fold(records[0].symbol)
    case IdentityDiffers => records != [] && !SameReserve(records[0], a.replacement)
    case AlreadyActive => exists i :: 0 <= i < |m.active| && Fold(m.active[i].symbol) == Fold(a.replacement.symbol)
    case Invalid => !Settles(m, a)
  }

  /**
   The last validation lets the edited manifest through: the failed symbol is spelled as the member's, the new id
   is no other member's, and the failed member's id is none of the reserves behind the first.
   */
  predicate Settles(m: Manifest, a: Ask) {
    exists i :: 0 <= i < |m.active| && SettlesAt(m, a, i)
  }

  predicate SettlesAt(m: Manifest, a: Ask, i: nat)
    requires i < |m.active|
  {
    && m.active[i].universe == a.universe && m.active[i].symbol == a.failed
    && (forall k :: 0 <= k < |m.active| && k != i ==> m.active[k].id != Strip(a.replacement.id))
    && (forall k :: 1 <= k < |RecordsOf(m, a.universe)| ==> Fold(RecordsOf(m, a.universe)[k].identity.id) != Fold(m.active[i].id))
  }

  /** The errors in the order they are looked for. */
  const ORDER: seq<ManifestError> :=
    [NotStock, NoSymbol, BadReplacement, OtherUniverse, NotActive, BadEvidence, EvidenceElsewhere, NotRejected, NotSelected,
     NoEligible, NotNext, IdentityDiffers, AlreadyActive, Invalid]

  /** Nothing is objected to before the n-th error. */
  predicate Reaches(n: nat, m: Manifest, a: Ask)
    requires n <= |ORDER|
  {
    forall k :: 0 <= k < n ==> !Objects(ORDER[k], m, a)
  }

  function Answer(m: Manifest, a: Ask): Result<Manifest, ManifestError> {
    Replace(m, a.universe, a.failed, a.replacement, a.evidence)
  }

  // ----- the objections, one by one -----

  lemma ListedIff(xs: seq<string>, symbol: string)
    ensures Fold(symbol) in FoldAll(xs) <==> Listed(xs, symbol)
  {
    hide Fold;
    if Listed(xs, symbol) {
      var k :| 0 <= k < |xs| && Fold(xs[k]) == Fold(symbol);
      assert FoldAll(xs)[k] == Fold(symbol);
    }
  }

  lemma MemberIff(m: Manifest, u: Universe, symbol: string)
    ensures FindMember(m.active, u, symbol) >= 0 <==> NamesMember(m, u, symbol)
  {
    hide Fold, FindMember;
    var i := FindMember(m.active, u, symbol);
  }

  lemma KnownIff(m: Manifest, u: Universe, symbol: string)
    requires u != CrossMarket
    ensures KnownTo(m, u, Fold(symbol)) <==>
            NamesMember(m, u, symbol) || Listed(if u == AShare then m.aShare.reserves else m.usStock.reserves, symbol)
  {
    hide Fold;
    ListedIff(PoolOf(m, u).reserves, symbol);
  }

  lemma FoldedTogether(e: Evidence)
    ensures var all := e.selected + e.rejected;
            FoldAll(e.selected) + FoldAll(e.rejected) == FoldAll(all)
  {
    hide Fold;
  }

  lemma DistinctIff(xs: seq<string>)
    ensures DistinctKeys(FoldAll(xs)) <==> forall k, l :: 0 <= k < l < |xs| ==> Fold(xs[k]) != Fold(xs[l])
  {
    hide Fold;
    if DistinctKeys(FoldAll(xs)) {
      forall k, l | 0 <= k < l < |xs|
        ensures Fold(xs[k]) != Fold(xs[l])
      {
        assert FoldAll(xs)[k] != FoldAll(xs)[l];
      }
    }
  }

  lemma EvidenceIff(m: Manifest, e: Evidence)
    ensures EvidenceOk(m, e) <==> SoundEvidence(m, e)
  {
    hide Fold, KnownTo, NamesMember, Listed, DistinctKeys, Blank;
    var all := e.selected + e.rejected;
    FoldedTogether(e);
    DistinctIff(all);
    if e.universe != CrossMarket {
      forall k | 0 <= k < |all|
        ensures KnownTo(m, e.universe, Fold(all[k])) <==>
                NamesMember(m, e.universe, all[k]) || Listed(if e.universe == AShare then m.aShare.reserves else m.usStock.reserves, all[k])
      {
        KnownIff(m, e.universe, all[k]);
      }
      assert forall k :: 0 <= k < |all| ==> FoldAll(all)[k] in FoldAll(all);
    }
  }

  lemma OpenIff(r: Record)
    ensures Eligible(r) <==> Open(r)
  {
    hide Fold;
  }

  lemma NoneOpen(records: seq<Record>)
    ensures FirstEligible(records) < 0 <==> forall k :: 0 <= k < |records| ==> !Open(records[k])
  {
    hide Eligible, Open, FirstEligible;
    forall k | 0 <= k < |records|
      ensures Eligible(records[k]) <==> Open(records[k])
    {
      OpenIff(records[k]);
    }
    var f := FirstEligible(records);
  }

  lemma SameFolds(xs: seq<string>, ys: seq<string>)
    ensures FoldAll(xs) == FoldAll(ys) <==> |xs| == |ys| && forall k :: 0 <= k < |ys| ==> Fold(xs[k]) == Fold(ys[k])
  {
    hide Fold;
    if FoldAll(xs) == FoldAll(ys) {
      forall k | 0 <= k < |ys|
        ensures Fold(xs[k]) == Fold(ys[k])
      {
        assert FoldAll(xs)[k] == FoldAll(ys)[k];
      }
    }
  }

  lemma SameIff(r: Record, x: Instrument)
    ensures RecordMatches(r, x) <==> SameReserve(r, x)
  {
    hide Fold;
    SameFolds(r.identity.aliases, x.aliases);
  }

  lemma UsableIff(x: Instrument)
    ensures InstrumentOk(x) <==> Usable(x)
  {
    hide Blank;
  }

  // ----- the answer -----

  function FirstObjection(m: Manifest, a: Ask, n: nat): Option<ManifestError>
    requires n <= 13
    decreases 13 - n
  {
    if n == 13 then None else if Objects(ORDER[n], m, a) then Some(ORDER[n]) else FirstObjection(m, a, n + 1)
  }

  lemma Different()
    ensures forall i, j :: 0 <= i < j < |ORDER| ==> ORDER[i] != ORDER[j]
  {
  }

  lemma {:induction false} FirstAt(m: Manifest, a: Ask, n: nat)
    requires n <= 13 && Reaches(n, m, a)
    ensures FirstObjection(m, a, n).None? <==> Reaches(13, m, a)
    ensures forall j :: 0 <= j < 13 ==> (FirstObjection(m, a, n) == Some(ORDER[j]) <==> Objects(ORDER[j], m, a) && Reaches(j, m, a))
    decreases 13 - n
  {
    hide Objects;
    Different();
    if n < 13 && !Objects(ORDER[n], m, a) {
      FirstAt(m, a, n + 1);
    }
  }

  /** The objections one after the other, spelled out. */
  function Chain(m: Manifest, a: Ask): Option<ManifestError> {
    if Objects(NotStock, m, a) then Some(NotStock)
    else if Objects(NoSymbol, m, a) then Some(NoSymbol)
    else if Objects(BadReplacement, m, a) then Some(BadReplacement)
    else if Objects(OtherUniverse, m, a) then Some(OtherUniverse)
    else if Objects(NotActive, m, a) then Some(NotActive)
    else if Objects(BadEvidence, m, a) then Some(BadEvidence)
    else if Objects(EvidenceElsewhere, m, a) then Some(EvidenceElsewhere)
    else if Objects(NotRejected, m, a) then Some(NotRejected)
    else if Objects(NotSelected, m, a) then Some(NotSelected)
    else if Objects(NoEligible, m, a) then Some(NoEligible)
    else if Objects(NotNext, m, a) then Some(NotNext)
    else if Objects(IdentityDiffers, m, a) then Some(IdentityDiffers)
    else if Objects(AlreadyActive, m, a) then Some(AlreadyActive)
    else None
  }

  lemma ChainUnfolds(m: Manifest, a: Ask)
    ensures FirstObjection(m, a, 0) == Chain(m, a)
  {
    hide Objects;
    assert FirstObjection(m, a, 12) == if Objects(AlreadyActive, m, a) then Some(AlreadyActive) else None;
    assert FirstObjection(m, a, 10) == if Objects(NotNext, m, a) then Some(NotNext)
                                       else if Objects(IdentityDiffers, m, a) then Some(IdentityDiffers) else FirstObjection(m, a, 12);
    assert FirstObjection(m, a, 8) == if Objects(NotSelected, m, a) then Some(NotSelected)
                                      else if Objects(NoEligible, m, a) then Some(NoEligible) else FirstObjection(m, a, 10);
    assert FirstObjection(m, a, 6) == if Objects(EvidenceElsewhere, m, a) then Some(EvidenceElsewhere)
                                      else if Objects(NotRejected, m, a) then Some(NotRejected) else FirstObjection(m, a, 8);
    assert FirstObjection(m, a, 4) == if Objects(NotActive, m, a) then Some(NotActive)
                                      else if Objects(BadEvidence, m, a) then Some(BadEvidence) else FirstObjection(m, a, 6);
    assert FirstObjection(m, a, 2) == if Objects(BadReplacement, m, a) then Some(BadReplacement)
                                      else if Objects(OtherUniverse, m, a) then Some(OtherUniverse) else FirstObjection(m, a, 4);
  }

  lemma FirstFacts(m: Manifest, u: Universe, x: Instrument)
    requires Valid(m) && u != CrossMarket
    ensures var records := RecordsOf(m, u);
            && PoolOf(m, u).records == records
            && ((forall k :: 0 <= k < |records| ==> !Open(records[k])) <==> FirstEligible(records) < 0)
            && (FirstEligible(records) >= 0 ==> FirstEligible(records) == 0 && (RecordMatches(records[0], x) <==> SameReserve(records[0], x)))
  {
    hide Fold, Valid, RecordMatches, SameReserve, Eligible, Open, PoolOk, FirstEligible;
    var records := PoolOf(m, u).records;
    ValidPool(m, u);
    NoneOpen(records);
    FirstIsFirst(m.active, u, PoolOf(m, u));
    if FirstEligible(records) >= 0 {
      SameIff(records[0], x);
    }
  }

  /** The objections about the next reserve, once the universe is a stock universe. */
  lemma ReserveObjections(m: Manifest, a: Ask)
    requires Valid(m) && a.universe != CrossMarket
    ensures var records := PoolOf(m, a.universe).records;
            && (Objects(NoEligible, m, a) <==> FirstEligible(records) < 0)
            && (FirstEligible(records) >= 0 ==>
                  var expected := records[FirstEligible(records)];
                  && (Objects(NotNext, m, a) <==> Fold(a.replacement.symbol) != Fold(expected.symbol))
                  && (Objects(IdentityDiffers, m, a) <==> !RecordMatches(expected, a.replacement)))
  {
    hide Fold, Valid, RecordMatches, SameReserve, Open, FirstEligible, PoolOf, RecordsOf;
    FirstFacts(m, a.universe, a.replacement);
  }

  /** The objections about the request and its evidence. */
  lemma RequestObjections(m: Manifest, a: Ask)
    ensures Objects(BadReplacement, m, a) <==> !InstrumentOk(a.replacement)
    ensures Objects(NotActive, m, a) <==> FindMember(m.active, a.universe, a.failed) < 0
    ensures Objects(BadEvidence, m, a) <==> !EvidenceOk(m, a.evidence)
    ensures Objects(NotRejected, m, a) <==> Fold(a.failed) !in FoldAll(a.evidence.rejected)
    ensures Objects(NotSelected, m, a) <==> Fold(a.replacement.symbol) !in FoldAll(a.evidence.selected)
  {
    hide Fold, InstrumentOk, Usable, EvidenceOk, SoundEvidence, FindMember, NamesMember, FoldAll, Listed;
    UsableIff(a.replacement);
    MemberIff(m, a.universe, a.failed);
    EvidenceIff(m, a.evidence);
    ListedIff(a.evidence.rejected, a.failed);
    ListedIff(a.evidence.selected, a.replacement.symbol);
  }

  lemma PlainObjections(m: Manifest, a: Ask)
    ensures Objects(NotStock, m, a) <==> !Stock(a.universe)
    ensures Objects(NoSymbol, m, a) <==> Blank(a.failed)
    ensures Objects(OtherUniverse, m, a) <==> a.replacement.universe != a.universe
    ensures Objects(EvidenceElsewhere, m, a) <==> a.evidence.universe != a.universe
    ensures Objects(AlreadyActive, m, a) <==> exists i :: 0 <= i < |m.active| && Fold(m.active[i].symbol) == Fold(a.replacement.symbol)
  {
    hide Fold, Blank;
  }

  /** The chain of checks, objection by objection. */
  lemma RefusalIsFirst(m: Manifest, a: Ask)
    requires Valid(m)
    ensures Refusal(m, a.universe, a.failed, a.replacement, a.evidence) == FirstObjection(m, a, 0)
  {
    hide Objects, Fold, Valid, InstrumentOk, EvidenceOk, RecordMatches, FindMember, FoldAll, Blank, FirstEligible, FirstObjection;
    ChainUnfolds(m, a);
    PlainObjections(m, a);
    RequestObjections(m, a);
    if Stock(a.universe) {
      ReserveObjections(m, a);
    }
  }

  lemma SpelledOnce(m: Manifest, u: Universe, failed: string, i: nat)
    requires Valid(m) && Stock(u) && i < |m.active| && m.active[i].universe == u && m.active[i].symbol == failed
    ensures FindMember(m.active, u, failed) == i
  {
    hide Fold, FindMember, Names, Unrelated, PoolOk, ActiveOk;
    ValidPool(m, u);
    var f := FindMember(m.active, u, failed);
    if f >= 0 && f != i {
      OthersApart(m.active, f, i);
    }
  }

  /** The last validation, told from the manifest. */
  lemma SettlesIff(m: Manifest, a: Ask)
    requires Valid(m) && a.universe != CrossMarket
    ensures Acceptable(m, a.universe, a.failed, a.replacement) <==> Settles(m, a)
  {
    hide Fold, FindMember, Valid, Strip;
    if Acceptable(m, a.universe, a.failed, a.replacement) {
      var f := FindMember(m.active, a.universe, a.failed);
      assert SettlesAt(m, a, f);
    }
    if Settles(m, a) {
      var i :| 0 <= i < |m.active| && SettlesAt(m, a, i);
      SpelledOnce(m, a.universe, a.failed, i);
      assert PoolOf(m, a.universe).records == RecordsOf(m, a.universe);
    }
  }

  /** The answer once the manifest is known to be valid. */
  lemma AnswerOf(m: Manifest, a: Ask)
    requires Valid(m)
    ensures var refusal := Refusal(m, a.universe, a.failed, a.replacement, a.evidence);
            && (refusal.Some? ==> Answer(m, a) == Err(refusal.value))
            && (refusal.None? ==> if Acceptable(m, a.universe, a.failed, a.replacement) then Answer(m, a).Ok? else Answer(m, a) == Err(Invalid))
  {
    hide Refusal, Valid, Edited, FindMember, Detach, Acceptable, Next, Trim;
    DetachValid(m);
    if Refusal(m, a.universe, a.failed, a.replacement, a.evidence).None? {
      AcceptedIff(m, a.universe, a.failed, a.replacement, a.evidence);
    }
  }

  lemma EarlyError(m: Manifest, a: Ask, n: nat)
    requires Valid(m) && n < 13
    ensures Answer(m, a) == Err(ORDER[n]) <==> Objects(ORDER[n], m, a) && Reaches(n, m, a)
  {
    hide Objects, Refusal, FirstObjection, Valid, Acceptable, Answer, Reaches;
    AnswerOf(m, a);
    RefusalIsFirst(m, a);
    StartsReached(m, a);
    FirstAt(m, a, 0);
    assert ORDER[n] != Invalid;
  }

  lemma StartsReached(m: Manifest, a: Ask)
    ensures Reaches(0, m, a)
  {
  }

  lemma LateError(m: Manifest, a: Ask)
    requires Valid(m)
    ensures Answer(m, a).Ok? <==> Reaches(|ORDER|, m, a)
    ensures Answer(m, a) == Err(Invalid) <==> Objects(Invalid, m, a) && Reaches(13, m, a)
  {
    hide Objects, Refusal, FirstObjection, Valid, Acceptable, Settles, Answer, Reaches;
    AnswerOf(m, a);
    RefusalIsFirst(m, a);
    StartsReached(m, a);
    FirstAt(m, a, 0);
    LastObjection(m, a);
    FirstIsNotInvalid(m, a, 0);
    if Reaches(13, m, a) {
      StockReached(m, a);
      SettlesIff(m, a);
    }
  }

  lemma {:induction false} FirstIsNotInvalid(m: Manifest, a: Ask, n: nat)
    requires n <= 13
    ensures FirstObjection(m, a, n) != Some(Invalid)
    decreases 13 - n
  {
    hide Objects;
    if n < 13 {
      FirstIsNotInvalid(m, a, n + 1);
    }
  }

  /**
   What a replacement in a valid manifest is answered: the first objection in this order, or the new manifest
   when there is none.
   */
  lemma AnswerIff(m: Manifest, a: Ask)
    requires Valid(m)
    ensures Answer(m, a).Ok? <==> Reaches(|ORDER|, m, a)
    ensures forall n :: 0 <= n < |ORDER| ==> (Answer(m, a) == Err(ORDER[n]) <==> Objects(ORDER[n], m, a) && Reaches(n, m, a))
  {
    hide Objects, Valid, Answer, Reaches;
    LateError(m, a);
    forall n | 0 <= n < |ORDER|
      ensures Answer(m, a) == Err(ORDER[n]) <==> Objects(ORDER[n], m, a) && Reaches(n, m, a)
    {
      if n < 13 {
        EarlyError(m, a, n);
      }
    }
  }

  lemma StockReached(m: Manifest, a: Ask)
    requires Reaches(13, m, a)
    ensures a.universe != CrossMarket
  {
    assert !Objects(ORDER[0], m, a);
  }

  lemma LastObjection(m: Manifest, a: Ask)
    ensures Objects(Invalid, m, a) <==> !Settles(m, a)
    ensures Reaches(|ORDER|, m, a) <==> Reaches(13, m, a) && !Objects(Invalid, m, a)
  {
    hide Objects, Settles;
    assert ORDER[13] == Invalid;
    ObjectsInvalid(m, a);
  }

  lemma ObjectsInvalid(m: Manifest, a: Ask)
    ensures Objects(Invalid, m, a) <==> !Settles(m, a)
  {
  }

  /** Any manifest is first stripped of surrounding space; if it is not valid then, it is refused as invalid. */
  lemma StrippedFirst(manifest: Manifest, a: Ask)
    ensures var m := Detach(manifest);
            Answer(manifest, a) == if Valid(m) then Answer(m, a) else Err(Invalid)
  {
    hide Valid, Refusal, Detach, Edited, FindMember;
    if Valid(Detach(manifest)) {
      DetachValid(Detach(manifest));
    }
  }
}
