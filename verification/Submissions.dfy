/** What the store answers to a submitted run: each refusal told from the run and the tables, and each stored row from the submitted one. */
module Submissions {
  import opened Results
  import opened Timestamps
  import opened IsoForms
  import opened Storage
  import opened RunWrites
  import opened Store
  import opened StoreHistory

  // ----- texts and digests -----

  predicate Present(s: string) {
    exists i :: 0 <= i < |s| && !White(s[i])
  }

  predicate PresentIfAny(s: Option<string>) {
    match s
    case Some(text) => Present(text)
    case None => true
  }

  /** Sixty-four hexadecimal digits in either case. */
  predicate Digest(s: string) {
    |s| == 64 && forall i :: 0 <= i < 64 ==> '0' <= s[i] <= '9' || 'a' <= s[i] <= 'f' || 'A' <= s[i] <= 'F'
  }

  predicate DigestIfAny(s: Option<string>) {
    match s
    case Some(text) => Digest(text)
    case None => true
  }

  lemma {:induction false} LeftBlank(s: string)
    ensures StripLeft(s) == "" <==> !Present(s)
  {
    if s != "" {
      if IsSpace(s[0]) {
        LeftBlank(s[1..]);
        if Present(s) {
          var i :| 0 <= i < |s| && !White(s[i]);
          assert s[1..][i - 1] == s[i];
        }
        if Present(s[1..]) {
          var i :| 0 <= i < |s| - 1 && !White(s[1..][i]);
          assert s[i + 1] == s[1..][i];
        }
      } else {
        assert !White(s[0]);
      }
    }
  }

  lemma {:induction false} RightKeeps(s: string)
    requires s != "" && !IsSpace(s[0])
    ensures StripRight(s) != ""
  {
    if IsSpace(s[|s| - 1]) {
      RightKeeps(s[..|s| - 1]);
    }
  }

  lemma PresentIff(s: string)
    ensures Blank(s) <==> !Present(s)
  {
    hide Present;
    LeftBlank(s);
    var l := StripLeft(s);
    if l != "" {
      RightKeeps(l);
    }
  }

  lemma {:induction false} LoweredAt(s: string, i: nat)
    requires i < |s|
    ensures Lower(s)[i] == if 'A' <= s[i] <= 'Z' then (s[i] as int + 32) as char else s[i]
  {
    if i > 0 {
      LoweredAt(s[1..], i - 1);
    }
  }

  lemma DigestIff(s: string)
    ensures IsSha256(s) <==> Digest(s)
  {
    hide Lower;
    if |s| == 64 {
      forall i | 0 <= i < 64
        ensures IsHex(Lower(s)[i]) <==> '0' <= s[i] <= '9' || 'a' <= s[i] <= 'f' || 'A' <= s[i] <= 'F'
      {
        LoweredAt(s, i);
        HexIff(s[i]);
      }
    }
  }

  lemma HexIff(c: char)
    ensures IsHex(if 'A' <= c <= 'Z' then (c as int + 32) as char else c) <==> '0' <= c <= '9' || 'a' <= c <= 'f' || 'A' <= c <= 'F'
  {
  }

  lemma TextsIff(s: Option<string>)
    ensures TextOrNone(s) <==> PresentIfAny(s)
    ensures HashOrNone(s) <==> DigestIfAny(s)
  {
    hide Blank, Present, IsSha256, Digest;
    if s.Some? {
      PresentIff(s.value);
      DigestIff(s.value);
    }
  }

  // ----- the parts of a run -----

  predicate SoundHeader(w: RunWrite) {
    && Present(w.runId) && Present(w.manifestVersion) && Digest(w.manifestHash) && Present(w.startedAt)
    && PresentIfAny(w.windowStart) && PresentIfAny(w.windowEnd) && PresentIfAny(w.completedAt)
    && (w.status == "success" || w.status == "partial" || (w.status == "failed" && w.error.Some? && |w.error.value| > 0))
  }

  predicate SoundObservation(w: RunWrite, o: ObservationWrite) {
    && o.runId == w.runId && o.key.manifestVersion == w.manifestVersion && 0 <= o.candleCount && Present(o.servedFrom)
    && PresentIfAny(o.requestStart) && PresentIfAny(o.requestEnd) && PresentIfAny(o.latestTimestamp) && PresentIfAny(o.observedAt)
    && DigestIfAny(o.responseHash) && (o.latency == None || o.latency.value >= 0.0)
  }

  predicate SoundQuality(w: RunWrite, q: QualityWrite) {
    && q.runId == w.runId && q.key.manifestVersion == w.manifestVersion && DigestIfAny(q.receiptHash)
    && 0 <= q.gaps && 0 <= q.duplicates && 0 <= q.invalidRows && 0 <= q.blockedCells
    && (q.status == "pass" || q.status == "partial" || q.status == "blocked" || q.status == "fail" || q.status == "missing")
  }

  predicate Served(tf: Timeframe) {
    tf == M15 || tf == H1 || tf == H4 || tf == D1 || tf == W1
  }

  predicate SoundTransform(w: RunWrite, t: TransformWrite) {
    && t.runId == w.runId && t.manifestVersion == w.manifestVersion && Served(t.input) && Served(t.output) && t.input != t.output
    && Present(t.rule) && Present(t.inputStart) && Present(t.inputEnd) && Digest(t.inputHash) && Digest(t.outputHash)
    && PresentIfAny(t.anchor) && PresentIfAny(t.partialPolicy) && 0 <= t.partialCount
  }

  predicate SoundWatermark(w: RunWrite, m: WatermarkWrite) {
    m.runId == w.runId && m.key.manifestVersion == w.manifestVersion && Present(m.lastClosed) && PresentIfAny(m.cursor)
  }

  predicate SoundEntitlement(e: EntitlementWrite) {
    && Present(e.receiptId) && Present(e.sourceId) && Present(e.status) && Present(e.evidence) && Digest(e.receiptHash)
    && forall tf :: tf in e.permissions ==> Served(tf)
  }

  predicate SoundBackup(w: RunWrite, b: BackupWrite) {
    b.runId == w.runId && Present(b.backupId) && Present(b.destination) && Present(b.status) && Digest(b.checksum) && 0 <= b.size
  }

  predicate OneSeries(k: SeriesKey, l: SeriesKey) {
    && k.sourceId == l.sourceId && k.instrumentId == l.instrumentId && k.timeframe == l.timeframe
    && k.adjustmentBasis == l.adjustmentBasis && k.manifestVersion == l.manifestVersion
  }

  /** The receipt derives this candle's series. */
  predicate Derives(t: TransformWrite, c: Candle) {
    t.instrumentId == c.key.instrumentId && t.sourceId == c.key.sourceId && t.output == c.key.timeframe
  }

  /** What each refusal of a run objects to, whatever the store holds. */
  predicate Objects(error: StoreError, w: RunWrite) {
    match error
    case BadHeader => !SoundHeader(w)
    case FailedRunPromotes => w.status == "failed" && |w.candles| + |w.observations| + |w.qualities| + |w.transforms| + |w.watermarks| > 0
    case BadCandle =>
      || (exists c :: c in w.candles && c.key.manifestVersion != w.manifestVersion)
      || (exists i, j :: 0 <= i < j < |w.candles| && w.candles[i].stamp == w.candles[j].stamp && OneSeries(w.candles[i].key, w.candles[j].key))
    case BadObservation => exists o :: o in w.observations && !SoundObservation(w, o)
    case BadQuality =>
      || (exists q :: q in w.qualities && !SoundQuality(w, q))
      || (exists i, j :: 0 <= i < j < |w.qualities| && OneSeries(w.qualities[i].key, w.qualities[j].key))
    case BadTransform =>
      || (exists t :: t in w.transforms && !SoundTransform(w, t))
      || (exists i, j :: 0 <= i < j < |w.transforms| && SameTransform(w.transforms[i], w.transforms[j]))
    case UncoveredDerived => exists c :: c in w.candles && c.derived && !exists t :: t in w.transforms && Derives(t, c)
    case BadWatermark =>
      || (exists m :: m in w.watermarks && !SoundWatermark(w, m))
      || (exists i, j :: 0 <= i < j < |w.watermarks| && OneSeries(w.watermarks[i].key, w.watermarks[j].key))
    case BadEntitlement => exists e :: e in w.entitlements && !SoundEntitlement(e)
    case BadBackup => exists b :: b in w.backups && !SoundBackup(w, b)
    case _ => false
  }

  predicate SameTransform(t: TransformWrite, u: TransformWrite) {
    t.instrumentId == u.instrumentId && t.sourceId == u.sourceId && t.output == u.output && t.input == u.input
  }

  lemma HeaderIff(w: RunWrite)
    ensures ValidHeader(w) <==> SoundHeader(w)
  {
    hide Blank, Present, IsSha256, Digest;
    PresentIff(w.runId);
    PresentIff(w.manifestVersion);
    PresentIff(w.startedAt);
    DigestIff(w.manifestHash);
    TextsIff(w.windowStart);
    TextsIff(w.windowEnd);
    TextsIff(w.completedAt);
  }

  lemma CandlesIff(w: RunWrite)
    ensures ValidCandles(w) <==> !Objects(BadCandle, w)
  {
    assert forall i :: 0 <= i < |w.candles| ==> w.candles[i] in w.candles;
    forall i, j | 0 <= i < j < |w.candles|
      ensures CandleIdOf(w.candles[i]) == CandleIdOf(w.candles[j]) <==> w.candles[i].stamp == w.candles[j].stamp && OneSeries(w.candles[i].key, w.candles[j].key)
    {
    }
  }

  lemma ObservationIff(w: RunWrite, o: ObservationWrite)
    ensures ValidObservation(w, o) <==> SoundObservation(w, o)
  {
    hide Blank, Present, IsSha256, Digest;
    PresentIff(o.servedFrom);
    TextsIff(o.requestStart);
    TextsIff(o.requestEnd);
    TextsIff(o.latestTimestamp);
    TextsIff(o.observedAt);
    TextsIff(o.responseHash);
  }

  lemma ObservationsIff(w: RunWrite)
    ensures ValidObservations(w) <==> !Objects(BadObservation, w)
  {
    hide ValidObservation, SoundObservation;
    forall o
      ensures ValidObservation(w, o) <==> SoundObservation(w, o)
    {
      ObservationIff(w, o);
    }
    assert forall i :: 0 <= i < |w.observations| ==> w.observations[i] in w.observations;
  }

  lemma QualityIff(w: RunWrite, q: QualityWrite)
    ensures ValidQuality(w, q) <==> SoundQuality(w, q)
  {
    hide IsSha256, Digest;
    TextsIff(q.receiptHash);
  }

  lemma SeriesIff(k: SeriesKey, l: SeriesKey)
    ensures IdOf(k) == IdOf(l) <==> OneSeries(k, l)
  {
  }

  lemma QualitiesIff(w: RunWrite)
    ensures ValidQualities(w) <==> !Objects(BadQuality, w)
  {
    hide ValidQuality, SoundQuality, IdOf, OneSeries;
    forall q
      ensures ValidQuality(w, q) <==> SoundQuality(w, q)
    {
      QualityIff(w, q);
    }
    forall k, l
      ensures IdOf(k) == IdOf(l) <==> OneSeries(k, l)
    {
      SeriesIff(k, l);
    }
    assert forall i :: 0 <= i < |w.qualities| ==> w.qualities[i] in w.qualities;
  }

  lemma TransformIff(w: RunWrite, t: TransformWrite)
    ensures ValidTransform(w, t) <==> SoundTransform(w, t)
  {
    hide Blank, Present, IsSha256, Digest;
    PresentIff(t.rule);
    PresentIff(t.inputStart);
    PresentIff(t.inputEnd);
    DigestIff(t.inputHash);
    DigestIff(t.outputHash);
    TextsIff(t.anchor);
    TextsIff(t.partialPolicy);
  }

  lemma TransformsIff(w: RunWrite)
    ensures ValidTransforms(w) <==> !Objects(BadTransform, w)
  {
    hide ValidTransform, SoundTransform;
    forall t
      ensures ValidTransform(w, t) <==> SoundTransform(w, t)
    {
      TransformIff(w, t);
    }
    assert forall i :: 0 <= i < |w.transforms| ==> w.transforms[i] in w.transforms;
    forall i, j | 0 <= i < j < |w.transforms|
      ensures TransformKeyOf(w.transforms[i]) == TransformKeyOf(w.transforms[j]) <==> SameTransform(w.transforms[i], w.transforms[j])
    {
    }
  }

  lemma CoveredIff(w: RunWrite)
    ensures DerivedCovered(w) <==> !Objects(UncoveredDerived, w)
  {
    forall i | 0 <= i < |w.candles|
      ensures (exists j :: 0 <= j < |w.transforms| && TransformIdOf(w.transforms[j]) == NeededTransform(w.candles[i].key)) <==>
              exists t :: t in w.transforms && Derives(t, w.candles[i])
    {
      if t :| t in w.transforms && Derives(t, w.candles[i]) {
        var j :| 0 <= j < |w.transforms| && w.transforms[j] == t;
        assert TransformIdOf(w.transforms[j]) == NeededTransform(w.candles[i].key);
      }
      if j :| 0 <= j < |w.transforms| && TransformIdOf(w.transforms[j]) == NeededTransform(w.candles[i].key) {
        assert Derives(w.transforms[j], w.candles[i]) && w.transforms[j] in w.transforms;
      }
    }
    hide TransformIdOf, NeededTransform, Derives;
    assert forall i :: 0 <= i < |w.candles| ==> w.candles[i] in w.candles;
  }

  lemma WatermarksIff(w: RunWrite)
    ensures ValidWatermarks(w) <==> !Objects(BadWatermark, w)
  {
    hide Blank, Present, IdOf, OneSeries;
    forall m: WatermarkWrite
      ensures ValidWatermark(w, m) <==> SoundWatermark(w, m)
    {
      PresentIff(m.lastClosed);
      TextsIff(m.cursor);
    }
    forall k, l
      ensures IdOf(k) == IdOf(l) <==> OneSeries(k, l)
    {
      SeriesIff(k, l);
    }
    hide ValidWatermark, SoundWatermark;
    assert forall i :: 0 <= i < |w.watermarks| ==> w.watermarks[i] in w.watermarks;
  }

  predicate GoodEntitlement(e: EntitlementWrite) {
    && !Blank(e.receiptId) && !Blank(e.sourceId) && !Blank(e.status) && !Blank(e.evidence)
    && IsSha256(e.receiptHash) && forall j :: 0 <= j < |e.permissions| ==> IsMvp(e.permissions[j])
  }

  lemma EntitlementIff(e: EntitlementWrite)
    ensures GoodEntitlement(e) <==> SoundEntitlement(e)
  {
    hide Blank, Present, IsSha256, Digest;
    PresentIff(e.receiptId);
    PresentIff(e.sourceId);
    PresentIff(e.status);
    PresentIff(e.evidence);
    DigestIff(e.receiptHash);
    assert forall j :: 0 <= j < |e.permissions| ==> e.permissions[j] in e.permissions;
  }

  lemma EntitlementsIff(w: RunWrite)
    ensures ValidEntitlements(w) <==> !Objects(BadEntitlement, w)
  {
    hide Blank, IsSha256, SoundEntitlement;
    forall e
      ensures GoodEntitlement(e) <==> SoundEntitlement(e)
    {
      EntitlementIff(e);
    }
    assert forall i :: 0 <= i < |w.entitlements| ==> w.entitlements[i] in w.entitlements;
    assert ValidEntitlements(w) <==> forall i :: 0 <= i < |w.entitlements| ==> GoodEntitlement(w.entitlements[i]);
  }

  predicate GoodBackup(w: RunWrite, b: BackupWrite) {
    && !Blank(b.backupId) && b.runId == w.runId && !Blank(b.destination) && !Blank(b.status) && IsSha256(b.checksum) && b.size >= 0
  }

  lemma BackupsIff(w: RunWrite)
    ensures ValidBackups(w) <==> !Objects(BadBackup, w)
  {
    hide Blank, IsSha256, Present, Digest;
    forall b: BackupWrite
      ensures GoodBackup(w, b) <==> SoundBackup(w, b)
    {
      PresentIff(b.backupId);
      PresentIff(b.destination);
      PresentIff(b.status);
      DigestIff(b.checksum);
    }
    hide SoundBackup;
    assert forall i :: 0 <= i < |w.backups| ==> w.backups[i] in w.backups;
    assert ValidBackups(w) <==> forall i :: 0 <= i < |w.backups| ==> GoodBackup(w, w.backups[i]);
  }

  /** The refusals that look at the run alone, in the order they are looked for. */
  const ORDER: seq<StoreError> :=
    [BadHeader, FailedRunPromotes, BadCandle, BadObservation, BadQuality, BadTransform, UncoveredDerived, BadWatermark, BadEntitlement, BadBackup]

  function FirstObjection(w: RunWrite, n: nat): Option<StoreError>
    requires n <= |ORDER|
    decreases |ORDER| - n
  {
    if n == |ORDER| then None else if Objects(ORDER[n], w) then Some(ORDER[n]) else FirstObjection(w, n + 1)
  }

  predicate Reaches(w: RunWrite, n: nat)
    requires n <= |ORDER|
  {
    forall k :: 0 <= k < n ==> !Objects(ORDER[k], w)
  }

  lemma Different()
    ensures forall i, j :: 0 <= i < j < |ORDER| ==> ORDER[i] != ORDER[j]
  {
  }

  lemma {:induction false} FirstAt(w: RunWrite, n: nat)
    requires n <= |ORDER| && Reaches(w, n)
    ensures FirstObjection(w, n).None? <==> Reaches(w, |ORDER|)
    ensures forall j :: 0 <= j < |ORDER| ==> (FirstObjection(w, n) == Some(ORDER[j]) <==> Objects(ORDER[j], w) && Reaches(w, j))
    decreases |ORDER| - n
  {
    hide Objects;
    Different();
    if n < |ORDER| && !Objects(ORDER[n], w) {
      FirstAt(w, n + 1);
    }
  }

  /** The objections one after the other, spelled out. */
  function Chain(w: RunWrite): Option<StoreError> {
    if Objects(BadHeader, w) then Some(BadHeader)
    else if Objects(FailedRunPromotes, w) then Some(FailedRunPromotes)
    else if Objects(BadCandle, w) then Some(BadCandle)
    else if Objects(BadObservation, w) then Some(BadObservation)
    else if Objects(BadQuality, w) then Some(BadQuality)
    else if Objects(BadTransform, w) then Some(BadTransform)
    else if Objects(UncoveredDerived, w) then Some(UncoveredDerived)
    else if Objects(BadWatermark, w) then Some(BadWatermark)
    else if Objects(BadEntitlement, w) then Some(BadEntitlement)
    else if Objects(BadBackup, w) then Some(BadBackup)
    else None
  }

  lemma ChainUnfolds(w: RunWrite)
    ensures FirstObjection(w, 0) == Chain(w)
  {
    hide Objects;
    assert FirstObjection(w, 8) == if Objects(BadEntitlement, w) then Some(BadEntitlement) else if Objects(BadBackup, w) then Some(BadBackup) else None;
    assert FirstObjection(w, 6) == if Objects(UncoveredDerived, w) then Some(UncoveredDerived)
                                   else if Objects(BadWatermark, w) then Some(BadWatermark) else FirstObjection(w, 8);
    assert FirstObjection(w, 4) == if Objects(BadQuality, w) then Some(BadQuality)
                                   else if Objects(BadTransform, w) then Some(BadTransform) else FirstObjection(w, 6);
    assert FirstObjection(w, 2) == if Objects(BadCandle, w) then Some(BadCandle)
                                   else if Objects(BadObservation, w) then Some(BadObservation) else FirstObjection(w, 4);
  }

  lemma RejectionIsFirst(w: RunWrite)
    ensures Rejection(w) == FirstObjection(w, 0)
  {
    hide Objects, ValidHeader, ValidCandles, ValidObservations, ValidQualities, ValidTransforms, DerivedCovered, ValidWatermarks, ValidEntitlements,
      ValidBackups, PromotesNothing, SoundHeader, FirstObjection;
    ChainUnfolds(w);
    HeaderIff(w);
    CandlesIff(w);
    ObservationsIff(w);
    QualitiesIff(w);
    TransformsIff(w);
    CoveredIff(w);
    WatermarksIff(w);
    EntitlementsIff(w);
    BackupsIff(w);
    PlainObjections(w);
  }

  /** A run is refused for the first objection to it, if there is one. */
  lemma RefusedFor(w: RunWrite)
    ensures Rejection(w).None? <==> Reaches(w, |ORDER|)
    ensures forall n :: 0 <= n < |ORDER| ==> (Rejection(w) == Some(ORDER[n]) <==> Objects(ORDER[n], w) && Reaches(w, n))
  {
    hide Objects, FirstObjection, Rejection;
    RejectionIsFirst(w);
    FirstAt(w, 0);
  }

  lemma PlainObjections(w: RunWrite)
    ensures Objects(BadHeader, w) <==> !SoundHeader(w)
    ensures Objects(FailedRunPromotes, w) <==> w.status == "failed" && !PromotesNothing(w)
  {
    hide SoundHeader;
  }

  // ----- what is stored -----

  /** The same text with its capital letters made small. */
  predicate Lowers(stored: string, submitted: string) {
    |stored| == |submitted| && forall i :: 0 <= i < |stored| ==>
      stored[i] == if 'A' <= submitted[i] <= 'Z' then (submitted[i] as int + 32) as char else submitted[i]
  }

  predicate LowersIfAny(stored: Option<string>, submitted: Option<string>) {
    match submitted
    case Some(text) => stored.Some? && Lowers(stored.value, text)
    case None => stored == None
  }

  lemma LowerSays(s: string)
    ensures Lowers(Lower(s), s)
  {
    hide Lower;
    forall i | 0 <= i < |s|
      ensures Lower(s)[i] == if 'A' <= s[i] <= 'Z' then (s[i] as int + 32) as char else s[i]
    {
      LoweredAt(s, i);
    }
  }

  lemma LowerHashSays(s: Option<string>)
    ensures LowersIfAny(LowerHash(s), s)
  {
    hide Lower, Lowers;
    if s.Some? {
      LowerSays(s.value);
    }
  }

  /** Each stored receipt is the submitted one, its digests in small letters. */
  predicate RowsAsSubmitted(pre: Tables, w: RunWrite, post: Tables) {
    && |post.observations| == |pre.observations| + |w.observations|
    && |post.qualities| == |pre.qualities| + |w.qualities| && |post.transforms| == |pre.transforms| + |w.transforms|
    && (forall i :: 0 <= i < |w.observations| ==>
          var row, o := post.observations[|pre.observations| + i], w.observations[i];
          row == o.(responseHash := row.responseHash) && LowersIfAny(row.responseHash, o.responseHash))
    && (forall i :: 0 <= i < |w.qualities| ==>
          var row, q := post.qualities[|pre.qualities| + i], w.qualities[i];
          row == q.(receiptHash := row.receiptHash) && LowersIfAny(row.receiptHash, q.receiptHash))
    && (forall i :: 0 <= i < |w.transforms| ==>
          var row, t := post.transforms[|pre.transforms| + i], w.transforms[i];
          row == t.(inputHash := row.inputHash, outputHash := row.outputHash) && Lowers(row.inputHash, t.inputHash) && Lowers(row.outputHash, t.outputHash))
  }

  lemma ReceiptsStored(pre: Tables, w: RunWrite, at: string, post: Tables)
    requires Accepted(pre, w, at, post)
    ensures RowsAsSubmitted(pre, w, post)
  {
    hide Decide, Upserted, Lower, Lowers;
    forall o: ObservationWrite
      ensures LowersIfAny(LowerHash(o.responseHash), o.responseHash)
    {
      LowerHashSays(o.responseHash);
    }
    forall q: QualityWrite
      ensures LowersIfAny(LowerHash(q.receiptHash), q.receiptHash)
    {
      LowerHashSays(q.receiptHash);
    }
    forall t: TransformWrite
      ensures Lowers(Lower(t.inputHash), t.inputHash) && Lowers(Lower(t.outputHash), t.outputHash)
    {
      LowerSays(t.inputHash);
      LowerSays(t.outputHash);
    }
  }

  lemma StoredUnderKey(pre: Tables, w: RunWrite, at: string, post: Tables, i: nat)
    requires Accepted(pre, w, at, post) && i < |w.candles|
    ensures var id := CandleIdOf(w.candles[i]);
            id in post.candles && post.candles[id] == StoredCandle(w.candles[i], w.transforms, |pre.transforms|)
  {
    hide Decide, Rows, StoredCandle, CandleIdOf;
    assert CandleKeys(w)[i] == CandleIdOf(w.candles[i]) && CandleRows(w, |pre.transforms|)[i] == StoredCandle(w.candles[i], w.transforms, |pre.transforms|);
  }

  lemma LastReceipt(pre: Tables, w: RunWrite, c: Candle)
    requires DerivedCovered(w) && c in w.candles && c.derived
    ensures LastDeriving(pre, w, c, StoredCandle(c, w.transforms, |pre.transforms|).transformReceiptId)
  {
    hide LastTransform;
    var i :| 0 <= i < |w.candles| && w.candles[i] == c;
    assert exists j :: 0 <= j < |w.transforms| && TransformIdOf(w.transforms[j]) == NeededTransform(c.key);
    var j := LastTransform(w.transforms, NeededTransform(c.key));
    assert Derives(w.transforms[j], c);
    forall k | j < k < |w.transforms|
      ensures !Derives(w.transforms[k], c)
    {
      assert TransformIdOf(w.transforms[k]) != NeededTransform(c.key);
    }
  }

  /** The stored candle is the submitted one, but for the id of the last receipt of its run that derives it. */
  predicate CandleAsSubmitted(pre: Tables, w: RunWrite, post: Tables, c: Candle, id: CandleId) {
    && id in post.candles && OneSeriesId(id.series, c.key) && id.stamp == c.stamp
    && post.candles[id] == c.(transformReceiptId := post.candles[id].transformReceiptId)
    && if c.derived then LastDeriving(pre, w, c, post.candles[id].transformReceiptId) else post.candles[id] == c
  }

  /** Each submitted candle is stored under its own identity. */
  lemma CandleStored(pre: Tables, w: RunWrite, at: string, post: Tables, i: nat)
    requires Accepted(pre, w, at, post) && i < |w.candles|
    ensures CandleAsSubmitted(pre, w, post, w.candles[i], CandleIdOf(w.candles[i]))
  {
    hide Accepted, LastDeriving, LastTransform;
    StoredUnderKey(pre, w, at, post, i);
    if w.candles[i].derived {
      AcceptedCovers(pre, w, at, post);
      LastReceipt(pre, w, w.candles[i]);
    }
  }

  lemma AcceptedCovers(pre: Tables, w: RunWrite, at: string, post: Tables)
    requires Accepted(pre, w, at, post)
    ensures DerivedCovered(w)
  {
    hide Applied, DerivedCovered, Decide;
    AcceptedRun(pre, w);
  }

  predicate OneSeriesId(id: SeriesId, k: SeriesKey) {
    && id.sourceId == k.sourceId && id.instrumentId == k.instrumentId && id.timeframe == k.timeframe
    && id.adjustmentBasis == k.adjustmentBasis && id.manifestVersion == k.manifestVersion
  }

  /** The id is that of the run's last receipt that derives the candle; ids count the stored receipts from one. */
  predicate LastDeriving(pre: Tables, w: RunWrite, c: Candle, id: Option<int>) {
    exists j :: 0 <= j < |w.transforms| && id == Some(|pre.transforms| + j + 1) && Derives(w.transforms[j], c)
      && forall k :: j < k < |w.transforms| ==> !Derives(w.transforms[k], c)
  }

  /** Each submitted watermark, entitlement and backup is stored under its own key with all its fields. */
  lemma KeyedRowsStored(pre: Tables, w: RunWrite, at: string, post: Tables)
    requires Accepted(pre, w, at, post)
    ensures forall i :: 0 <= i < |w.watermarks| ==>
              var m, id := w.watermarks[i], IdOf(w.watermarks[i].key);
              id in post.watermarks && post.watermarks[id].key == m.key && post.watermarks[id].lastClosed == m.lastClosed
              && post.watermarks[id].cursor == m.cursor && post.watermarks[id].runId == m.runId
    ensures forall i :: 0 <= i < |w.entitlements| ==>
              var e := w.entitlements[i];
              e.receiptId in post.entitlements && post.entitlements[e.receiptId] == e.(receiptHash := post.entitlements[e.receiptId].receiptHash)
              && Lowers(post.entitlements[e.receiptId].receiptHash, e.receiptHash)
    ensures forall i :: 0 <= i < |w.backups| ==>
              var b := w.backups[i];
              b.backupId in post.backups && post.backups[b.backupId] == b.(checksum := post.backups[b.backupId].checksum)
              && Lowers(post.backups[b.backupId].checksum, b.checksum)
  {
    hide Decide, Rows, IdOf, Lower, Lowers;
    var wk, ek, bk := WatermarkKeys(w), EntitlementKeys(w), BackupKeys(w);
    forall i | 0 <= i < |w.watermarks|
      ensures IdOf(w.watermarks[i].key) in post.watermarks && post.watermarks[IdOf(w.watermarks[i].key)] == NewWatermark(w.watermarks[i])
    {
      assert wk[i] == IdOf(w.watermarks[i].key);
    }
    forall i | 0 <= i < |w.entitlements|
      ensures ek[i] == w.entitlements[i].receiptId && Lowers(Lower(w.entitlements[i].receiptHash), w.entitlements[i].receiptHash)
    {
      LowerSays(w.entitlements[i].receiptHash);
    }
    forall i | 0 <= i < |w.backups|
      ensures bk[i] == w.backups[i].backupId && Lowers(Lower(w.backups[i].checksum), w.backups[i].checksum)
    {
      LowerSays(w.backups[i].checksum);
    }
  }
}
