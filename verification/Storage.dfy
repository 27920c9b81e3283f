/** The storage seam's entities (src/kline/storage.py). */
module Storage {
  import opened Results
  import opened Timestamps

  datatype Timeframe = M1 | M5 | M15 | M30 | H1 | H4 | D1 | W1

  /** MVP_TIMEFRAMES */
  predicate IsMvp(tf: Timeframe) {
    tf in {M15, H1, H4, D1, W1}
  }

  datatype VolumeSemantics = Traded | QuoteDerived | NotApplicable

  datatype SeriesKey = SeriesKey(
    instrumentId: string, displaySymbol: string, providerSymbol: string, sourceId: string,
    assetClass: string, timeframe: Timeframe, adjustmentBasis: string, manifestVersion: string)

  /** The five columns every index and lookup identifies a series by. */
  datatype SeriesId = SeriesId(
    sourceId: string, instrumentId: string, timeframe: Timeframe,
    adjustmentBasis: string, manifestVersion: string)

  function IdOf(k: SeriesKey): SeriesId {
    SeriesId(k.sourceId, k.instrumentId, k.timeframe, k.adjustmentBasis, k.manifestVersion)
  }

  /** One candle; its timestamp column is `Canon(stamp)`, so `stamp` loses nothing (Timestamps.CanonOrder). */
  datatype Candle = Candle(
    key: SeriesKey, stamp: int, open: real, high: real, low: real, close: real,
    volume: Option<real>, amount: Option<real>, semantics: VolumeSemantics,
    derived: bool, transformReceiptId: Option<int>)
  {
    /** What `MvpCandle.__post_init__` admits. */
    predicate Valid() {
      && Representable(stamp)
      && IsMvp(key.timeframe)
      && high >= open && high >= close && low <= open && low <= close
      && (semantics == NotApplicable <==> volume == None)
      && (volume.Some? ==> volume.value >= 0.0)
    }
  }

  datatype IssueKind =
    | Malformed | Duplicate | OutOfOrder | MixedSource | FormingBar | OutsideSession | HolidayBar
    | PartialBucket | Gap | MissingRows

  /** What an issue points at: nothing, the canonical text of an instant, a bare date, or the text of a rejected row. */
  datatype Target = Nowhere | At(stamp: int) | OnDay(day: int) | RawText(text: string)

  datatype Issue = Issue(kind: IssueKind, at: Target)

  /** Whether an issue's timestamp string is the timestamp string of a candle at `t`. */
  predicate PointsAt(p: Target, t: int) {
    match p
    case Nowhere => false
    case At(u) => u == t
    case OnDay(_) => false
    case RawText(s) => Representable(t) && s == Canon(t)
  }
}
