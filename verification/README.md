# Market-data ingestion, verified

This project models how bars become trusted in the market-data store: how they are fetched, graded,
aggregated, promoted and served, how gaps in a venue's history are filled and reported, and how a
failed member of the universe is replaced.

## How it is put together

- `Timestamps` builds the Gregorian calendar, the canonical UTC spelling and its parser, and proves
  that text order is time order. The store compares times as text, so everything else leans on it;
  `IsoForms` says exactly which texts the parser reads, `Spellings` what happens to those that are not canonical.
- `Storage`, `Calendar`, `Quality` hold the entities, session calendars and the quality gate. `Sessions`
  says the same of the clock: opening hours, when a bar is closed, which bucket it goes to.
- `Aggregation`, `AggregationLemmas`, `AggregationTheorems`, `Conservation`, `Repaint`,
  `Composition`, `Weekly`, `WeeklyLaws`, `Summaries` hold the three aggregators: loops proved equal to a
  specification, and the laws of that specification. `Summaries` says what a candle is of its bars.
- `RunWrites`, `Store`, `StoreHistory`, `Serving` hold the transactional store. A transaction stages
  a copy of the tables and publishes or discards it; a history is any sequence of commits. `Submissions`
  says of the submitted rows when a run is refused and where each of them ends up.
- `Retries` holds the retry loop around an adapter, `Ingestion` the orchestrator, `Promotion` what it
  lets through, `Protocol` the state machine in which any number of runs interleave their fetches with
  atomic commits, `Assembly` and `Acceptance` when the store accepts what a run submits, `Receipts`
  what a cell records, `Provenance` which row of which answer a stored candle repeats, and `Opening` a
  worked answer.
- `Backfill`, `Funding`, `Coverage` hold the resumable history download and its report.
- `Manifest`, `Replacements` hold the replacement of members and chains of replacements, `Validity` and
  `Refusals` what makes a manifest valid and a replacement refused.
- `Repair`, `Merge`, `Freshness` hold the timestamp repair, the database merge and the look-back.

Instants are integer microseconds since 0001-01-01 (a Monday), or milliseconds since the epoch in the
history download. Prices and volumes are exact reals. Digests are opaque texts. An adapter or a venue
is an arbitrary function of the request; where a law needs a venue that keeps its documented contract,
the contract is a predicate (`Honest`, `HonestFunding`, `WellFormedAnswer`).

## Where the code does not keep its promise

Each of the following is a lemma with the exact condition or a concrete input, mostly both.

- The comment beside the opening buffer in `assess_quality` (src/kline/market_calendar.py:767-769) says
  that only cells graded `pass` are promoted. The orchestrator promotes `partial` ones too
  (src/kline/ingestion.py:756), and the model follows it: `Promotion.PromotesIff` says exactly when,
  `Opening.PartialIsPromoted` shows it, and `Promotion.UsableExactly` says why no forming bar gets
  through all the same.

- 4h candles are never published for Tokyo and Hong Kong, and once a day for Shanghai, New York and
  Seoul: `Repaint.FourHourTable`.
- A published 4h or 1h candle can vanish again when bars are off the quarter: `Repaint.RepaintIff`,
  `Repaint.StrayBarRepaints`. A published weekly candle of a calendar that never closes is open to
  change until its last bar has run 24 hours, a second for midnight bars and most of a day for bars
  dated by midnight UTC in Chicago: `Weekly.ContinuousWeekFinalIff`, `Weekly.EveningBarRepaints`.
- The composition of 4h from 1h fails for `amount` when a later hour begins with a row without one:
  `Composition.FourHoursCompose`.
- A run resubmitted with an upper-case digest is refused, because the digest is stored in lower case
  and compared as given: `StoreHistory.RepeatIff`.
- The watermark guard compares texts that the store does not normalise. Of a full date and time, the zone
  spellings by which it still guards time are exact: `Spellings.StoredWatermarkGuardIff`, `Spellings.SubmittedWatermarkGuardIff`.
- One answer with ill-formed aggregation metadata makes the store reject a whole run:
  `Acceptance.CellsAcceptedIff`, `Opening.SelfAggregateIsRejected`.
- A row whose UTC time has no date (0001-01-01T00:00:00+01:00, say) is not reported as malformed: the
  overflow is not caught, so the whole run ends and commits nothing: `Opening.StrayRowEndsRun`,
  `Opening.StrayExists`, `Acceptance.RunSubmitsIff`.
- A repeated timestamp loses every row that carries it, the first included: `Promotion.UsableExactly`.
- A day with bars off the minute can look complete: `Coverage.SkipMisleadsIff`,
  `Coverage.SkippedWithAHole`, `Coverage.CountsAddUp`.
- A replacement is refused at the end when the caller's spelling of the failed symbol differs from the
  manifest's in case or spaces, although the lookup accepts it: `Manifest.AcceptedIff`.
- The timestamp repair cannot see `+hh:mm` and `Z` texts or a space for the `T`, so it need not merge the rows of
  one instant: `Repair.SingleIff`, `Repair.ScannedIff`, `Repair.TwoRowsStay`, `Repair.ZuluStays`, `Repair.SpaceStays`.
- Merging databases leaves watermarks behind and copies receipt ids: `Merge.WatermarksAfterMerge`,
  `Merge.ReceiptsAfterMerge`.

## Model

| member | source | states |
|---|---|---|
| Timestamps.CanonOrder | src/kline/storage.py:31-41 | Over all representable microsecond instants, canonical texts sort exactly as the instants do, and are equal exactly when the instants are |
| Timestamps.ParseCanon | src/kline/storage.py:31-41 | The canonical text of an instant reads back as that instant |
| Timestamps.NormalizeFaithful | src/kline/storage.py:31-41 | Normalising a canonical text changes nothing |
| Timestamps.NormalizeOrders | src/kline/storage.py:31-41 | For any two accepted spellings: same canonical text iff same instant, canonical order iff time order, normalising twice is normalising once, and the result still denotes the instant |
| IsoForms.ReadsIff | src/kline/storage.py:36-41 | A text reads as an instant iff it spells it: a date alone, or a date, any character, a clock of minutes, seconds, milliseconds or microseconds, and no zone or a signed one |
| IsoForms.StripTakesSpace | src/kline/storage.py:31-34 | Stripping takes nothing but white space off the ends of a text and leaves none there |
| Spellings.SpelledReads | src/kline/storage.py:36-41 | However the zone of a text is spelled (nothing, `Z`, or any signed offset), it reads as its instant |
| Spellings.ExactIffCanonical | src/kline/store.py:997-1002 | Over all zone spellings: text comparison with every canonical text is time comparison, whichever side the text is on, iff the text is canonical |
| Spellings.StoredWatermarkGuardIff | src/kline/store.py:997-1002 | Negative result with its exact condition: a stored watermark spelled in any zone guards its series by time against canonical submissions iff it names no zone or `+00:00` |
| Spellings.SubmittedWatermarkGuardIff | src/kline/store.py:997-1002 | Over canonical watermarks, a submitted text is turned back by time iff it ends in `+00:00` or `-00:00`, or in `Z` behind a fraction |
| Calendar.FindSequenceIssues | src/kline/market_calendar.py:250-277 | The scan with its seen-sets reports exactly the specified duplicate, order and mixed-source issues, in order |
| Calendar.SequenceClean | src/kline/market_calendar.py:250-277 | No sequence issue iff stamps strictly increase and all rows come from one source |
| Sessions.SessionHours | src/kline/market_calendar.py:75-141 | The session windows are the opening hours of each market in minutes of its local day |
| Sessions.PlacedIff | src/kline/market_calendar.py:210-220 | A bar is well placed iff its market never closes, or it is daily or weekly, or it starts on an open quarter hour |
| Sessions.DailyClosed | src/kline/market_calendar.py:234-238 | A daily bar is closed iff no open instant of its local day lies at or past the cutoff; where trading never stops, iff 24 hours have passed |
| Sessions.WeekOverIff | src/kline/market_calendar.py:239-246 | A week is over iff no open instant of its session days is left; where trading never stops, iff its last second has begun |
| Sessions.GapIff | src/kline/market_calendar.py:690-713 | Two closed bars have a gap between them iff they lie in one session of one local day more than one and a half intervals apart |
| Sessions.PlaceIff | src/kline/market_calendar.py:364-392 | Where a quarter-hour bar goes, told from the clock: forming, out of session, holiday, or the one bucket that starts where it should |
| Sessions.GridIff | src/kline/market_calendar.py:394-410 | A stamp is on the grid of a bucket iff it is a whole number of quarters into the hours the bucket spans, Shanghai's lunch break left out |
| Provenance.ClosedIff | src/kline/market_calendar.py:222-247 | A bar counts as closed iff 15 minutes, an hour or four hours have passed since its stamp, or its day or week is over |
| Aggregation.GroupBars | src/kline/market_calendar.py:364-392 | The grouping loop puts every bar in its bucket, in first-seen key order, and lists forming, holiday and out-of-session bars |
| Aggregation.PublishBuckets | src/kline/market_calendar.py:394-423 | The publishing loop emits the complete buckets and lists the partial ones |
| Aggregation.AggregateQuarters | src/kline/market_calendar.py:338-548 | The whole 15m to 4h or 1h aggregator equals its specification, empty and inadmissible input included |
| AggregationTheorems.CompleteIff | src/kline/market_calendar.py:394-410 | A bucket is published iff the stamps of its bars are, as a multiset, its expected grid: no hole, no duplicate, no stranger |
| AggregationTheorems.Exactness | src/kline/market_calendar.py:394-423 | Emitted stamps strictly increase and are exactly the buckets whose bars are the grid; partial ones are exactly the other used buckets; every candle folds the sorted bars of its bucket |
| AggregationTheorems.PermutationInvariance | src/kline/market_calendar.py:394-423 | Candles and partial buckets depend only on the multiset of input bars |
| Summaries.PublishedSumsUp | src/kline/market_calendar.py:318-335 | Each published 4h or 1h candle opens with the first bar of its bucket and closes with the last; no bar leaves its range and some bar reaches each end; volumes and amounts add up; and those bars are exactly the input's bars of the bucket, one on each stamp of its grid |
| Summaries.PublishedValid | src/kline/market_calendar.py:318-335 | Published candles of admissible bars are admissible |
| Summaries.ReceiptSays | src/kline/market_calendar.py:424-446 | An aggregation has a receipt iff it published; the receipt spans the input and counts the partial buckets |
| Summaries.RefusedInput | src/kline/market_calendar.py:560-570 | What the aggregators refuse, in order: the wrong timeframe, a second identity, a second meaning of volume |
| Conservation.EveryBarOnce | src/kline/market_calendar.py:364-423 | Every input bar is, as a multiset, in exactly one of: forming, out of session, holiday, a partial bucket, an emitted bucket |
| Conservation.VolumeConserved | src/kline/market_calendar.py:318-335 | Emitted volume plus dropped volume is the input volume |
| Composition.FourHoursCompose | src/kline/market_calendar.py:385-423 | Each 4h candle is the fold of the four 1h candles emitted for its hours, lunch break included, for OHLC and volume always, and for amount exactly under the stated condition; those hours are always emitted |
| Repaint.RepaintIff | src/kline/market_calendar.py:364-410 | For arbitrary bars: a published bucket survives a later cutoff iff no bar of it closes in between, and surviving means the very same candle |
| Repaint.NoRepaint | src/kline/market_calendar.py:364-423 | On quarter-aligned input a raised cutoff keeps every published 4h and 1h candle unaltered |
| Repaint.StrayBarRepaints | src/kline/market_calendar.py:364-410 | Negative result: on a calendar that never closes, an unaligned bar takes back a published 4h candle |
| Repaint.PublishableIff | src/kline/market_calendar.py:385-423 | A bucket can be published by some input and cutoff iff every stamp of its grid is admitted to it |
| Repaint.FourHourTable | src/kline/market_calendar.py:385-423 | On session calendars the publishable 4h buckets are one a day in Shanghai, New York and Seoul and none in Tokyo and Hong Kong |
| Repaint.ContinuousTable | src/kline/market_calendar.py:385-423 | On calendars that never close every 4h bucket is publishable |
| Weekly.GroupDays | src/kline/market_calendar.py:576-593 | Daily bars are grouped by local week, late and holiday bars reported |
| Weekly.PublishWeeks | src/kline/market_calendar.py:595-612 | Weeks that are over are published, the others deferred and reported |
| Weekly.AggregateDays | src/kline/market_calendar.py:551-634 | The weekly aggregator equals its specification: candles, receipt, deferred weeks, issues and errors |
| Weekly.WeeklyExactness | src/kline/market_calendar.py:576-612 | Weekly candles strictly increase and are exactly the folds of the used weeks that are over |
| Summaries.WeeklySumsUp | src/kline/market_calendar.py:595-612 | Each published weekly candle sums up exactly the bars of its week in the same sense, and that week is over |
| Summaries.WeekPublished | src/kline/market_calendar.py:595-612 | A week is published iff it is over and some bar goes to it |
| Summaries.WeeklyValid | src/kline/market_calendar.py:595-612 | Published weekly candles of admissible bars are admissible, if the date of the week's last session day exists |
| Summaries.WeeklyReceiptSays | src/kline/market_calendar.py:614-631 | There is a weekly receipt iff a week was published; it spans the input and counts the deferred weeks |
| Weekly.WeeklyNoRepaint | src/kline/market_calendar.py:576-612 | On session calendars a raised cutoff keeps every published weekly candle unaltered |
| Weekly.ContinuousWeekFinalIff | src/kline/market_calendar.py:576-612 | Negative result with its exact condition, for bars at any time of day: on a calendar that never closes the rows of a week are final iff every bar whose local day lies in it has run its 24 hours |
| Weekly.MidnightWeekFinalIff | src/kline/market_calendar.py:222-247 | For midnight bars that is: no Sunday bar, or one second past the week's close |
| Weekly.EveningBarRepaints | src/kline/market_calendar.py:576-612 | For bars dated by midnight UTC in Chicago a published week still gains its Sunday bar eighteen hours and a second later |
| WeeklyLaws.EveryDayOnce | src/kline/market_calendar.py:576-612 | Every daily bar is, as a multiset, in exactly one of: forming, holiday, a deferred week, a published week |
| WeeklyLaws.WeeklyVolumeConserved | src/kline/market_calendar.py:318-335 | Published weekly volume plus the volume of every bar left out is the input volume |
| WeeklyLaws.WeeklyPermutation | src/kline/market_calendar.py:576-612 | Deferred weeks and the dates of the candles depend only on the multiset of daily bars, and so do the candles when no two different bars share a timestamp |
| WeeklyLaws.TwinsDecide | src/kline/market_calendar.py:598-612 | Without that condition they do not: two bars of one timestamp with different opens give another candle when they change places |
| Quality.CheckBars | src/kline/market_calendar.py:669-689 | The bar loop reports exactly the placement and forming issues and collects the closed stamps, unless the local time or the end of some bar has no date |
| Quality.FindGaps | src/kline/market_calendar.py:690-713 | The gap loop reports exactly the same-session gaps between closed bars |
| Quality.AssessQuality | src/kline/market_calendar.py:637-781 | The gate computes the specified verdict; an invalid policy is an error, and so is a bar or an opening buffer that leaves the dates |
| Quality.PassIff | src/kline/market_calendar.py:661-781 | A pass iff nothing was rejected and the rows are there, strictly increase, come from one source, are closed, in session when intraday, and leave no gap |
| Quality.NotFailedIsClosed | src/kline/market_calendar.py:746-781 | Outside the opening buffer a cell that is not failed has only closed bars of one source, and no more bad rows than the threshold |
| Quality.UsableIff | src/kline/ingestion.py:393-402 | Of rows with distinct stamps exactly those may be promoted that are closed, well placed and share no timestamp with a rejected row |
| Receipts.GradeExactly | src/kline/market_calendar.py:746-781 | A cell fails iff an issue is fatal or the bad rows exceed the tolerated share of rows and gaps; it passes iff there is no issue |
| Receipts.BufferIff | src/kline/market_calendar.py:746-770 | The opening buffer is on for 15m and 1h cells of a Shanghai weekday, from 9:30 on for the minutes of the policy |
| RunWrites.CheckCandles | src/kline/store.py:556-565 | The seen-set loop accepts iff versions match and identities are unique |
| RunWrites.CheckQualities | src/kline/store.py:595-616 | The seen-set loop accepts iff every quality receipt is valid and series are unique |
| RunWrites.CheckTransforms | src/kline/store.py:618-665 | The seen-set loop accepts iff every transform receipt is valid and identities are unique |
| RunWrites.CheckWatermarks | src/kline/store.py:679-694 | The seen-set loop accepts iff every watermark is valid and series are unique |
| RunWrites.CoverageIff | src/kline/store.py:667-677 | The set difference of derived and receipt identities is empty iff every derived candle has a receipt |
| RunWrites.ValidateRun | src/kline/store.py:526-740 | Validation answers the first broken rule in checking order, or none |
| Submissions.RefusedFor | src/kline/store.py:526-740 | Each error is the answer iff its objection, read off the submitted rows alone, holds and no earlier one does; a run is let in iff none holds |
| Store.StageTransforms | src/kline/store.py:845-871 | Receipts are appended and output identities mapped to the database ids of their last receipts |
| Store.StageCandles | src/kline/store.py:873-933 | Candle upserts leave each submitted identity with its own row and every other row untouched |
| Store.StageWatermarks | src/kline/store.py:987-1027 | The loop rejects iff some watermark would move back; otherwise each series has the submitted one |
| Store.InsertRows | src/kline/store.py:821-843 | Inserts succeed iff every primary key is new |
| Store.KlineStore.CommitMvpRun | src/kline/store.py:761-1062 | A commit is rejected or repeated with every table as it was, or accepted with every table stated outright |
| Submissions.ReceiptsStored | src/kline/store.py:845-986 | An accepted run's observations, quality and transform receipts are stored field by field, in order, behind the old ones |
| Submissions.CandleStored | src/kline/store.py:873-933 | Each submitted candle is stored under its own identity with all its fields, a derived one with the id of its receipt |
| Submissions.KeyedRowsStored | src/kline/store.py:821-1042 | Each submitted watermark, entitlement and backup is stored under its own key with all its fields |
| Store.KlineStore.GetMvpWatermark | src/kline/store.py:1111-1131 | The stored watermark of the series, under the key asked for |
| StoreHistory.AlwaysConsistent | src/kline/store.py:798-1049 | After any sequence of commits: receipts and watermarks belong to runs that did not fail, every derived candle points at an existing receipt of its instrument, source, timeframe and version, and table sizes per run are the counts the run row states |
| StoreHistory.SizesAddUp | src/kline/store.py:812-986 | The observation, quality and transform tables are as large as the counts of all run rows add up to |
| StoreHistory.SizesBounded | src/kline/store.py:812-933 | The candle and watermark tables never hold more rows than the counts of all run rows add up to |
| StoreHistory.WatermarksMonotone | src/kline/store.py:987-1027 | Over any stretch of a history every watermark stays and never decreases |
| StoreHistory.RunsPermanent | src/kline/store.py:784-819 | A stored run is never changed or removed |
| StoreHistory.RepeatIff | src/kline/store.py:784-796 | An accepted run submitted again answers with its first receipt and changes nothing iff it did not fail and its digest was submitted in lower case; otherwise a differently cased digest is refused as another manifest |
| StoreHistory.CommitIsStep | src/kline/store.py:761-1062 | Every call of commit, whatever it answers, is a step of the history |
| Serving.QueryMvpCandles | src/kline/store.py:1064-1109 | The latest matching candles up to the limit, oldest first, exactly as stored; nothing newer is left out |
| Serving.MatchesBetween | src/kline/store.py:1075-1092 | Asked from one instant to another, or with an end open, what matches is exactly the stored candles of the series between them, both ends included |
| Serving.NewestIsWatermark | src/kline/store.py:1064-1131 | In every reachable state the newest candle served is the one the watermark names |
| Ingestion.ToMvpRows | src/kline/ingestion.py:344-391 | The normalising loop keeps the first admitted row of each timestamp, copied field by field and stamped with the instant its text reads as, and reports every other row; it ends at a row whose UTC time has no date |
| Ingestion.RunFetchedCell | src/kline/ingestion.py:673-851 | A fetched cell equals its specification, transform receipt and malformed receipt included, or raises exactly when the answer leaves the dates or its partial count is of a type `int` refuses |
| Ingestion.IngestionOrchestrator.RunInstrument | src/kline/ingestion.py:538-970 | One instrument adds exactly its cells, or stops at an unreadable watermark or an answer that raises |
| Ingestion.IngestionOrchestrator.RunOnce | src/kline/ingestion.py:438-1015 | A run is the cells of the chosen instruments in order and one commit; a plan problem, an unreadable watermark or an answer that raises leaves the store as it was |
| Receipts.ChosenSays | src/kline/ingestion.py:468-540 | The selection keeps the manifest's order and takes exactly the named instruments, all of them when none is named |
| Receipts.StartSays | src/kline/ingestion.py:204-217 | A cell is asked again from the overlap before its watermark, or from the plan's own start |
| Receipts.RunSucceedsIff | src/kline/ingestion.py:971-972 | A run calls itself a success iff every cell is idle, or is asked within the budget and its answer clears |
| Promotion.ReadsExactly | src/kline/ingestion.py:361-391 | At every instant, normalised rows and issues say exactly which raw rows read as it |
| Promotion.UsableExactly | src/kline/ingestion.py:361-402 | Of an answer the run gets through exactly those rows may be promoted that are admitted, closed at the cutoff, in session when intraday, and alone on their instant: a repeated timestamp loses all its rows |
| Opening.PartialIsPromoted | src/kline/ingestion.py:756-757 | Negative result at an input: in the opening buffer a cell graded partial promotes its closed bar |
| Promotion.CellAddsTrusted | src/kline/ingestion.py:756-757 | A cell adds nothing but rows that passed its gate, and none when failed |
| Promotion.StoredAreTrusted | src/kline/ingestion.py:756-757 | After a run every stored candle is an untouched old one or a trusted one of this run |
| Promotion.AlwaysVetted | src/kline/ingestion.py:756-757 | In every reachable state of the interleaved system every stored candle passed the gate of an answer some run got |
| Provenance.PromotedIff | src/kline/ingestion.py:344-402 | A candle of an answer may be promoted iff it repeats one admitted row of it: the same prices, amount and, where it applies, volume, at the instant the row's text reads as; its bar has run its length, it starts where it may, and no other row of the answer is admitted at that instant or rejected with its text |
| Provenance.AlwaysSourced | src/kline/ingestion.py:344-402 | In every reachable state of the interleaved system every stored candle lies under its own identity and so repeats a row of an answer some run got |
| Retries.FetchWithRetries | src/kline/ingestion.py:219-342 | The adapter is asked until the first attempt that ends the loop and never again, within the retries; its ending is the caller's and the log holds every attempt but a timed-out one |
| Retries.AskedAgainIff | src/kline/ingestion.py:304-334 | An attempt is followed by another iff a retry is left and it ended in an unforeseen exception or a provider error of none of the five final kinds |
| Retries.LogHolds | src/kline/ingestion.py:237-250 | The log holds under the number of each attempt exactly what that attempt logged, and nothing of one that timed out |
| Protocol.CellKeepsSound | src/kline/ingestion.py:718-776 | Whatever a cell reads and whenever it reads it, its draft still owes the store nothing it cannot keep |
| Protocol.CommitKeepsExact | src/kline/store.py:873-1027 | An accepted commit of such a draft keeps watermarks equal to the greatest stored timestamps |
| Protocol.AlwaysExact | src/kline/ingestion.py:756-776 | In every state that interleaved fetches and commits (repeated, rejected or faulted) reach, a series has a watermark iff it has a candle and no stored candle is past it |
| Protocol.WatermarkIsLatest | src/kline/store.py:987-1027 | The same of instants: the watermark reads as the latest stored instant of its series, and that candle is stored |
| Assembly.Assembled | src/kline/ingestion.py:538-1015 | Over distinct cells with well-formed answers every list meets the store's rules; observations = quality receipts = requests = required cells cut at the budget; grades sum to the required cells; raised + suppressed watermarks = promoted cells |
| Acceptance.RequestCount | src/kline/ingestion.py:575-605 | Whatever it is answered, a run asks its required cells as far as the budget goes |
| Acceptance.UncleanRun | src/kline/ingestion.py:777-828 | One answer that is not clean leaves two receipts of one series or a receipt the store refuses, in the whole run's draft |
| Acceptance.CellsAcceptedIff | src/kline/ingestion.py:971-992 | Over distinct cells and with no commit in between, the store accepts the submitted run iff the plan's texts are there, the run id is new, and every answer asked for is clean: if its usable rows are aggregated, its metadata are well formed |
| Acceptance.WellFormedRunIsClean | src/kline/ingestion.py:673-693 | Adapters with well-formed metadata give clean answers; whether the run gets through their rows is another matter |
| Acceptance.RunSubmitsIff | src/kline/ingestion.py:538-970 | With exact watermarks a run reaches its commit iff every cell it asks re-reads from an instant that has a date and no answer raises: each row and what the gate computes from it has a date, and an aggregate has no partial count of a type `int` refuses |
| Acceptance.RunIsAcceptedIff | src/kline/ingestion.py:538-992 | From any reachable state the run is submitted and accepted iff plan, run id, starts, dates and answers are as above; an accepted run has one observation and one quality receipt a request, a grade for every required cell and a watermark raised or suppressed for every promoted one |
| Opening.SelfAggregateIsRejected | src/kline/ingestion.py:777-828 | Negative result at an input: one answer aggregated from the timeframe it was asked for gets the run refused by an empty store |
| Opening.StrayRowEndsRun | src/kline/storage.py:36-41 | Negative result at inputs: an answer the run drafts, and one more row whose local time has a date and whose UTC time has none, such as the first midnight of year 1 an hour east of Greenwich: the run ends |
| Backfill.WindowsTile | src/kline/okx_history.py:72-80 | Windows abut, are not empty, end where the range ends and each lie within one UTC day |
| Backfill.WindowsPartition | src/kline/okx_history.py:72-80 | Windows never overlap and cover exactly the range |
| Backfill.DayWindows | src/kline/okx_history.py:72-80 | The loop returns these windows, newest first |
| Backfill.Collect | src/kline/okx_history.py:95-108 | The paging loop ends against every venue, and returns what its pages come to |
| Backfill.RefusedIff | src/kline/okx_history.py:95-108 | A window's fetch fails iff the venue refuses one of the pages it is asked for, each told from the answer before it |
| Backfill.ScanInside | src/kline/okx_history.py:103-108 | Whatever the venue answers only rows inside the window are kept, each under its own time |
| Backfill.ScanComplete | src/kline/okx_history.py:95-108 | Against a venue whose pages are the newest bars before the cursor, paging comes to exactly its bars of the window |
| Backfill.UpsertsExactly | src/kline/store.py:168-222 | Saving touches exactly the seconds of confirmed rows, the last row of a second winning |
| Backfill.FetchedInside | src/kline/okx_history.py:95-114 | A fetched window touches no second outside it |
| Backfill.FetchedExactly | src/kline/okx_history.py:95-114 | A fetched window gets exactly the venue's confirmed bars of it |
| Backfill.History.Save | src/kline/store.py:168-222 | Saved rows replace what is stored at their second |
| Backfill.History.FetchWindow | src/kline/okx_history.py:95-114 | A window is saved whole, or not at all when a page is refused |
| Backfill.History.Backfill | src/kline/okx_history.py:217-253 | The run leaves the specified store and names exactly the windows that needed fetching and were refused |
| Backfill.FillCommutes | src/kline/okx_history.py:233-244 | Windows may be filled in either order, by different venues |
| Backfill.BackfillResumes | src/kline/okx_history.py:217-253 | Killed after any number of windows, refusals included, and run again, a backfill ends in the store of one uninterrupted run |
| Backfill.BackfillComplete | src/kline/okx_history.py:217-253 | Against an honest venue that refuses no page it is asked for, a time is stored afterwards iff it was before or is a confirmed bar of the range |
| Backfill.BackfillExactly | src/kline/okx_history.py:217-253 | The same for any store: what is added is the confirmed bars of the windows that were not skipped |
| Backfill.RunOutside | src/kline/okx_history.py:217-253 | Whatever the venue answers nothing outside the windows changes |
| Funding.FundingHistory.FetchFunding | src/kline/okx_history.py:117-140 | Paging without a lower bound ends against every venue and stores page by page what the specification says |
| Funding.FundingComplete | src/kline/okx_history.py:117-140 | Against an honest venue paging without refusal stores every settlement and keeps all others |
| Coverage.MissingRuns | src/kline/okx_history.py:143-153 | The runs expand to exactly the absent minutes, in order, and no two could be one |
| Coverage.Merge | src/kline/okx_history.py:156-163 | Merging keeps every minute with its cause and leaves only runs that cannot be merged |
| Coverage.BuildReport | src/kline/okx_history.py:166-207 | The reported gaps are maximal, in order, and expand to exactly the minutes of the range that are not stored, each with its cause; the counts are theirs |
| Coverage.GapsExactly | src/kline/okx_history.py:180-206 | A minute is in a gap iff it lies in the range and is not stored; its cause is the fetch iff the window it lies in is among the failures, and the venue otherwise |
| Coverage.BackfillAndReport | src/kline/okx_history.py:217-253 | After a run from any store against any venue, the report lists exactly the minutes still missing, and puts one down to the fetch iff its window was not skipped and the venue refused one of its pages |
| Coverage.GapsInOrder | src/kline/okx_history.py:156-163 | Gaps never overlap, so each absent minute is listed once |
| Coverage.CountsAddUp | src/kline/okx_history.py:194-203 | Stored + missing = expected + stored bars off the minute; so the three counts agree iff every stored bar is on a minute |
| Coverage.SkippedByCount | src/kline/okx_history.py:234-239 | Any window of any store is skipped iff it has no more absent minutes than bars off the minute |
| Coverage.SkipMisleadsIff | src/kline/okx_history.py:234-239 | Negative result with its exact condition: a window with a missing minute is skipped iff it has absent minutes and no more of them than bars off the minute; a full window is always skipped |
| Coverage.SkippedWithAHole | src/kline/okx_history.py:234-239 | An instance: one bar on the minute and one off it |
| Manifest.NextVersionCounts | src/kline/mvp_manifest.py:1306-1311 | The next version is valid, counts one more and keeps its stem |
| Manifest.CheckOwners | src/kline/mvp_manifest.py:573-583 | The owner-map loop accepts iff no name of a universe answers for two instruments |
| Manifest.OwnedIffUnrelated | src/kline/mvp_manifest.py:573-583 | With distinct ids that is the rule that names never overlap |
| Manifest.EligibleFirst | src/kline/mvp_manifest.py:817-825 | Eligible records come first, so the next eligible reserve is the first record |
| Manifest.EditPool | src/kline/mvp_manifest.py:1249-1280 | The three edit loops produce the specified reserves and re-ranked records |
| Manifest.ReplaceCandidate | src/kline/mvp_manifest.py:1166-1303 | The method equals its specification, every refusal in checking order |
| Refusals.AnswerIff | src/kline/mvp_manifest.py:1166-1303 | For a valid manifest, told from it, the request and its evidence alone: each error is the answer iff its objection holds and none before it does, and the replacement is accepted iff no objection holds |
| Refusals.StrippedFirst | src/kline/mvp_manifest.py:1175 | Any other manifest is judged after its texts are stripped, and refused as invalid if that does not make it valid |
| Validity.ValidIff | src/kline/mvp_manifest.py:522-866 | A manifest is valid iff it keeps each of the written rules on its members, reserves and records |
| Manifest.NextRecordsOk | src/kline/mvp_manifest.py:611-827 | The records after the edit meet all their rules iff the symbol is spelled as the member's and its id is no other reserve's |
| Manifest.AcceptedIff | src/kline/mvp_manifest.py:1175-1283 | A replacement that reaches the edit is accepted iff the failed symbol is spelled exactly as the member's, the new id is no other member's and the failed id no other reserve's; the lookup ignores case and spaces, the last validation does not |
| Replacements.AcceptedMoves | src/kline/mvp_manifest.py:1215-1283 | An accepted replacement is the closed-form move: first reserve up, failed member to the end |
| Replacements.UsesOne | src/kline/mvp_manifest.py:1215-1280 | It uses up exactly one eligible reserve of its universe and none of the other |
| Replacements.KeepsSymbols | src/kline/mvp_manifest.py:1249-1280 | Active and reserve symbols together are what they were, in every universe |
| Replacements.ChainBudget | src/kline/mvp_manifest.py:1166-1303 | A chain of replacements has at most as many steps as there were eligible reserves, exactly accounted per universe |
| Replacements.ChainKeepsSymbols | src/kline/mvp_manifest.py:1166-1303 | Every manifest of a chain holds the same symbols |
| Replacements.ChainCounts | src/kline/mvp_manifest.py:1166-1311 | The revision grows by one a step; active and reserve sizes never change |
| Replacements.NeverReturns | src/kline/mvp_manifest.py:1255-1280 | A failed member stays quarantined and is never active again |
| Repair.FixedKeeps | src/kline/store.py:116-119 | A repaired text denotes the same second, is not scanned again and repairs to itself |
| Repair.ScannedIff | src/kline/store.py:108-113 | Of a full date and time in any zone spelling, the scan sees exactly those that name no zone or a negative offset |
| Repair.RepairRow | src/kline/store.py:115-134 | One row's repair is the map move, the index still unique, whether it merges into a row or is renamed |
| Repair.LegacyTable.NormalizeStoredTimestamps | src/kline/store.py:103-134 | The loop leaves the table of the map in which every scanned row has moved to its canonical key, with nothing left to scan, or everything as it was when one cannot be read |
| Repair.LastScannedWins | src/kline/store.py:120-134 | A key holds afterwards the bar of the last scanned row that moved to it, else what it held unscanned; there is no other key |
| Repair.NothingLeft | src/kline/store.py:108-113 | No key is left that the scan would find |
| Repair.SecondPassIsIdle | src/kline/store.py:103-134 | A second pass has nothing to scan |
| Repair.MomentsKept | src/kline/store.py:115-134 | Each series has the same whole-second instants as before |
| Repair.SingleIff | src/kline/store.py:103-134 | Negative result with its exact condition: the repair leaves one row per series and instant iff of any two rows on one instant, `Z` texts included, at most one is not scanned, and that one already has the canonical text |
| Repair.TwoRowsStay | src/kline/store.py:110-112 | Two rows of one instant, one in UTC and one an hour east, which stay side by side |
| Repair.ZuluStays | src/kline/store.py:110-112 | Two rows of one instant, one canonical and one ending in `Z`, which stay side by side |
| Repair.SpaceStays | src/kline/store.py:110-112 | Two rows of one instant, one canonical and one with a space for its `T`, which stay side by side |
| Merge.CandleDatabase.Merge | ops/merge_mvp_databases.py:59-134 | The target becomes target overridden by the considered rows; before + inserted = after and inserted + replaced + unchanged = considered, each count exact |
| Merge.MergedRow | ops/merge_mvp_databases.py:79-107 | A considered source row wins its identity; every other row is untouched |
| Merge.MergedSince | ops/merge_mvp_databases.py:79-107 | Merging since an instant: rows stamped no earlier win their identity, and nothing else changes |
| Merge.MergeTwice | ops/merge_mvp_databases.py:79-107 | Merging again inserts and replaces nothing |
| Merge.WatermarksAfterMerge | ops/merge_mvp_databases.py:79-108 | Merging writes no watermark: they stay exact iff every merged candle is under its series' watermark |
| Merge.ReceiptsAfterMerge | ops/merge_mvp_databases.py:22-41 | Receipt ids are copied: derived candles match their receipts afterwards iff each merged one matches the receipt its id means in the target |
| Freshness.AssessDailyFreshness | src/kline/session_freshness.py:29-83 | The bounded look-back finds the greatest of all closed sessions, on every calendar and at every moment; stale iff some session after the observed one is over |
| Freshness.ExpectedIsLatest | src/kline/session_freshness.py:55-83 | The expected session is over and no later one is, told from opening hours; stale iff a session after the observed one is over |
| Freshness.FourDaysSuffice | src/kline/session_freshness.py:68-78 | It never looks back more than three days, of fifteen allowed |
| Freshness.StaleStays | src/kline/session_freshness.py:55-83 | The expected session never moves back, so a stale observation stays stale |

## Left out

- Daylight saving and time-zone data: every calendar keeps one fixed UTC offset, and the weekday and session rules are stated on it.
- Floating point: prices, volumes and rates are exact reals, so rounding, infinities and NaN are not modelled.
- ISO spellings other than the extended ones of `IsoForms.IsoSays`, such as `hh`, week dates or fractions of other lengths: the parser here refuses them; white space and letter case beyond ASCII likewise.
- SHA-256 digests, JSON encoding and JSON validity checks: digests are opaque texts and the JSON columns are not part of the model.
- The free-text fields of receipts (errors, policies, details, provider attempts): they carry no rule.
- Run rows and entitlement receipts keep only the columns a rule reads; permission flags and history lists are not part of the model.
- `assess_quality` with expected sessions, holidays, suspensions or a staleness limit: no caller in the program passes them.
- Pacing, latency measurement and the waits between retries.
- The retries of the history download: a page's answer in `Backfill` and `Funding` is what they come to.
- `_migrate_source_aware_schema`, locks, pragmas, backups and cutover: guarantees of SQLite and the file system beyond an atomic transaction are assumed.
- Exceptions other than those of an unreadable watermark, a time without a date and a partial count: an answer whose fields are of the wrong type, or an adapter that raises something unforeseen, is not modelled.
- Adapters and their HTTP, the health matrix, the API, entitlement policy and watchlists: plumbing or long lists of shallow branches.
- The single-instrument rules of `_validate_instrument` other than its asset classes are one flag, and the remaining identity fields one text; `effective_at` and the policy fields of a manifest are not part of the model.
- The `now` and `days` arguments of `backfill` become the whole-minute range they stand for.
- The first and last bar of the coverage report and the funding summary: single reads of the stored sets.
- `merge_mvp_databases` is not a step of `Protocol`: it writes candles without watermarks, and `Merge.WatermarksAfterMerge` says exactly when that does no harm.
- Dates before year 1 in the freshness look-back, which the program's date type refuses.
- Aggregation.AggregateQuarters: does not model the hashes and the rule names of the result, which are opaque or constant, nor the date overflow of bars next to year 1 or 9999.
- Weekly.AggregateDays: does not model the hashes and the rule names of the result either, nor that overflow.
- Timestamps.NormalizeOrders: speaks of the spellings the parser here accepts, which are fewer than Python's; on any other text the source's parser is not modelled.
- Ingestion.IngestionOrchestrator.RunOnce: does not model pacing, timeouts or the receipt's printed parts.
- Manifest.ReplaceCandidate: does not model the single-instrument rules behind the flag `sound`, the effective date, or the selection receipt that is returned beside the manifest.
