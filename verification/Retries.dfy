/** Asking an adapter again (src/kline/ingestion.py `_fetch_with_retries`), waiting aside. */
module Retries {
  /** How one call of an adapter ends; `Other` is any exception the program does not tell apart. */
  datatype Attempt<T> =
    | Answered(value: T)
    | EntitlementBlocked
    | TimedOut
    | ProviderFailed(code: string)
    | Other

  /** What the caller gets. */
  datatype Ending<T> =
    | Received(value: T)
    | NotEntitled
    | Failed(code: string)
    | NeverAsked

  /** Provider errors that asking again cannot mend. */
  const FINAL_CODES: set<string> :=
    {"blocked_for_entitlement", "market_closed", "malformed_row", "empty_response", "timeout"}

  /** The adapter's own log of the n-th call, tagged with the number of the attempt. */
  datatype LogEntry = LogEntry(text: string, retryNumber: nat)

  datatype Adapter<T> = Adapter(answer: nat -> Attempt<T>, log: nat -> seq<string>)

  /** The attempt is the last one, whatever it comes to. */
  predicate Ends<T>(a: Attempt<T>, attempt: nat, maxRetries: int) {
    match a
    case Answered(_) => true
    case EntitlementBlocked => true
    case TimedOut => true
    case ProviderFailed(code) => code in FINAL_CODES || attempt >= maxRetries
    case Other => attempt >= maxRetries
  }

  function EndingOf<T>(a: Attempt<T>): Ending<T> {
    match a
    case Answered(v) => Received(v)
    case EntitlementBlocked => NotEntitled
    case TimedOut => Failed("timeout")
    case ProviderFailed(code) => Failed(code)
    case Other => Failed("provider_error")
  }

  function Tagged(texts: seq<string>, retryNumber: nat): seq<LogEntry> {
    seq(|texts|, i requires 0 <= i < |texts| => LogEntry(texts[i], retryNumber))
  }

  /** The log after n attempts; a call that timed out leaves none. */
  function LogOf<T>(adapter: Adapter<T>, n: nat): seq<LogEntry> {
    if n == 0 then []
    else LogOf(adapter, n - 1) + if adapter.answer(n - 1).TimedOut? then [] else Tagged(adapter.log(n - 1), n)
  }

  /** The first attempt that ends the loop. */
  ghost predicate FirstEnd<T>(adapter: Adapter<T>, maxRetries: int, k: nat) {
    && Ends(adapter.answer(k), k, maxRetries)
    && forall j: nat :: j < k ==> !Ends(adapter.answer(j), j, maxRetries)
  }

  /**
   The adapter is asked until the first attempt that ends the loop and never again, at most once more
   than the retries allow; its ending is the caller's, and the log holds every attempt in order.
   */
  method FetchWithRetries<T(0)>(adapter: Adapter<T>, maxRetries: int) returns (r: Ending<T>, log: seq<LogEntry>, calls: nat)
    ensures maxRetries < 0 ==> r == NeverAsked && calls == 0 && log == []
    ensures maxRetries >= 0 ==> 0 < calls <= maxRetries + 1 && FirstEnd(adapter, maxRetries, calls - 1)
    ensures maxRetries >= 0 ==> r == EndingOf(adapter.answer(calls - 1)) && log == LogOf(adapter, calls)
  {
    log, calls := [], 0;
    for attempt := 0 to if maxRetries < 0 then 0 else maxRetries + 1
      invariant log == LogOf(adapter, attempt) && calls == attempt
      invariant forall j: nat :: j < attempt ==> !Ends(adapter.answer(j), j, maxRetries)
    {
      var a := adapter.answer(attempt);
      calls := calls + 1;
      if a.TimedOut? {
        return Failed("timeout"), log, calls;
      }
      log := log + Tagged(adapter.log(attempt), attempt + 1);
      if a.Answered? || a.EntitlementBlocked? {
        return EndingOf(a), log, calls;
      }
      if a.ProviderFailed? && (a.code in FINAL_CODES || attempt >= maxRetries) {
        return EndingOf(a), log, calls;
      }
      if a.Other? && attempt >= maxRetries {
        return EndingOf(a), log, calls;
      }
    }
    return NeverAsked, log, calls;
  }

  /** The attempt is worth another: a provider error of none of the five final kinds, or an unforeseen exception. */
  predicate Again<T>(a: Attempt<T>) {
    a.Other? ||
    (a.ProviderFailed? && a.code != "blocked_for_entitlement" && a.code != "market_closed" && a.code != "malformed_row"
     && a.code != "empty_response" && a.code != "timeout")
  }

  /** An attempt is followed by another exactly when a retry is left and the attempt is worth one. */
  lemma AskedAgainIff<T>(adapter: Adapter<T>, maxRetries: int, last: nat, n: nat)
    requires maxRetries >= 0 && FirstEnd(adapter, maxRetries, last) && n <= last
    ensures n < last <==> n < maxRetries && Again(adapter.answer(n))
  {
    assert n < last ==> !Ends(adapter.answer(n), n, maxRetries);
  }

  /** What the log holds under the number of an attempt. */
  function TextsOf(log: seq<LogEntry>, retryNumber: nat): seq<string> {
    if log == [] then []
    else TextsOf(log[..|log| - 1], retryNumber) + if log[|log| - 1].retryNumber == retryNumber then [log[|log| - 1].text] else []
  }

  lemma {:induction false} TextsSplit(a: seq<LogEntry>, b: seq<LogEntry>, k: nat)
    ensures TextsOf(a + b, k) == TextsOf(a, k) + TextsOf(b, k)
  {
    if b == [] {
      assert a + b == a;
    } else {
      var p, last := b[..|b| - 1], b[|b| - 1];
      TextsSplit(a, p, k);
      assert (a + b)[..|a + b| - 1] == a + p && (a + b)[|a + b| - 1] == last;
    }
  }

  lemma {:induction false} TextsTagged(texts: seq<string>, number: nat, k: nat)
    ensures TextsOf(Tagged(texts, number), k) == if k == number then texts else []
  {
    if texts != [] {
      var p := texts[..|texts| - 1];
      TextsTagged(p, number, k);
      assert Tagged(texts, number)[..|texts| - 1] == Tagged(p, number);
      assert texts == p + [texts[|texts| - 1]];
    }
  }

  /** Every entry carries the number of an attempt made, and earlier attempts come first. */
  lemma {:induction false} Numbered<T>(adapter: Adapter<T>, n: nat)
    ensures forall e :: e in LogOf(adapter, n) ==> 0 < e.retryNumber <= n
    ensures forall i, j :: 0 <= i < j < |LogOf(adapter, n)| ==> LogOf(adapter, n)[i].retryNumber <= LogOf(adapter, n)[j].retryNumber
  {
    if n > 0 {
      Numbered(adapter, n - 1);
      var before, log := LogOf(adapter, n - 1), LogOf(adapter, n);
      var more := if adapter.answer(n - 1).TimedOut? then [] else Tagged(adapter.log(n - 1), n);
      assert log == before + more;
      forall i | 0 <= i < |log|
        ensures 0 < log[i].retryNumber <= n && (i >= |before| ==> log[i].retryNumber == n)
      {
        if i < |before| {
          assert log[i] == before[i] && before[i] in before;
        } else {
          assert log[i] == more[i - |before|];
        }
      }
    }
  }

  /** After n attempts the log holds, under its number, exactly what each of them logged, and nothing of one that timed out. */
  lemma {:induction false} LogHolds<T>(adapter: Adapter<T>, n: nat, k: nat)
    ensures TextsOf(LogOf(adapter, n), k) == if 0 < k <= n && !adapter.answer(k - 1).TimedOut? then adapter.log(k - 1) else []
  {
    hide Tagged, TextsOf;
    NoTexts(k);
    if n > 0 {
      LogHolds(adapter, n - 1, k);
      var texts := adapter.log(n - 1);
      var more := if adapter.answer(n - 1).TimedOut? then [] else Tagged(texts, n);
      TextsSplit(LogOf(adapter, n - 1), more, k);
      TextsTagged(texts, n, k);
    }
  }

  lemma NoTexts(k: nat)
    ensures TextsOf([], k) == []
  {
  }

  /** Raising the retries never takes an answer away. */
  lemma MoreRetriesKeep<T>(adapter: Adapter<T>, fewer: int, more: int, j: nat, k: nat)
    requires 0 <= fewer <= more && FirstEnd(adapter, fewer, j) && FirstEnd(adapter, more, k)
    ensures j <= k
    ensures EndingOf(adapter.answer(j)).Received? ==> k == j
  {
    assert k < j ==> !Ends(adapter.answer(k), k, fewer);
    assert j < k ==> !Ends(adapter.answer(j), j, more);
  }
}
