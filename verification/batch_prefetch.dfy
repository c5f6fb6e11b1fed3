/**
 * `useBatchPRComments`: prefetches the comments of a list of PR URLs into the query cache,
 * skipping URLs that already hold data, in consecutive windows of `BatchSize` fetches,
 * each window settling completely before the next one starts. A newer run aborts the
 * older one; an aborted run starts no further window.
 *
 * Fetch outcomes come from the oracle `reply` (indexed by position in the to-fetch list,
 * `None` meaning the request failed), and the moment the environment aborts the run
 * from the oracle `abortAfter` (the abort arrives while that window is in flight).
 */
module BatchPrefetch {
  import opened Wrappers
  import opened QueryCache

  const BatchSize: nat := 8

  function Min(a: int, b: int): int { if a <= b then a else b }

  /** Whether the comments of `url` are already in the cache. */
  predicate Cached<V>(cache: Cache<V>, url: string) {
    GetQueryData(cache, PrCommentsKey(url)).Some?
  }

  /** The URLs still to fetch, in their original order. */
  function ToFetch<V>(cache: Cache<V>, urls: seq<string>): (r: seq<string>)
    ensures |r| <= |urls|
    ensures forall u :: u in r <==> u in urls && !Cached(cache, u)
  {
    if urls == [] then []
    else (if Cached(cache, urls[0]) then [] else [urls[0]]) + ToFetch(cache, urls[1..])
  }

  /** Selection distributes over concatenation, so the to-fetch list keeps the order and repeats of `urls`. */
  lemma {:induction false} ToFetchAppend<V>(cache: Cache<V>, xs: seq<string>, ys: seq<string>)
    ensures ToFetch(cache, xs + ys) == ToFetch(cache, xs) + ToFetch(cache, ys)
  {
    if xs == [] {
      assert xs + ys == ys;
    } else {
      assert (xs + ys)[0] == xs[0];
      assert (xs + ys)[1..] == xs[1..] + ys;
      ToFetchAppend(cache, xs[1..], ys);
    }
  }

  /** How many entries of `urls` (counting repeats) already have cached comments. */
  function CachedCount<V>(cache: Cache<V>, urls: seq<string>): (n: nat)
    ensures n <= |urls|
  {
    if urls == [] then 0 else (if Cached(cache, urls[0]) then 1 else 0) + CachedCount(cache, urls[1..])
  }

  lemma {:induction false} SkippedAreCached<V>(cache: Cache<V>, urls: seq<string>)
    ensures |urls| - |ToFetch(cache, urls)| == CachedCount(cache, urls)
  {
    if urls != [] {
      SkippedAreCached(cache, urls[1..]);
    }
  }

  // Windows

  /** The number of windows a list of `f` fetches is split into. */
  function NumWindows(f: nat): (w: nat)
    ensures BatchSize * w >= f && (w > 0 ==> BatchSize * (w - 1) < f)
  {
    (f + BatchSize - 1) / BatchSize
  }

  /** `toFetch.slice(i, i + BATCH_SIZE)` for every `i = 0, 8, 16, ...` below the length. */
  function Windows<T>(xs: seq<T>): (ws: seq<seq<T>>)
    ensures |ws| == NumWindows(|xs|)
    ensures forall k :: 0 <= k < |ws| ==> 0 < |ws[k]| <= BatchSize
    ensures forall k :: 0 <= k < |ws| - 1 ==> |ws[k]| == BatchSize
    decreases |xs|
  {
    if xs == [] then []
    else if |xs| <= BatchSize then [xs]
    else [xs[..BatchSize]] + Windows(xs[BatchSize..])
  }

  function Flatten<T>(ws: seq<seq<T>>): seq<T> {
    if ws == [] then [] else ws[0] + Flatten(ws[1..])
  }

  /** Concatenating the windows gives back the list: every URL in exactly one window, in order. */
  lemma {:induction false} WindowsCover<T>(xs: seq<T>)
    ensures Flatten(Windows(xs)) == xs
    decreases |xs|
  {
    if xs != [] && |xs| > BatchSize {
      WindowsCover(xs[BatchSize..]);
      var ws := Windows(xs);
      assert ws[0] == xs[..BatchSize];
      assert ws[1..] == Windows(xs[BatchSize..]);
    }
  }

  /** Window `k` is the slice the loop takes at `i = 8 * k`. */
  lemma {:induction false} WindowIsSlice<T>(xs: seq<T>, k: nat)
    requires k < NumWindows(|xs|)
    ensures BatchSize * k < |xs|
    ensures Windows(xs)[k] == xs[BatchSize * k..Min(BatchSize * k + BatchSize, |xs|)]
    decreases |xs|
  {
    if |xs| > BatchSize && k > 0 {
      WindowIsSlice(xs[BatchSize..], k - 1);
      assert Windows(xs)[k] == Windows(xs[BatchSize..])[k - 1];
      assert xs[BatchSize..][BatchSize * (k - 1)..Min(BatchSize * (k - 1) + BatchSize, |xs| - BatchSize)]
        == xs[BatchSize * k..Min(BatchSize * k + BatchSize, |xs|)];
    }
  }

  // Reference behaviour of one run

  datatype Event =
    | Started(pos: nat, url: string)
    | Settled(pos: nat, url: string, ok: bool)

  function WindowOf(e: Event): nat { e.pos / BatchSize }

  /** The starts of fetches `lo..hi`, issued in order by `batch.map`. */
  function Starts(xs: seq<string>, lo: nat, hi: nat): (r: seq<Event>)
    requires lo <= hi <= |xs|
    ensures |r| == hi - lo
    ensures forall k :: 0 <= k < |r| ==> r[k] == Started(lo + k, xs[lo + k])
    decreases hi
  {
    if lo == hi then [] else Starts(xs, lo, hi - 1) + [Started(hi - 1, xs[hi - 1])]
  }

  /** The settlements of fetches `lo..hi`, each successful exactly when the oracle has data. */
  function Settles<V>(xs: seq<string>, reply: nat -> Option<V>, lo: nat, hi: nat): (r: seq<Event>)
    requires lo <= hi <= |xs|
    ensures |r| == hi - lo
    ensures forall k :: 0 <= k < |r| ==> r[k] == Settled(lo + k, xs[lo + k], reply(lo + k).Some?)
    decreases hi
  {
    if lo == hi then [] else Settles(xs, reply, lo, hi - 1) + [Settled(hi - 1, xs[hi - 1], reply(hi - 1).Some?)]
  }

  /** The events of the first `w` windows. */
  function RunTrace<V>(xs: seq<string>, reply: nat -> Option<V>, w: nat): seq<Event>
    requires w <= NumWindows(|xs|)
  {
    if w == 0 then []
    else
      var lo := BatchSize * (w - 1);
      var hi := Min(BatchSize * w, |xs|);
      RunTrace(xs, reply, w - 1) + Starts(xs, lo, hi) + Settles(xs, reply, lo, hi)
  }

  /** The cache after the outcomes of fetches `0..n` have been written, in order. */
  function Commit<V>(cache: Cache<V>, xs: seq<string>, reply: nat -> Option<V>, n: nat): Cache<V>
    requires n <= |xs|
  {
    if n == 0 then cache
    else
      var c := Commit(cache, xs, reply, n - 1);
      match reply(n - 1)
      case Some(data) => SetQueryData(c, PrCommentsKey(xs[n - 1]), data)
      case None => c
  }

  /** The number of successful fetches among `0..n`. */
  function Successes<V>(reply: nat -> Option<V>, n: nat): (s: nat)
    ensures s <= n
  {
    if n == 0 then 0 else Successes(reply, n - 1) + (if reply(n - 1).Some? then 1 else 0)
  }

  /** How many fetches a run over `f` URLs starts before it stops. */
  function StartedCount(f: nat, abortAfter: Option<nat>): (n: nat)
    ensures n <= f
  {
    match abortAfter
    case Some(a) => Min(f, BatchSize * (a + 1))
    case None => f
  }

  /** Whether the run is aborted before its last window ends. */
  predicate AbortedDuring(f: nat, abortAfter: Option<nat>) {
    abortAfter.Some? && abortAfter.value < NumWindows(f)
  }

  // The run

  /** The hook's state: cache, progress counter, loading flag, and the abort flags of every run's controller. */
  datatype Prefetcher<V> = Prefetcher(cache: Cache<V>, fetchedCount: int, isLoading: bool, signals: seq<bool>)

  /** Every run but the newest has been told to abort. */
  predicate OlderRunsAborted(signals: seq<bool>) {
    forall k :: 0 <= k < |signals| - 1 ==> signals[k]
  }

  /** `abortRef.current?.abort()`. */
  function AbortCurrent(signals: seq<bool>): (r: seq<bool>)
    ensures |r| == |signals|
    ensures |r| > 0 ==> r[|r| - 1]
    ensures forall k :: 0 <= k < |r| - 1 ==> r[k] == signals[k]
  {
    if signals == [] then [] else signals[|signals| - 1 := true]
  }

  /** One pass of the loop body: start every fetch of window `lo..hi`, then let each settle. */
  method RunWindow<V>(toFetch: seq<string>, reply: nat -> Option<V>, base: Cache<V>, lo: nat, hi: nat,
                      cache0: Cache<V>, count0: int, trace0: seq<Event>)
    returns (cache: Cache<V>, count: int, trace: seq<Event>)
    requires lo <= hi <= |toFetch|
    requires cache0 == Commit(base, toFetch, reply, lo)
    ensures trace == trace0 + Starts(toFetch, lo, hi) + Settles(toFetch, reply, lo, hi)
    ensures cache == Commit(base, toFetch, reply, hi)
    ensures count == count0 + Successes(reply, hi) - Successes(reply, lo)
  {
    cache, count, trace := cache0, count0, trace0;
    var j := lo;
    while j < hi
      invariant lo <= j <= hi
      invariant trace == trace0 + Starts(toFetch, lo, j)
    {
      trace := trace + [Started(j, toFetch[j])];
      j := j + 1;
    }
    j := lo;
    while j < hi
      invariant lo <= j <= hi
      invariant trace == trace0 + Starts(toFetch, lo, hi) + Settles(toFetch, reply, lo, j)
      invariant cache == Commit(base, toFetch, reply, j)
      invariant count == count0 + Successes(reply, j) - Successes(reply, lo)
    {
      match reply(j) {
        case Some(data) =>
          cache := SetQueryData(cache, PrCommentsKey(toFetch[j]), data);
          count := count + 1;
          trace := trace + [Settled(j, toFetch[j], true)];
        case None =>
          trace := trace + [Settled(j, toFetch[j], false)];
      }
      j := j + 1;
    }
  }

  /** Window `w` run after the windows before it, in the terms of the loop's invariants. */
  method RunWindowAt<V>(toFetch: seq<string>, reply: nat -> Option<V>, base: Cache<V>, count0: int, w: nat,
                        cache1: Cache<V>, count1: int, trace1: seq<Event>)
    returns (cache: Cache<V>, count: int, trace: seq<Event>)
    requires w < NumWindows(|toFetch|)
    requires trace1 == RunTrace(toFetch, reply, w)
    requires cache1 == Commit(base, toFetch, reply, Min(BatchSize * w, |toFetch|))
    requires count1 == count0 + Successes(reply, Min(BatchSize * w, |toFetch|))
    ensures trace == RunTrace(toFetch, reply, w + 1)
    ensures cache == Commit(base, toFetch, reply, Min(BatchSize * (w + 1), |toFetch|))
    ensures count == count0 + Successes(reply, Min(BatchSize * (w + 1), |toFetch|))
  {
    var i := BatchSize * w;
    WindowBounds(|toFetch|, w);
    cache, count, trace := RunWindow(toFetch, reply, base, i, Min(i + BatchSize, |toFetch|), cache1, count1, trace1);
    RunTraceNext(toFetch, reply, w);
  }

  /** The loop of `fetchInBatches`: windows in order until the list is done or the run is aborted. */
  method RunWindows<V>(toFetch: seq<string>, reply: nat -> Option<V>, abortAfter: Option<nat>, cache0: Cache<V>, count0: int)
    returns (cache: Cache<V>, count: int, trace: seq<Event>, aborted: bool)
    ensures trace == RunTrace(toFetch, reply, NumWindows(StartedCount(|toFetch|, abortAfter)))
    ensures cache == Commit(cache0, toFetch, reply, StartedCount(|toFetch|, abortAfter))
    ensures count == count0 + Successes(reply, StartedCount(|toFetch|, abortAfter))
    ensures aborted <==> AbortedDuring(|toFetch|, abortAfter)
  {
    var f := |toFetch|;
    cache, count, trace, aborted := cache0, count0, [], false;
    var w := 0;
    while w < NumWindows(f) && !aborted
      invariant w <= NumWindows(f)
      invariant aborted ==> w > 0 && abortAfter == Some(w - 1)
      invariant !aborted ==> abortAfter.None? || abortAfter.value >= w
      invariant trace == RunTrace(toFetch, reply, w)
      invariant cache == Commit(cache0, toFetch, reply, Min(BatchSize * w, f))
      invariant count == count0 + Successes(reply, Min(BatchSize * w, f))
      decreases NumWindows(f) - w
    {
      cache, count, trace := RunWindowAt(toFetch, reply, cache0, count0, w, cache, count, trace);
      if abortAfter == Some(w) {
        aborted := true;
      }
      w := w + 1;
    }
    StoppedAt(f, abortAfter, w, aborted);
  }

  /** `fetchInBatches(urls)`. */
  method FetchInBatches<V>(p: Prefetcher<V>, urls: seq<string>, reply: nat -> Option<V>, abortAfter: Option<nat>)
    returns (q: Prefetcher<V>, trace: seq<Event>)
    ensures var toFetch := ToFetch(p.cache, urls);
      && trace == RunTrace(toFetch, reply, NumWindows(StartedCount(|toFetch|, abortAfter)))
      && q.cache == Commit(p.cache, toFetch, reply, StartedCount(|toFetch|, abortAfter))
      && q.fetchedCount == CachedCount(p.cache, urls) + Successes(reply, StartedCount(|toFetch|, abortAfter))
      && (q.isLoading <==> AbortedDuring(|toFetch|, abortAfter))
    ensures |q.signals| == |p.signals| + 1
    ensures forall k :: 0 <= k < |p.signals| ==> q.signals[k] == AbortCurrent(p.signals)[k]
    ensures q.signals[|p.signals|] <==> q.isLoading
    ensures forall k :: 0 <= k < |trace| ==> trace[k].url in urls && !Cached(p.cache, trace[k].url)
    ensures abortAfter.Some? ==> forall k :: 0 <= k < |trace| ==> WindowOf(trace[k]) <= abortAfter.value
    ensures !q.isLoading ==> q.fetchedCount <= |urls|
    ensures OlderRunsAborted(p.signals) ==> OlderRunsAborted(q.signals)
  {
    var signals := AbortCurrent(p.signals) + [false];
    var fetchedCount := 0;
    var isLoading := true;
    var toFetch := ToFetch(p.cache, urls);
    SkippedAreCached(p.cache, urls);
    fetchedCount := |urls| - |toFetch|;
    var cache, aborted;
    cache, fetchedCount, trace, aborted := RunWindows(toFetch, reply, abortAfter, p.cache, fetchedCount);
    if !aborted {
      isLoading := false;
    }
    signals := signals[|signals| - 1 := aborted];
    q := Prefetcher(cache, fetchedCount, isLoading, signals);
    RunFacts(p.cache, urls, reply, abortAfter);
  }

  /**
   * The effect on a change of the URL list: the previous effect's cleanup aborts the
   * current run, then a non-empty list starts a new run and an empty one only clears
   * the loading flag.
   */
  method OnPrUrlsChange<V>(p: Prefetcher<V>, prUrls: seq<string>, reply: nat -> Option<V>, abortAfter: Option<nat>)
    returns (q: Prefetcher<V>, trace: seq<Event>)
    ensures prUrls == [] ==> trace == [] && q == p.(isLoading := false, signals := AbortCurrent(p.signals))
    ensures prUrls != [] ==> |q.signals| == |p.signals| + 1 && (q.signals[|p.signals|] <==> q.isLoading)
    ensures prUrls != [] ==> !q.isLoading ==> q.fetchedCount <= |prUrls|
    ensures OlderRunsAborted(p.signals) ==> OlderRunsAborted(q.signals)
    ensures |p.signals| > 0 ==> q.signals[|p.signals| - 1]
  {
    var cleaned := p.(signals := AbortCurrent(p.signals));
    if prUrls != [] {
      q, trace := FetchInBatches(cleaned, prUrls, reply, abortAfter);
    } else {
      q, trace := cleaned.(isLoading := false), [];
    }
  }

  lemma RunFacts<V>(cache: Cache<V>, urls: seq<string>, reply: nat -> Option<V>, abortAfter: Option<nat>)
    ensures var toFetch := ToFetch(cache, urls);
      var trace := RunTrace(toFetch, reply, NumWindows(StartedCount(|toFetch|, abortAfter)));
      && (forall k :: 0 <= k < |trace| ==> trace[k].url in urls && !Cached(cache, trace[k].url))
      && (abortAfter.Some? ==> forall k :: 0 <= k < |trace| ==> WindowOf(trace[k]) <= abortAfter.value)
      && (!AbortedDuring(|toFetch|, abortAfter) ==>
            CachedCount(cache, urls) + Successes(reply, StartedCount(|toFetch|, abortAfter)) <= |urls|)
  {
    var toFetch := ToFetch(cache, urls);
    var n := StartedCount(|toFetch|, abortAfter);
    var w := NumWindows(n);
    assert w <= NumWindows(|toFetch|) && Min(BatchSize * w, |toFetch|) == n;
    RunTraceEvents(toFetch, reply, w);
    var trace := RunTrace(toFetch, reply, w);
    forall k | 0 <= k < |trace|
      ensures trace[k].url in urls && !Cached(cache, trace[k].url)
      ensures abortAfter.Some? ==> WindowOf(trace[k]) <= abortAfter.value
    {
      assert toFetch[trace[k].pos] in toFetch;
    }
    SkippedAreCached(cache, urls);
  }

  lemma WindowBounds(f: nat, w: nat)
    requires w < NumWindows(f)
    ensures BatchSize * w < f && Min(BatchSize * (w + 1), f) == Min(BatchSize * w + BatchSize, f)
  {
  }

  lemma RunTraceNext<V>(xs: seq<string>, reply: nat -> Option<V>, w: nat)
    requires w < NumWindows(|xs|)
    ensures RunTrace(xs, reply, w + 1) == RunTrace(xs, reply, w) + Starts(xs, BatchSize * w, Min(BatchSize * w + BatchSize, |xs|))
      + Settles(xs, reply, BatchSize * w, Min(BatchSize * w + BatchSize, |xs|))
  {
    WindowBounds(|xs|, w);
  }

  lemma StoppedAt(f: nat, abortAfter: Option<nat>, w: nat, aborted: bool)
    requires w <= NumWindows(f)
    requires aborted ==> w > 0 && abortAfter == Some(w - 1)
    requires !aborted ==> w == NumWindows(f) && (abortAfter.None? || abortAfter.value >= w)
    ensures w == NumWindows(StartedCount(f, abortAfter))
    ensures Min(BatchSize * w, f) == StartedCount(f, abortAfter)
    ensures aborted <==> AbortedDuring(f, abortAfter)
  {
  }
  // The meaning of the reference trace and cache

  /** Windows never go backwards, and within a window every start precedes every settlement. */
  predicate WindowOrdered(t: seq<Event>) {
    forall i, j :: 0 <= i < j < |t| ==>
      && WindowOf(t[i]) <= WindowOf(t[j])
      && (WindowOf(t[i]) == WindowOf(t[j]) && t[i].Settled? ==> t[j].Settled?)
  }

  /** No position is started twice or settled twice: positions rise within each kind of event. */
  predicate EachOnce(t: seq<Event>) {
    forall i, j :: 0 <= i < j < |t| && t[i].Started? == t[j].Started? ==> t[i].pos < t[j].pos
  }

  lemma DivWindow(pos: nat, w: nat)
    ensures BatchSize * w <= pos < BatchSize * w + BatchSize ==> pos / BatchSize == w
    ensures pos < BatchSize * w ==> pos / BatchSize < w
  {
  }

  /** Every event of the first `w` windows is about one of the first fetches, with the oracle's outcome. */
  lemma {:induction false} RunTraceEvents<V>(xs: seq<string>, reply: nat -> Option<V>, w: nat)
    requires w <= NumWindows(|xs|)
    ensures var t := RunTrace(xs, reply, w);
      && |t| == 2 * Min(BatchSize * w, |xs|)
      && forall k :: 0 <= k < |t| ==>
        && t[k].pos < Min(BatchSize * w, |xs|)
        && t[k].url == xs[t[k].pos]
        && (t[k].Settled? ==> t[k].ok == reply(t[k].pos).Some?)
  {
    if w > 0 {
      RunTraceEvents(xs, reply, w - 1);
      WindowBounds(|xs|, w - 1);
    }
  }

  /** The events of window `m`: all in that window, at positions from `lo`, ordered among themselves. */
  lemma WindowBlock<V>(xs: seq<string>, reply: nat -> Option<V>, m: nat)
    requires m < NumWindows(|xs|)
    ensures var lo := BatchSize * m;
      var hi := Min(BatchSize * m + BatchSize, |xs|);
      var b := Starts(xs, lo, hi) + Settles(xs, reply, lo, hi);
      && WindowOrdered(b) && EachOnce(b)
      && forall k :: 0 <= k < |b| ==> WindowOf(b[k]) == m && lo <= b[k].pos
  {
    WindowBounds(|xs|, m);
    var lo := BatchSize * m;
    var hi := Min(BatchSize * m + BatchSize, |xs|);
    var b := Starts(xs, lo, hi) + Settles(xs, reply, lo, hi);
    forall k | 0 <= k < |b|
      ensures WindowOf(b[k]) == m && lo <= b[k].pos
      ensures b[k].pos == (if k < hi - lo then lo + k else lo + k - (hi - lo))
      ensures b[k].Settled? <==> k >= hi - lo
    {
      if k < hi - lo {
        assert b[k] == Started(lo + k, xs[lo + k]);
      } else {
        assert b[k] == Settled(lo + (k - (hi - lo)), xs[lo + (k - (hi - lo))], reply(lo + (k - (hi - lo))).Some?);
      }
      DivWindow(b[k].pos, m);
    }
  }

  /** Appending a later window's ordered block keeps a trace ordered. */
  lemma AppendBlock(a: seq<Event>, b: seq<Event>, m: nat, lo: nat)
    requires WindowOrdered(a) && EachOnce(a) && WindowOrdered(b) && EachOnce(b)
    requires forall k :: 0 <= k < |a| ==> WindowOf(a[k]) < m && a[k].pos < lo
    requires forall k :: 0 <= k < |b| ==> WindowOf(b[k]) == m && lo <= b[k].pos
    ensures WindowOrdered(a + b) && EachOnce(a + b)
  {
    var t := a + b;
    forall i, j | 0 <= i < j < |t|
      ensures WindowOf(t[i]) <= WindowOf(t[j])
      ensures WindowOf(t[i]) == WindowOf(t[j]) && t[i].Settled? ==> t[j].Settled?
      ensures t[i].Started? == t[j].Started? ==> t[i].pos < t[j].pos
    {
      if j < |a| {
        assert t[i] == a[i] && t[j] == a[j];
      } else if i < |a| {
        assert t[i] == a[i] && t[j] == b[j - |a|];
      } else {
        assert t[i] == b[i - |a|] && t[j] == b[j - |a|];
      }
    }
  }

  /** The events of the first `w` windows lie before window `w`. */
  lemma RunTraceBefore<V>(xs: seq<string>, reply: nat -> Option<V>, w: nat)
    requires w <= NumWindows(|xs|)
    ensures forall k :: 0 <= k < |RunTrace(xs, reply, w)| ==>
      WindowOf(RunTrace(xs, reply, w)[k]) < w && RunTrace(xs, reply, w)[k].pos < BatchSize * w
  {
    RunTraceEvents(xs, reply, w);
    var a := RunTrace(xs, reply, w);
    forall k | 0 <= k < |a|
      ensures WindowOf(a[k]) < w && a[k].pos < BatchSize * w
    {
      DivWindow(a[k].pos, w);
    }
  }

  lemma RunTraceSplit<V>(xs: seq<string>, reply: nat -> Option<V>, w: nat)
    requires w < NumWindows(|xs|)
    ensures RunTrace(xs, reply, w + 1) == RunTrace(xs, reply, w) +
      (Starts(xs, BatchSize * w, Min(BatchSize * w + BatchSize, |xs|)) + Settles(xs, reply, BatchSize * w, Min(BatchSize * w + BatchSize, |xs|)))
  {
    RunTraceNext(xs, reply, w);
  }

  lemma {:induction false} RunTraceOrdered<V>(xs: seq<string>, reply: nat -> Option<V>, w: nat)
    requires w <= NumWindows(|xs|)
    ensures WindowOrdered(RunTrace(xs, reply, w)) && EachOnce(RunTrace(xs, reply, w))
  {
    if w > 0 {
      var m := w - 1;
      RunTraceOrdered(xs, reply, m);
      RunTraceBefore(xs, reply, m);
      WindowBlock(xs, reply, m);
      RunTraceSplit(xs, reply, m);
      AppendBlock(RunTrace(xs, reply, m),
        Starts(xs, BatchSize * m, Min(BatchSize * m + BatchSize, |xs|)) + Settles(xs, reply, BatchSize * m, Min(BatchSize * m + BatchSize, |xs|)),
        m, BatchSize * m);
    }
  }

  /** Each of the first fetches has its start and its settlement in the trace, at a known place. */
  lemma {:induction false} RunTraceCovers<V>(xs: seq<string>, reply: nat -> Option<V>, w: nat, pos: nat)
    requires w <= NumWindows(|xs|) && pos < Min(BatchSize * w, |xs|)
    ensures Started(pos, xs[pos]) in RunTrace(xs, reply, w)
    ensures Settled(pos, xs[pos], reply(pos).Some?) in RunTrace(xs, reply, w)
  {
    var a := RunTrace(xs, reply, w - 1);
    var lo := BatchSize * (w - 1);
    var hi := Min(BatchSize * (w - 1) + BatchSize, |xs|);
    WindowBounds(|xs|, w - 1);
    assert RunTrace(xs, reply, w) == a + Starts(xs, lo, hi) + Settles(xs, reply, lo, hi);
    if pos < lo {
      RunTraceCovers(xs, reply, w - 1, pos);
    } else {
      assert Starts(xs, lo, hi)[pos - lo] == Started(pos, xs[pos]);
      assert Settles(xs, reply, lo, hi)[pos - lo] == Settled(pos, xs[pos], reply(pos).Some?);
    }
  }

  // What the run writes to the cache

  /** Whether fetch `pos` is a success for `url` with no later success for the same URL below `n`. */
  predicate LastSuccessFor<V>(xs: seq<string>, reply: nat -> Option<V>, n: nat, url: string, pos: nat)
    requires n <= |xs|
  {
    && pos < n && xs[pos] == url && reply(pos).Some?
    && forall p :: pos < p < n ==> !(xs[p] == url && reply(p).Some?)
  }

  /** A URL none of whose fetches below `n` succeeded keeps its entry exactly as it was, and so does every other key. */
  lemma {:induction false} CommitKeepsUnwritten<V>(cache: Cache<V>, xs: seq<string>, reply: nat -> Option<V>, n: nat, key: QueryKey)
    requires n <= |xs|
    requires key.PrCommentsKey? ==> forall p :: 0 <= p < n ==> !(xs[p] == key.url && reply(p).Some?)
    ensures key in Commit(cache, xs, reply, n) <==> key in cache
    ensures key in cache ==> Commit(cache, xs, reply, n)[key] == cache[key]
  {
    if n > 0 {
      CommitKeepsUnwritten(cache, xs, reply, n - 1, key);
    }
  }

  /** The entry of a URL holds the data of its last successful fetch, freshly written. */
  lemma {:induction false} CommitStoresLastSuccess<V>(cache: Cache<V>, xs: seq<string>, reply: nat -> Option<V>, n: nat, pos: nat)
    requires n <= |xs| && pos < n
    requires LastSuccessFor(xs, reply, n, xs[pos], pos)
    ensures GetQueryData(Commit(cache, xs, reply, n), PrCommentsKey(xs[pos])) == reply(pos)
    ensures !Commit(cache, xs, reply, n)[PrCommentsKey(xs[pos])].stale
  {
    if pos < n - 1 {
      assert LastSuccessFor(xs, reply, n - 1, xs[pos], pos);
      CommitStoresLastSuccess(cache, xs, reply, n - 1, pos);
      assert !(xs[n - 1] == xs[pos] && reply(n - 1).Some?);
    }
  }

  /** The run never fetches a URL whose comments are already cached, nor lets it lose its entry. */
  lemma CachedUntouched<V>(cache: Cache<V>, urls: seq<string>, reply: nat -> Option<V>, n: nat, url: string)
    requires n <= |ToFetch(cache, urls)|
    requires Cached(cache, url)
    ensures PrCommentsKey(url) in Commit(cache, ToFetch(cache, urls), reply, n)
    ensures Commit(cache, ToFetch(cache, urls), reply, n)[PrCommentsKey(url)] == cache[PrCommentsKey(url)]
  {
    var xs := ToFetch(cache, urls);
    assert forall p :: 0 <= p < n ==> xs[p] != url by {
      forall p | 0 <= p < n
        ensures xs[p] != url
      {
        assert xs[p] in xs;
      }
    }
    CommitKeepsUnwritten(cache, xs, reply, n, PrCommentsKey(url));
  }

  /** A run that finishes counts the cached URLs plus its successes, never more than the list length. */
  lemma {:induction false} FinishedCountBounded<V>(cache: Cache<V>, urls: seq<string>, reply: nat -> Option<V>)
    ensures CachedCount(cache, urls) + Successes(reply, |ToFetch(cache, urls)|) <= |urls|
  {
    SkippedAreCached(cache, urls);
  }
}
