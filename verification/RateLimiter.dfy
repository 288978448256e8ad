// The sliding-window limiter of backend/app/core/rate_limit.py.  Each key owns a deque of
// accepted instants, pruned from the left before every decision.  The ghost fields keep what
// the deque forgets: everything ever accepted, and which cut-offs it has met since.
module RateLimiting {
  import opened Wrappers

  // How many entries of the history lie strictly after the cut-off.
  function CountAfter(history: seq<real>, cut: real): nat {
    if history == [] then 0
    else
      var last := |history| - 1;
      CountAfter(history[..last], cut) + (if history[last] > cut then 1 else 0)
  }

  // How many entries lie in the half-open interval (low, high].
  function CountWithin(history: seq<real>, low: real, high: real): nat {
    if history == [] then 0
    else
      var last := |history| - 1;
      CountWithin(history[..last], low, high) + (if low < history[last] <= high then 1 else 0)
  }

  function Max(a: real, b: real): real { if a < b then b else a }

  // What the popleft loop leaves of a deque.
  function Prune(queue: seq<real>, cut: real): seq<real> {
    if queue != [] && queue[0] <= cut then Prune(queue[1..], cut) else queue
  }

  // An accepted attempt, and the furthest cut-off that a check has applied since.
  datatype Attempt = Attempt(at: real, cut: Option<real>) {
    // It has outlived every cut-off so far.
    predicate Counts() { cut.None? || at > cut.value }

    function Past(other: real): Attempt {
      Attempt(at, Some(if cut.Some? then Max(cut.value, other) else other))
    }
  }

  // Everything ever accepted for a key, oldest first, and the clock reading of the last check.
  datatype Trace = Trace(history: seq<Attempt>, seen: real)

  function Past(history: seq<Attempt>, cut: real): seq<Attempt> {
    if history == [] then [] else [history[0].Past(cut)] + Past(history[1..], cut)
  }

  function Counting(history: seq<Attempt>): seq<real> {
    if history == [] then [] else (if history[0].Counts() then [history[0].at] else []) + Counting(history[1..])
  }

  predicate Ascending(queue: seq<real>) {
    |queue| < 2 || (queue[0] <= queue[1] && Ascending(queue[1..]))
  }

  predicate AllAfter(queue: seq<real>, cut: real) {
    forall i | 0 <= i < |queue| :: queue[i] > cut
  }

  predicate NoneAfter(queue: seq<real>, cut: real) {
    forall i | 0 <= i < |queue| :: queue[i] <= cut
  }

  // A deque beside its trace: it holds exactly the attempts that still count, in order, and none
  // from the future.
  ghost predicate Recorded(queue: seq<real>, trace: Trace) {
    queue == Counting(trace.history) && Ascending(queue) && NoneAfter(queue, trace.seen)
  }

  // What the popleft loop removes.
  function Popped(queue: seq<real>, cut: real): seq<real> {
    if queue != [] && queue[0] <= cut then [queue[0]] + Popped(queue[1..], cut) else []
  }

  // Every accepted instant found fewer than `limit` earlier ones in the window before it.
  ghost predicate Admissible(history: seq<real>, limit: int, window: real) {
    history == [] ||
    var last := |history| - 1;
    Admissible(history[..last], limit, window)
    && CountAfter(history[..last], history[last] - window) < limit
  }

  // One check of the reference limiter: nothing is ever pruned, the whole history is counted.
  function Counted(history: seq<real>, limit: int, window: real, now: real): seq<real> {
    if CountAfter(history, now - window) < limit then history + [now] else history
  }

  // Every instant the reference limiter accepts.
  function Replay(times: seq<real>, limit: int, window: real): (accepted: seq<real>) {
    if times == [] then []
    else Counted(Replay(times[..|times| - 1], limit, window), limit, window, times[|times| - 1])
  }

  lemma {:induction false} CountIsWhatIsKept(forgotten: seq<real>, queue: seq<real>, cut: real)
    requires NoneAfter(forgotten, cut) && AllAfter(queue, cut)
    ensures CountAfter(forgotten + queue, cut) == |queue|
  {
    var history := forgotten + queue;
    if queue != [] {
      assert history[..|history| - 1] == forgotten + queue[..|queue| - 1];
      CountIsWhatIsKept(forgotten, queue[..|queue| - 1], cut);
    } else if forgotten != [] {
      assert history[..|history| - 1] == forgotten[..|forgotten| - 1] + queue;
      CountIsWhatIsKept(forgotten[..|forgotten| - 1], queue, cut);
    }
  }

  lemma {:induction false} CountShrinksAsCutGrows(history: seq<real>, low: real, high: real)
    requires low <= high
    ensures CountAfter(history, high) <= CountAfter(history, low)
  {
    if history != [] {
      CountShrinksAsCutGrows(history[..|history| - 1], low, high);
    }
  }

  lemma {:induction false} WithinIsAtMostAfter(history: seq<real>, low: real, high: real)
    ensures CountWithin(history, low, high) <= CountAfter(history, low)
  {
    if history != [] {
      WithinIsAtMostAfter(history[..|history| - 1], low, high);
    }
  }

  // Safety: no half-open interval as long as the window holds more than `limit` accepted instants.
  lemma {:induction false} NoWindowExceedsLimit(history: seq<real>, limit: nat, window: real, low: real)
    requires Admissible(history, limit, window)
    ensures CountWithin(history, low, low + window) <= limit
  {
    if history != [] {
      var last := |history| - 1;
      var earlier := history[..last];
      NoWindowExceedsLimit(earlier, limit, window, low);
      if low < history[last] <= low + window {
        WithinIsAtMostAfter(earlier, low, low + window);
        CountShrinksAsCutGrows(earlier, history[last] - window, low);
      }
    }
  }

  lemma {:induction false} ReplayIsAdmissible(times: seq<real>, limit: int, window: real)
    ensures Admissible(Replay(times, limit, window), limit, window)
  {
    if times != [] {
      var earlier := Replay(times[..|times| - 1], limit, window);
      ReplayIsAdmissible(times[..|times| - 1], limit, window);
      assert (earlier + [times[|times| - 1]])[..|earlier|] == earlier;
    }
  }

  // How many entries are exactly the instant, and how many lie in the closed interval.
  function CountAt(history: seq<real>, instant: real): nat {
    if history == [] then 0
    else
      var last := |history| - 1;
      CountAt(history[..last], instant) + (if history[last] == instant then 1 else 0)
  }

  function CountClosed(history: seq<real>, low: real, high: real): nat {
    if history == [] then 0
    else
      var last := |history| - 1;
      CountClosed(history[..last], low, high) + (if low <= history[last] <= high then 1 else 0)
  }

  lemma {:induction false} ClosedAddsLeftEnd(history: seq<real>, low: real, high: real)
    requires low <= high
    ensures CountClosed(history, low, high) == CountAt(history, low) + CountWithin(history, low, high)
  {
    if history != [] {
      ClosedAddsLeftEnd(history[..|history| - 1], low, high);
    }
  }

  lemma {:induction false} AtIsWithin(history: seq<real>, low: real, high: real)
    requires low < high
    ensures CountAt(history, high) <= CountWithin(history, low, high)
  {
    if history != [] {
      AtIsWithin(history[..|history| - 1], low, high);
    }
  }

  lemma {:induction false} ClosedIsAtMostAfter(history: seq<real>, low: real, high: real, cut: real)
    requires cut < low
    ensures CountClosed(history, low, high) <= CountAfter(history, cut)
  {
    if history != [] {
      ClosedIsAtMostAfter(history[..|history| - 1], low, high, cut);
    }
  }

  // The interval without its right end is safe too.
  lemma {:induction false} RightEndIsNeeded(history: seq<real>, limit: nat, window: real, low: real)
    requires Admissible(history, limit, window) && CountAt(history, low + window) == 0
    ensures CountClosed(history, low, low + window) <= limit
  {
    if history != [] {
      var last := |history| - 1;
      RightEndIsNeeded(history[..last], limit, window, low);
      if low <= history[last] <= low + window {
        ClosedIsAtMostAfter(history[..last], low, low + window, history[last] - window);
      }
    }
  }

  // A closed interval as long as the window holds at most `limit` accepted instants beside those at
  // its left end, so at most twice the limit, and more than the limit only with instants at both ends.
  lemma ClosedWindowBound(history: seq<real>, limit: nat, window: real, low: real)
    requires Admissible(history, limit, window) && window > 0.0
    ensures CountClosed(history, low, low + window) <= limit + CountAt(history, low) <= 2 * limit
    ensures CountClosed(history, low, low + window) > limit ==>
              CountAt(history, low) > 0 && CountAt(history, low + window) > 0
  {
    ClosedAddsLeftEnd(history, low, low + window);
    NoWindowExceedsLimit(history, limit, window, low);
    NoWindowExceedsLimit(history, limit, window, low - window);
    AtIsWithin(history, low - window, low);
    assert low - window + window == low;
    if CountAt(history, low + window) == 0 {
      RightEndIsNeeded(history, limit, window, low);
    }
  }

  function Repeat(instant: real, count: nat): (repeated: seq<real>)
    ensures |repeated| == count
  {
    if count == 0 then [] else Repeat(instant, count - 1) + [instant]
  }

  // A burst of `limit` attempts, and `count` more one window later.
  function Bursts(limit: nat, count: nat, window: real): seq<real> {
    if count == 0 then Repeat(0.0, limit) else Bursts(limit, count - 1, window) + [window]
  }

  lemma {:induction false} BurstCounts(limit: nat, count: nat, window: real)
    requires window > 0.0
    ensures CountAfter(Bursts(limit, count, window), 0.0) == count
    ensures CountClosed(Bursts(limit, count, window), 0.0, window) == limit + count
  {
    if count > 0 {
      BurstCounts(limit, count - 1, window);
      assert Bursts(limit, count, window)[..|Bursts(limit, count, window)| - 1] == Bursts(limit, count - 1, window);
    } else {
      RepeatCounts(limit, window);
    }
  }

  lemma {:induction false} RepeatCounts(count: nat, window: real)
    requires window > 0.0
    ensures CountAfter(Repeat(0.0, count), 0.0) == 0
    ensures CountClosed(Repeat(0.0, count), 0.0, window) == count
  {
    if count > 0 {
      RepeatCounts(count - 1, window);
      assert Repeat(0.0, count)[..|Repeat(0.0, count)| - 1] == Repeat(0.0, count - 1);
    }
  }

  lemma ReplayOneMore(times: seq<real>, now: real, limit: int, window: real)
    requires Replay(times, limit, window) == times && CountAfter(times, now - window) < limit
    ensures Replay(times + [now], limit, window) == times + [now]
  {
    assert (times + [now])[..|times|] == times;
  }

  lemma {:induction false} CountIsAtMostAll(history: seq<real>, cut: real)
    ensures CountAfter(history, cut) <= |history|
  {
    if history != [] {
      CountIsAtMostAll(history[..|history| - 1], cut);
    }
  }

  lemma {:induction false} FirstOnesPass(times: seq<real>, limit: nat, window: real)
    requires |times| <= limit
    ensures Replay(times, limit, window) == times
  {
    if times != [] {
      var earlier, now := times[..|times| - 1], times[|times| - 1];
      FirstOnesPass(earlier, limit, window);
      CountIsAtMostAll(earlier, now - window);
      ReplayOneMore(earlier, now, limit, window);
      assert times == earlier + [now];
    }
  }

  lemma {:induction false} RepeatInOrder(count: nat, window: real)
    requires window > 0.0
    ensures InOrder(Repeat(0.0, count)) && NoneAfter(Repeat(0.0, count), 0.0)
  {
    if count > 0 {
      RepeatInOrder(count - 1, window);
      assert Repeat(0.0, count)[..count - 1] == Repeat(0.0, count - 1);
    }
  }

  lemma {:induction false} BurstsInOrder(limit: nat, count: nat, window: real)
    requires window > 0.0
    ensures InOrder(Bursts(limit, count, window)) && NoneAfter(Bursts(limit, count, window), window)
  {
    if count > 0 {
      var before := Bursts(limit, count - 1, window);
      BurstsInOrder(limit, count - 1, window);
      assert (before + [window])[..|before|] == before;
    } else {
      RepeatInOrder(limit, window);
    }
  }

  // Twice the limit is reached, for every limit: an entry exactly one window old is dropped already.
  lemma {:induction false} TwiceTheLimitPasses(count: nat, limit: nat, window: real)
    requires window > 0.0 && count <= limit
    ensures var times := Bursts(limit, count, window);
            && InOrder(times) && Replay(times, limit, window) == times
            && CountClosed(times, 0.0, window) == limit + count
  {
    BurstsInOrder(limit, count, window);
    BurstCounts(limit, count, window);
    if count > 0 {
      TwiceTheLimitPasses(count - 1, limit, window);
      BurstCounts(limit, count - 1, window);
      ReplayOneMore(Bursts(limit, count - 1, window), window, limit, window);
    } else {
      FirstOnesPass(Repeat(0.0, limit), limit, window);
    }
  }

  lemma {:induction false} AscendingFromHead(queue: seq<real>, cut: real)
    requires Ascending(queue) && queue != [] && queue[0] > cut
    ensures AllAfter(queue, cut)
  {
    if |queue| > 1 {
      AscendingFromHead(queue[1..], cut);
      assert queue == [queue[0]] + queue[1..];
    }
  }

  lemma {:induction false} AscendingExtends(queue: seq<real>, now: real)
    requires Ascending(queue) && NoneAfter(queue, now)
    ensures Ascending(queue + [now])
  {
    if |queue| > 1 {
      AscendingExtends(queue[1..], now);
      assert (queue + [now])[1..] == queue[1..] + [now];
    }
  }

  lemma {:induction false} PoppedThenKept(queue: seq<real>, cut: real)
    ensures Popped(queue, cut) + Prune(queue, cut) == queue
  {
    if queue != [] && queue[0] <= cut {
      var head, rest := queue[0], queue[1..];
      PoppedThenKept(rest, cut);
      PrependJoins(head, Popped(rest, cut), Prune(rest, cut));
      assert queue == [head] + rest;
    }
  }

  lemma PrependJoins(head: real, a: seq<real>, b: seq<real>)
    ensures ([head] + a) + b == [head] + (a + b)
  {
  }

  lemma {:induction false} PoppedIsStale(queue: seq<real>, cut: real)
    ensures NoneAfter(Popped(queue, cut), cut)
  {
    if queue != [] && queue[0] <= cut {
      PoppedIsStale(queue[1..], cut);
    }
  }

  lemma {:induction false} KeptPart(queue: seq<real>, horizon: real, cut: real, clock: real)
    requires Ascending(queue) && AllAfter(queue, horizon) && NoneAfter(queue, clock)
    ensures AllAfter(Prune(queue, cut), Max(horizon, cut)) && NoneAfter(Prune(queue, cut), clock)
    ensures Ascending(Prune(queue, cut))
  {
    if queue != [] && queue[0] <= cut {
      KeptPart(queue[1..], horizon, cut, clock);
    } else if queue != [] {
      AscendingFromHead(queue, cut);
    }
  }

  lemma KeptIsFresh(queue: seq<real>, cut: real, clock: real)
    requires Ascending(queue) && NoneAfter(queue, clock)
    ensures Ascending(Prune(queue, cut)) && AllAfter(Prune(queue, cut), cut) && NoneAfter(Prune(queue, cut), clock)
  {
    if queue != [] {
      AscendingFromHead(queue, queue[0] - 1.0);
      KeptPart(queue, queue[0] - 1.0, cut, clock);
    }
  }

  // The entries after the cut-off, wherever they stand.
  function After(queue: seq<real>, cut: real): seq<real> {
    if queue == [] then [] else (if queue[0] > cut then [queue[0]] else []) + After(queue[1..], cut)
  }

  lemma {:induction false} AllOfThem(queue: seq<real>, cut: real)
    requires AllAfter(queue, cut)
    ensures After(queue, cut) == queue
  {
    if queue != [] {
      AllOfThem(queue[1..], cut);
    }
  }

  lemma {:induction false} PruneIsAfter(queue: seq<real>, cut: real)
    requires Ascending(queue)
    ensures Prune(queue, cut) == After(queue, cut)
  {
    if queue != [] && queue[0] <= cut {
      PruneIsAfter(queue[1..], cut);
    } else if queue != [] {
      AscendingFromHead(queue, cut);
      AllOfThem(queue, cut);
    }
  }

  lemma {:induction false} CountingPast(history: seq<Attempt>, cut: real)
    ensures Counting(Past(history, cut)) == After(Counting(history), cut)
  {
    if history != [] {
      var head, rest := history[0], history[1..];
      CountingPast(rest, cut);
      assert Past(history, cut)[1..] == Past(rest, cut);
      if head.Counts() {
        assert ([head.at] + Counting(rest))[1..] == Counting(rest);
      } else {
        assert Counting(history) == Counting(rest);
      }
    }
  }

  lemma {:induction false} CountingAppends(history: seq<Attempt>, now: real)
    ensures Counting(history + [Attempt(now, None)]) == Counting(history) + [now]
  {
    if history == [] {
      assert history + [Attempt(now, None)] == [Attempt(now, None)];
    } else {
      CountingAppends(history[1..], now);
      assert (history + [Attempt(now, None)])[1..] == history[1..] + [Attempt(now, None)];
    }
  }

  // The trace after one more check.
  function Traced(trace: Trace, limit: int, window: real, now: real): Trace {
    var past := Past(trace.history, now - window);
    Trace(if |Counting(past)| < limit then past + [Attempt(now, None)] else past, now)
  }

  lemma CheckedInOrder(queue: seq<real>, limit: int, window: real, now: real)
    requires Ascending(queue) && NoneAfter(queue, now)
    ensures Ascending(Checked(queue, limit, window, now)) && NoneAfter(Checked(queue, limit, window, now), now)
  {
    KeptIsFresh(queue, now - window, now);
    AscendingExtends(Prune(queue, now - window), now);
  }

  lemma NotInTheFuture(queue: seq<real>, seen: real, now: real)
    requires NoneAfter(queue, seen) && seen <= now
    ensures NoneAfter(queue, now)
  {
  }

  lemma WhatIsKeptCounts(queue: seq<real>, history: seq<Attempt>, cut: real)
    requires queue == Counting(history) && Ascending(queue)
    ensures Prune(queue, cut) == Counting(Past(history, cut))
  {
    CountingPast(history, cut);
    PruneIsAfter(queue, cut);
  }

  lemma TracedIsChecked(queue: seq<real>, trace: Trace, limit: int, window: real, now: real)
    requires Prune(queue, now - window) == Counting(Past(trace.history, now - window))
    ensures Counting(Traced(trace, limit, window, now).history) == Checked(queue, limit, window, now)
  {
    CountingAppends(Past(trace.history, now - window), now);
  }

  // One check of one key, whatever its limit and window: the pruned deque is what counts of
  // everything ever accepted, and stays so whether or not the new attempt is accepted.
  lemma CheckOneKey(queue: seq<real>, trace: Trace, limit: int, window: real, now: real)
    requires Recorded(queue, trace) && trace.seen <= now
    ensures Prune(queue, now - window) == Counting(Past(trace.history, now - window))
    ensures Recorded(Checked(queue, limit, window, now), Traced(trace, limit, window, now))
  {
    WhatIsKeptCounts(queue, trace.history, now - window);
    TracedIsChecked(queue, trace, limit, window, now);
    NotInTheFuture(queue, trace.seen, now);
    CheckedInOrder(queue, limit, window, now);
  }

  // What one check leaves of a key's deque.
  function Checked(queue: seq<real>, limit: int, window: real, now: real): seq<real> {
    var kept := Prune(queue, now - window);
    if |kept| < limit then kept + [now] else kept
  }

  lemma JoinAssociates(a: seq<real>, b: seq<real>, c: seq<real>)
    ensures (a + b) + c == a + (b + c)
  {
  }

  ghost predicate AllRecorded(attempts: map<string, seq<real>>, traces: map<string, Trace>) {
    && attempts.Keys == traces.Keys
    && forall key | key in attempts :: Recorded(attempts[key], traces[key])
  }

  function QueueOf(attempts: map<string, seq<real>>, key: string): seq<real> {
    if key in attempts then attempts[key] else []
  }

  function TraceOf(traces: map<string, Trace>, key: string, now: real): Trace {
    if key in traces then traces[key] else Trace([], now)
  }

  // One check of one key of the whole table.
  lemma CheckOfKey(attempts: map<string, seq<real>>, traces: map<string, Trace>, key: string, limit: int, window: real,
                   now: real)
    requires AllRecorded(attempts, traces) && (key in traces ==> traces[key].seen <= now)
    ensures var queue, trace := QueueOf(attempts, key), TraceOf(traces, key, now);
            && Prune(queue, now - window) == Counting(Past(trace.history, now - window))
            && AllRecorded(attempts[key := Checked(queue, limit, window, now)],
                           traces[key := Traced(trace, limit, window, now)])
  {
    CheckOneKey(QueueOf(attempts, key), TraceOf(traces, key, now), limit, window, now);
  }

  class InMemoryRateLimiter {
    var attempts: map<string, seq<real>>
    ghost var traces: map<string, Trace>

    ghost predicate Valid()
      reads this
    {
      AllRecorded(attempts, traces)
    }

    // Everything ever accepted for the key, oldest first.
    ghost function History(key: string): seq<Attempt>
      reads this
    {
      if key in traces then traces[key].history else []
    }

    constructor ()
      ensures Valid()
      ensures forall key :: History(key) == []
    {
      attempts, traces := map[], map[];
    }

    // `allowed` is false where the source raises HTTP 429.  `now` is a reading of monotonic().  The
    // limit and window may differ from call to call, and may be anything: an attempt counts as long as
    // it has outlived the cut-off of this check and of every one since it was accepted.
    method Check(key: string, limit: int, window: real, now: real) returns (allowed: bool)
      requires Valid()
      requires key in traces ==> traces[key].seen <= now
      modifies this
      ensures Valid()
      ensures allowed <==> |Counting(Past(old(History(key)), now - window))| < limit
      ensures History(key) == Past(old(History(key)), now - window) + if allowed then [Attempt(now, None)] else []
      ensures key in traces && traces[key].seen == now
      ensures attempts[key] == Checked(QueueOf(old(attempts), key), limit, window, now)
      ensures attempts == old(attempts)[key := attempts[key]] && traces == old(traces)[key := traces[key]]
    {
      CheckOfKey(attempts, traces, key, limit, window, now);
      var start := QueueOf(attempts, key);
      ghost var trace := TraceOf(traces, key, now);
      var queue;
      allowed, queue := CheckQueue(start, limit, window, now);
      traces := traces[key := Traced(trace, limit, window, now)];
      attempts := attempts[key := queue];
    }
  }

  // The decision on one deque.
  method CheckQueue(start: seq<real>, limit: int, window: real, now: real) returns (allowed: bool, queue: seq<real>)
    ensures queue == Checked(start, limit, window, now)
    ensures allowed <==> |Prune(start, now - window)| < limit
  {
    queue := PopStale(start, now - window);
    allowed := |queue| < limit;
    if allowed {
      queue := queue + [now];
    }
  }

  // The popleft loop.
  method PopStale(start: seq<real>, cut: real) returns (queue: seq<real>)
    ensures queue == Prune(start, cut)
  {
    queue := start;
    while queue != [] && queue[0] <= cut
      invariant Prune(queue, cut) == Prune(start, cut)
    {
      queue := queue[1..];
    }
  }

  // ---- fixed limit and window -----------------------------------------------------------------

  // The deque after checks at the given instants.
  function Deque(times: seq<real>, limit: int, window: real): seq<real> {
    if times == [] then [] else Checked(Deque(times[..|times| - 1], limit, window), limit, window, times[|times| - 1])
  }

  // The clock never runs backwards.
  ghost predicate InOrder(times: seq<real>) {
    times == [] || (NoneAfter(times[..|times| - 1], times[|times| - 1]) && InOrder(times[..|times| - 1]))
  }

  // The deque is the end of the history, what it lacks is no younger than the cut-off, and its
  // entries are in order and not in the future.
  ghost predicate Keeps(history: seq<real>, forgotten: seq<real>, queue: seq<real>, cut: real, now: real) {
    history == forgotten + queue && NoneAfter(forgotten, cut) && Ascending(queue) && NoneAfter(queue, now)
  }

  // One check, from that relation to that relation: both limiters decide alike.
  lemma OneMoreCheck(history: seq<real>, before: seq<real>, queue: seq<real>, limit: int, window: real, now: real)
    returns (forgotten: seq<real>)
    requires Keeps(history, before, queue, now - window, now)
    ensures |Prune(queue, now - window)| == CountAfter(history, now - window)
    ensures Keeps(Counted(history, limit, window, now), forgotten, Checked(queue, limit, window, now), now - window, now)
  {
    var cut, kept := now - window, Prune(queue, now - window);
    forgotten := before + Popped(queue, cut);
    PopMoves(before, queue, cut);
    PoppedIsStale(queue, cut);
    KeptIsFresh(queue, cut, now);
    CountIsWhatIsKept(forgotten, kept, cut);
    AscendingExtends(kept, now);
    JoinAssociates(forgotten, kept, [now]);
  }

  lemma PopMoves(before: seq<real>, queue: seq<real>, cut: real)
    ensures before + queue == (before + Popped(queue, cut)) + Prune(queue, cut)
  {
    PoppedThenKept(queue, cut);
  }

  lemma LaterKeeps(history: seq<real>, forgotten: seq<real>, queue: seq<real>, cut: real, now: real, cut': real, now': real)
    requires Keeps(history, forgotten, queue, cut, now) && cut <= cut' && now <= now'
    ensures Keeps(history, forgotten, queue, cut', now')
  {
  }

  // Whatever the limit and window, over every run of checks.
  lemma {:induction false} DequeIsTheRestOfReplay(times: seq<real>, limit: int, window: real, now: real)
    returns (forgotten: seq<real>)
    requires InOrder(times) && NoneAfter(times, now)
    ensures Keeps(Replay(times, limit, window), forgotten, Deque(times, limit, window), now - window, now)
  {
    if times == [] {
      forgotten := [];
    } else {
      var earlier, last := times[..|times| - 1], times[|times| - 1];
      var before := DequeIsTheRestOfReplay(earlier, limit, window, last);
      var history, queue := Replay(earlier, limit, window), Deque(earlier, limit, window);
      forgotten := OneMoreCheck(history, before, queue, limit, window, last);
      LaterKeeps(Counted(history, limit, window, last), forgotten, Checked(queue, limit, window, last),
                 last - window, last, now - window, now);
    }
  }

  // Refinement: on a clock that never runs backwards, what the deque holds decides the next check
  // exactly as a count over everything ever accepted would.
  lemma DequeDecidesAsReplay(times: seq<real>, now: real, limit: int, window: real)
    requires InOrder(times) && NoneAfter(times, now)
    ensures |Prune(Deque(times, limit, window), now - window)| == CountAfter(Replay(times, limit, window), now - window)
  {
    var before := DequeIsTheRestOfReplay(times, limit, window, now);
    var _ := OneMoreCheck(Replay(times, limit, window), before, Deque(times, limit, window), limit, window, now);
  }
}
