/**
 The two fixed-window limiters: requests per client and minute, and registrations per
 address and hour. The second one also deletes expired entries when its map is large.
 Times are in nanoseconds.
 */
module WindowLimiter {
  datatype Entry = Entry(count: nat, resetTime: int)

  const MINUTE: nat := 60_000_000_000
  const HOUR: nat := 3_600_000_000_000
  const REGISTRATION_LIMIT: int := 5
  const TRACKER_MAX_ENTRIES: nat := 10000

  datatype Config = Config(limit: int, window: nat)

  type Entries = map<string, Entry>

  predicate Expired(entries: Entries, key: string, now: int) {
    key !in entries || now > entries[key].resetTime
  }

  predicate Admits(cfg: Config, entries: Entries, key: string, now: int) {
    Expired(entries, key, now) || entries[key].count + 1 <= cfg.limit
  }

  /** A refused request still raises the count of its window. */
  function Step(cfg: Config, entries: Entries, key: string, now: int): Entries {
    entries[key := if Expired(entries, key, now) then Entry(1, now + cfg.window)
                   else Entry(entries[key].count + 1, entries[key].resetTime)]
  }

  // ------------------------------------------------------------------ whole runs

  datatype Call = Call(key: string, at: int)

  /**
   Calls are listed in the order in which the lock admits them. Each reading is behind the
   newest one handled before it by at most lag.
   */
  predicate Lagging(calls: seq<Call>, lag: nat) {
    forall i, j | 0 <= i <= j < |calls| :: calls[i].at <= calls[j].at + lag
  }

  /** The clock is read under the lock. */
  predicate Monotone(calls: seq<Call>) {
    Lagging(calls, 0)
  }

  /** The moments at which the calls get the lock: in order, none before its reading, none more than wait after it. */
  predicate Scheduled(calls: seq<Call>, locked: seq<int>, wait: nat) {
    && |locked| == |calls|
    && (forall i | 0 <= i < |calls| :: calls[i].at <= locked[i] <= calls[i].at + wait)
    && (forall i, j | 0 <= i <= j < |calls| :: locked[i] <= locked[j])
  }

  /** Every call gets the lock when the newest reading so far is taken, or at once if that is its own. */
  lemma {:induction false} NewestIsASchedule(calls: seq<Call>, lag: nat) returns (locked: seq<int>)
    requires Lagging(calls, lag)
    ensures Scheduled(calls, locked, lag)
    ensures calls != [] ==> exists i :: 0 <= i < |calls| && calls[i].at == locked[|calls| - 1]
  {
    if calls == [] {
      locked := [];
    } else {
      var n := |calls| - 1;
      var before := NewestIsASchedule(calls[..n], lag);
      if n == 0 || before[n - 1] < calls[n].at {
        locked := before + [calls[n].at];
      } else {
        locked := before + [before[n - 1]];
        var i :| 0 <= i < n && calls[..n][i].at == before[n - 1];
        assert calls[i].at == locked[n] <= calls[n].at + lag;
      }
    }
  }

  lemma ScheduledLags(calls: seq<Call>, lag: nat, locked: seq<int>)
    requires Scheduled(calls, locked, lag)
    ensures Lagging(calls, lag)
  {
    forall i, j | 0 <= i <= j < |calls| ensures calls[i].at <= calls[j].at + lag {
      assert locked[i] <= locked[j];
    }
  }

  /**
   What a lag means: with the clock read before the lock is taken, the traffic that can
   arise when nobody waits longer than lag for the lock is exactly the traffic of that lag.
   */
  lemma LagIsLockWait(calls: seq<Call>, lag: nat)
    ensures Lagging(calls, lag) <==> exists locked :: Scheduled(calls, locked, lag)
  {
    if Lagging(calls, lag) {
      var locked := NewestIsASchedule(calls, lag);
    }
    forall locked | Scheduled(calls, locked, lag) ensures Lagging(calls, lag) {
      ScheduledLags(calls, lag, locked);
    }
  }

  /** The map after the first n calls. */
  function After(cfg: Config, calls: seq<Call>, n: nat): Entries
    requires n <= |calls|
  {
    if n == 0 then map[] else Step(cfg, After(cfg, calls, n - 1), calls[n - 1].key, calls[n - 1].at)
  }

  predicate AdmittedAt(cfg: Config, calls: seq<Call>, i: nat)
    requires i < |calls|
  {
    Admits(cfg, After(cfg, calls, i), calls[i].key, calls[i].at)
  }

  /** How many of key's first n calls were admitted at times from a to a + window, both included. */
  function AdmittedIn(cfg: Config, calls: seq<Call>, key: string, a: int, n: nat): nat
    requires n <= |calls|
  {
    if n == 0 then 0
    else
      var c := calls[n - 1];
      AdmittedIn(cfg, calls, key, a, n - 1) +
      (if c.key == key && a <= c.at <= a + cfg.window && AdmittedAt(cfg, calls, n - 1) then 1 else 0)
  }

  function Cap(cfg: Config): int {
    if cfg.limit > 1 then cfg.limit else 1
  }

  function Least(x: int, y: int): int {
    if x < y then x else y
  }

  // Products and quotients as repeated addition and subtraction.

  function Times(k: nat, x: int): int {
    if k == 0 then 0 else Times(k - 1, x) + x
  }

  function Quotient(x: nat, step: nat): nat
    requires step > 0
  {
    if x < step then 0 else Quotient(x - step, step) + 1
  }

  lemma {:induction false} TimesIsProduct(k: nat, x: int)
    ensures Times(k, x) == k * x
  {
    if k > 0 {
      TimesIsProduct(k - 1, x);
      assert k * x == (k - 1) * x + x;
    }
  }

  lemma {:induction false} TimesMono(i: nat, j: nat, x: int)
    requires i <= j && x >= 0
    ensures 0 <= Times(i, x) <= Times(j, x)
  {
    if j > 0 {
      if i == j {
        TimesMono(i - 1, j - 1, x);
      } else {
        TimesMono(i, j - 1, x);
      }
    }
  }

  /** k steps fit into x exactly when k is at most the quotient. */
  lemma {:induction false} FitsInQuotient(k: nat, step: nat, x: nat)
    requires step > 0
    ensures Times(k, step) <= x <==> k <= Quotient(x, step)
    decreases x
  {
    if k > 0 {
      TimesMono(0, k - 1, step);
      if x >= step {
        FitsInQuotient(k - 1, step, x - step);
      }
    }
  }

  /** How many windows of one key can reach an interval one window long: their beginnings are more than a window apart. */
  function Windows(cfg: Config, lag: nat): nat {
    Quotient(2 * cfg.window + lag, cfg.window + 1) + 1
  }

  /** Each of them admits its cap there, less the first request of all but one. */
  function Bound(cfg: Config, lag: nat): int {
    Times(Windows(cfg, lag), Cap(cfg) - 1) + 1
  }

  /**
   What a window begun at begun, with used admissions, says about the admissions in
   [a, a + window]; at most k earlier windows have reached there. The first admission of a
   window lies inside only if the window begins inside, and only one does.
   */
  predicate Within(cfg: Config, lag: nat, begun: int, used: int, a: int, admitted: int, k: nat) {
    if begun < a - cfg.window then admitted == 0
    else if begun <= a + cfg.window + lag then
      && Times(k, cfg.window + 1) <= begun - (a - cfg.window)
      && admitted <= Times(k, Cap(cfg) - 1) + used - 1 + (if begun >= a then 1 else 0)
    else admitted <= Bound(cfg, lag)
  }

  lemma WithinBound(cfg: Config, lag: nat, begun: int, used: int, a: int, admitted: int, k: nat)
    requires Within(cfg, lag, begun, used, a, admitted, k) && 1 <= used <= Cap(cfg)
    ensures admitted <= Bound(cfg, lag)
  {
    TimesMono(0, Windows(cfg, lag), Cap(cfg) - 1);
    if a - cfg.window <= begun <= a + cfg.window + lag {
      FitsInQuotient(k, cfg.window + 1, 2 * cfg.window + lag);
      TimesMono(k + 1, Windows(cfg, lag), Cap(cfg) - 1);
    }
  }

  /** A refused request raises the count past the cap, where it no longer matters. */
  lemma SameWindow(cfg: Config, lag: nat, begun: int, count: nat, a: int, admitted: int, k: nat, at: int, admits: bool)
    requires Within(cfg, lag, begun, Least(count, Cap(cfg)), a, admitted, k) && begun - lag <= at <= begun + cfg.window
    requires count >= 1 && (admits <==> count + 1 <= cfg.limit)
    ensures Within(cfg, lag, begun, Least(count + 1, Cap(cfg)), a, admitted + (if admits && a <= at <= a + cfg.window then 1 else 0), k)
  {}

  lemma NextWindow(cfg: Config, lag: nat, begun: int, used: int, a: int, admitted: int, k: nat, at: int)
    requires Within(cfg, lag, begun, used, a, admitted, k) && 1 <= used <= Cap(cfg) && at > begun + cfg.window
    ensures var k' := if begun < a - cfg.window then 0 else k + 1;
            Within(cfg, lag, at, 1, a, admitted + (if a <= at <= a + cfg.window then 1 else 0), k')
  {
    WithinBound(cfg, lag, begun, used, a, admitted, k);
  }

  lemma FirstWindow(cfg: Config, lag: nat, a: int, at: int)
    ensures Within(cfg, lag, at, 1, a, if a <= at <= a + cfg.window then 1 else 0, 0)
  {
    TimesMono(0, Windows(cfg, lag), Cap(cfg) - 1);
  }

  ghost predicate WithinSome(cfg: Config, lag: nat, begun: int, used: int, a: int, admitted: int) {
    exists k: nat :: Within(cfg, lag, begun, used, a, admitted, k)
  }

  ghost predicate Bounded(cfg: Config, lag: nat, entries: Entries, key: string, a: int, admitted: int) {
    if key !in entries then admitted == 0
    else
      && entries[key].count >= 1
      && WithinSome(cfg, lag, entries[key].resetTime - cfg.window, Least(entries[key].count, Cap(cfg)), a, admitted)
  }

  lemma BoundedStep(cfg: Config, lag: nat, entries: Entries, key: string, a: int, admitted: int, at: int)
    requires Bounded(cfg, lag, entries, key, a, admitted)
    requires key in entries ==> entries[key].resetTime - cfg.window - lag <= at
    ensures var hit := a <= at <= a + cfg.window && Admits(cfg, entries, key, at);
            Bounded(cfg, lag, Step(cfg, entries, key, at), key, a, admitted + (if hit then 1 else 0))
  {
    var admits := Admits(cfg, entries, key, at);
    if key !in entries {
      FirstWindow(cfg, lag, a, at);
      assert WithinSome(cfg, lag, at, 1, a, if a <= at <= a + cfg.window then 1 else 0);
    } else {
      var begun, used := entries[key].resetTime - cfg.window, Least(entries[key].count, Cap(cfg));
      var k: nat :| Within(cfg, lag, begun, used, a, admitted, k);
      if Expired(entries, key, at) {
        NextWindow(cfg, lag, begun, used, a, admitted, k, at);
        assert WithinSome(cfg, lag, at, 1, a, admitted + (if a <= at <= a + cfg.window then 1 else 0));
      } else {
        SameWindow(cfg, lag, begun, entries[key].count, a, admitted, k, at, admits);
        assert WithinSome(cfg, lag, begun, Least(entries[key].count + 1, Cap(cfg)), a,
                          admitted + (if admits && a <= at <= a + cfg.window then 1 else 0));
      }
    }
  }

  /** The window of key began at one of its readings. */
  predicate Begun(cfg: Config, calls: seq<Call>, key: string, n: nat)
    requires n <= |calls|
  {
    key in After(cfg, calls, n) ==> exists i :: 0 <= i < n && calls[i].at == After(cfg, calls, n)[key].resetTime - cfg.window
  }

  lemma {:induction false} WindowsBegin(cfg: Config, calls: seq<Call>, key: string, n: nat)
    requires n <= |calls|
    ensures Begun(cfg, calls, key, n)
  {
    if n > 0 {
      WindowsBegin(cfg, calls, key, n - 1);
      assert calls[n - 1].at + cfg.window - cfg.window == calls[n - 1].at;
    }
  }

  lemma {:induction false} RunIsBounded(cfg: Config, lag: nat, calls: seq<Call>, key: string, a: int, n: nat)
    requires n <= |calls| && Lagging(calls, lag)
    ensures Bounded(cfg, lag, After(cfg, calls, n), key, a, AdmittedIn(cfg, calls, key, a, n))
  {
    if n > 0 {
      RunIsBounded(cfg, lag, calls, key, a, n - 1);
      WindowsBegin(cfg, calls, key, n - 1);
      if calls[n - 1].key == key {
        BoundedStep(cfg, lag, After(cfg, calls, n - 1), key, a, AdmittedIn(cfg, calls, key, a, n - 1), calls[n - 1].at);
      }
    }
  }

  /** The bound for any traffic: however late the requests reach the lock, only so many pass in an interval one window long. */
  lemma LaggingBound(cfg: Config, lag: nat, calls: seq<Call>, key: string, a: int)
    requires Lagging(calls, lag)
    ensures AdmittedIn(cfg, calls, key, a, |calls|) <= Bound(cfg, lag)
  {
    RunIsBounded(cfg, lag, calls, key, a, |calls|);
    var entries, admitted := After(cfg, calls, |calls|), AdmittedIn(cfg, calls, key, a, |calls|);
    TimesMono(0, Windows(cfg, lag), Cap(cfg) - 1);
    if key in entries {
      var begun, used := entries[key].resetTime - cfg.window, Least(entries[key].count, Cap(cfg));
      var k: nat :| Within(cfg, lag, begun, used, a, admitted, k);
      WithinBound(cfg, lag, begun, used, a, admitted, k);
    }
  }

  lemma ShortTimes(x: int)
    ensures Times(1, x) == x && Times(2, x) == 2 * x && Times(3, x) == 3 * x
  {
    assert Times(0, x) == 0;
    assert Times(1, x) == x;
  }

  /** Two windows reach an interval when the lag is at most one nanosecond, three or more otherwise. */
  lemma TwoWindowsIffLagAtMostOne(cfg: Config, lag: nat)
    ensures Windows(cfg, lag) <= 2 <==> lag <= 1
    ensures lag <= cfg.window + 2 ==> Windows(cfg, lag) <= 3
    ensures cfg.window >= 1 ==> Windows(cfg, lag) >= 2
  {
    var x, step := 2 * cfg.window + lag, cfg.window + 1;
    ShortTimes(step);
    FitsInQuotient(1, step, x);
    FitsInQuotient(2, step, x);
    FitsInQuotient(3, step, x);
  }

  /** With the clock read under the lock: fewer than twice the limit, where a limit below one counts as one. */
  lemma WindowBound(cfg: Config, calls: seq<Call>, key: string, a: int)
    requires Monotone(calls)
    ensures AdmittedIn(cfg, calls, key, a, |calls|) <= 2 * Cap(cfg) - 1
  {
    LaggingBound(cfg, 0, calls, key, a);
    TwoWindowsIffLagAtMostOne(cfg, 0);
    TimesMono(Windows(cfg, 0), 2, Cap(cfg) - 1);
    ShortTimes(Cap(cfg) - 1);
  }

  // ------------------------------------------------------------ the bound is met

  lemma {:induction false} PrefixRuns(cfg: Config, calls: seq<Call>, more: seq<Call>, key: string, a: int, n: nat)
    requires n <= |calls|
    ensures After(cfg, calls + more, n) == After(cfg, calls, n)
    ensures AdmittedIn(cfg, calls + more, key, a, n) == AdmittedIn(cfg, calls, key, a, n)
  {
    if n > 0 {
      PrefixRuns(cfg, calls, more, key, a, n - 1);
      assert (calls + more)[n - 1] == calls[n - 1];
    }
  }

  /** The state of key that matters here, after all calls: its entry, and its admissions from a on. */
  predicate Stands(cfg: Config, calls: seq<Call>, key: string, a: int, entry: Entry, admitted: int) {
    && key in After(cfg, calls, |calls|) && After(cfg, calls, |calls|)[key] == entry
    && AdmittedIn(cfg, calls, key, a, |calls|) == admitted
  }

  lemma OneMore(cfg: Config, calls: seq<Call>, key: string, a: int, at: int)
    ensures var before, admitted := After(cfg, calls, |calls|), AdmittedIn(cfg, calls, key, a, |calls|);
            var hit := a <= at <= a + cfg.window && Admits(cfg, before, key, at);
            Stands(cfg, calls + [Call(key, at)], key, a, Step(cfg, before, key, at)[key], admitted + (if hit then 1 else 0))
  {
    PrefixRuns(cfg, calls, [Call(key, at)], key, a, |calls|);
  }

  function Repeat(key: string, at: int, n: nat): seq<Call> {
    if n == 0 then [] else Repeat(key, at, n - 1) + [Call(key, at)]
  }

  /** Within a window, requests up to the cap are all admitted. */
  lemma {:induction false} RepeatAdmits(cfg: Config, calls: seq<Call>, key: string, a: int, entry: Entry, admitted: int, at: int, n: nat)
    requires Stands(cfg, calls, key, a, entry, admitted) && entry.count >= 1
    requires a <= at <= a + cfg.window && at <= entry.resetTime && entry.count + n <= Cap(cfg)
    ensures Stands(cfg, calls + Repeat(key, at, n), key, a, Entry(entry.count + n, entry.resetTime), admitted + n)
  {
    if n == 0 {
      assert calls + Repeat(key, at, 0) == calls;
    } else {
      RepeatAdmits(cfg, calls, key, a, entry, admitted, at, n - 1);
      OneMore(cfg, calls + Repeat(key, at, n - 1), key, a, at);
      assert calls + Repeat(key, at, n) == calls + Repeat(key, at, n - 1) + [Call(key, at)];
    }
  }

  /** Window j of the burst begins here, one step after the end of the window before it. */
  function BeginsAt(cfg: Config, j: nat): int {
    Times(j, cfg.window + 1)
  }

  /** The readings of the rest of window j, inside [window, 2 * window]. */
  function RestAt(cfg: Config, j: nat): int {
    if j == 0 then cfg.window else Least(BeginsAt(cfg, j), 2 * cfg.window)
  }

  /** The first n windows of the burst, each used up to the cap. */
  function Burst(cfg: Config, key: string, n: nat): seq<Call> {
    if n == 0 then []
    else Burst(cfg, key, n - 1) + [Call(key, BeginsAt(cfg, n - 1))] + Repeat(key, RestAt(cfg, n - 1), Cap(cfg) - 1)
  }

  /** The one window that begins inside the interval: the second, or the first if windows have no length. */
  function Inside(cfg: Config): nat {
    if cfg.window == 0 then 0 else 1
  }

  lemma BurstTimes(cfg: Config, j: nat)
    ensures cfg.window <= BeginsAt(cfg, j) <= 2 * cfg.window <==> j == Inside(cfg)
    ensures cfg.window <= RestAt(cfg, j) <= 2 * cfg.window && RestAt(cfg, j) <= BeginsAt(cfg, j) + cfg.window
    ensures j >= 1 ==> RestAt(cfg, j) <= BeginsAt(cfg, j)
    ensures j >= 1 ==> BeginsAt(cfg, j) == BeginsAt(cfg, j - 1) + cfg.window + 1
  {
    ShortTimes(cfg.window + 1);
    if j >= 1 {
      TimesMono(1, j, cfg.window + 1);
    }
    if j >= 2 {
      TimesMono(2, j, cfg.window + 1);
    }
  }

  function BurstAdmits(cfg: Config, n: nat): int {
    Times(n, Cap(cfg) - 1) + (if n > Inside(cfg) then 1 else 0)
  }

  lemma BurstWindowOpens(cfg: Config, key: string, before: seq<Call>, j: nat)
    requires j > 0 ==> Stands(cfg, before, key, cfg.window, Entry(Cap(cfg), BeginsAt(cfg, j - 1) + cfg.window), BurstAdmits(cfg, j))
    requires j == 0 ==> before == []
    ensures Stands(cfg, before + [Call(key, BeginsAt(cfg, j))], key, cfg.window, Entry(1, BeginsAt(cfg, j) + cfg.window),
                   Times(j, Cap(cfg) - 1) + (if j + 1 > Inside(cfg) then 1 else 0))
  {
    BurstTimes(cfg, j);
    OneMore(cfg, before, key, cfg.window, BeginsAt(cfg, j));
  }

  lemma {:induction false} BurstStands(cfg: Config, key: string, n: nat)
    requires n >= 1
    ensures Stands(cfg, Burst(cfg, key, n), key, cfg.window, Entry(Cap(cfg), BeginsAt(cfg, n - 1) + cfg.window), BurstAdmits(cfg, n))
  {
    var before, j := Burst(cfg, key, n - 1), n - 1;
    if j > 0 {
      BurstStands(cfg, key, j);
    }
    BurstWindowOpens(cfg, key, before, j);
    BurstTimes(cfg, j);
    var admitted := Times(j, Cap(cfg) - 1) + (if n > Inside(cfg) then 1 else 0);
    RepeatAdmits(cfg, before + [Call(key, BeginsAt(cfg, j))], key, cfg.window, Entry(1, BeginsAt(cfg, j) + cfg.window), admitted,
                 RestAt(cfg, j), Cap(cfg) - 1);
  }

  // The burst has the lag.

  predicate UpTo(calls: seq<Call>, newest: int) {
    forall i | 0 <= i < |calls| :: calls[i].at <= newest
  }

  lemma LaggingMore(calls: seq<Call>, lag: nat, newest: int, c: Call)
    requires Lagging(calls, lag) && UpTo(calls, newest) && newest <= c.at + lag
    ensures Lagging(calls + [c], lag)
  {}

  lemma {:induction false} LaggingRepeat(calls: seq<Call>, lag: nat, newest: int, key: string, at: int, n: nat)
    requires Lagging(calls, lag) && UpTo(calls, newest) && at <= newest <= at + lag
    ensures Lagging(calls + Repeat(key, at, n), lag) && UpTo(calls + Repeat(key, at, n), newest)
  {
    if n == 0 {
      assert calls + Repeat(key, at, 0) == calls;
    } else {
      LaggingRepeat(calls, lag, newest, key, at, n - 1);
      LaggingMore(calls + Repeat(key, at, n - 1), lag, newest, Call(key, at));
      assert calls + Repeat(key, at, n) == calls + Repeat(key, at, n - 1) + [Call(key, at)];
    }
  }

  lemma {:induction false} BurstLags(cfg: Config, lag: nat, key: string, n: nat)
    requires n >= 1 ==> BeginsAt(cfg, n - 1) <= 2 * cfg.window + lag
    ensures Lagging(Burst(cfg, key, n), lag)
    ensures n >= 1 ==> UpTo(Burst(cfg, key, n), if n == 1 then cfg.window else BeginsAt(cfg, n - 1))
  {
    if n >= 1 {
      var j := n - 1;
      BurstTimes(cfg, j);
      BurstLags(cfg, lag, key, j);
      var before, at := Burst(cfg, key, j), BeginsAt(cfg, j);
      LaggingMore(before, lag, at, Call(key, at));
      LaggingRepeat(before + [Call(key, at)], lag, if j == 0 then cfg.window else at, key, RestAt(cfg, j), Cap(cfg) - 1);
    }
  }

  /** For every limit, window and lag some traffic of that lag meets the bound exactly. */
  lemma LaggingBoundIsTight(cfg: Config, lag: nat, key: string)
    ensures var calls := Burst(cfg, key, Windows(cfg, lag));
            Lagging(calls, lag) && AdmittedIn(cfg, calls, key, cfg.window, |calls|) == Bound(cfg, lag)
  {
    var n := Windows(cfg, lag);
    FitsInQuotient(n - 1, cfg.window + 1, 2 * cfg.window + lag);
    BurstLags(cfg, lag, key, n);
    BurstStands(cfg, key, n);
    TwoWindowsIffLagAtMostOne(cfg, lag);
  }

  /** With the clock read under the lock, two windows' worth. */
  lemma WindowBoundIsTight(cfg: Config, key: string)
    requires cfg.window >= 1
    ensures var calls := Burst(cfg, key, 2);
            Monotone(calls) && AdmittedIn(cfg, calls, key, cfg.window, |calls|) == 2 * Cap(cfg) - 1
  {
    TwoWindowsIffLagAtMostOne(cfg, 0);
    ShortTimes(Cap(cfg) - 1);
    LaggingBoundIsTight(cfg, 0, key);
  }

  /** All traffic of the given lag stays below twice the limit. */
  ghost predicate KeepsTwice(cfg: Config, lag: nat) {
    forall calls, key, a {:trigger AdmittedIn(cfg, calls, key, a, |calls|)} | Lagging(calls, lag) ::
      AdmittedIn(cfg, calls, key, a, |calls|) <= 2 * Cap(cfg) - 1
  }

  /**
   The exact condition: below twice the limit for all traffic of a lag if and only if that
   lag is at most one nanosecond, or the limit is at most one request.
   */
  lemma KeepsTwiceIffLagAtMostOne(cfg: Config, lag: nat)
    ensures KeepsTwice(cfg, lag) <==> lag <= 1 || cfg.limit <= 1
  {
    if lag <= 1 || cfg.limit <= 1 {
      forall calls, key, a | Lagging(calls, lag) ensures AdmittedIn(cfg, calls, key, a, |calls|) <= 2 * Cap(cfg) - 1 {
        LaggingBound(cfg, lag, calls, key, a);
        TwiceSuffices(cfg, lag);
      }
    } else {
      TwiceIsExceeded(cfg, lag, "");
    }
  }

  lemma {:induction false} TimesZero(k: nat)
    ensures Times(k, 0) == 0
  {
    if k > 0 {
      TimesZero(k - 1);
    }
  }

  lemma TwiceSuffices(cfg: Config, lag: nat)
    requires lag <= 1 || cfg.limit <= 1
    ensures Bound(cfg, lag) <= 2 * Cap(cfg) - 1
  {
    TwoWindowsIffLagAtMostOne(cfg, lag);
    ShortTimes(Cap(cfg) - 1);
    if lag <= 1 {
      TimesMono(Windows(cfg, lag), 2, Cap(cfg) - 1);
    } else {
      TimesZero(Windows(cfg, lag));
    }
  }

  /** A lag of two nanoseconds is enough for a third window, whatever the limit above one. */
  lemma TwiceIsExceeded(cfg: Config, lag: nat, key: string)
    requires lag >= 2 && cfg.limit >= 2
    ensures var calls := Burst(cfg, key, Windows(cfg, lag));
            && Lagging(calls, lag)
            && AdmittedIn(cfg, calls, key, cfg.window, |calls|) >= 3 * Cap(cfg) - 2 > 2 * Cap(cfg) - 1
  {
    LaggingBoundIsTight(cfg, lag, key);
    TwoWindowsIffLagAtMostOne(cfg, lag);
    ShortTimes(Cap(cfg) - 1);
    TimesMono(3, Windows(cfg, lag), Cap(cfg) - 1);
  }

  /** Up to a lag a little longer than the window no fourth window reaches in. */
  lemma ThreeWindows(cfg: Config, lag: nat, calls: seq<Call>, key: string, a: int)
    requires Lagging(calls, lag) && lag <= cfg.window + 2
    ensures AdmittedIn(cfg, calls, key, a, |calls|) <= 3 * Cap(cfg) - 2
  {
    TwoWindowsIffLagAtMostOne(cfg, lag);
    LaggingBound(cfg, lag, calls, key, a);
    TimesMono(Windows(cfg, lag), 3, Cap(cfg) - 1);
    ShortTimes(Cap(cfg) - 1);
  }

  lemma {:induction false} TimesGrows(k: nat, x: int)
    requires x >= 1
    ensures Times(k, x) >= k
  {
    if k > 0 {
      TimesGrows(k - 1, x);
    }
  }

  /** Without a bound on the lag there is no bound on the admissions. */
  lemma UnboundedLagUnboundedAdmissions(cfg: Config, key: string, n: nat) returns (lag: nat)
    requires cfg.limit >= 2
    ensures var calls := Burst(cfg, key, Windows(cfg, lag));
            Lagging(calls, lag) && AdmittedIn(cfg, calls, key, cfg.window, |calls|) > n
  {
    TimesMono(0, n, cfg.window + 1);
    lag := Times(n, cfg.window + 1);
    FitsInQuotient(n, cfg.window + 1, 2 * cfg.window + lag);
    LaggingBoundIsTight(cfg, lag, key);
    TimesGrows(Windows(cfg, lag), Cap(cfg) - 1);
  }

  /**
   Three requests a minute, and nine of them read at 0, at 60 s (twice), at 60 s + 1 ns
   (three times), at 120 s + 2 ns and at 120 s (twice), handled in this order: seven pass
   between 60 s and 120 s, where five are promised.
   */
  lemma SevenInAMinute(key: string)
    ensures var cfg := Config(3, MINUTE);
            var calls := Burst(cfg, key, 3);
            && calls == [Call(key, 0), Call(key, MINUTE), Call(key, MINUTE),
                         Call(key, MINUTE + 1), Call(key, MINUTE + 1), Call(key, MINUTE + 1),
                         Call(key, 2 * MINUTE + 2), Call(key, 2 * MINUTE), Call(key, 2 * MINUTE)]
            && Lagging(calls, 2) && AdmittedIn(cfg, calls, key, MINUTE, |calls|) == 7
  {
    var cfg := Config(3, MINUTE);
    TwoWindowsIffLagAtMostOne(cfg, 2);
    LaggingBoundIsTight(cfg, 2, key);
    ShortTimes(2);
    BurstReads(cfg, key, 0);
    BurstReads(cfg, key, 1);
    BurstReads(cfg, key, 2);
    assert Burst(cfg, key, 0) == [];
  }

  lemma BurstReads(cfg: Config, key: string, j: nat)
    requires cfg.limit == 3 && j <= 2 && cfg.window >= 1
    ensures Burst(cfg, key, j + 1) == Burst(cfg, key, j) + [Call(key, j * (cfg.window + 1)), Call(key, RestAt(cfg, j)), Call(key, RestAt(cfg, j))]
    ensures RestAt(cfg, j) == if j == 0 then cfg.window else if j == 1 then cfg.window + 1 else 2 * cfg.window
  {
    ShortTimes(cfg.window + 1);
    var at := RestAt(cfg, j);
    assert Repeat(key, at, 0) == [];
    assert Repeat(key, at, 1) == [Call(key, at)];
    assert Repeat(key, at, 2) == [Call(key, at), Call(key, at)];
  }

  // ----------------------------------------------------------- deleting expired entries

  function Swept(entries: Entries, now: int): Entries {
    map k | k in entries && now <= entries[k].resetTime :: entries[k]
  }

  function SweepingStep(cfg: Config, entries: Entries, maxEntries: nat, key: string, now: int): Entries {
    Step(cfg, if |entries| > maxEntries then Swept(entries, now) else entries, key, now)
  }

  predicate SweepingAdmits(cfg: Config, entries: Entries, maxEntries: nat, key: string, now: int) {
    Admits(cfg, if |entries| > maxEntries then Swept(entries, now) else entries, key, now)
  }

  /**
   Up to maxEntries entries nothing is deleted; beyond that only unexpired entries are left,
   so the map outgrows maxEntries + 1 only with keys that are all within their window.
   */
  lemma SweepBoundsEntries(cfg: Config, entries: Entries, maxEntries: nat, key: string, now: int)
    requires cfg.window >= 0
    ensures var entries' := SweepingStep(cfg, entries, maxEntries, key, now);
            && (|entries| <= maxEntries ==> entries'.Keys == entries.Keys + {key})
            && (|entries'| <= maxEntries + 1 || forall k | k in entries' :: now <= entries'[k].resetTime)
  {
    var entries' := SweepingStep(cfg, entries, maxEntries, key, now);
    if |entries| <= maxEntries {
      assert entries'.Keys == entries.Keys + {key};
      assert |entries'| == |entries'.Keys| && |entries| == |entries.Keys|;
    }
  }

  function SweepingAfter(cfg: Config, calls: seq<Call>, maxEntries: nat, n: nat): Entries
    requires n <= |calls|
  {
    if n == 0 then map[]
    else SweepingStep(cfg, SweepingAfter(cfg, calls, maxEntries, n - 1), maxEntries, calls[n - 1].key, calls[n - 1].at)
  }

  /** The sweeping map holds the same entries, except some that have expired by now. */
  predicate Simulates(small: Entries, full: Entries, now: int) {
    && (forall k | k in small :: k in full && small[k] == full[k])
    && (forall k | k in full && k !in small :: full[k].resetTime < now)
  }

  lemma SimulatesStep(cfg: Config, small: Entries, full: Entries, maxEntries: nat, key: string, now: int)
    requires Simulates(small, full, now)
    ensures SweepingAdmits(cfg, small, maxEntries, key, now) == Admits(cfg, full, key, now)
    ensures Simulates(SweepingStep(cfg, small, maxEntries, key, now), Step(cfg, full, key, now), now)
  {}

  lemma {:induction false} SweepingSimulates(cfg: Config, calls: seq<Call>, maxEntries: nat, n: nat, now: int)
    requires n <= |calls| && Monotone(calls) && (n > 0 ==> calls[n - 1].at <= now)
    ensures Simulates(SweepingAfter(cfg, calls, maxEntries, n), After(cfg, calls, n), now)
  {
    if n > 0 {
      var at := calls[n - 1].at;
      assert n > 1 ==> calls[n - 2].at <= at;
      SweepingSimulates(cfg, calls, maxEntries, n - 1, at);
      SimulatesStep(cfg, SweepingAfter(cfg, calls, maxEntries, n - 1), After(cfg, calls, n - 1), maxEntries, calls[n - 1].key, at);
    }
  }

  /** Deleting expired entries, at any size, never changes a verdict. */
  lemma SweepingChangesNoVerdict(cfg: Config, calls: seq<Call>, maxEntries: nat, i: nat)
    requires Monotone(calls) && i < |calls|
    ensures SweepingAdmits(cfg, SweepingAfter(cfg, calls, maxEntries, i), maxEntries, calls[i].key, calls[i].at)
            == AdmittedAt(cfg, calls, i)
  {
    assert i > 0 ==> calls[i - 1].at <= calls[i].at;
    SweepingSimulates(cfg, calls, maxEntries, i, calls[i].at);
    SimulatesStep(cfg, SweepingAfter(cfg, calls, maxEntries, i), After(cfg, calls, i), maxEntries, calls[i].key, calls[i].at);
  }

  // -------------------------------------------------------------------- the code

  class RateLimiter {
    var entries: Entries

    constructor ()
      ensures entries == map[]
    {
      entries := map[];
    }

    /** True when the request is admitted. */
    method CheckRateLimit(clientId: string, limitPerMinute: int, now: int) returns (ok: bool)
      modifies this
      ensures ok == Admits(Config(limitPerMinute, MINUTE), old(entries), clientId, now)
      ensures entries == Step(Config(limitPerMinute, MINUTE), old(entries), clientId, now)
    {
      if clientId !in entries {
        entries := entries[clientId := Entry(1, now + MINUTE)];
        return true;
      }
      var entry := entries[clientId];
      if now > entry.resetTime {
        entries := entries[clientId := Entry(1, now + MINUTE)];
        return true;
      }
      entries := entries[clientId := entry.(count := entry.count + 1)];
      return entry.count + 1 <= limitPerMinute;
    }
  }

  class RegistrationIpTracker {
    var entries: Entries

    constructor ()
      ensures entries == map[]
    {
      entries := map[];
    }

    /** Deletes while ranging over the keys, in whatever order the map yields them. */
    method SweepExpired(now: int)
      modifies this
      ensures entries == Swept(old(entries), now)
    {
      var rest := entries.Keys;
      while rest != {}
        invariant rest <= old(entries).Keys
        invariant entries == map k | k in old(entries) && (k in rest || now <= old(entries)[k].resetTime) :: old(entries)[k]
        decreases |rest|
      {
        var k :| k in rest;
        if now > entries[k].resetTime {
          entries := entries - {k};
        }
        rest := rest - {k};
      }
    }

    method Check(ip: string, now: int) returns (ok: bool)
      modifies this
      ensures ok == SweepingAdmits(Config(REGISTRATION_LIMIT, HOUR), old(entries), TRACKER_MAX_ENTRIES, ip, now)
      ensures entries == SweepingStep(Config(REGISTRATION_LIMIT, HOUR), old(entries), TRACKER_MAX_ENTRIES, ip, now)
    {
      if |entries| > TRACKER_MAX_ENTRIES {
        SweepExpired(now);
      }
      if ip !in entries || now > entries[ip].resetTime {
        entries := entries[ip := Entry(1, now + HOUR)];
        return true;
      }
      entries := entries[ip := entries[ip].(count := entries[ip].count + 1)];
      return entries[ip].count <= REGISTRATION_LIMIT;
    }
  }
}
