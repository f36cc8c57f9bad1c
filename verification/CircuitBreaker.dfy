/**
 The audit log of the decision-mode example and the circuit breaker around its
 central-store shipper. Times are readings of a monotone clock.
 */
module CircuitBreaker {
  import opened Wrappers

  datatype Config = Config(threshold: int, cooldown: real)

  /** The larger of the configured threshold and one. */
  function Threshold(cfg: Config): (n: int)
    ensures n >= 1 && n >= cfg.threshold && (n == 1 || n == cfg.threshold)
  {
    if cfg.threshold > 1 then cfg.threshold else 1
  }

  /** The larger of the configured cooldown and zero. */
  function Cooldown(cfg: Config): (c: real)
    ensures c >= 0.0 && c >= cfg.cooldown && (c == 0.0 || c == cfg.cooldown)
  {
    if cfg.cooldown > 0.0 then cfg.cooldown else 0.0
  }

  datatype Breaker = Breaker(failures: nat, openedAt: Option<real>, probing: bool)

  const CLOSED: Breaker := Breaker(0, None, false)

  predicate CooledDown(cfg: Config, b: Breaker, now: real) {
    b.openedAt.Some? && now - b.openedAt.value >= Cooldown(cfg)
  }

  predicate Allows(cfg: Config, b: Breaker, now: real) {
    b.openedAt.None? || (CooledDown(cfg, b, now) && !b.probing)
  }

  function AfterAllow(cfg: Config, b: Breaker, now: real): Breaker {
    if CooledDown(cfg, b, now) then b.(probing := true) else b
  }

  function AfterRecord(cfg: Config, b: Breaker, success: bool, now: real): Breaker {
    if success then CLOSED
    else if b.openedAt.Some? || b.failures + 1 >= Threshold(cfg) then Breaker(b.failures + 1, Some(now), false)
    else Breaker(b.failures + 1, None, false)
  }

  // ------------------------------------------------------------- runs of the log

  /** One recorded row: when the breaker was asked, when the ship ended, and whether the sink would take it. */
  datatype Event = Event(row: string, allowAt: real, recordAt: real, sinkOk: bool)

  datatype Log = Log(breaker: Breaker, rows: seq<string>, shipped: nat, failed: nat, skipped: nat)

  const FRESH: Log := Log(CLOSED, [], 0, 0, 0)

  function Ship(cfg: Config, l: Log, e: Event): Log {
    var b := AfterAllow(cfg, l.breaker, e.allowAt);
    if !Allows(cfg, l.breaker, e.allowAt) then l.(breaker := b, skipped := l.skipped + 1)
    else if e.sinkOk then l.(breaker := AfterRecord(cfg, b, true, e.recordAt), shipped := l.shipped + 1)
    else l.(breaker := AfterRecord(cfg, b, false, e.recordAt), failed := l.failed + 1)
  }

  /** The local write comes first; without a shipper that is all. */
  function RecordRow(cfg: Config, l: Log, e: Event, hasShipper: bool): Log {
    var l' := l.(rows := l.rows + [e.row]);
    if hasShipper then Ship(cfg, l', e) else l'
  }

  function Run(cfg: Config, l: Log, events: seq<Event>, hasShipper: bool): Log {
    if events == [] then l
    else RecordRow(cfg, Run(cfg, l, events[..|events| - 1], hasShipper), events[|events| - 1], hasShipper)
  }

  /** The events follow each other on the clock, none before start. */
  predicate Monotone(start: real, events: seq<Event>) {
    && (forall i | 0 <= i < |events| :: start <= events[i].allowAt <= events[i].recordAt)
    && (forall i | 1 <= i < |events| :: events[i - 1].recordAt <= events[i].allowAt)
  }

  function EndOf(start: real, events: seq<Event>): real {
    if events == [] then start else events[|events| - 1].recordAt
  }

  function RowsOf(events: seq<Event>): seq<string> {
    if events == [] then [] else RowsOf(events[..|events| - 1]) + [events[|events| - 1].row]
  }

  // ------------------------------------------------------------------ accounting

  /** Every row is in the local log in order, and with a shipper every row is shipped, failed or skipped. */
  lemma {:induction false} EveryRowIsAccounted(cfg: Config, l: Log, events: seq<Event>, hasShipper: bool)
    ensures var r := Run(cfg, l, events, hasShipper);
            && r.rows == l.rows + RowsOf(events)
            && r.shipped + r.failed + r.skipped == l.shipped + l.failed + l.skipped + (if hasShipper then |events| else 0)
  {
    if events != [] {
      EveryRowIsAccounted(cfg, l, events[..|events| - 1], hasShipper);
    }
  }

  /** Failing events at the end of a run. */
  function TrailingFailures(events: seq<Event>): nat {
    if events == [] || events[|events| - 1].sinkOk then 0 else 1 + TrailingFailures(events[..|events| - 1])
  }

  /**
   Between rows no probe is in flight. While the breaker is closed its count is the
   number of failing rows at the end of the run, and below the threshold: threshold
   failing rows in a row always leave it open.
   */
  lemma {:induction false} ClosedCountsFailures(cfg: Config, events: seq<Event>)
    ensures var b := Run(cfg, FRESH, events, true).breaker;
            !b.probing && (b.openedAt.None? ==> b.failures == TrailingFailures(events) < Threshold(cfg))
  {
    if events != [] {
      ClosedCountsFailures(cfg, events[..|events| - 1]);
    }
  }

  /** With no cooldown the breaker never skips: every row is attempted. */
  lemma {:induction false} NoCooldownNeverSkips(cfg: Config, events: seq<Event>, start: real)
    requires Cooldown(cfg) == 0.0 && Monotone(start, events)
    ensures var r := Run(cfg, FRESH, events, true);
            r.skipped == 0 && (r.breaker.openedAt.Some? ==> r.breaker.openedAt.value <= EndOf(start, events))
  {
    if events != [] {
      ClosedCountsFailures(cfg, events[..|events| - 1]);
      NoCooldownNeverSkips(cfg, events[..|events| - 1], start);
    }
  }

  // ----------------------------------------------------------------- a dead sink

  predicate AllFail(events: seq<Event>) {
    forall i | 0 <= i < |events| :: !events[i].sinkOk
  }

  /** Failures still needed to open the breaker. */
  function ToOpen(cfg: Config, b: Breaker): int {
    if b.openedAt.Some? then 0 else Threshold(cfg) - b.failures
  }

  /** When the breaker first opened in the run, if it did. */
  function FirstOpening(cfg: Config, l: Log, events: seq<Event>): Option<real> {
    if events == [] then l.breaker.openedAt
    else
      var before := FirstOpening(cfg, l, events[..|events| - 1]);
      if before.Some? then before else Run(cfg, l, events, true).breaker.openedAt
  }

  /** attempts ships since the breaker held b0 opened it first at first and last at openedAt, cooldown by cooldown. */
  predicate Paced(cfg: Config, b0: Breaker, b: Breaker, attempts: int, first: Option<real>) {
    && (b.openedAt.Some? <==> first.Some?)
    && (b.openedAt.None? ==> attempts == b.failures - b0.failures && b0.openedAt.None? && b.failures < Threshold(cfg))
    && (b.openedAt.Some? ==>
          && attempts >= ToOpen(cfg, b0)
          && Steps(cfg, attempts - ToOpen(cfg, b0)) <= b.openedAt.value - first.value)
  }

  /** The time k cooldowns take. */
  function Steps(cfg: Config, k: int): real {
    k as real * Cooldown(cfg)
  }

  lemma StepsSucc(cfg: Config, k: int)
    ensures Steps(cfg, k + 1) == Steps(cfg, k) + Cooldown(cfg)
  {}

  lemma PacedStep(cfg: Config, b0: Breaker, l: Log, e: Event, attempts: int, first: Option<real>)
    requires Paced(cfg, b0, l.breaker, attempts, first) && !l.breaker.probing && !e.sinkOk && e.allowAt <= e.recordAt
    ensures var l' := Ship(cfg, l, e);
            && !l'.breaker.probing && l'.shipped == l.shipped
            && Paced(cfg, b0, l'.breaker, attempts + (l'.failed - l.failed), if first.Some? then first else l'.breaker.openedAt)
  {
    if l.breaker.openedAt.Some? {
      StepsSucc(cfg, attempts - ToOpen(cfg, b0));
    }
  }

  lemma {:induction false} DeadSinkIsPaced(cfg: Config, l: Log, events: seq<Event>, start: real)
    requires !l.breaker.probing && (l.breaker.openedAt.None? ==> l.breaker.failures < Threshold(cfg))
    requires Monotone(start, events) && AllFail(events) && (l.breaker.openedAt.Some? ==> l.breaker.openedAt.value <= start)
    ensures var r := Run(cfg, l, events, true);
            && !r.breaker.probing && r.shipped == l.shipped
            && Paced(cfg, l.breaker, r.breaker, r.failed - l.failed, FirstOpening(cfg, l, events))
            && (r.breaker.openedAt.Some? ==> r.breaker.openedAt.value <= EndOf(start, events))
  {
    if events == [] {
      assert Steps(cfg, 0) == 0.0;
    } else {
      var events', e := events[..|events| - 1], events[|events| - 1];
      DeadSinkIsPaced(cfg, l, events', start);
      var before := Run(cfg, l, events', true);
      PacedStep(cfg, l.breaker, before.(rows := before.rows + [e.row]), e, before.failed - l.failed, FirstOpening(cfg, l, events'));
    }
  }

  /**
   A sink that fails from some moment on costs at most the failures needed to open the
   breaker plus one attempt per cooldown since it first opened. From a fresh breaker
   that is threshold + elapsed / cooldown.
   */
  lemma DeadSinkBound(cfg: Config, l: Log, events: seq<Event>, start: real)
    requires !l.breaker.probing && (l.breaker.openedAt.None? ==> l.breaker.failures < Threshold(cfg))
    requires Monotone(start, events) && AllFail(events) && (l.breaker.openedAt.Some? ==> l.breaker.openedAt.value <= start)
    requires Cooldown(cfg) > 0.0
    ensures var attempts := Run(cfg, l, events, true).failed - l.failed;
            var first := FirstOpening(cfg, l, events);
            && (first.None? ==> attempts < ToOpen(cfg, l.breaker))
            && (first.Some? ==> attempts as real <= ToOpen(cfg, l.breaker) as real + (EndOf(start, events) - first.value) / Cooldown(cfg))
    ensures l.breaker == CLOSED ==> ToOpen(cfg, l.breaker) == Threshold(cfg)
  {
    DeadSinkIsPaced(cfg, l, events, start);
    var r, first := Run(cfg, l, events, true), FirstOpening(cfg, l, events);
    if first.Some? {
      StepsBound(cfg, r.failed - l.failed, ToOpen(cfg, l.breaker), EndOf(start, events) - first.value);
    }
  }

  lemma StepsBound(cfg: Config, attempts: int, needed: int, t: real)
    requires Cooldown(cfg) > 0.0 && Steps(cfg, attempts - needed) <= t
    ensures attempts as real <= needed as real + t / Cooldown(cfg)
  {
    var k := (attempts - needed) as real;
    assert k == attempts as real - needed as real;
    DivideBound(k, Cooldown(cfg), t);
  }

  lemma DivideBound(k: real, c: real, t: real)
    requires c > 0.0 && k * c <= t
    ensures k <= t / c
  {
    assert k == k * c / c;
  }

  /** k cooldowns, one after the other. */
  function Waited(cfg: Config, k: nat): (t: real)
    ensures t >= 0.0
  {
    if k == 0 then 0.0 else Waited(cfg, k - 1) + Cooldown(cfg)
  }

  lemma {:induction false} WaitedIsProduct(cfg: Config, k: nat)
    ensures Waited(cfg, k) == k as real * Cooldown(cfg)
  {
    if k > 0 {
      WaitedIsProduct(cfg, k - 1);
      assert Waited(cfg, k) == (k - 1) as real * Cooldown(cfg) + Cooldown(cfg);
    }
  }

  /** Row i of the worst traffic: asked the moment the breaker would let it through. */
  function WorstRow(cfg: Config, i: nat): Event {
    var at := Waited(cfg, if i < Threshold(cfg) then 0 else i + 1 - Threshold(cfg));
    Event("", at, at, false)
  }

  function WorstTraffic(cfg: Config, n: nat): seq<Event> {
    if n == 0 then [] else WorstTraffic(cfg, n - 1) + [WorstRow(cfg, n - 1)]
  }

  lemma {:induction false} WorstTrafficGrows(cfg: Config, n: nat)
    ensures var events := WorstTraffic(cfg, n);
            && |events| == n && AllFail(events) && Monotone(0.0, events)
            && (n > 0 ==> events[n - 1] == WorstRow(cfg, n - 1))
  {
    if n > 0 {
      WorstTrafficGrows(cfg, n - 1);
    }
  }

  /** The breaker once n rows of it failed. */
  function WorstBreaker(cfg: Config, n: nat): Breaker {
    if n < Threshold(cfg) then Breaker(n, None, false) else Breaker(n, Some(Waited(cfg, n - Threshold(cfg))), false)
  }

  lemma WorstRowFails(cfg: Config, l: Log, n: nat)
    requires l.breaker == WorstBreaker(cfg, n)
    ensures Ship(cfg, l, WorstRow(cfg, n)) == l.(breaker := WorstBreaker(cfg, n + 1), failed := l.failed + 1)
  {}

  lemma WorstTrafficEnds(cfg: Config, n: nat)
    requires n > 0
    ensures var events := WorstTraffic(cfg, n);
            && events != [] && events[..|events| - 1] == WorstTraffic(cfg, n - 1) && events[|events| - 1] == WorstRow(cfg, n - 1)
  {}

  /** None of its rows is skipped. */
  lemma {:induction false} WorstTrafficIsAttempted(cfg: Config, n: nat)
    ensures Run(cfg, FRESH, WorstTraffic(cfg, n), true).failed == n
    ensures Run(cfg, FRESH, WorstTraffic(cfg, n), true).breaker == WorstBreaker(cfg, n)
  {
    if n > 0 {
      WorstTrafficIsAttempted(cfg, n - 1);
      WorstTrafficEnds(cfg, n);
      var before := Run(cfg, FRESH, WorstTraffic(cfg, n - 1), true);
      WorstRowFails(cfg, before.(rows := before.rows + [""]), n - 1);
    }
  }

  lemma {:induction false} WorstTrafficOpensAtOnce(cfg: Config, n: nat)
    ensures FirstOpening(cfg, FRESH, WorstTraffic(cfg, n)) == if n < Threshold(cfg) then None else Some(0.0)
  {
    if n > 0 {
      WorstTrafficOpensAtOnce(cfg, n - 1);
      WorstTrafficEnds(cfg, n);
      WorstTrafficIsAttempted(cfg, n);
    }
  }

  /** The bound is met: some traffic makes threshold attempts plus one for every whole cooldown since the breaker opened. */
  lemma DeadSinkBoundIsTight(cfg: Config, k: nat) returns (events: seq<Event>)
    ensures Monotone(0.0, events) && AllFail(events)
    ensures FirstOpening(cfg, FRESH, events) == Some(0.0) && EndOf(0.0, events) == k as real * Cooldown(cfg)
    ensures Run(cfg, FRESH, events, true).failed == Threshold(cfg) + k
  {
    var n := Threshold(cfg) + k;
    events := WorstTraffic(cfg, n);
    WorstTrafficGrows(cfg, n);
    WorstTrafficIsAttempted(cfg, n);
    WorstTrafficOpensAtOnce(cfg, n);
    WaitedIsProduct(cfg, k);
    assert EndOf(0.0, events) == WorstRow(cfg, n - 1).recordAt == Waited(cfg, k);
  }

  // -------------------------------------------------------------------- recovery

  /** The breaker is open and the row comes less than one cooldown after it opened. */
  predicate TooEarly(cfg: Config, b: Breaker, e: Event) {
    b.openedAt.Some? && e.allowAt < b.openedAt.value + Cooldown(cfg)
  }

  /** Between rows, a row is skipped if and only if it comes too early; any other is attempted. */
  lemma SkippedIffTooEarly(cfg: Config, l: Log, e: Event)
    requires !l.breaker.probing
    ensures var l' := Ship(cfg, l, e);
            && l'.skipped == l.skipped + (if TooEarly(cfg, l.breaker, e) then 1 else 0)
            && l'.shipped == l.shipped + (if !TooEarly(cfg, l.breaker, e) && e.sinkOk then 1 else 0)
            && l'.failed == l.failed + (if !TooEarly(cfg, l.breaker, e) && !e.sinkOk then 1 else 0)
            && (TooEarly(cfg, l.breaker, e) ==> l'.breaker == l.breaker)
  {}

  function TooEarlyCount(cfg: Config, b: Breaker, events: seq<Event>): nat {
    if events == [] then 0
    else TooEarlyCount(cfg, b, events[..|events| - 1]) + (if TooEarly(cfg, b, events[|events| - 1]) then 1 else 0)
  }

  predicate AllWork(events: seq<Event>) {
    forall i | 0 <= i < |events| :: events[i].sinkOk
  }

  lemma {:induction false} EarlierIsTooEarly(cfg: Config, b: Breaker, events: seq<Event>, start: real, i: nat)
    requires Monotone(start, events) && i < |events| && TooEarly(cfg, b, events[|events| - 1])
    ensures TooEarly(cfg, b, events[i])
  {
    if i < |events| - 1 {
      EarlierIsTooEarly(cfg, b, events[..|events| - 1], start, i);
    }
  }

  lemma {:induction false} AllTooEarly(cfg: Config, b: Breaker, events: seq<Event>)
    requires forall i | 0 <= i < |events| :: TooEarly(cfg, b, events[i])
    ensures TooEarlyCount(cfg, b, events) == |events|
  {
    if events != [] {
      AllTooEarly(cfg, b, events[..|events| - 1]);
    }
  }

  lemma {:induction false} TooEarlyCountBound(cfg: Config, b: Breaker, events: seq<Event>)
    ensures TooEarlyCount(cfg, b, events) <= |events|
  {
    if events != [] {
      TooEarlyCountBound(cfg, b, events[..|events| - 1]);
    }
  }

  /**
   Recovery. Once the sink works, a row is skipped exactly when it comes less than one
   cooldown after the last opening; every other row is shipped, nothing fails, and the
   first row shipped closes the breaker.
   */
  lemma {:induction false} WorkingSinkRecovers(cfg: Config, l: Log, events: seq<Event>, start: real)
    requires !l.breaker.probing && Monotone(start, events) && AllWork(events)
    ensures var r, early := Run(cfg, l, events, true), TooEarlyCount(cfg, l.breaker, events);
            && early <= |events| && r.skipped == l.skipped + early && r.shipped == l.shipped + (|events| - early) && r.failed == l.failed
            && r.breaker == (if early == |events| then l.breaker else CLOSED)
  {
    if events != [] {
      var events', e := events[..|events| - 1], events[|events| - 1];
      WorkingSinkRecovers(cfg, l, events', start);
      if TooEarly(cfg, l.breaker, e) {
        forall i | 0 <= i < |events'| ensures TooEarly(cfg, l.breaker, events'[i]) {
          EarlierIsTooEarly(cfg, l.breaker, events, start, i);
        }
        AllTooEarly(cfg, l.breaker, events');
      }
      SkippedIffTooEarly(cfg, Run(cfg, l, events', true).(rows := Run(cfg, l, events', true).rows + [e.row]), e);
    }
  }

  /** After the first shipped row of a working sink no row is skipped. */
  lemma NoSkipAfterFirstShip(cfg: Config, before: seq<Event>, events: seq<Event>, start: real, k: nat)
    requires Monotone(start, events) && AllWork(events) && k <= |events|
    ensures var l := Run(cfg, FRESH, before, true);
            Run(cfg, l, events[..k], true).shipped > l.shipped ==>
              Run(cfg, l, events, true).skipped == Run(cfg, l, events[..k], true).skipped
  {
    var l := Run(cfg, FRESH, before, true);
    ClosedCountsFailures(cfg, before);
    WorkingSinkRecovers(cfg, l, events[..k], start);
    if Run(cfg, l, events[..k], true).shipped > l.shipped {
      NoSkipFrom(cfg, l, events, start, k);
    }
  }

  lemma {:induction false} NoSkipFrom(cfg: Config, l: Log, events: seq<Event>, start: real, k: nat)
    requires !l.breaker.probing && Monotone(start, events) && AllWork(events) && k <= |events|
    requires Run(cfg, l, events[..k], true).shipped > l.shipped
    ensures Run(cfg, l, events, true).skipped == Run(cfg, l, events[..k], true).skipped
    ensures Run(cfg, l, events, true).shipped > l.shipped
    decreases |events|
  {
    if k == |events| {
      assert events[..k] == events;
    } else {
      var events' := events[..|events| - 1];
      assert events'[..k] == events[..k];
      NoSkipFrom(cfg, l, events', start, k);
      WorkingSinkRecovers(cfg, l, events', start);
    }
  }

  /** Of the callers that come after the cooldown, one is let through until its ship is recorded. */
  lemma OneProbeAtATime(cfg: Config, b: Breaker, now: real, later: real)
    requires b.openedAt.Some? && Allows(cfg, b, now)
    ensures !Allows(cfg, AfterAllow(cfg, b, now), later)
    ensures AfterAllow(cfg, AfterAllow(cfg, b, now), later) == AfterAllow(cfg, b, now)
  {}

  // -------------------------------------------------------------------- the code

  class Gate {
    const cfg: Config
    var failures: nat
    var openedAt: Option<real>
    var probing: bool

    ghost function View(): Breaker
      reads this
    {
      Breaker(failures, openedAt, probing)
    }

    constructor (cfg: Config)
      ensures this.cfg == cfg && View() == CLOSED
    {
      this.cfg := cfg;
      failures, openedAt, probing := 0, None, false;
    }

    method Allow(now: real) returns (ok: bool)
      modifies this`probing
      ensures ok == Allows(cfg, old(View()), now) && View() == AfterAllow(cfg, old(View()), now)
    {
      if openedAt.None? {
        return true;
      }
      if now - openedAt.value >= Cooldown(cfg) {
        if probing {
          return false;
        }
        probing := true;
        return true;
      }
      return false;
    }

    method Record(success: bool, now: real)
      modifies this
      ensures View() == AfterRecord(cfg, old(View()), success, now)
    {
      probing := false;
      if success {
        failures, openedAt := 0, None;
        return;
      }
      failures := failures + 1;
      if openedAt.Some? {
        openedAt := Some(now);
      } else if failures >= Threshold(cfg) {
        openedAt := Some(now);
      }
    }
  }

  class AuditLog {
    const gate: Gate
    const hasShipper: bool
    var rows: seq<string>
    var shipped: nat
    var shipFailures: nat
    var shipSkipped: nat

    ghost function View(): Log
      reads this, gate
    {
      Log(gate.View(), rows, shipped, shipFailures, shipSkipped)
    }

    constructor (cfg: Config, hasShipper: bool)
      ensures fresh(gate) && gate.cfg == cfg && this.hasShipper == hasShipper && View() == FRESH
    {
      gate := new Gate(cfg);
      this.hasShipper := hasShipper;
      rows, shipped, shipFailures, shipSkipped := [], 0, 0, 0;
    }

    method Record(e: Event)
      modifies this, gate
      ensures View() == RecordRow(gate.cfg, old(View()), e, hasShipper)
    {
      rows := rows + [e.row];
      if hasShipper {
        ShipRow(e);
      }
    }

    method ShipRow(e: Event)
      modifies this`shipped, this`shipFailures, this`shipSkipped, gate
      ensures View() == Ship(gate.cfg, old(View()), e)
    {
      var ok := gate.Allow(e.allowAt);
      if !ok {
        shipSkipped := shipSkipped + 1;
        return;
      }
      if !e.sinkOk {
        gate.Record(false, e.recordAt);
        shipFailures := shipFailures + 1;
        return;
      }
      gate.Record(true, e.recordAt);
      shipped := shipped + 1;
    }
  }
}
