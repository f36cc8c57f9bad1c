/**
 The per-org TTL cache of detection overrides, under every interleaving of gets,
 table reads, stores, invalidations and table changes.
 */
module OverrideCache {
  import opened Wrappers

  datatype DetectionAction = Block | Redact | Warn | LogOnly

  /** category -> action */
  type Overrides = map<string, DetectionAction>

  const SECOND: int := 1_000_000_000
  const MIN_TTL: int := 5 * SECOND
  const MAX_TTL: int := 600 * SECOND
  const MAX_ERR_TTL: int := 15 * SECOND

  function Distance(x: int, y: int): nat {
    if x < y then y - x else x - y
  }

  /** The allowed ttl nearest to the configured one. */
  function ClampTtl(ttl: int): (r: int)
    ensures MIN_TTL <= r <= MAX_TTL
    ensures forall x | MIN_TTL <= x <= MAX_TTL :: Distance(ttl, r) <= Distance(ttl, x)
  {
    if ttl < MIN_TTL then MIN_TTL else if ttl > MAX_TTL then MAX_TTL else ttl
  }

  /** How long a failed lookup is remembered: no longer than a result, and fifteen seconds at most. */
  function ErrTtl(ttl: int): (r: int)
    ensures r <= ttl && r <= 15_000_000_000 && (r == ttl || r == 15_000_000_000)
  {
    if ttl > MAX_ERR_TTL then MAX_ERR_TTL else ttl
  }

  /** One read of the table: None is a failed lookup. start is when the get that made it began. */
  datatype Read = Read(org: string, start: int, at: int, result: Option<Overrides>)

  /** A failed lookup yields the empty set, so the deployment-global config applies. */
  function Value(r: Read): Overrides {
    if r.result.Some? then r.result.value else map[]
  }

  /** A cached set and its expiry; origin is the number of the read it came from. */
  datatype Entry = Entry(overrides: Overrides, expiresAt: int, origin: nat)

  type Entries = map<string, Entry>

  function Cached(entries: Entries, org: string, at: int): Option<Entry> {
    if org in entries && at < entries[org].expiresAt then Some(entries[org]) else None
  }

  function Expiry(ttl: int, r: Read): int {
    r.start + (if r.result.Some? then ttl else ErrTtl(ttl))
  }

  function Store(ttl: int, entries: Entries, r: Read, origin: nat): Entries {
    entries[r.org := Entry(Value(r), Expiry(ttl, r), origin)]
  }

  // ------------------------------------------------------------- the machine

  datatype Get =
    | Started(org: string, at: int)                      // has read the clock
    | Missed(org: string, at: int)                       // found no live entry
    | HasRead(org: string, at: int, origin: nat)         // has read the table, has not stored
    | Returned(org: string, at: int, value: Overrides, origin: nat)

  /** The whole table from a moment on. */
  datatype Version = Version(since: int, table: map<string, Overrides>)

  datatype State = State(
    now: int,
    versions: seq<Version>,
    entries: Entries,
    gets: seq<Get>,
    log: seq<Read>)

  function Init(now: int): State {
    State(now, [Version(now, map[])], map[], [], [])
  }

  function TableOf(v: Version, org: string): Overrides {
    if org in v.table then v.table[org] else map[]
  }

  datatype Action =
    | Tick(elapsed: nat)
    | Change(org: string, overrides: Overrides)
    | Begin(org: string)
    | Lookup(g: nat)
    | ReadTable(g: nat, ok: bool)
    | StoreRead(g: nat)
    | Invalidate(org: string)

  predicate Enabled(s: State, act: Action) {
    match act
    case Tick(_) => true
    case Change(_, _) => s.versions != []
    case Begin(_) => true
    case Lookup(g) => g < |s.gets| && s.gets[g].Started?
    case ReadTable(g, _) => g < |s.gets| && s.gets[g].Missed? && s.versions != []
    case StoreRead(g) => g < |s.gets| && s.gets[g].HasRead? && s.gets[g].origin < |s.log|
    case Invalidate(_) => true
  }

  function Apply(ttl: int, s: State, act: Action): State
    requires Enabled(s, act)
  {
    match act
    case Tick(d) => s.(now := s.now + d)
    case Change(org, o) =>
      s.(versions := s.versions + [Version(s.now, s.versions[|s.versions| - 1].table[org := o])])
    case Begin(org) => s.(gets := s.gets + [Started(org, s.now)])
    case Lookup(g) =>
      var Started(org, at) := s.gets[g];
      var hit := Cached(s.entries, org, at);
      s.(gets := s.gets[g := if hit.Some? then Returned(org, at, hit.value.overrides, hit.value.origin) else Missed(org, at)])
    case ReadTable(g, ok) =>
      var Missed(org, at) := s.gets[g];
      var result := if ok then Some(TableOf(s.versions[|s.versions| - 1], org)) else None;
      s.(gets := s.gets[g := HasRead(org, at, |s.log|)], log := s.log + [Read(org, at, s.now, result)])
    case StoreRead(g) =>
      var HasRead(org, at, origin) := s.gets[g];
      var r := s.log[origin];
      s.(entries := Store(ttl, s.entries, r, origin), gets := s.gets[g := Returned(org, at, Value(r), origin)])
    case Invalidate(org) => s.(entries := s.entries - {org})
  }

  function RunFrom(ttl: int, s: State, acts: seq<Action>): Option<State> {
    if acts == [] then Some(s)
    else
      match RunFrom(ttl, s, acts[..|acts| - 1])
      case None => None
      case Some(t) =>
        if Enabled(t, acts[|acts| - 1]) then Some(Apply(ttl, t, acts[|acts| - 1])) else None
  }

  // --------------------------------------------------------------- staleness

  /** At time t the table held value for org. */
  predicate HeldAt(versions: seq<Version>, org: string, value: Overrides, t: int) {
    exists i :: 0 <= i < |versions| && InForce(versions, i, t) && TableOf(versions[i], org) == value
  }

  predicate InForce(versions: seq<Version>, i: nat, t: int)
    requires i < |versions|
  {
    versions[i].since <= t && (i + 1 < |versions| ==> t <= versions[i + 1].since)
  }

  /** The read happened no earlier than its get began, and a successful one saw the table of its moment. */
  predicate ReadOk(s: State, r: Read) {
    && r.start <= r.at <= s.now
    && (r.result.Some? ==> HeldAt(s.versions, r.org, r.result.value, r.at))
  }

  predicate FromRead(s: State, org: string, value: Overrides, origin: nat) {
    origin < |s.log| && s.log[origin].org == org && Value(s.log[origin]) == value
  }

  /** What a get that began at time at may return. */
  predicate FreshEnough(ttl: int, s: State, org: string, at: int, value: Overrides, origin: nat) {
    && FromRead(s, org, value, origin)
    && (var r := s.log[origin];
        if r.result.Some? then r.at > at - ttl else r.start > at - ErrTtl(ttl))
  }

  predicate EntryOk(ttl: int, s: State, org: string) {
    org in s.entries ==>
      var e := s.entries[org];
      FromRead(s, org, e.overrides, e.origin) && e.expiresAt == Expiry(ttl, s.log[e.origin])
  }

  predicate GetOk(ttl: int, s: State, g: nat)
    requires g < |s.gets|
  {
    match s.gets[g]
    case Started(_, at) => at <= s.now
    case Missed(_, at) => at <= s.now
    case HasRead(org, at, origin) => origin < |s.log| && s.log[origin].org == org && s.log[origin].start == at
    case Returned(org, at, value, origin) => FreshEnough(ttl, s, org, at, value, origin)
  }

  ghost predicate Inv(ttl: int, s: State) {
    && s.versions != [] && s.versions[|s.versions| - 1].since <= s.now
    && (forall i {:trigger ReadOk(s, s.log[i])} | 0 <= i < |s.log| :: ReadOk(s, s.log[i]))
    && (forall org {:trigger EntryOk(ttl, s, org)} :: EntryOk(ttl, s, org))
    && (forall g {:trigger GetOk(ttl, s, g)} | 0 <= g < |s.gets| :: GetOk(ttl, s, g))
  }

  lemma HeldLater(versions: seq<Version>, v: Version, org: string, value: Overrides, t: int)
    requires HeldAt(versions, org, value, t) && t <= v.since
    ensures HeldAt(versions + [v], org, value, t)
  {
    var i :| 0 <= i < |versions| && InForce(versions, i, t) && TableOf(versions[i], org) == value;
    assert InForce(versions + [v], i, t);
  }

  lemma ReadsStep(ttl: int, s: State, act: Action, i: nat)
    requires Inv(ttl, s) && Enabled(s, act) && i < |Apply(ttl, s, act).log|
    ensures ReadOk(Apply(ttl, s, act), Apply(ttl, s, act).log[i])
  {
    var s' := Apply(ttl, s, act);
    if i < |s.log| {
      var r := s.log[i];
      assert ReadOk(s, r);
      if act.Change? && r.result.Some? {
        HeldLater(s.versions, s'.versions[|s.versions|], r.org, r.result.value, r.at);
      }
    } else {
      assert GetOk(ttl, s, act.g);
      var last := |s.versions| - 1;
      assert InForce(s.versions, last, s.now);
    }
  }

  lemma EntriesStep(ttl: int, s: State, act: Action, org: string)
    requires Inv(ttl, s) && Enabled(s, act)
    ensures EntryOk(ttl, Apply(ttl, s, act), org)
  {
    assert EntryOk(ttl, s, org);
    if act.StoreRead? {
      assert GetOk(ttl, s, act.g);
    }
  }

  lemma GetsStep(ttl: int, s: State, act: Action, g: nat)
    requires ttl >= 1 && Inv(ttl, s) && Enabled(s, act) && g < |Apply(ttl, s, act).gets|
    ensures GetOk(ttl, Apply(ttl, s, act), g)
  {
    if g < |s.gets| {
      assert GetOk(ttl, s, g);
      if act == Lookup(g) {
        assert EntryOk(ttl, s, s.gets[g].org);
        if s.gets[g].org in s.entries {
          assert ReadOk(s, s.log[s.entries[s.gets[g].org].origin]);
        }
      } else if act == StoreRead(g) {
        assert ReadOk(s, s.log[s.gets[g].origin]);
      }
    }
  }

  lemma InvStep(ttl: int, s: State, act: Action)
    requires ttl >= 1 && Inv(ttl, s) && Enabled(s, act)
    ensures Inv(ttl, Apply(ttl, s, act))
  {
    var s' := Apply(ttl, s, act);
    forall i | 0 <= i < |s'.log| ensures ReadOk(s', s'.log[i]) {
      ReadsStep(ttl, s, act, i);
    }
    forall org ensures EntryOk(ttl, s', org) {
      EntriesStep(ttl, s, act, org);
    }
    forall g | 0 <= g < |s'.gets| ensures GetOk(ttl, s', g) {
      GetsStep(ttl, s, act, g);
    }
  }

  lemma {:induction false} RunKeepsInv(ttl: int, s: State, acts: seq<Action>)
    requires ttl >= 1 && Inv(ttl, s)
    ensures RunFrom(ttl, s, acts).Some? ==> Inv(ttl, RunFrom(ttl, s, acts).value)
  {
    if acts != [] {
      var acts', act := acts[..|acts| - 1], acts[|acts| - 1];
      RunKeepsInv(ttl, s, acts');
      if RunFrom(ttl, s, acts').Some? && Enabled(RunFrom(ttl, s, acts').value, act) {
        InvStep(ttl, RunFrom(ttl, s, acts').value, act);
      }
    }
  }

  /** value was the table's answer for org at some moment later than lo. */
  ghost predicate HeldSince(s: State, org: string, value: Overrides, lo: int) {
    exists t :: lo < t <= s.now && HeldAt(s.versions, org, value, t)
  }

  /**
   The staleness bound. In every run, a get that began at time at returns a set the
   table held for that org later than at - ttl, or the empty set of a failed read by
   a get that began later than at - ttl and than fifteen seconds before at.
   */
  lemma GetIsFreshEnough(configured: int, start: int, acts: seq<Action>, s: State, g: nat)
    requires RunFrom(ClampTtl(configured), Init(start), acts) == Some(s)
    requires g < |s.gets| && s.gets[g].Returned?
    ensures var ttl := ClampTtl(configured); var Returned(org, at, value, origin) := s.gets[g];
            || HeldSince(s, org, value, at - ttl)
            || (value == map[] && exists i :: 0 <= i < |s.log| && s.log[i].org == org && s.log[i].result.None?
                                              && s.log[i].start > at - ttl && s.log[i].start > at - 15_000_000_000)
  {
    var ttl := ClampTtl(configured);
    RunKeepsInv(ttl, Init(start), acts);
    assert GetOk(ttl, s, g);
    var r := s.log[s.gets[g].origin];
    assert ReadOk(s, r);
  }

  /**
   What is cached is served for exactly its time: in every run a lookup hits if and only if
   its org has an entry and the get that read it began less than ttl ago, or less than ttl
   and fifteen seconds ago when that read failed.
   */
  lemma LookupHitsIff(configured: int, start: int, acts: seq<Action>, s: State, g: nat)
    requires RunFrom(ClampTtl(configured), Init(start), acts) == Some(s) && Enabled(s, Lookup(g))
    ensures var ttl, org, at := ClampTtl(configured), s.gets[g].org, s.gets[g].at;
            var after := Apply(ttl, s, Lookup(g)).gets[g];
            && (org in s.entries ==> s.entries[org].origin < |s.log| && s.log[s.entries[org].origin].org == org)
            && (after.Returned? <==>
                  && org in s.entries
                  && (var r := s.log[s.entries[org].origin];
                      at < r.start + ttl && (r.result.None? ==> at < r.start + 15_000_000_000)))
            && (after.Returned? ==> after.value == Value(s.log[s.entries[org].origin]))
            && (!after.Returned? ==> after == Missed(org, at))
  {
    RunKeepsInv(ClampTtl(configured), Init(start), acts);
    assert EntryOk(ClampTtl(configured), s, s.gets[g].org);
  }

  lemma Extend(ttl: int, start: int, acts: seq<Action>, s: State, act: Action)
    requires RunFrom(ttl, Init(start), acts) == Some(s) && Enabled(s, act)
    ensures RunFrom(ttl, Init(start), acts + [act]) == Some(Apply(ttl, s, act))
  {
    assert (acts + [act])[..|acts|] == acts;
  }

  /** One get has read the empty set and stored it, and at once the table changes. */
  lemma ChangeAfterRead(ttl: int, start: int, org: string, o: Overrides) returns (acts: seq<Action>, s: State)
    ensures RunFrom(ttl, Init(start), acts) == Some(s)
    ensures s == State(start, [Version(start, map[]), Version(start, map[org := o])], map[org := Entry(map[], start + ttl, 0)],
                       [Returned(org, start, map[], 0)], [Read(org, start, start, Some(map[]))])
  {
    RunThree(ttl, Init(start), Begin(org), Lookup(0), ReadTable(0, true));
    acts := [Begin(org), Lookup(0), ReadTable(0, true)];
    s := RunFrom(ttl, Init(start), acts).value;
    Extend(ttl, start, acts, s, StoreRead(0));
    acts, s := acts + [StoreRead(0)], Apply(ttl, s, StoreRead(0));
    Extend(ttl, start, acts, s, Change(org, o));
    acts, s := acts + [Change(org, o)], Apply(ttl, s, Change(org, o));
  }

  /** The bound is tight: a get can be served, ttl - 1 after the table changed, what it held before. */
  lemma StalenessIsReached(configured: int, start: int, org: string, o: Overrides) returns (acts: seq<Action>, s: State)
    ensures RunFrom(ClampTtl(configured), Init(start), acts) == Some(s)
    ensures s.versions == [Version(start, map[]), Version(start, map[org := o])] && |s.gets| == 2
    ensures s.gets[1] == Returned(org, start + ClampTtl(configured) - 1, map[], 0)
  {
    var ttl := ClampTtl(configured);
    acts, s := ChangeAfterRead(ttl, start, org, o);
    Extend(ttl, start, acts, s, Tick(ttl - 1));
    acts, s := acts + [Tick(ttl - 1)], Apply(ttl, s, Tick(ttl - 1));
    Extend(ttl, start, acts, s, Begin(org));
    acts, s := acts + [Begin(org)], Apply(ttl, s, Begin(org));
    Extend(ttl, start, acts, s, Lookup(1));
    acts, s := acts + [Lookup(1)], Apply(ttl, s, Lookup(1));
  }

  // ------------------------------------------------------------ invalidation

  /** Some get has read the table for org and has yet to store what it read, for longer than the moment. */
  predicate StorePending(ttl: int, s: State, org: string) {
    exists g :: 0 <= g < |s.gets| && Pending(ttl, s, org, g)
  }

  predicate Pending(ttl: int, s: State, org: string, g: nat)
    requires g < |s.gets|
  {
    && s.gets[g].HasRead? && s.gets[g].org == org
    && s.gets[g].origin < |s.log| && s.now < Expiry(ttl, s.log[s.gets[g].origin])
  }

  /** Every get for org that begins after an invalidation now uses a read made after it. */
  ghost predicate InvalidationForcesRead(ttl: int, s: State, org: string) {
    forall acts, s', g {:trigger RunFrom(ttl, Apply(ttl, s, Invalidate(org)), acts), s'.gets[g]} |
      RunFrom(ttl, Apply(ttl, s, Invalidate(org)), acts) == Some(s') && |s.gets| <= g < |s'.gets| ::
      s'.gets[g].Returned? && s'.gets[g].org == org ==> s'.gets[g].origin >= |s.log|
  }

  /** The moment of an invalidation: the clock, the number of reads made and of gets begun. */
  datatype Mark = Mark(org: string, at: int, made: nat, begun: nat)

  predicate Late(ttl: int, s: State, m: Mark, g: nat)
    requires g < |s.gets|
  {
    s.gets[g].org == m.org ==>
      && (g >= m.begun ==> s.gets[g].at >= m.at)
      && (g >= m.begun && (s.gets[g].HasRead? || s.gets[g].Returned?) ==> s.gets[g].origin >= m.made)
      && (s.gets[g].HasRead? ==> s.gets[g].origin >= m.made || (s.gets[g].origin < |s.log| && Expiry(ttl, s.log[s.gets[g].origin]) <= m.at))
  }

  /** Whatever can still reach a get begun after the mark comes from a read made after it. */
  ghost predicate LateInv(ttl: int, s: State, m: Mark) {
    && s.now >= m.at && |s.log| >= m.made && |s.gets| >= m.begun
    && (m.org in s.entries ==> s.entries[m.org].origin >= m.made || s.entries[m.org].expiresAt <= m.at)
    && (forall g {:trigger Late(ttl, s, m, g)} | 0 <= g < |s.gets| :: Late(ttl, s, m, g))
  }

  lemma LateStep(ttl: int, s: State, act: Action, m: Mark)
    requires Inv(ttl, s) && LateInv(ttl, s, m) && Enabled(s, act)
    ensures LateInv(ttl, Apply(ttl, s, act), m)
  {
    var s' := Apply(ttl, s, act);
    forall g | 0 <= g < |s'.gets| ensures Late(ttl, s', m, g) {
      if g < |s.gets| {
        assert Late(ttl, s, m, g);
      }
    }
    if act.StoreRead? {
      assert Late(ttl, s, m, act.g) && GetOk(ttl, s, act.g);
    }
  }

  lemma {:induction false} RunKeepsLate(ttl: int, s: State, acts: seq<Action>, m: Mark)
    requires ttl >= 1 && Inv(ttl, s) && LateInv(ttl, s, m)
    ensures RunFrom(ttl, s, acts).Some? ==> LateInv(ttl, RunFrom(ttl, s, acts).value, m)
  {
    if acts != [] {
      var acts', act := acts[..|acts| - 1], acts[|acts| - 1];
      RunKeepsInv(ttl, s, acts');
      RunKeepsLate(ttl, s, acts', m);
      if RunFrom(ttl, s, acts').Some? && Enabled(RunFrom(ttl, s, acts').value, act) {
        LateStep(ttl, RunFrom(ttl, s, acts').value, act, m);
      }
    }
  }

  lemma RunThree(ttl: int, s: State, a: Action, b: Action, c: Action)
    requires Enabled(s, a) && Enabled(Apply(ttl, s, a), b) && Enabled(Apply(ttl, Apply(ttl, s, a), b), c)
    ensures RunFrom(ttl, s, [a, b, c]) == Some(Apply(ttl, Apply(ttl, Apply(ttl, s, a), b), c))
  {
    assert [a, b, c][..2] == [a, b] && [a, b][..1] == [a] && [a][..0] == [];
    assert RunFrom(ttl, s, [a]) == Some(Apply(ttl, s, a));
    assert RunFrom(ttl, s, [a, b]) == Some(Apply(ttl, Apply(ttl, s, a), b));
  }

  /** A pending store outlives the invalidation: a get begun afterwards is served the earlier read. */
  lemma PendingStoreSurvives(ttl: int, s: State, org: string)
    requires Inv(ttl, s) && StorePending(ttl, s, org)
    ensures !InvalidationForcesRead(ttl, s, org)
  {
    var g :| 0 <= g < |s.gets| && Pending(ttl, s, org, g);
    assert GetOk(ttl, s, g);
    var s0 := Apply(ttl, s, Invalidate(org));
    var n := |s.gets|;
    RunThree(ttl, s0, StoreRead(g), Begin(org), Lookup(n));
    var acts := [StoreRead(g), Begin(org), Lookup(n)];
    var s' := RunFrom(ttl, s0, acts).value;
    assert s'.gets[n].Returned? && s'.gets[n].org == org && s'.gets[n].origin < |s.log|;
  }

  /** Every cache can reach such a moment: one get that has read the table and not yet stored. */
  lemma PendingStoreIsReachable(configured: int, start: int, org: string) returns (acts: seq<Action>, s: State)
    ensures RunFrom(ClampTtl(configured), Init(start), acts) == Some(s) && StorePending(ClampTtl(configured), s, org)
    ensures !InvalidationForcesRead(ClampTtl(configured), s, org)
  {
    var ttl := ClampTtl(configured);
    RunThree(ttl, Init(start), Begin(org), Lookup(0), ReadTable(0, true));
    acts := [Begin(org), Lookup(0), ReadTable(0, true)];
    s := RunFrom(ttl, Init(start), acts).value;
    assert Pending(ttl, s, org, 0);
    RunKeepsInv(ttl, Init(start), acts);
    PendingStoreSurvives(ttl, s, org);
  }

  lemma NothingPendingForcesRead(ttl: int, s: State, org: string)
    requires ttl >= 1 && Inv(ttl, s) && !StorePending(ttl, s, org)
    ensures InvalidationForcesRead(ttl, s, org)
  {
    var s0 := Apply(ttl, s, Invalidate(org));
    var m := Mark(org, s.now, |s.log|, |s.gets|);
    InvStep(ttl, s, Invalidate(org));
    forall g | 0 <= g < |s0.gets| ensures Late(ttl, s0, m, g) {
      assert GetOk(ttl, s, g) && !Pending(ttl, s, org, g);
    }
    forall acts, s', g | RunFrom(ttl, s0, acts) == Some(s') && |s.gets| <= g < |s'.gets|
      ensures s'.gets[g].Returned? && s'.gets[g].org == org ==> s'.gets[g].origin >= |s.log|
    {
      RunKeepsLate(ttl, s0, acts, m);
      assert Late(ttl, s', m, g);
    }
  }

  /**
   invalidate is documented to make the next resolution re-read. In a reachable state
   it does so exactly when no get of that org stands between its read and its store
   with time left on it; otherwise the old posture can be served for up to ttl more.
   */
  lemma InvalidationForcesReadIffNothingPending(configured: int, start: int, acts: seq<Action>, s: State, org: string)
    requires RunFrom(ClampTtl(configured), Init(start), acts) == Some(s)
    ensures InvalidationForcesRead(ClampTtl(configured), s, org) <==> !StorePending(ClampTtl(configured), s, org)
  {
    var ttl := ClampTtl(configured);
    RunKeepsInv(ttl, Init(start), acts);
    if StorePending(ttl, s, org) {
      PendingStoreSurvives(ttl, s, org);
    } else {
      NothingPendingForcesRead(ttl, s, org);
    }
  }

  // ---------------------------------------------------------------- the cache

  /** The cache object; each method is a section of get or invalidate under its lock. */
  class DetectionOverrideCache {
    const ttl: int
    const errTtl: int
    var entries: Entries

    ghost predicate Valid() {
      MIN_TTL <= ttl <= MAX_TTL && errTtl == ErrTtl(ttl)
    }

    constructor (configured: int)
      ensures Valid() && ttl == ClampTtl(configured) && entries == map[]
    {
      var t := configured;
      if t < MIN_TTL {
        t := MIN_TTL;
      }
      if t > MAX_TTL {
        t := MAX_TTL;
      }
      ttl := t;
      errTtl := if t > MAX_ERR_TTL then MAX_ERR_TTL else t;
      entries := map[];
    }

    method LookupEntry(org: string, now: int) returns (hit: Option<Overrides>)
      ensures hit == (match Cached(entries, org, now) case None => None case Some(e) => Some(e.overrides))
    {
      hit := None;
      if org in entries {
        var entry := entries[org];
        if now < entry.expiresAt {
          hit := Some(entry.overrides);
        }
      }
    }

    method StoreResult(r: Read, origin: nat) returns (overrides: Overrides)
      requires Valid()
      modifies this
      ensures entries == Store(ttl, old(entries), r, origin) && overrides == Value(r)
    {
      match r.result {
        case None =>
          overrides := map[];
          entries := entries[r.org := Entry(overrides, r.start + errTtl, origin)];
        case Some(o) =>
          overrides := o;
          entries := entries[r.org := Entry(overrides, r.start + ttl, origin)];
      }
    }

    method Invalidate(org: string)
      modifies this
      ensures entries == old(entries) - {org}
    {
      entries := map o | o in entries && o != org :: entries[o];
    }
  }
}
