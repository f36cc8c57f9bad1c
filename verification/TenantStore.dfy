/**
 The tables behind community tenants and the three operations that change them inside
 a transaction: inserting under a fresh id, the termination sweep, and the recovery
 verify. A failing statement makes its transaction roll back.
 */
module TenantStore {
  import opened Wrappers

  /** Times are in seconds. */
  datatype Registration = Registration(
    secretHash: string,
    email: Option<string>,
    createdAt: int,
    expiresAt: int,
    lastSeen: Option<int>,
    disabled: bool,
    terminatedAt: Option<int>)

  datatype Token = Token(email: string, expiresAt: int, consumedAt: Option<int>, consumedBy: Option<string>)

  datatype Row = Row(tenant: string, data: string)

  type Registrations = map<string, Registration>
  type Tables = map<string, seq<Row>>

  const MAX_RETRIES: nat := 3
  const MAX_TENANTS_PER_EMAIL: nat := 3
  const REGISTRATION_TTL: int := 365 * 24 * 3600

  /** Tables with a tenant column that termination leaves alone. */
  const NON_CASCADE_TABLES: set<string> := {
    "community_saas_registrations", "tenants", "static_policies", "license_keys", "schema_migrations", "community_saas_daily_usage"
  }

  // ---------------------------------------------------------------- validation

  datatype AuthResult = Authenticated | NotFound | TenantTerminated | Disabled | Expired | InvalidSecret

  /** matches decides whether a secret fits a stored hash. */
  function Validate(regs: Registrations, tenant: string, secret: string, matches: (string, string) -> bool, now: int): AuthResult {
    if tenant !in regs then NotFound
    else
      var r := regs[tenant];
      if r.terminatedAt.Some? then TenantTerminated
      else if r.disabled then Disabled
      else if now > r.expiresAt then Expired
      else if !matches(r.secretHash, secret) then InvalidSecret
      else Authenticated
  }

  // -------------------------------------------------- inserting under a fresh id

  /** The id the insert loop ends up with: a taken id is retried with the next candidate, any other error stops. */
  function FreshId(regs: Registrations, candidates: seq<string>, inserts: nat -> bool, k: nat): Option<string>
    requires k <= |candidates|
    decreases |candidates| - k
  {
    if k == |candidates| || !inserts(k) then None
    else if candidates[k] in regs then FreshId(regs, candidates, inserts, k + 1)
    else Some(candidates[k])
  }

  predicate FirstFree(regs: Registrations, candidates: seq<string>, k: nat, j: nat) {
    && k <= j < |candidates| && candidates[j] !in regs
    && forall i: nat | k <= i < j :: candidates[i] in regs
  }

  predicate Runs(inserts: nat -> bool, k: nat, j: nat) {
    forall i: nat | k <= i <= j :: inserts(i)
  }

  /** The loop ends with the first free candidate, unless a statement fails before it gets there. */
  lemma {:induction false} FreshIdIsFirstFree(regs: Registrations, candidates: seq<string>, inserts: nat -> bool, k: nat)
    requires k <= |candidates|
    ensures var r := FreshId(regs, candidates, inserts, k);
            && (r.Some? ==> r.value !in regs && r.value in candidates)
            && (forall j: nat | FirstFree(regs, candidates, k, j) :: r == if Runs(inserts, k, j) then Some(candidates[j]) else None)
            && ((forall j: nat | k <= j < |candidates| :: candidates[j] in regs) ==> r.None?)
    decreases |candidates| - k
  {
    if k < |candidates| && candidates[k] in regs {
      FreshIdIsFirstFree(regs, candidates, inserts, k + 1);
      forall j: nat | FirstFree(regs, candidates, k, j)
        ensures FreshId(regs, candidates, inserts, k) == if Runs(inserts, k, j) then Some(candidates[j]) else None
      {
        assert FirstFree(regs, candidates, k + 1, j);
        assert Runs(inserts, k, j) <==> inserts(k) && Runs(inserts, k + 1, j);
      }
    }
  }

  /** A registration inserted at now, bound to email if one was given. */
  function Fresh(secretHash: string, email: Option<string>, now: int): Registration {
    Registration(secretHash, email, now, now + REGISTRATION_TTL, None, false, None)
  }

  method InsertTenant(regs: Registrations, candidates: seq<string>, inserts: nat -> bool, row: Registration)
    returns (regs': Registrations, tenant: Option<string>)
    requires |candidates| == MAX_RETRIES
    ensures tenant == FreshId(regs, candidates, inserts, 0)
    ensures regs' == if tenant.Some? then regs[tenant.value := row] else regs
  {
    var attempt := 0;
    while attempt < MAX_RETRIES
      invariant attempt <= MAX_RETRIES
      invariant FreshId(regs, candidates, inserts, attempt) == FreshId(regs, candidates, inserts, 0)
    {
      if !inserts(attempt) {
        return regs, None;
      }
      if candidates[attempt] !in regs {
        return regs[candidates[attempt] := row], Some(candidates[attempt]);
      }
      attempt := attempt + 1;
    }
    return regs, None;
  }

  // --------------------------------------- the same loop inside one transaction

  /** PostgreSQL aborts a transaction at its first failed statement, so only the first attempt can insert. */
  function FreshIdInTransaction(regs: Registrations, candidates: seq<string>, inserts: nat -> bool): Option<string> {
    if candidates == [] || !inserts(0) || candidates[0] in regs then None else Some(candidates[0])
  }

  /** The two loops agree exactly when the first id is free, or the autocommitted loop fails as well. */
  lemma LoopsAgreeIff(regs: Registrations, candidates: seq<string>, inserts: nat -> bool)
    ensures FreshIdInTransaction(regs, candidates, inserts) == FreshId(regs, candidates, inserts, 0) <==>
            (candidates != [] && candidates[0] !in regs) || FreshId(regs, candidates, inserts, 0).None?
  {}

  /** The recovery's loop: after a collision every further statement fails with another error. */
  method InsertInTransaction(regs: Registrations, candidates: seq<string>, inserts: nat -> bool, row: Registration)
    returns (regs': Registrations, tenant: Option<string>)
    requires |candidates| == MAX_RETRIES
    ensures tenant == FreshIdInTransaction(regs, candidates, inserts)
    ensures regs' == if tenant.Some? then regs[tenant.value := row] else regs
  {
    var attempt, aborted := 0, false;
    while attempt < MAX_RETRIES
      invariant attempt <= MAX_RETRIES && (aborted <==> attempt > 0)
      invariant aborted ==> candidates[0] in regs
    {
      if aborted || !inserts(attempt) {
        return regs, None;
      }
      if candidates[attempt] !in regs {
        return regs[candidates[attempt] := row], Some(candidates[attempt]);
      }
      aborted := true;
      attempt := attempt + 1;
    }
    return regs, None;
  }

  // ------------------------------------------------------------------- the sweep

  predicate LowerOrUnderscore(c: char) {
    'a' <= c <= 'z' || c == '_'
  }

  predicate ValidIdentifier(name: string) {
    && name != [] && LowerOrUnderscore(name[0])
    && forall i | 1 <= i < |name| :: LowerOrUnderscore(name[i]) || '0' <= name[i] <= '9'
  }

  /** A lower-case letter or the underscore, by its code. */
  predicate HeadCode(code: int) {
    97 <= code <= 122 || code == 95
  }

  /** One of these or a digit. */
  predicate TailCode(code: int) {
    HeadCode(code) || 48 <= code <= 57
  }

  /** The names of the pattern [a-z_][a-z0-9_]*. */
  predicate InPattern(name: string) {
    if |name| <= 1 then name != [] && HeadCode(name[0] as int)
    else InPattern(name[..|name| - 1]) && TailCode(name[|name| - 1] as int)
  }

  /** The names let through to the deletes are those of the pattern: no quote, blank, dot or capital among them. */
  lemma {:induction false} ValidIdentifierIffInPattern(name: string)
    ensures ValidIdentifier(name) <==> InPattern(name)
  {
    if |name| > 1 {
      var before := name[..|name| - 1];
      ValidIdentifierIffInPattern(before);
      assert forall i | 0 <= i < |before| :: before[i] == name[i];
    }
  }

  predicate Inactive(r: Registration, window: nat, now: int) {
    r.lastSeen.Some? && r.lastSeen.value < now - window && r.terminatedAt.None?
  }

  predicate PastCap(r: Registration, cap: nat, now: int) {
    r.createdAt < now - cap && r.terminatedAt.None?
  }

  function InactiveIds(regs: Registrations, window: nat, now: int): set<string> {
    set id | id in regs && Inactive(regs[id], window, now)
  }

  function CappedIds(regs: Registrations, cap: nat, now: int): set<string> {
    set id | id in regs && PastCap(regs[id], cap, now)
  }

  function Tombstone(r: Registration, now: int): Registration {
    r.(terminatedAt := Some(now), secretHash := "")
  }

  function Terminate(regs: Registrations, ids: set<string>, now: int): Registrations {
    map id | id in regs :: if id in ids then Tombstone(regs[id], now) else regs[id]
  }

  /** The rows that do not belong to the given tenants, in order. */
  function Keep(rows: seq<Row>, ids: set<string>): seq<Row> {
    if rows == [] then []
    else if rows[|rows| - 1].tenant in ids then Keep(rows[..|rows| - 1], ids)
    else Keep(rows[..|rows| - 1], ids) + [rows[|rows| - 1]]
  }

  /** The deletes on the first k cascade tables. */
  function DeleteRows(tables: Tables, cascade: seq<string>, ids: set<string>, k: nat): Tables
    requires k <= |cascade|
  {
    if k == 0 then tables
    else
      var before := DeleteRows(tables, cascade, ids, k - 1);
      if cascade[k - 1] in before then before[cascade[k - 1] := Keep(before[cascade[k - 1]], ids)] else before
  }

  datatype SweepConfig = SweepConfig(cascade: seq<string>, inactivityWindow: nat, hardCap: nat)

  datatype LockAnswer = Acquired | Busy | LockError

  /** Which statements of one tick succeed. */
  datatype TickEnv = TickEnv(
    connects: bool,
    lock: LockAnswer,
    begins: bool,
    updatesInactive: bool,
    updatesCapped: bool,
    deletes: nat -> bool,
    commits: bool,
    counts: bool)            // the two queries of a dry run

  predicate Deletes(cfg: SweepConfig, tables: Tables, deletes: nat -> bool, k: nat)
    requires k < |cfg.cascade|
  {
    ValidIdentifier(cfg.cascade[k]) && cfg.cascade[k] in tables && deletes(k)
  }

  predicate CascadeRuns(cfg: SweepConfig, tables: Tables, ids: set<string>, deletes: nat -> bool) {
    ids == {} || forall k: nat | k < |cfg.cascade| :: Deletes(cfg, tables, deletes, k)
  }

  function Cascaded(cfg: SweepConfig, tables: Tables, ids: set<string>): Tables {
    if ids == {} then tables else DeleteRows(tables, cfg.cascade, ids, |cfg.cascade|)
  }

  function TerminatedIds(cfg: SweepConfig, regs: Registrations, now: int): set<string> {
    InactiveIds(regs, cfg.inactivityWindow, now) + CappedIds(regs, cfg.hardCap, now)
  }

  predicate TransactionCommits(cfg: SweepConfig, regs: Registrations, tables: Tables, env: TickEnv, now: int) {
    && env.begins && env.updatesInactive && env.updatesCapped
    && CascadeRuns(cfg, tables, TerminatedIds(cfg, regs, now), env.deletes) && env.commits
  }

  predicate TickCommits(cfg: SweepConfig, regs: Registrations, tables: Tables, env: TickEnv, now: int) {
    env.connects && env.lock.Acquired? && TransactionCommits(cfg, regs, tables, env, now)
  }

  /** The deletes remove exactly the given tenants' rows, every copy of them. */
  lemma {:induction false} KeepRemovesExactly(rows: seq<Row>, ids: set<string>, row: Row)
    ensures multiset(Keep(rows, ids))[row] == if row.tenant in ids then 0 else multiset(rows)[row]
  {
    if rows != [] {
      KeepRemovesExactly(rows[..|rows| - 1], ids, row);
      assert rows == rows[..|rows| - 1] + [rows[|rows| - 1]];
    }
  }

  lemma {:induction false} KeepAgain(rows: seq<Row>, ids: set<string>)
    ensures Keep(Keep(rows, ids), ids) == Keep(rows, ids)
    ensures |Keep(rows, ids)| <= |rows|
  {
    if rows != [] {
      var last := rows[|rows| - 1];
      KeepAgain(rows[..|rows| - 1], ids);
      if last.tenant !in ids {
        assert (Keep(rows[..|rows| - 1], ids) + [last])[..|Keep(rows[..|rows| - 1], ids)|] == Keep(rows[..|rows| - 1], ids);
      }
    }
  }

  /** Each cascade table keeps exactly the other tenants' rows; every other table is left alone. */
  lemma {:induction false} DeleteRowsIsExact(tables: Tables, cascade: seq<string>, ids: set<string>, k: nat)
    requires k <= |cascade|
    ensures var after := DeleteRows(tables, cascade, ids, k);
            && after.Keys == tables.Keys
            && forall t | t in tables :: after[t] == if t in cascade[..k] then Keep(tables[t], ids) else tables[t]
  {
    if k > 0 {
      DeleteRowsIsExact(tables, cascade, ids, k - 1);
      var name := cascade[k - 1];
      assert cascade[..k] == cascade[..k - 1] + [name];
      if name in tables {
        KeepAgain(tables[name], ids);
      }
    }
  }

  /** The second update cannot see the first one's rows, and together they tombstone the union. */
  lemma UpdatesAreDisjoint(cfg: SweepConfig, regs: Registrations, now: int)
    ensures var first := InactiveIds(regs, cfg.inactivityWindow, now);
            var second := CappedIds(Terminate(regs, first, now), cfg.hardCap, now);
            && first !! second && first + second == TerminatedIds(cfg, regs, now)
            && Terminate(Terminate(regs, first, now), second, now) == Terminate(regs, TerminatedIds(cfg, regs, now), now)
  {
    var first := InactiveIds(regs, cfg.inactivityWindow, now);
    var second := CappedIds(Terminate(regs, first, now), cfg.hardCap, now);
    assert forall id | id in second :: id !in first && id in CappedIds(regs, cfg.hardCap, now);
    assert forall id | id in CappedIds(regs, cfg.hardCap, now) && id !in first :: id in second;
  }

  // ----------------------------------------------------------- the recovery verify

  predicate Active(r: Registration, email: string, now: int) {
    r.email == Some(email) && r.terminatedAt.None? && !r.disabled && r.expiresAt > now
  }

  function ActiveIds(regs: Registrations, email: string, now: int): set<string> {
    set id | id in regs && Active(regs[id], email, now)
  }

  datatype VerifyEnv = VerifyEnv(begins: bool, counts: bool, consumes: bool, inserts: nat -> bool, backfills: bool, commits: bool)

  /** The tenant the verify transaction creates, or None when it rolls back. */
  function VerifiedTenant(regs: Registrations, tokens: map<string, Token>, hash: string, email: string,
                          candidates: seq<string>, env: VerifyEnv, now: int): Option<string> {
    if && env.begins && env.counts && |ActiveIds(regs, email, now)| < MAX_TENANTS_PER_EMAIL
       && env.consumes && hash in tokens && tokens[hash].consumedAt.None? && env.backfills && env.commits
    then FreshIdInTransaction(regs, candidates, env.inserts)
    else None
  }

  function Consume(token: Token, tenant: string, now: int): Token {
    token.(consumedAt := Some(now), consumedBy := Some(tenant))
  }

  /** A successful verify raises its email's active count by one, to at most three, and no other email's. */
  lemma RecoveryRespectsCap(regs: Registrations, tokens: map<string, Token>, hash: string, email: string,
                            candidates: seq<string>, env: VerifyEnv, now: int, secretHash: string, other: string)
    requires VerifiedTenant(regs, tokens, hash, email, candidates, env, now).Some?
    ensures var tenant := VerifiedTenant(regs, tokens, hash, email, candidates, env, now).value;
            var regs' := regs[tenant := Fresh(secretHash, Some(email), now)];
            && |ActiveIds(regs', email, now)| == |ActiveIds(regs, email, now)| + 1 <= MAX_TENANTS_PER_EMAIL
            && (other != email ==> ActiveIds(regs', other, now) == ActiveIds(regs, other, now))
  {
    var tenant := VerifiedTenant(regs, tokens, hash, email, candidates, env, now).value;
    var regs' := regs[tenant := Fresh(secretHash, Some(email), now)];
    assert ActiveIds(regs', email, now) == ActiveIds(regs, email, now) + {tenant};
  }

  // ------------------------------------------------------------------- the code

  datatype Counters = Counters(byInactivity: nat, byHardCap: nat, rowsDeleted: int, failures: nat, skips: nat)

  /** The rows the deletes on the first k tables removed. */
  function DeletedRows(tables: Tables, cascade: seq<string>, ids: set<string>, k: nat): int
    requires k <= |cascade|
  {
    if k == 0 then 0
    else
      var before, name := DeleteRows(tables, cascade, ids, k - 1), cascade[k - 1];
      DeletedRows(tables, cascade, ids, k - 1) + (if name in before then |before[name]| - |Keep(before[name], ids)| else 0)
  }

  function DeletedBy(cfg: SweepConfig, tables: Tables, ids: set<string>): int {
    if ids == {} then 0 else DeletedRows(tables, cfg.cascade, ids, |cfg.cascade|)
  }

  function RowCount(tables: Tables, names: seq<string>, k: nat): nat
    requires k <= |names|
  {
    if k == 0 then 0
    else RowCount(tables, names, k - 1) + (if names[k - 1] in tables then |tables[names[k - 1]]| else 0)
  }

  predicate Distinct(names: seq<string>) {
    forall i, j | 0 <= i < j < |names| :: names[i] != names[j]
  }

  /** The reported number of deleted rows is what the cascade tables lost. */
  lemma {:induction false} DeletedRowsAreMissing(tables: Tables, cascade: seq<string>, ids: set<string>, k: nat)
    requires k <= |cascade| && Distinct(cascade)
    ensures DeletedRows(tables, cascade, ids, k) ==
            RowCount(tables, cascade, k) - RowCount(DeleteRows(tables, cascade, ids, |cascade|), cascade, k)
  {
    if k > 0 {
      var name := cascade[k - 1];
      DeletedRowsAreMissing(tables, cascade, ids, k - 1);
      DeleteRowsIsExact(tables, cascade, ids, k - 1);
      DeleteRowsIsExact(tables, cascade, ids, |cascade|);
      assert name !in cascade[..k - 1] && name in cascade[..|cascade|];
    }
  }

  /** The reported number of deleted rows of one tick. */
  lemma DeletedByIsMissing(cfg: SweepConfig, tables: Tables, ids: set<string>)
    requires Distinct(cfg.cascade)
    ensures DeletedBy(cfg, tables, ids) ==
            RowCount(tables, cfg.cascade, |cfg.cascade|) - RowCount(Cascaded(cfg, tables, ids), cfg.cascade, |cfg.cascade|)
  {
    DeletedRowsAreMissing(tables, cfg.cascade, ids, |cfg.cascade|);
  }

  predicate Cascades(name: string) {
    ValidIdentifier(name) && name !in NON_CASCADE_TABLES
  }

  /** The first n found names that cascade, in the order in which they were found. */
  function Cascading(found: seq<string>, n: nat): seq<string>
    requires n <= |found|
  {
    if n == 0 then [] else if Cascades(found[n - 1]) then Cascading(found, n - 1) + [found[n - 1]] else Cascading(found, n - 1)
  }

  /** Each qualifying name is kept as often as it was found. */
  lemma {:induction false} CascadingKeepsAll(found: seq<string>, n: nat, name: string)
    requires n <= |found|
    ensures multiset(Cascading(found, n))[name] == if Cascades(name) then multiset(found[..n])[name] else 0
  {
    if n > 0 {
      CascadingKeepsAll(found, n - 1, name);
      assert found[..n] == found[..n - 1] + [found[n - 1]];
    }
  }

  /** A listing without repeats stays one. */
  lemma {:induction false} CascadingStaysDistinct(found: seq<string>, n: nat)
    requires n <= |found| && Distinct(found)
    ensures Distinct(Cascading(found, n)) && forall t | t in Cascading(found, n) :: exists i :: 0 <= i < n && found[i] == t
  {
    if n > 0 {
      CascadingStaysDistinct(found, n - 1);
      assert found[n - 1] !in Cascading(found, n - 1);
    }
  }

  /** The tables found by reflection, without malformed names and without the ones that are never cascaded. */
  method DiscoverCascadeTables(found: seq<string>) returns (tables: seq<string>)
    ensures tables == Cascading(found, |found|)
    ensures forall t :: t in tables <==> t in found && ValidIdentifier(t) && t !in NON_CASCADE_TABLES
  {
    tables := [];
    for i := 0 to |found|
      invariant tables == Cascading(found, i)
      invariant forall t :: t in tables <==> t in found[..i] && ValidIdentifier(t) && t !in NON_CASCADE_TABLES
    {
      if ValidIdentifier(found[i]) && found[i] !in NON_CASCADE_TABLES {
        tables := tables + [found[i]];
      }
    }
  }

  function IdSet(ids: seq<string>): set<string> {
    set id | id in ids
  }

  lemma IdSetAppend(a: seq<string>, b: seq<string>)
    ensures IdSet(a + b) == IdSet(a) + IdSet(b)
  {}

  /** The ids an UPDATE ... RETURNING yields, each once, in an order of the database's choosing. */
  method ReturnedIds(ids: set<string>) returns (r: seq<string>)
    ensures IdSet(r) == ids && |r| == |ids|
  {
    r := [];
    var rest := ids;
    while rest != {}
      invariant rest <= ids && IdSet(r) == ids - rest && |r| == |ids| - |rest|
      decreases |rest|
    {
      var id :| id in rest;
      IdSetAppend(r, [id]);
      assert IdSet([id]) == {id};
      assert ids - (rest - {id}) == (ids - rest) + {id};
      r := r + [id];
      rest := rest - {id};
    }
  }

  /** Deletes the tenants' rows table by table; a bad name or a failed delete stops it. */
  method CascadeDelete(cfg: SweepConfig, tables: Tables, ids: seq<string>, deletes: nat -> bool) returns (r: Option<Tables>, total: int)
    ensures r.Some? <==> CascadeRuns(cfg, tables, IdSet(ids), deletes)
    ensures r.Some? ==> r.value == Cascaded(cfg, tables, IdSet(ids))
    ensures r.Some? ==> total == DeletedBy(cfg, tables, IdSet(ids))
  {
    if |ids| == 0 {
      return Some(tables), 0;
    }
    assert ids[0] in IdSet(ids);
    var after := tables;
    total := 0;
    for k := 0 to |cfg.cascade|
      invariant after == DeleteRows(tables, cfg.cascade, IdSet(ids), k) && after.Keys == tables.Keys
      invariant total == DeletedRows(tables, cfg.cascade, IdSet(ids), k)
      invariant forall i: nat | i < k :: Deletes(cfg, tables, deletes, i)
    {
      var table := cfg.cascade[k];
      if !ValidIdentifier(table) || table !in after || !deletes(k) {
        assert !Deletes(cfg, tables, deletes, k);
        return None, total;
      }
      var kept := Keep(after[table], IdSet(ids));
      total := total + |after[table]| - |kept|;
      after := after[table := kept];
    }
    return Some(after), total;
  }

  datatype TickWork = RolledBack | Committed(regs: Registrations, tables: Tables, inactive: seq<string>, capped: seq<string>, deleted: int)

  /** The transaction of one tick, on the rows as it found them. */
  method SweepTransaction(cfg: SweepConfig, regs: Registrations, tables: Tables, env: TickEnv, now: int) returns (r: TickWork)
    ensures r.Committed? <==> TransactionCommits(cfg, regs, tables, env, now)
    ensures r.Committed? ==>
              && r.regs == Terminate(regs, TerminatedIds(cfg, regs, now), now)
              && r.tables == Cascaded(cfg, tables, TerminatedIds(cfg, regs, now))
              && r.deleted == DeletedBy(cfg, tables, TerminatedIds(cfg, regs, now))
              && IdSet(r.inactive) == InactiveIds(regs, cfg.inactivityWindow, now)
              && IdSet(r.inactive) !! IdSet(r.capped) && IdSet(r.inactive) + IdSet(r.capped) == TerminatedIds(cfg, regs, now)
              && |r.inactive| == |IdSet(r.inactive)| && |r.capped| == |IdSet(r.capped)|
  {
    if !env.begins || !env.updatesInactive {
      return RolledBack;
    }
    var inactive := InactiveIds(regs, cfg.inactivityWindow, now);
    var inactivityIds := ReturnedIds(inactive);
    var regs1 := Terminate(regs, inactive, now);
    if !env.updatesCapped {
      return RolledBack;
    }
    var capped := CappedIds(regs1, cfg.hardCap, now);
    var hardCapIds := ReturnedIds(capped);
    UpdatesAreDisjoint(cfg, regs, now);
    IdSetAppend(inactivityIds, hardCapIds);
    var after, deleted := CascadeDelete(cfg, tables, inactivityIds + hardCapIds, env.deletes);
    if after.None? || !env.commits {
      return RolledBack;
    }
    return Committed(Terminate(regs1, capped, now), after.value, inactivityIds, hardCapIds, deleted);
  }

  class TenantDatabase {
    var regs: Registrations
    var tokens: map<string, Token>
    var tables: Tables
    var counters: Counters

    constructor ()
      ensures regs == map[] && tokens == map[] && tables == map[] && counters == Counters(0, 0, 0, 0, 0)
    {
      regs, tokens, tables, counters := map[], map[], map[], Counters(0, 0, 0, 0, 0);
    }

    /** A tick that another instance holds up is skipped; one that cannot do its work fails. */
    static predicate TickFails(cfg: SweepConfig, regs: Registrations, tables: Tables, env: TickEnv, dryRun: bool, now: int) {
      || !env.connects || env.lock.LockError?
      || (env.lock.Acquired? && (if dryRun then !env.counts else !TransactionCommits(cfg, regs, tables, env, now)))
    }

    /** One tick does everything or nothing, and the termination counters move only with the commit. */
    method RunSweepTick(cfg: SweepConfig, env: TickEnv, dryRun: bool, now: int)
      modifies this`regs, this`tables, this`counters
      ensures !dryRun && TickCommits(cfg, old(regs), old(tables), env, now) ==>
                var ids := TerminatedIds(cfg, old(regs), now);
                && regs == Terminate(old(regs), ids, now) && tables == Cascaded(cfg, old(tables), ids)
                && counters.rowsDeleted == old(counters.rowsDeleted) + DeletedBy(cfg, old(tables), ids)
                && counters.byInactivity == old(counters.byInactivity) + |InactiveIds(old(regs), cfg.inactivityWindow, now)|
                && counters.byInactivity + counters.byHardCap == old(counters.byInactivity) + old(counters.byHardCap) + |ids|
      ensures dryRun || !TickCommits(cfg, old(regs), old(tables), env, now) ==>
                && regs == old(regs) && tables == old(tables)
                && counters == old(counters).(failures := counters.failures, skips := counters.skips)
      ensures counters.failures == old(counters.failures) + (if TickFails(cfg, old(regs), old(tables), env, dryRun, now) then 1 else 0)
      ensures counters.skips == old(counters.skips) + (if env.connects && env.lock.Busy? then 1 else 0)
    {
      if !env.connects || env.lock.LockError? {
        counters := counters.(failures := counters.failures + 1);
        return;
      }
      if env.lock.Busy? {
        counters := counters.(skips := counters.skips + 1);
        return;
      }
      if dryRun {
        if !env.counts {
          counters := counters.(failures := counters.failures + 1);
        }
        return;
      }
      var work := SweepTransaction(cfg, regs, tables, env, now);
      if work.RolledBack? {
        counters := counters.(failures := counters.failures + 1);
        return;
      }
      regs, tables := work.regs, work.tables;
      counters := counters.(byInactivity := counters.byInactivity + |work.inactive|,
                            byHardCap := counters.byHardCap + |work.capped|,
                            rowsDeleted := counters.rowsDeleted + work.deleted);
    }

    /** The serializable transaction of a recovery verify whose token was read before. */
    method VerifyTransaction(hash: string, email: string, secretHash: string, candidates: seq<string>, env: VerifyEnv, now: int)
      returns (tenant: Option<string>)
      requires |candidates| == MAX_RETRIES
      modifies this`regs, this`tokens
      ensures tenant == VerifiedTenant(old(regs), old(tokens), hash, email, candidates, env, now)
      ensures tenant.None? ==> regs == old(regs) && tokens == old(tokens)
      ensures tenant.Some? ==>
                && regs == old(regs)[tenant.value := Fresh(secretHash, Some(email), now)]
                && tokens == old(tokens)[hash := Consume(old(tokens)[hash], tenant.value, now)]
    {
      if !env.begins || !env.counts || |ActiveIds(regs, email, now)| >= MAX_TENANTS_PER_EMAIL {
        return None;
      }
      if !env.consumes || hash !in tokens || tokens[hash].consumedAt.Some? {
        return None;
      }
      var tokens1 := tokens[hash := tokens[hash].(consumedAt := Some(now))];
      var regs1, inserted := InsertInTransaction(regs, candidates, env.inserts, Fresh(secretHash, Some(email), now));
      if inserted.None? || !env.backfills || !env.commits {
        return None;
      }
      regs := regs1;
      tokens := tokens1[hash := tokens1[hash].(consumedBy := inserted)];
      return inserted;
    }
  }
}
