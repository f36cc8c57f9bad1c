/**
 The life of community tenants as a machine: registration, the two halves of an
 authenticated write, token issue, the two halves of a recovery verify, operator switches
 and sweep ticks, in any order. A transaction is one step; the credential check of a write
 and the token look-up of a verify are steps of their own.
 */
module TenantLifecycle {
  import opened Wrappers
  import opened TenantStore

  datatype Pending = Pending(hash: string, email: string)

  /** Credentials handed out by a recovery. */
  datatype Grant = Grant(token: string, tenant: string)

  /** A write that has passed its credential check; overtaken once a tick has terminated its tenant. */
  datatype PendingWrite = PendingWrite(tenant: string, overtaken: bool)

  datatype LateRow = LateRow(table: string, row: Row)

  datatype Birth = Birth(secretHash: string, at: int)

  /** A credential check that passed. */
  datatype Check = Check(tenant: string, secret: string, at: int)

  /** A look-up of a usable token. */
  datatype Lookup = Lookup(token: string, at: int)

  /** Who was created how and when, whom a tick has terminated, whom an operator has switched off, and the checks and look-ups passed so far. */
  datatype Log = Log(births: map<string, Birth>, ended: set<string>, off: set<string>, checks: seq<Check>, lookups: seq<Lookup>)

  /**
   created and granted are the history of all ids and all recovered credentials; late
   holds the rows inserted by overtaken writes.
   */
  datatype State = State(
    regs: Registrations,
    tokens: map<string, Token>,
    tables: Tables,
    pending: map<nat, Pending>,
    writes: map<nat, PendingWrite>,
    created: seq<string>,
    granted: seq<Grant>,
    late: seq<LateRow>,
    log: Log)

  datatype Config = Config(sweep: SweepConfig, names: set<string>, matches: (string, string) -> bool)

  function Init(cfg: Config): State {
    State(map[], map[], map t | t in cfg.names :: [], map[], map[], [], [], [], Log(map[], {}, {}, [], []))
  }

  datatype Action =
    | Register(candidates: seq<string>, inserts: nat -> bool, claimedBy: Option<string>, secretHash: string, now: int)
    | CheckWrite(w: nat, tenant: string, secret: string, now: int)
    | InsertRow(w: nat, table: string, data: string)
    | AbandonWrite(w: nat)
    | Touch(tenant: string, now: int)
    | SetDisabled(tenant: string, on: bool)
    | IssueToken(hash: string, email: string, expiresAt: int)
    | BeginVerify(v: nat, hash: string, now: int)
    | CommitVerify(v: nat, candidates: seq<string>, secretHash: string, env: VerifyEnv, now: int)
    | Tick(tick: TickEnv, now: int)

  predicate Enabled(cfg: Config, s: State, act: Action) {
    match act
    case Register(_, _, _, _, _) => true
    case CheckWrite(w, tenant, secret, now) => w !in s.writes && Validate(s.regs, tenant, secret, cfg.matches, now).Authenticated?
    case InsertRow(w, table, _) => w in s.writes && table in s.tables
    case AbandonWrite(w) => w in s.writes
    case Touch(tenant, _) => tenant in s.regs
    case SetDisabled(tenant, _) => tenant in s.regs
    case IssueToken(hash, _, _) => hash !in s.tokens
    case BeginVerify(v, hash, now) =>
      v !in s.pending && hash in s.tokens && s.tokens[hash].consumedAt.None? && now <= s.tokens[hash].expiresAt
    case CommitVerify(v, _, _, _, _) => v in s.pending
    case Tick(_, _) => true
  }

  function Create(s: State, tenant: string, r: Registration): State {
    s.(regs := s.regs[tenant := r], created := s.created + [tenant],
       log := s.log.(births := s.log.births[tenant := Birth(r.secretHash, r.createdAt)]))
  }

  function CommitRecovery(s: State, p: Pending, tenant: string, secretHash: string, now: int): State
    requires p.hash in s.tokens
  {
    Create(s, tenant, Fresh(secretHash, Some(p.email), now)).(
      tokens := s.tokens[p.hash := Consume(s.tokens[p.hash], tenant, now)],
      granted := s.granted + [Grant(p.hash, tenant)])
  }

  function Apply(cfg: Config, s: State, act: Action): State
    requires Enabled(cfg, s, act)
  {
    match act
    case Register(candidates, inserts, email, secretHash, now) =>
      var id := FreshId(s.regs, candidates, inserts, 0);
      if id.Some? then Create(s, id.value, Fresh(secretHash, email, now)) else s
    case CheckWrite(w, tenant, secret, now) =>
      s.(writes := s.writes[w := PendingWrite(tenant, false)], log := s.log.(checks := s.log.checks + [Check(tenant, secret, now)]))
    case InsertRow(w, table, data) =>
      var row := Row(s.writes[w].tenant, data);
      s.(tables := s.tables[table := s.tables[table] + [row]], writes := s.writes - {w},
         late := if s.writes[w].overtaken then s.late + [LateRow(table, row)] else s.late)
    case AbandonWrite(w) => s.(writes := s.writes - {w})
    case Touch(tenant, now) => s.(regs := s.regs[tenant := s.regs[tenant].(lastSeen := Some(now))])
    case SetDisabled(tenant, on) =>
      s.(regs := s.regs[tenant := s.regs[tenant].(disabled := on)],
         log := s.log.(off := if on then s.log.off + {tenant} else s.log.off - {tenant}))
    case IssueToken(hash, email, expiresAt) => s.(tokens := s.tokens[hash := Token(email, expiresAt, None, None)])
    case BeginVerify(v, hash, now) =>
      s.(pending := s.pending[v := Pending(hash, s.tokens[hash].email)], log := s.log.(lookups := s.log.lookups + [Lookup(hash, now)]))
    case CommitVerify(v, candidates, secretHash, env, now) =>
      var p := s.pending[v];
      var id := VerifiedTenant(s.regs, s.tokens, p.hash, p.email, candidates, env, now);
      var s' := if id.Some? then CommitRecovery(s, p, id.value, secretHash, now) else s;
      s'.(pending := s.pending - {v})
    case Tick(env, now) =>
      if TickCommits(cfg.sweep, s.regs, s.tables, env, now) then
        var ids := TerminatedIds(cfg.sweep, s.regs, now);
        s.(regs := Terminate(s.regs, ids, now), tables := Cascaded(cfg.sweep, s.tables, ids), writes := Overtake(s.writes, ids),
           log := s.log.(ended := s.log.ended + ids))
      else s
  }

  function Overtake(writes: map<nat, PendingWrite>, ids: set<string>): map<nat, PendingWrite> {
    map w | w in writes :: writes[w].(overtaken := writes[w].overtaken || writes[w].tenant in ids)
  }

  function RunFrom(cfg: Config, s: State, acts: seq<Action>): Option<State> {
    if acts == [] then Some(s)
    else
      match RunFrom(cfg, s, acts[..|acts| - 1])
      case None => None
      case Some(t) =>
        if Enabled(cfg, t, acts[|acts| - 1]) then Some(Apply(cfg, t, acts[|acts| - 1])) else None
  }

  // ---------------------------------------------------- rows and live tenants

  predicate Live(regs: Registrations, tenant: string) {
    tenant in regs && regs[tenant].terminatedAt.None?
  }

  predicate Dead(regs: Registrations, tenant: string) {
    tenant in regs && regs[tenant].terminatedAt.Some?
  }

  /** A write was overtaken exactly when its tenant has been terminated since its check. */
  predicate WritesOk(regs: Registrations, writes: map<nat, PendingWrite>) {
    forall w | w in writes :: if writes[w].overtaken then Dead(regs, writes[w].tenant) else Live(regs, writes[w].tenant)
  }

  predicate RowsOk(regs: Registrations, late: seq<LateRow>, table: string, rows: seq<Row>) {
    forall row | row in rows :: Live(regs, row.tenant) || LateRow(table, row) in late
  }

  predicate LateOk(cascade: seq<string>, regs: Registrations, tables: Tables, l: LateRow) {
    Dead(regs, l.row.tenant) && (l.table in cascade ==> l.table in tables && l.row in tables[l.table])
  }

  /** The cascade rows of terminated tenants are the rows that came late. */
  predicate OrphansAreLate(cascade: seq<string>, regs: Registrations, tables: Tables, late: seq<LateRow>) {
    && (forall t | t in cascade && t in tables :: RowsOk(regs, late, t, tables[t]))
    && (forall l | l in late :: LateOk(cascade, regs, tables, l))
  }

  /** Whoever is registered stays so, and stays live or dead. */
  predicate SameLife(regs: Registrations, regs': Registrations) {
    forall id | id in regs :: id in regs' && (regs[id].terminatedAt.None? <==> regs'[id].terminatedAt.None?)
  }

  lemma OrphansFrame(cascade: seq<string>, regs: Registrations, regs': Registrations, tables: Tables, late: seq<LateRow>, writes: map<nat, PendingWrite>)
    requires OrphansAreLate(cascade, regs, tables, late) && WritesOk(regs, writes) && SameLife(regs, regs')
    ensures OrphansAreLate(cascade, regs', tables, late) && WritesOk(regs', writes)
  {
    forall t | t in cascade && t in tables ensures RowsOk(regs', late, t, tables[t]) {
      assert RowsOk(regs, late, t, tables[t]);
    }
    forall l | l in late ensures LateOk(cascade, regs', tables, l) {
      assert LateOk(cascade, regs, tables, l);
    }
  }

  lemma OrphansInsert(cascade: seq<string>, regs: Registrations, tables: Tables, late: seq<LateRow>, write: PendingWrite, table: string, data: string)
    requires OrphansAreLate(cascade, regs, tables, late) && table in tables
    requires if write.overtaken then Dead(regs, write.tenant) else Live(regs, write.tenant)
    ensures var row := Row(write.tenant, data);
            OrphansAreLate(cascade, regs, tables[table := tables[table] + [row]], if write.overtaken then late + [LateRow(table, row)] else late)
  {
    var row := Row(write.tenant, data);
    var tables', late' := tables[table := tables[table] + [row]], if write.overtaken then late + [LateRow(table, row)] else late;
    forall t | t in cascade && t in tables' ensures RowsOk(regs, late', t, tables'[t]) {
      assert RowsOk(regs, late, t, tables[t]);
    }
    forall l | l in late' ensures LateOk(cascade, regs, tables', l) {
      if l in late {
        assert LateOk(cascade, regs, tables, l);
      }
    }
  }

  lemma KeptRows(rows: seq<Row>, ids: set<string>, row: Row)
    ensures row in Keep(rows, ids) <==> row in rows && row.tenant !in ids
  {
    KeepRemovesExactly(rows, ids, row);
  }

  lemma TickKeepsRowsOk(regs: Registrations, late: seq<LateRow>, table: string, rows: seq<Row>, ids: set<string>, now: int)
    requires RowsOk(regs, late, table, rows)
    ensures RowsOk(Terminate(regs, ids, now), late, table, Keep(rows, ids))
  {
    forall row | row in Keep(rows, ids) ensures Live(Terminate(regs, ids, now), row.tenant) || LateRow(table, row) in late {
      KeptRows(rows, ids, row);
    }
  }

  lemma OrphansTick(cfg: SweepConfig, regs: Registrations, tables: Tables, late: seq<LateRow>, ids: set<string>, now: int)
    requires OrphansAreLate(cfg.cascade, regs, tables, late) && ids != {} && forall id | id in ids :: Live(regs, id)
    ensures OrphansAreLate(cfg.cascade, Terminate(regs, ids, now), Cascaded(cfg, tables, ids), late)
  {
    var regs', tables' := Terminate(regs, ids, now), Cascaded(cfg, tables, ids);
    DeleteRowsIsExact(tables, cfg.cascade, ids, |cfg.cascade|);
    assert cfg.cascade[..|cfg.cascade|] == cfg.cascade;
    forall t | t in cfg.cascade && t in tables ensures RowsOk(regs', late, t, tables'[t]) {
      TickKeepsRowsOk(regs, late, t, tables[t], ids, now);
    }
    forall l | l in late ensures LateOk(cfg.cascade, regs', tables', l) {
      assert LateOk(cfg.cascade, regs, tables, l);
      if l.table in cfg.cascade {
        KeptRows(tables[l.table], ids, l.row);
      }
    }
  }

  lemma OvertakeOk(regs: Registrations, writes: map<nat, PendingWrite>, ids: set<string>, now: int)
    requires WritesOk(regs, writes)
    ensures WritesOk(Terminate(regs, ids, now), Overtake(writes, ids))
  {}

  predicate RowsInv(cfg: Config, s: State) {
    OrphansAreLate(cfg.sweep.cascade, s.regs, s.tables, s.late) && WritesOk(s.regs, s.writes)
  }

  lemma TickStep(cfg: Config, s: State, env: TickEnv, now: int)
    requires RowsInv(cfg, s)
    ensures RowsInv(cfg, Apply(cfg, s, Tick(env, now)))
  {
    var ids := TerminatedIds(cfg.sweep, s.regs, now);
    OvertakeOk(s.regs, s.writes, ids, now);
    if ids == {} {
      assert Terminate(s.regs, ids, now) == s.regs;
    } else {
      OrphansTick(cfg.sweep, s.regs, s.tables, s.late, ids, now);
    }
  }

  lemma OrphansStep(cfg: Config, s: State, act: Action)
    requires RowsInv(cfg, s) && Enabled(cfg, s, act)
    ensures RowsInv(cfg, Apply(cfg, s, act))
  {
    match act
    case InsertRow(w, table, data) => OrphansInsert(cfg.sweep.cascade, s.regs, s.tables, s.late, s.writes[w], table, data);
    case Tick(env, now) => TickStep(cfg, s, env, now);
    case CheckWrite(_, _, _, _) =>
    case AbandonWrite(_) =>
    case Register(candidates, inserts, _, _, _) =>
      FreshIdIsFirstFree(s.regs, candidates, inserts, 0);
      OrphansFrame(cfg.sweep.cascade, s.regs, Apply(cfg, s, act).regs, s.tables, s.late, s.writes);
    case _ => OrphansFrame(cfg.sweep.cascade, s.regs, Apply(cfg, s, act).regs, s.tables, s.late, s.writes);
  }

  // ------------------------------------------------------------- ids and tokens

  predicate IdsOk(regs: Registrations, created: seq<string>) {
    Distinct(created) && IdSet(created) == regs.Keys
  }

  lemma CreateKeepsIds(regs: Registrations, created: seq<string>, tenant: string, r: Registration)
    requires IdsOk(regs, created) && tenant !in regs
    ensures IdsOk(regs[tenant := r], created + [tenant])
  {
    IdSetAppend(created, [tenant]);
    assert tenant !in IdSet(created);
    assert IdSet([tenant]) == {tenant};
  }

  lemma IdsStep(cfg: Config, s: State, act: Action)
    requires IdsOk(s.regs, s.created) && Enabled(cfg, s, act)
    ensures IdsOk(Apply(cfg, s, act).regs, Apply(cfg, s, act).created)
  {
    match act
    case Register(candidates, inserts, email, secretHash, now) =>
      FreshIdIsFirstFree(s.regs, candidates, inserts, 0);
      var id := FreshId(s.regs, candidates, inserts, 0);
      if id.Some? {
        CreateKeepsIds(s.regs, s.created, id.value, Fresh(secretHash, email, now));
      }
    case CommitVerify(v, candidates, secretHash, env, now) =>
      var id := FreshIdInTransaction(s.regs, candidates, env.inserts);
      if id.Some? {
        CreateKeepsIds(s.regs, s.created, id.value, Fresh(secretHash, Some(s.pending[v].email), now));
      }
    case _ => assert Apply(cfg, s, act).regs.Keys == s.regs.Keys;
  }

  predicate GrantOk(tokens: map<string, Token>, regs: Registrations, g: Grant) {
    g.tenant in regs && g.token in tokens && tokens[g.token].consumedBy == Some(g.tenant)
  }

  /** Two grants agree on neither the token nor the tenant. */
  predicate Apart(g: Grant, h: Grant) {
    g.token != h.token && g.tenant != h.tenant
  }

  /** Consumed tokens and recovered tenants are in one-to-one correspondence through the grants. */
  predicate TokensOk(tokens: map<string, Token>, regs: Registrations, granted: seq<Grant>) {
    && (forall g | g in granted :: GrantOk(tokens, regs, g))
    && (forall i, j | 0 <= i < j < |granted| :: Apart(granted[i], granted[j]))
    && (forall h | h in tokens && tokens[h].consumedBy.Some? :: Grant(h, tokens[h].consumedBy.value) in granted)
    && (forall h | h in tokens :: tokens[h].consumedAt.Some? <==> tokens[h].consumedBy.Some?)
  }

  lemma TokensFrame(tokens: map<string, Token>, regs: Registrations, regs': Registrations, granted: seq<Grant>)
    requires TokensOk(tokens, regs, granted) && regs.Keys <= regs'.Keys
    ensures TokensOk(tokens, regs', granted)
  {
    forall g | g in granted ensures GrantOk(tokens, regs', g) {
      assert GrantOk(tokens, regs, g);
    }
  }

  lemma TokensConsume(tokens: map<string, Token>, regs: Registrations, granted: seq<Grant>,
                      hash: string, tenant: string, r: Registration, now: int)
    requires TokensOk(tokens, regs, granted)
    requires hash in tokens && tokens[hash].consumedAt.None? && tenant !in regs
    ensures TokensOk(tokens[hash := Consume(tokens[hash], tenant, now)], regs[tenant := r], granted + [Grant(hash, tenant)])
  {
    var tokens', regs', granted' := tokens[hash := Consume(tokens[hash], tenant, now)], regs[tenant := r], granted + [Grant(hash, tenant)];
    forall g | g in granted ensures GrantOk(tokens', regs', g) && Apart(g, Grant(hash, tenant)) {
      assert GrantOk(tokens, regs, g);
    }
    assert granted'[|granted|] == Grant(hash, tenant);
    forall h | h in tokens' && tokens'[h].consumedBy.Some? ensures Grant(h, tokens'[h].consumedBy.value) in granted' {
      if h != hash {
        assert Grant(h, tokens[h].consumedBy.value) in granted;
      }
    }
  }

  lemma TokensIssue(tokens: map<string, Token>, regs: Registrations, granted: seq<Grant>, hash: string, token: Token)
    requires TokensOk(tokens, regs, granted) && hash !in tokens && token.consumedAt.None? && token.consumedBy.None?
    ensures TokensOk(tokens[hash := token], regs, granted)
  {
    forall g | g in granted ensures GrantOk(tokens[hash := token], regs, g) {
      assert GrantOk(tokens, regs, g);
    }
  }

  lemma RecoveryStep(s: State, p: Pending, candidates: seq<string>, secretHash: string, env: VerifyEnv, now: int)
    requires TokensOk(s.tokens, s.regs, s.granted)
    requires VerifiedTenant(s.regs, s.tokens, p.hash, p.email, candidates, env, now).Some?
    ensures var s' := CommitRecovery(s, p, VerifiedTenant(s.regs, s.tokens, p.hash, p.email, candidates, env, now).value, secretHash, now);
            TokensOk(s'.tokens, s'.regs, s'.granted)
  {
    var id := VerifiedTenant(s.regs, s.tokens, p.hash, p.email, candidates, env, now).value;
    TokensConsume(s.tokens, s.regs, s.granted, p.hash, id, Fresh(secretHash, Some(p.email), now), now);
  }

  lemma TokensStep(cfg: Config, s: State, act: Action)
    requires TokensOk(s.tokens, s.regs, s.granted) && Enabled(cfg, s, act)
    ensures TokensOk(Apply(cfg, s, act).tokens, Apply(cfg, s, act).regs, Apply(cfg, s, act).granted)
  {
    match act
    case CommitVerify(v, candidates, secretHash, env, now) =>
      var p := s.pending[v];
      if VerifiedTenant(s.regs, s.tokens, p.hash, p.email, candidates, env, now).Some? {
        RecoveryStep(s, p, candidates, secretHash, env, now);
      }
    case IssueToken(hash, email, expiresAt) => TokensIssue(s.tokens, s.regs, s.granted, hash, Token(email, expiresAt, None, None));
    case _ => TokensFrame(s.tokens, s.regs, Apply(cfg, s, act).regs, s.granted);
  }

  predicate Inv(cfg: Config, s: State) {
    && RowsInv(cfg, s)
    && IdsOk(s.regs, s.created)
    && TokensOk(s.tokens, s.regs, s.granted)
  }

  lemma {:induction false} RunKeepsInv(cfg: Config, acts: seq<Action>)
    ensures RunFrom(cfg, Init(cfg), acts).Some? ==> Inv(cfg, RunFrom(cfg, Init(cfg), acts).value)
  {
    if acts == [] {
      assert RunFrom(cfg, Init(cfg), acts) == Some(Init(cfg));
    } else {
      var acts', act := acts[..|acts| - 1], acts[|acts| - 1];
      RunKeepsInv(cfg, acts');
      if RunFrom(cfg, Init(cfg), acts').Some? && Enabled(cfg, RunFrom(cfg, Init(cfg), acts').value, act) {
        var s := RunFrom(cfg, Init(cfg), acts').value;
        OrphansStep(cfg, s, act);
        IdsStep(cfg, s, act);
        TokensStep(cfg, s, act);
      }
    }
  }

  // --------------------------------------------------------------- permanence

  /** What a registration row may become: a tombstone keeps everything but the two operator fields. */
  predicate RowEvolves(r: Registration, r': Registration) {
    && r'.createdAt == r.createdAt && r'.email == r.email && r'.expiresAt == r.expiresAt
    && (r.terminatedAt.Some? ==> r' == r.(disabled := r'.disabled, lastSeen := r'.lastSeen))
    && (r.terminatedAt.None? && r'.terminatedAt.Some? ==> r'.secretHash == "")
  }

  predicate RegsEvolve(regs: Registrations, regs': Registrations) {
    forall id | id in regs :: id in regs' && RowEvolves(regs[id], regs'[id])
  }

  predicate TokensEvolve(tokens: map<string, Token>, tokens': map<string, Token>) {
    forall h | h in tokens :: h in tokens' && (tokens[h].consumedAt.Some? ==> tokens'[h] == tokens[h])
  }

  predicate Evolves(s: State, t: State) {
    RegsEvolve(s.regs, t.regs) && TokensEvolve(s.tokens, t.tokens) && s.granted <= t.granted && s.created <= t.created
  }

  lemma CreateEvolves(s: State, tenant: string, r: Registration)
    requires tenant !in s.regs
    ensures Evolves(s, Create(s, tenant, r))
  {}

  lemma RecoveryEvolves(s: State, p: Pending, candidates: seq<string>, secretHash: string, env: VerifyEnv, now: int)
    requires VerifiedTenant(s.regs, s.tokens, p.hash, p.email, candidates, env, now).Some?
    ensures Evolves(s, CommitRecovery(s, p, VerifiedTenant(s.regs, s.tokens, p.hash, p.email, candidates, env, now).value, secretHash, now))
  {
    CreateEvolves(s, VerifiedTenant(s.regs, s.tokens, p.hash, p.email, candidates, env, now).value, Fresh(secretHash, Some(p.email), now));
  }

  lemma StepEvolves(cfg: Config, s: State, act: Action)
    requires Enabled(cfg, s, act)
    ensures Evolves(s, Apply(cfg, s, act))
  {
    match act
    case Register(candidates, inserts, claimedBy, secretHash, now) =>
      FreshIdIsFirstFree(s.regs, candidates, inserts, 0);
      var id := FreshId(s.regs, candidates, inserts, 0);
      if id.Some? {
        CreateEvolves(s, id.value, Fresh(secretHash, claimedBy, now));
      }
    case CommitVerify(v, candidates, secretHash, env, now) =>
      var p := s.pending[v];
      if VerifiedTenant(s.regs, s.tokens, p.hash, p.email, candidates, env, now).Some? {
        RecoveryEvolves(s, p, candidates, secretHash, env, now);
      }
    case _ =>
  }

  lemma EvolvesTrans(s: State, t: State, u: State)
    requires Evolves(s, t) && Evolves(t, u)
    ensures Evolves(s, u)
  {
    forall id | id in s.regs ensures id in u.regs && RowEvolves(s.regs[id], u.regs[id]) {
      assert RowEvolves(s.regs[id], t.regs[id]) && RowEvolves(t.regs[id], u.regs[id]);
    }
  }

  /** In every run tombstones are permanent, ids stay taken, and a consumed token never changes again. */
  lemma {:induction false} RunEvolves(cfg: Config, s: State, acts: seq<Action>)
    requires RunFrom(cfg, s, acts).Some?
    ensures Evolves(s, RunFrom(cfg, s, acts).value)
  {
    if acts != [] {
      var acts', act := acts[..|acts| - 1], acts[|acts| - 1];
      RunEvolves(cfg, s, acts');
      var t := RunFrom(cfg, s, acts').value;
      StepEvolves(cfg, t, act);
      EvolvesTrans(s, t, Apply(cfg, t, act));
    }
  }

  // ------------------------------------------------------------- main results

  /** No tenant that was ever terminated can authenticate again. */
  lemma TerminatedForGood(cfg: Config, s: State, acts: seq<Action>, t: State, id: string, secret: string, now: int)
    requires RunFrom(cfg, s, acts) == Some(t) && id in s.regs && s.regs[id].terminatedAt.Some?
    ensures id in t.regs && t.regs[id].terminatedAt == s.regs[id].terminatedAt && t.regs[id].secretHash == s.regs[id].secretHash
    ensures Validate(t.regs, id, secret, cfg.matches, now) == TenantTerminated
  {
    RunEvolves(cfg, s, acts);
    assert RowEvolves(s.regs[id], t.regs[id]);
  }

  /** A row of a terminated tenant in a cascade table. */
  predicate IsOrphan(cfg: Config, s: State, table: string, row: Row) {
    table in cfg.sweep.cascade && table in s.tables && row in s.tables[table] && !Live(s.regs, row.tenant)
  }

  /**
   Every id is handed out once. A tenant's rows outlive it in a cascade table if and only
   if a write of that tenant was between its check and its insert when the tick that
   terminated it committed, and then went on to insert there.
   */
  lemma OrphansIffOvertaken(cfg: Config, acts: seq<Action>, s: State, table: string, row: Row)
    requires RunFrom(cfg, Init(cfg), acts) == Some(s)
    ensures Distinct(s.created) && IdSet(s.created) == s.regs.Keys
    ensures IsOrphan(cfg, s, table, row) <==> table in cfg.sweep.cascade && LateRow(table, row) in s.late
  {
    RunKeepsInv(cfg, acts);
    if IsOrphan(cfg, s, table, row) {
      assert RowsOk(s.regs, s.late, table, s.tables[table]);
    }
    if LateRow(table, row) in s.late {
      assert LateOk(cfg.sweep.cascade, s.regs, s.tables, LateRow(table, row));
    }
  }

  lemma Extend(cfg: Config, acts: seq<Action>, s: State, act: Action)
    requires RunFrom(cfg, Init(cfg), acts) == Some(s) && Enabled(cfg, s, act)
    ensures RunFrom(cfg, Init(cfg), acts + [act]) == Some(Apply(cfg, s, act))
  {
    assert (acts + [act])[..|acts|] == acts;
  }

  lemma RegisterFirst(cfg: Config, id: string, email: Option<string>, secretHash: string) returns (acts: seq<Action>, s: State)
    ensures RunFrom(cfg, Init(cfg), acts) == Some(s)
    ensures s == Init(cfg).(regs := map[id := Fresh(secretHash, email, 0)], created := [id], log := Log(map[id := Birth(secretHash, 0)], {}, {}, [], []))
  {
    var act := Register([id, id, id], _ => true, email, secretHash, 0);
    Extend(cfg, [], Init(cfg), act);
    assert FreshId(Init(cfg).regs, [id, id, id], act.inserts, 0) == Some(id);
    acts, s := [] + [act], Apply(cfg, Init(cfg), act);
  }

  const QUIET: TickEnv := TickEnv(true, Acquired, true, true, true, _ => true, true, true)

  /** A checked write of a tenant past its cap, overtaken by a tick. */
  lemma OvertakenWrite(cfg: Config, id: string, secretHash: string, secret: string) returns (acts: seq<Action>, s: State)
    requires cfg.matches(secretHash, secret) && forall t | t in cfg.sweep.cascade :: ValidIdentifier(t) && t in cfg.names
    ensures RunFrom(cfg, Init(cfg), acts) == Some(s) && Dead(s.regs, id) && s.tables.Keys == cfg.names
    ensures 0 in s.writes && s.writes[0] == PendingWrite(id, true)
  {
    acts, s := RegisterFirst(cfg, id, None, secretHash);
    Extend(cfg, acts, s, CheckWrite(0, id, secret, 0));
    acts, s := acts + [CheckWrite(0, id, secret, 0)], Apply(cfg, s, CheckWrite(0, id, secret, 0));
    var tick := Tick(QUIET, cfg.sweep.hardCap + 1);
    DeleteRowsIsExact(s.tables, cfg.sweep.cascade, TerminatedIds(cfg.sweep, s.regs, tick.now), |cfg.sweep.cascade|);
    assert PastCap(s.regs[id], cfg.sweep.hardCap, tick.now) && id in TerminatedIds(cfg.sweep, s.regs, tick.now);
    Extend(cfg, acts, s, tick);
    acts, s := acts + [tick], Apply(cfg, s, tick);
  }

  /** Such a write leaves an orphan, whatever the cascade table. */
  lemma OvertakenWriteLeavesOrphan(cfg: Config, id: string, secretHash: string, secret: string, table: string, data: string)
    returns (acts: seq<Action>, s: State)
    requires cfg.matches(secretHash, secret) && table in cfg.sweep.cascade
    requires forall t | t in cfg.sweep.cascade :: ValidIdentifier(t) && t in cfg.names
    ensures RunFrom(cfg, Init(cfg), acts) == Some(s) && IsOrphan(cfg, s, table, Row(id, data))
  {
    acts, s := OvertakenWrite(cfg, id, secretHash, secret);
    Extend(cfg, acts, s, InsertRow(0, table, data));
    acts, s := acts + [InsertRow(0, table, data)], Apply(cfg, s, InsertRow(0, table, data));
  }

  /** A recovery whose first id is taken fails, although a free one follows and a registration would have gone on to it. */
  lemma CollisionDefeatsRecovery(cfg: Config, taken: string, free: string, hash: string, email: string, secretHash: string)
    returns (acts: seq<Action>, s: State, candidates: seq<string>)
    requires taken != free
    ensures RunFrom(cfg, Init(cfg), acts) == Some(s) && 0 in s.pending && s.pending[0] == Pending(hash, email)
    ensures |candidates| == MAX_RETRIES && FreshId(s.regs, candidates, _ => true, 0) == Some(free)
    ensures var verify := CommitVerify(0, candidates, secretHash, VerifyEnv(true, true, true, _ => true, true, true), 0);
            Apply(cfg, s, verify).regs == s.regs && Apply(cfg, s, verify).granted == [] && Apply(cfg, s, verify).tokens == s.tokens
  {
    acts, s := RegisterFirst(cfg, taken, None, secretHash);
    Extend(cfg, acts, s, IssueToken(hash, email, 0));
    acts, s := acts + [IssueToken(hash, email, 0)], Apply(cfg, s, IssueToken(hash, email, 0));
    Extend(cfg, acts, s, BeginVerify(0, hash, 0));
    acts, s := acts + [BeginVerify(0, hash, 0)], Apply(cfg, s, BeginVerify(0, hash, 0));
    candidates := [taken, free, free];
    var inserts: nat -> bool := _ => true;
    assert FreshId(s.regs, candidates, inserts, 1) == Some(free);
  }

  predicate Overdue(cfg: Config, r: Registration, now: int) {
    && r.terminatedAt.None?
    && (|| (r.lastSeen.Some? && r.lastSeen.value + cfg.sweep.inactivityWindow < now) || r.createdAt + cfg.sweep.hardCap < now)
  }

  /**
   A tick commits if and only if it gets its connection and the lock, all its statements
   succeed, and, if any tenant is overdue, every cascade table has a well-formed name,
   exists and has its delete succeed.
   */
  lemma TickCommitsIff(cfg: Config, s: State, env: TickEnv, now: int)
    ensures TickCommits(cfg.sweep, s.regs, s.tables, env, now) <==>
            && env.connects && env.lock == Acquired && env.begins && env.updatesInactive && env.updatesCapped && env.commits
            && ((exists id :: id in s.regs && Overdue(cfg, s.regs[id], now)) ==>
                  forall k: nat | k < |cfg.sweep.cascade| ::
                    InPattern(cfg.sweep.cascade[k]) && cfg.sweep.cascade[k] in s.tables && env.deletes(k))
  {
    var ids := TerminatedIds(cfg.sweep, s.regs, now);
    assert forall id :: id in ids <==> id in s.regs && Overdue(cfg, s.regs[id], now);
    forall k: nat | k < |cfg.sweep.cascade|
      ensures Deletes(cfg.sweep, s.tables, env.deletes, k) <==>
              InPattern(cfg.sweep.cascade[k]) && cfg.sweep.cascade[k] in s.tables && env.deletes(k)
    {
      ValidIdentifierIffInPattern(cfg.sweep.cascade[k]);
    }
  }

  /** Every tick is one of: failed, skipped because another instance sweeps, a dry run that counted, or committed. */
  lemma TickHasOneOutcome(cfg: SweepConfig, regs: Registrations, tables: Tables, env: TickEnv, dryRun: bool, now: int)
    ensures var failed := TenantDatabase.TickFails(cfg, regs, tables, env, dryRun, now);
            var skipped := env.connects && env.lock == Busy;
            var counted := dryRun && env.connects && env.lock == Acquired && env.counts;
            var committed := !dryRun && TickCommits(cfg, regs, tables, env, now);
            && (failed || skipped || counted || committed)
            && !(failed && skipped) && !(failed && counted) && !(failed && committed)
            && !(skipped && counted) && !(skipped && committed) && !(counted && committed)
  {}

  /**
   A committed tick tombstones exactly the overdue tenants and deletes exactly their
   rows, in exactly the cascade tables; any other tick changes nothing.
   */
  lemma TickIsExact(cfg: Config, s: State, env: TickEnv, now: int, id: string, table: string, row: Row)
    requires id in s.regs && table in s.tables
    ensures var s' := Apply(cfg, s, Tick(env, now));
            var ids := TerminatedIds(cfg.sweep, s.regs, now);
            if !TickCommits(cfg.sweep, s.regs, s.tables, env, now) then s' == s
            else
              && s'.regs.Keys == s.regs.Keys && s'.tables.Keys == s.tables.Keys
              && s'.regs[id] == (if id in ids then s.regs[id].(terminatedAt := Some(now), secretHash := "") else s.regs[id])
              && (id in ids <==> Overdue(cfg, s.regs[id], now))
              && multiset(s'.tables[table])[row] ==
                   if table in cfg.sweep.cascade && row.tenant in ids then 0 else multiset(s.tables[table])[row]
  {
    var ids := TerminatedIds(cfg.sweep, s.regs, now);
    DeleteRowsIsExact(s.tables, cfg.sweep.cascade, ids, |cfg.sweep.cascade|);
    assert cfg.sweep.cascade[..|cfg.sweep.cascade|] == cfg.sweep.cascade;
    KeepRemovesExactly(s.tables[table], ids, row);
  }

  /**
   Recovery is one-shot: over every interleaving of verifies, no token and no tenant
   appears in two grants, and the grants are exactly the consumed tokens.
   */
  lemma RecoveryIsOneShot(cfg: Config, acts: seq<Action>, s: State, i: nat, j: nat)
    requires RunFrom(cfg, Init(cfg), acts) == Some(s)
    ensures i < j < |s.granted| ==> s.granted[i].token != s.granted[j].token && s.granted[i].tenant != s.granted[j].tenant
    ensures forall h, id :: Grant(h, id) in s.granted <==> h in s.tokens && s.tokens[h].consumedBy == Some(id)
    ensures forall g | g in s.granted :: g.tenant in s.created
  {
    RunKeepsInv(cfg, acts);
    if i < j < |s.granted| {
      assert Apart(s.granted[i], s.granted[j]);
    }
    forall g | g in s.granted ensures GrantOk(s.tokens, s.regs, g) && g.tenant in s.created {
      assert g.tenant in IdSet(s.created);
    }
  }

  /** No verify step takes an email past three active tenants, whatever else ran since its token was read. */
  lemma VerifyKeepsCap(cfg: Config, s: State, v: nat, candidates: seq<string>, secretHash: string, env: VerifyEnv, now: int, email: string)
    requires v in s.pending && |ActiveIds(s.regs, email, now)| <= MAX_TENANTS_PER_EMAIL
    ensures var s' := Apply(cfg, s, CommitVerify(v, candidates, secretHash, env, now));
            |ActiveIds(s'.regs, email, now)| <= MAX_TENANTS_PER_EMAIL
  {
    var p := s.pending[v];
    if VerifiedTenant(s.regs, s.tokens, p.hash, p.email, candidates, env, now).Some? {
      RecoveryRespectsCap(s.regs, s.tokens, p.hash, p.email, candidates, env, now, secretHash, email);
    }
  }
}
