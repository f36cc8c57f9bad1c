/** Who can authenticate, in every reachable state of the tenant machine, told by what happened to the tenant. */
module TenantAccess {
  import opened Wrappers
  import opened TenantStore
  import opened TenantLifecycle

  // ------------------------------------------------------------ the rows and the log

  /** A registration row says what happened to its tenant. */
  predicate RowAgrees(r: Registration, b: Birth, ended: bool, off: bool) {
    && r.createdAt == b.at && r.expiresAt == b.at + REGISTRATION_TTL
    && (r.terminatedAt.Some? <==> ended) && r.disabled == off
    && r.secretHash == if ended then "" else b.secretHash
  }

  predicate RowsAgree(regs: Registrations, log: Log) {
    && regs.Keys == log.births.Keys && log.ended <= regs.Keys && log.off <= regs.Keys
    && forall id | id in regs :: RowAgrees(regs[id], log.births[id], id in log.ended, id in log.off)
  }

  lemma CreateAgrees(regs: Registrations, log: Log, tenant: string, secretHash: string, email: Option<string>, now: int)
    requires RowsAgree(regs, log) && tenant !in regs
    ensures RowsAgree(regs[tenant := Fresh(secretHash, email, now)], log.(births := log.births[tenant := Birth(secretHash, now)]))
  {}

  lemma RegisterAgrees(cfg: Config, s: State, act: Action)
    requires RowsAgree(s.regs, s.log) && act.Register?
    ensures RowsAgree(Apply(cfg, s, act).regs, Apply(cfg, s, act).log)
  {
    FreshIdIsFirstFree(s.regs, act.candidates, act.inserts, 0);
    var id := FreshId(s.regs, act.candidates, act.inserts, 0);
    if id.Some? {
      CreateAgrees(s.regs, s.log, id.value, act.secretHash, act.claimedBy, act.now);
    }
  }

  lemma VerifyAgrees(cfg: Config, s: State, act: Action)
    requires RowsAgree(s.regs, s.log) && act.CommitVerify? && act.v in s.pending
    ensures RowsAgree(Apply(cfg, s, act).regs, Apply(cfg, s, act).log)
  {
    var p := s.pending[act.v];
    var id := VerifiedTenant(s.regs, s.tokens, p.hash, p.email, act.candidates, act.env, act.now);
    if id.Some? {
      CreateAgrees(s.regs, s.log, id.value, act.secretHash, Some(p.email), act.now);
    }
  }

  lemma TickAgrees(cfg: SweepConfig, regs: Registrations, log: Log, now: int)
    requires RowsAgree(regs, log)
    ensures var ids := TerminatedIds(cfg, regs, now);
            RowsAgree(Terminate(regs, ids, now), log.(ended := log.ended + ids))
  {
    var ids := TerminatedIds(cfg, regs, now);
    assert forall id | id in ids :: regs[id].terminatedAt.None?;
  }

  lemma UpdateAgrees(cfg: Config, s: State, act: Action)
    requires RowsAgree(s.regs, s.log) && Enabled(cfg, s, act) && (act.Touch? || act.SetDisabled?)
    ensures RowsAgree(Apply(cfg, s, act).regs, Apply(cfg, s, act).log)
  {}

  lemma StepAgrees(cfg: Config, s: State, act: Action)
    requires RowsAgree(s.regs, s.log) && Enabled(cfg, s, act)
    ensures RowsAgree(Apply(cfg, s, act).regs, Apply(cfg, s, act).log)
  {
    match act
    case Register(_, _, _, _, _) => RegisterAgrees(cfg, s, act);
    case CommitVerify(_, _, _, _, _) => VerifyAgrees(cfg, s, act);
    case Tick(_, now) => TickAgrees(cfg.sweep, s.regs, s.log, now);
    case Touch(_, _) => UpdateAgrees(cfg, s, act);
    case SetDisabled(_, _) => UpdateAgrees(cfg, s, act);
    case _ =>
  }

  // -------------------------------------------------------- the checks behind the rows

  /** The check presented the secret of the tenant's creation, before the registration ran out. */
  predicate WasAuthorised(matches: (string, string) -> bool, births: map<string, Birth>, c: Check) {
    && c.tenant in births && matches(births[c.tenant].secretHash, c.secret)
    && c.at <= births[c.tenant].at + REGISTRATION_TTL
  }

  predicate HasCheck(checks: seq<Check>, tenant: string) {
    exists i :: 0 <= i < |checks| && checks[i].tenant == tenant
  }

  predicate RowsChecked(checks: seq<Check>, rows: seq<Row>) {
    forall row | row in rows :: HasCheck(checks, row.tenant)
  }

  predicate ChecksOk(cfg: Config, s: State) {
    && (forall i | 0 <= i < |s.log.checks| :: WasAuthorised(cfg.matches, s.log.births, s.log.checks[i]))
    && (forall w | w in s.writes :: HasCheck(s.log.checks, s.writes[w].tenant))
    && (forall t | t in s.tables :: RowsChecked(s.log.checks, s.tables[t]))
  }

  lemma HasCheckExtends(checks: seq<Check>, c: Check, tenant: string)
    requires HasCheck(checks, tenant) || c.tenant == tenant
    ensures HasCheck(checks + [c], tenant)
  {
    var checks' := checks + [c];
    if HasCheck(checks, tenant) {
      var i :| 0 <= i < |checks| && checks[i].tenant == tenant;
      assert checks'[i].tenant == tenant;
    } else {
      assert checks'[|checks|].tenant == tenant;
    }
  }

  lemma CheckStep(cfg: Config, s: State, act: Action)
    requires RowsAgree(s.regs, s.log) && ChecksOk(cfg, s) && act.CheckWrite? && Enabled(cfg, s, act)
    ensures ChecksOk(cfg, Apply(cfg, s, act))
  {
    var s', c := Apply(cfg, s, act), Check(act.tenant, act.secret, act.now);
    forall w | w in s'.writes ensures HasCheck(s'.log.checks, s'.writes[w].tenant) {
      HasCheckExtends(s.log.checks, c, s'.writes[w].tenant);
    }
    forall t | t in s.tables ensures RowsChecked(s'.log.checks, s.tables[t]) {
      assert RowsChecked(s.log.checks, s.tables[t]);
      forall row | row in s.tables[t] ensures HasCheck(s'.log.checks, row.tenant) {
        HasCheckExtends(s.log.checks, c, row.tenant);
      }
    }
  }

  lemma InsertStep(cfg: Config, s: State, act: Action)
    requires ChecksOk(cfg, s) && act.InsertRow? && Enabled(cfg, s, act)
    ensures ChecksOk(cfg, Apply(cfg, s, act))
  {
    var s' := Apply(cfg, s, act);
    assert HasCheck(s.log.checks, s.writes[act.w].tenant);
    forall t | t in s'.tables ensures RowsChecked(s'.log.checks, s'.tables[t]) {
      assert RowsChecked(s.log.checks, s.tables[t]);
    }
  }

  lemma SweepStep(cfg: Config, s: State, act: Action)
    requires ChecksOk(cfg, s) && act.Tick?
    ensures ChecksOk(cfg, Apply(cfg, s, act))
  {
    var s', ids := Apply(cfg, s, act), TerminatedIds(cfg.sweep, s.regs, act.now);
    DeleteRowsIsExact(s.tables, cfg.sweep.cascade, ids, |cfg.sweep.cascade|);
    forall t | t in s'.tables ensures RowsChecked(s'.log.checks, s'.tables[t]) {
      assert RowsChecked(s.log.checks, s.tables[t]);
      forall row | row in s'.tables[t] ensures HasCheck(s'.log.checks, row.tenant) {
        KeptRows(s.tables[t], ids, row);
      }
    }
    assert forall w | w in s'.writes :: w in s.writes && s'.writes[w].tenant == s.writes[w].tenant;
  }

  /** Neither a check nor a row is added, and whoever was born stays as born. */
  predicate ChecksUntouched(s: State, s': State) {
    && s'.tables == s.tables && s'.log.checks == s.log.checks
    && (forall w | w in s'.writes :: w in s.writes && s'.writes[w] == s.writes[w])
    && (forall id | id in s.log.births :: id in s'.log.births && s'.log.births[id] == s.log.births[id])
  }

  lemma ChecksFrame(cfg: Config, s: State, s': State)
    requires ChecksOk(cfg, s) && ChecksUntouched(s, s')
    ensures ChecksOk(cfg, s')
  {
    forall i | 0 <= i < |s'.log.checks| ensures WasAuthorised(cfg.matches, s'.log.births, s'.log.checks[i]) {
      assert WasAuthorised(cfg.matches, s.log.births, s.log.checks[i]);
    }
  }

  lemma OthersLeaveChecks(cfg: Config, s: State, act: Action)
    requires RowsAgree(s.regs, s.log) && Enabled(cfg, s, act) && !act.CheckWrite? && !act.InsertRow? && !act.Tick?
    ensures ChecksUntouched(s, Apply(cfg, s, act))
  {
    if act.Register? {
      FreshIdIsFirstFree(s.regs, act.candidates, act.inserts, 0);
    }
  }

  lemma ChecksStep(cfg: Config, s: State, act: Action)
    requires RowsAgree(s.regs, s.log) && ChecksOk(cfg, s) && Enabled(cfg, s, act)
    ensures ChecksOk(cfg, Apply(cfg, s, act))
  {
    match act
    case CheckWrite(_, _, _, _) => CheckStep(cfg, s, act);
    case InsertRow(_, _, _) => InsertStep(cfg, s, act);
    case Tick(_, _) => SweepStep(cfg, s, act);
    case _ =>
      OthersLeaveChecks(cfg, s, act);
      ChecksFrame(cfg, s, Apply(cfg, s, act));
  }

  lemma {:induction false} RunAgrees(cfg: Config, acts: seq<Action>, s: State)
    requires RunFrom(cfg, Init(cfg), acts) == Some(s)
    ensures RowsAgree(s.regs, s.log) && ChecksOk(cfg, s)
  {
    if acts == [] {
      assert s == Init(cfg);
    } else {
      var t := RunFrom(cfg, Init(cfg), acts[..|acts| - 1]).value;
      RunAgrees(cfg, acts[..|acts| - 1], t);
      StepAgrees(cfg, t, acts[|acts| - 1]);
      ChecksStep(cfg, t, acts[|acts| - 1]);
    }
  }

  // ------------------------------------------------------------- main results

  /**
   After every run a tenant authenticates if and only if it was created, no tick has
   terminated it, no operator has it switched off, its registration has not run out, and
   the secret fits the hash it was created with.
   */
  lemma AuthenticatesIff(cfg: Config, acts: seq<Action>, s: State, id: string, secret: string, now: int)
    requires RunFrom(cfg, Init(cfg), acts) == Some(s)
    ensures Validate(s.regs, id, secret, cfg.matches, now) == Authenticated <==>
            && id in s.log.births && id !in s.log.ended && id !in s.log.off
            && now <= s.log.births[id].at + REGISTRATION_TTL && cfg.matches(s.log.births[id].secretHash, secret)
  {
    RunAgrees(cfg, acts, s);
    if id in s.regs {
      assert RowAgrees(s.regs[id], s.log.births[id], id in s.log.ended, id in s.log.off);
    }
  }

  /** Of several reasons to refuse, the answer names the first of: unknown, terminated, disabled, expired, wrong secret. */
  lemma RefusalNamesFirstReason(cfg: Config, acts: seq<Action>, s: State, id: string, secret: string, now: int)
    requires RunFrom(cfg, Init(cfg), acts) == Some(s)
    ensures var answer := Validate(s.regs, id, secret, cfg.matches, now);
            && (answer == NotFound <==> id !in s.log.births)
            && (answer == TenantTerminated <==> id in s.log.ended)
            && (answer == Disabled <==> id in s.log.off && id !in s.log.ended)
            && (answer == Expired <==> id in s.log.births && id !in s.log.ended && id !in s.log.off && now > s.log.births[id].at + REGISTRATION_TTL)
  {
    RunAgrees(cfg, acts, s);
    if id in s.regs {
      assert RowAgrees(s.regs[id], s.log.births[id], id in s.log.ended, id in s.log.off);
    }
  }

  /** Every row of every table was inserted by a write that presented its tenant's secret in time. */
  lemma RowsWereAuthorised(cfg: Config, acts: seq<Action>, s: State, table: string, row: Row) returns (c: Check)
    requires RunFrom(cfg, Init(cfg), acts) == Some(s) && table in s.tables && row in s.tables[table]
    ensures c in s.log.checks && c.tenant == row.tenant && row.tenant in s.log.births
    ensures cfg.matches(s.log.births[row.tenant].secretHash, c.secret) && c.at <= s.log.births[row.tenant].at + REGISTRATION_TTL
  {
    RunAgrees(cfg, acts, s);
    assert RowsChecked(s.log.checks, s.tables[table]) && HasCheck(s.log.checks, row.tenant);
    var i :| 0 <= i < |s.log.checks| && s.log.checks[i].tenant == row.tenant;
    c := s.log.checks[i];
    assert WasAuthorised(cfg.matches, s.log.births, c);
  }

  /** Nothing stands in the way of the verify: no failing statement, no used token, no full email, no taken first id. */
  predicate Unhindered(s: State, p: Pending, candidates: seq<string>, env: VerifyEnv, now: int) {
    && env.begins && env.counts && env.consumes && env.inserts(0) && env.backfills && env.commits
    && p.hash in s.tokens && s.tokens[p.hash].consumedAt.None?
    && |ActiveIds(s.regs, p.email, now)| < 3
    && candidates != [] && candidates[0] !in s.regs
  }

  /** A verify grants credentials if and only if nothing stands in its way; otherwise it changes neither tenants nor tokens. */
  lemma VerifyGrantsIff(cfg: Config, s: State, v: nat, candidates: seq<string>, secretHash: string, env: VerifyEnv, now: int)
    requires v in s.pending
    ensures var s' := Apply(cfg, s, CommitVerify(v, candidates, secretHash, env, now));
            && (s'.granted != s.granted <==> Unhindered(s, s.pending[v], candidates, env, now))
            && (s'.granted == s.granted ==> s'.regs == s.regs && s'.tokens == s.tokens && s'.created == s.created)
            && v !in s'.pending
  {
    var p := s.pending[v];
    if VerifiedTenant(s.regs, s.tokens, p.hash, p.email, candidates, env, now).Some? {
      assert |Apply(cfg, s, CommitVerify(v, candidates, secretHash, env, now)).granted| == |s.granted| + 1;
    }
  }

  /**
   The credentials of a verify that nothing hinders are those of the first candidate; they
   work until the registration runs out, and only with their own secret.
   */
  lemma RecoveryHandsOutCredentials(cfg: Config, s: State, v: nat, candidates: seq<string>, secretHash: string, env: VerifyEnv, now: int,
                                    secret: string, later: int)
    requires v in s.pending && Unhindered(s, s.pending[v], candidates, env, now)
    ensures var s', id := Apply(cfg, s, CommitVerify(v, candidates, secretHash, env, now)), candidates[0];
            && s'.granted == s.granted + [Grant(s.pending[v].hash, id)]
            && s'.tokens[s.pending[v].hash].consumedBy == Some(id)
            && id in s'.regs && s'.regs[id].email == Some(s.pending[v].email)
            && (Validate(s'.regs, id, secret, cfg.matches, later) == Authenticated <==>
                  later <= now + REGISTRATION_TTL && cfg.matches(secretHash, secret))
  {}

  /** The tenants counted against an email's cap are those it claimed that can still authenticate, but for the second of expiry. */
  lemma ActiveMeansUsable(cfg: Config, acts: seq<Action>, s: State, id: string, email: string, secret: string, now: int)
    requires RunFrom(cfg, Init(cfg), acts) == Some(s)
    requires id in s.log.births ==> cfg.matches(s.log.births[id].secretHash, secret)
    ensures id in ActiveIds(s.regs, email, now) <==>
            && id in s.log.births && Validate(s.regs, id, secret, cfg.matches, now) == Authenticated
            && s.regs[id].email == Some(email) && now != s.log.births[id].at + REGISTRATION_TTL
  {
    RunAgrees(cfg, acts, s);
    if id in s.regs {
      assert RowAgrees(s.regs[id], s.log.births[id], id in s.log.ended, id in s.log.off);
    }
  }

  // ------------------------------------------------------- what a grant rests on

  predicate WasLookedUp(lookups: seq<Lookup>, token: string) {
    exists i :: 0 <= i < |lookups| && lookups[i].token == token
  }

  /** Each look-up was in time; each verify under way has one and answers to the owner of its token. */
  predicate LookupsOk(tokens: map<string, Token>, pending: map<nat, Pending>, lookups: seq<Lookup>) {
    && (forall i | 0 <= i < |lookups| :: lookups[i].token in tokens && lookups[i].at <= tokens[lookups[i].token].expiresAt)
    && (forall v | v in pending ::
          WasLookedUp(lookups, pending[v].hash) && pending[v].hash in tokens && pending[v].email == tokens[pending[v].hash].email)
  }

  /** The recovered tenant belongs to the owner of its token. */
  predicate GrantRests(tokens: map<string, Token>, regs: Registrations, lookups: seq<Lookup>, g: Grant) {
    && WasLookedUp(lookups, g.token) && g.token in tokens
    && g.tenant in regs && regs[g.tenant].email == Some(tokens[g.token].email)
  }

  predicate GrantsRest(s: State) {
    && LookupsOk(s.tokens, s.pending, s.log.lookups)
    && forall g | g in s.granted :: GrantRests(s.tokens, s.regs, s.log.lookups, g)
  }

  /** What tokens, tenants and look-ups keep from step to step. */
  predicate Lasting(s: State, s': State) {
    && (forall h | h in s.tokens :: h in s'.tokens && s'.tokens[h].email == s.tokens[h].email && s'.tokens[h].expiresAt == s.tokens[h].expiresAt)
    && (forall id | id in s.regs :: id in s'.regs && s'.regs[id].email == s.regs[id].email)
    && s.log.lookups <= s'.log.lookups
  }

  lemma StepLasts(cfg: Config, s: State, act: Action)
    requires Enabled(cfg, s, act)
    ensures Lasting(s, Apply(cfg, s, act))
  {
    if act.Register? {
      FreshIdIsFirstFree(s.regs, act.candidates, act.inserts, 0);
    }
  }

  lemma LookedUpLasts(lookups: seq<Lookup>, lookups': seq<Lookup>, token: string)
    requires WasLookedUp(lookups, token) && lookups <= lookups'
    ensures WasLookedUp(lookups', token)
  {
    var i :| 0 <= i < |lookups| && lookups[i].token == token;
    assert lookups'[i].token == token;
  }

  lemma GrantsLast(s: State, s': State)
    requires GrantsRest(s) && Lasting(s, s')
    requires s'.log.lookups == s.log.lookups && s'.granted == s.granted
    requires forall v | v in s'.pending :: v in s.pending && s'.pending[v] == s.pending[v]
    ensures GrantsRest(s')
  {
    forall g | g in s'.granted ensures GrantRests(s'.tokens, s'.regs, s'.log.lookups, g) {
      assert GrantRests(s.tokens, s.regs, s.log.lookups, g);
    }
  }

  lemma LookupStep(cfg: Config, s: State, act: Action)
    requires GrantsRest(s) && act.BeginVerify? && Enabled(cfg, s, act)
    ensures GrantsRest(Apply(cfg, s, act))
  {
    var s' := Apply(cfg, s, act);
    assert s'.log.lookups[|s.log.lookups|] == Lookup(act.hash, act.now);
    forall v | v in s'.pending ensures WasLookedUp(s'.log.lookups, s'.pending[v].hash) {
      if v != act.v {
        LookedUpLasts(s.log.lookups, s'.log.lookups, s.pending[v].hash);
      }
    }
    forall g | g in s'.granted ensures GrantRests(s'.tokens, s'.regs, s'.log.lookups, g) {
      assert GrantRests(s.tokens, s.regs, s.log.lookups, g);
      LookedUpLasts(s.log.lookups, s'.log.lookups, g.token);
    }
  }

  lemma GrantStep(cfg: Config, s: State, act: Action)
    requires GrantsRest(s) && act.CommitVerify? && Enabled(cfg, s, act)
    ensures GrantsRest(Apply(cfg, s, act))
  {
    var s', p := Apply(cfg, s, act), s.pending[act.v];
    StepLasts(cfg, s, act);
    assert WasLookedUp(s.log.lookups, p.hash);
    var id := VerifiedTenant(s.regs, s.tokens, p.hash, p.email, act.candidates, act.env, act.now);
    forall g | g in s'.granted ensures GrantRests(s'.tokens, s'.regs, s'.log.lookups, g) {
      if g in s.granted {
        assert GrantRests(s.tokens, s.regs, s.log.lookups, g);
      } else {
        assert g == Grant(p.hash, id.value);
      }
    }
  }

  lemma OthersGrantNothing(cfg: Config, s: State, act: Action)
    requires Enabled(cfg, s, act) && !act.BeginVerify? && !act.CommitVerify?
    ensures var s' := Apply(cfg, s, act);
            s'.log.lookups == s.log.lookups && s'.granted == s.granted && s'.pending == s.pending
  {}

  lemma {:induction false} RunGrantsRest(cfg: Config, acts: seq<Action>, s: State)
    requires RunFrom(cfg, Init(cfg), acts) == Some(s)
    ensures GrantsRest(s)
  {
    if acts == [] {
      assert s == Init(cfg);
    } else {
      var t, act := RunFrom(cfg, Init(cfg), acts[..|acts| - 1]).value, acts[|acts| - 1];
      RunGrantsRest(cfg, acts[..|acts| - 1], t);
      if act.BeginVerify? {
        LookupStep(cfg, t, act);
      } else if act.CommitVerify? {
        GrantStep(cfg, t, act);
      } else {
        StepLasts(cfg, t, act);
        OthersGrantNothing(cfg, t, act);
        GrantsLast(t, Apply(cfg, t, act));
      }
    }
  }

  /** In every run a recovered tenant belongs to the owner of its token, which was looked up no later than its expiry. */
  lemma GrantsAreInTimeAndOwned(cfg: Config, acts: seq<Action>, s: State, g: Grant) returns (l: Lookup)
    requires RunFrom(cfg, Init(cfg), acts) == Some(s) && g in s.granted
    ensures g.token in s.tokens && g.tenant in s.regs && s.regs[g.tenant].email == Some(s.tokens[g.token].email)
    ensures l in s.log.lookups && l.token == g.token && l.at <= s.tokens[g.token].expiresAt
  {
    RunGrantsRest(cfg, acts, s);
    assert GrantRests(s.tokens, s.regs, s.log.lookups, g);
    var i :| 0 <= i < |s.log.lookups| && s.log.lookups[i].token == g.token;
    l := s.log.lookups[i];
  }

  // --------------------------------------------------------------- staying alive

  /** No tick of the run is later than the deadline, and the tenant is not touched with a time before since. */
  predicate Calm(acts: seq<Action>, id: string, since: int, deadline: int) {
    forall i | 0 <= i < |acts| ::
      && (acts[i].Tick? ==> acts[i].now <= deadline)
      && (acts[i].Touch? && acts[i].tenant == id ==> acts[i].now >= since)
  }

  /** Live, and never seen or last seen no earlier than since. */
  predicate AliveSince(regs: Registrations, id: string, since: int, createdAt: int) {
    Live(regs, id) && regs[id].createdAt == createdAt && (regs[id].lastSeen.Some? ==> regs[id].lastSeen.value >= since)
  }

  lemma TickSpares(cfg: Config, s: State, env: TickEnv, now: int, id: string, since: int, createdAt: int)
    requires AliveSince(s.regs, id, since, createdAt)
    requires now <= since + cfg.sweep.inactivityWindow && now <= createdAt + cfg.sweep.hardCap
    ensures AliveSince(Apply(cfg, s, Tick(env, now)).regs, id, since, createdAt)
  {
    assert id !in TerminatedIds(cfg.sweep, s.regs, now);
  }

  lemma StepSpares(cfg: Config, s: State, act: Action, id: string, since: int, createdAt: int)
    requires AliveSince(s.regs, id, since, createdAt) && Enabled(cfg, s, act)
    requires act.Tick? ==> act.now <= since + cfg.sweep.inactivityWindow && act.now <= createdAt + cfg.sweep.hardCap
    requires act.Touch? && act.tenant == id ==> act.now >= since
    ensures AliveSince(Apply(cfg, s, act).regs, id, since, createdAt)
  {
    match act
    case Tick(env, now) => TickSpares(cfg, s, env, now, id, since, createdAt);
    case Register(candidates, inserts, _, _, _) => FreshIdIsFirstFree(s.regs, candidates, inserts, 0);
    case _ =>
  }

  /**
   A tenant seen at since, or never, survives every tick up to one inactivity window after
   since and up to its own hard cap, whatever else runs.
   */
  lemma {:induction false} TouchedTenantSurvives(cfg: Config, s: State, acts: seq<Action>, t: State, id: string, since: int, deadline: int)
    requires RunFrom(cfg, s, acts) == Some(t) && id in s.regs && AliveSince(s.regs, id, since, s.regs[id].createdAt)
    requires Calm(acts, id, since, deadline)
    requires deadline <= since + cfg.sweep.inactivityWindow && deadline <= s.regs[id].createdAt + cfg.sweep.hardCap
    ensures AliveSince(t.regs, id, since, s.regs[id].createdAt)
  {
    if acts != [] {
      var acts', act := acts[..|acts| - 1], acts[|acts| - 1];
      var u := RunFrom(cfg, s, acts').value;
      assert Calm(acts', id, since, deadline);
      TouchedTenantSurvives(cfg, s, acts', u, id, since, deadline);
      StepSpares(cfg, u, act, id, since, s.regs[id].createdAt);
    }
  }
}
