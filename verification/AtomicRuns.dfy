/** Requests one after another, each run to its end, as particular interleavings; and what a kill means then
    (src/authserver/routes.rs). */
module AtomicRuns {
  import opened Text
  import opened OauthStore
  import opened TokenEndpoint
  import opened TokenRuns
  import opened Provenance
  import opened FamilyDeath

  datatype Moment = Moment(db: Db, now: int)

  datatype Act =
    | Whole(begin: Event, draws: Draws)  // a token request, start to end
    | Else(e: Event)                     // registration, an owner's act, a code, the clock

  predicate Begins(e: Event) {
    e.Exchange? || e.Rotate? || e.Revoke?
  }

  function FirstTask(cfg: Config, e: Event): Task
    requires Begins(e)
  {
    match e
    case Exchange(form, creds) => BeginExchange(form, creds)
    case Rotate(form, creds) => BeginRotate(cfg, form, creds)
    case Revoke(form) => BeginRevoke(form)
  }

  function Idle(m: Moment): State {
    State(m.db, m.now, [], [], map[])
  }

  predicate Allowed(cfg: Config, m: Moment, a: Act) {
    match a
    case Whole(begin, _) => Begins(begin)
    case Else(e) => !Begins(e) && !e.Advance? && Enabled(cfg, Idle(m), e)
  }

  function Then(cfg: Config, m: Moment, a: Act): Moment
    requires Allowed(cfg, m, a)
  {
    match a
    case Whole(begin, draws) => Moment(RunTask(cfg, m.db, m.now, FirstTask(cfg, begin), draws).db, m.now)
    case Else(e) => Moment(Next(cfg, Idle(m), e).db, Next(cfg, Idle(m), e).now)
  }

  ghost predicate AllAllowed(cfg: Config, m: Moment, acts: seq<Act>)
    decreases |acts|
  {
    acts == [] || (Allowed(cfg, m, acts[0]) && AllAllowed(cfg, Then(cfg, m, acts[0]), acts[1..]))
  }

  ghost function AfterActs(cfg: Config, m: Moment, acts: seq<Act>): Moment
    requires AllAllowed(cfg, m, acts)
    decreases |acts|
  {
    if acts == [] then m else AfterActs(cfg, Then(cfg, m, acts[0]), acts[1..])
  }

  // ---- an atomic request is an interleaving ----

  /** The remaining calls of the request at `i`, with nothing in between. */
  function Finishing(cfg: Config, db: Db, now: int, task: Task, i: nat, draws: Draws): seq<Event>
    decreases Rank(task)
  {
    if task.Done? then []
    else
      var drawn := DrawFor(task, draws);
      RankFalls(cfg, db, now, task, drawn);
      [Advance(i, drawn)]
      + Finishing(cfg, DbAfter(cfg, db, now, task, drawn), now, TaskAfter(cfg, db, now, task, drawn), i, draws)
  }

  lemma {:induction false} FinishingRuns(cfg: Config, s: State, i: nat, draws: Draws)
    requires i < |s.tasks|
    ensures var run := Finishing(cfg, s.db, s.now, s.tasks[i], i, draws);
            && Possible(cfg, s, run)
            && var t, settled := After(cfg, s, run), RunTask(cfg, s.db, s.now, s.tasks[i], draws);
            t.db == settled.db && t.now == s.now && t.tasks == s.tasks[i := Done(settled.reply)]
    decreases Rank(s.tasks[i])
  {
    var task := s.tasks[i];
    if !task.Done? {
      var drawn := DrawFor(task, draws);
      var t := Advanced(cfg, s, i, drawn);
      RankFalls(cfg, s.db, s.now, task, drawn);
      FinishingRuns(cfg, t, i, draws);
      var run := Finishing(cfg, s.db, s.now, task, i, draws);
      assert run[0] == Advance(i, drawn) && run[1..] == Finishing(cfg, t.db, t.now, t.tasks[i], i, draws);
      assert Next(cfg, s, run[0]) == t;
    }
  }

  predicate AllDone(tasks: seq<Task>) {
    forall i | 0 <= i < |tasks| :: tasks[i].Done?
  }

  predicate Shows(s: State, m: Moment) {
    s.db == m.db && s.now == m.now && AllDone(s.tasks)
  }

  function Interleaving(cfg: Config, s: State, a: Act): seq<Event>
    requires a.Whole? ==> Begins(a.begin)
  {
    match a
    case Whole(begin, draws) =>
      [begin] + Finishing(cfg, s.db, s.now, FirstTask(cfg, begin), |s.tasks|, draws)
    case Else(e) => [e]
  }

  lemma ElseIsAStep(cfg: Config, s: State, m: Moment, e: Event)
    requires Shows(s, m) && Allowed(cfg, m, Else(e))
    ensures Possible(cfg, s, [e]) && Shows(After(cfg, s, [e]), Then(cfg, m, Else(e)))
  {
    OneEvent(cfg, s, e);
  }

  lemma ActIsAnInterleaving(cfg: Config, s: State, m: Moment, a: Act)
    requires Shows(s, m) && Allowed(cfg, m, a)
    ensures Possible(cfg, s, Interleaving(cfg, s, a))
    ensures Shows(After(cfg, s, Interleaving(cfg, s, a)), Then(cfg, m, a))
  {
    match a
    case Else(e) => ElseIsAStep(cfg, s, m, e);
    case Whole(begin, draws) =>
      var t, n := Next(cfg, s, begin), |s.tasks|;
      assert t.tasks == s.tasks + [FirstTask(cfg, begin)] && t.tasks[n] == FirstTask(cfg, begin);
      FinishingRuns(cfg, t, n, draws);
      var run := Interleaving(cfg, s, a);
      assert run[0] == begin && run[1..] == Finishing(cfg, t.db, t.now, t.tasks[n], n, draws);
  }

  /** Every run of whole requests is a run of interleaved ones over the same store. */
  lemma {:induction false} ActsAreARun(cfg: Config, s: State, m: Moment, acts: seq<Act>) returns (run: seq<Event>)
    requires Shows(s, m) && AllAllowed(cfg, m, acts)
    ensures Possible(cfg, s, run) && Shows(After(cfg, s, run), AfterActs(cfg, m, acts))
    decreases |acts|
  {
    if acts == [] {
      run := [];
    } else {
      ActIsAnInterleaving(cfg, s, m, acts[0]);
      var first := Interleaving(cfg, s, acts[0]);
      var rest := ActsAreARun(cfg, After(cfg, s, first), Then(cfg, m, acts[0]), acts[1..]);
      RunsCompose(cfg, s, first, rest);
      run := first + rest;
    }
  }

  // ---- what one whole request leaves ----

  function CodeGrant(cfg: Config, db: Db, x: ExchangeReq, row: CodeRow): Grant
    requires Passes(cfg, db, x, row)
  {
    var h := Sha256(x.code);
    Grant(row.clientId, Refreshes(db, row.clientId), FamilyOf(h), row.scope,
          ResourceForCode(cfg, row.resource, x.resource).value, Code(h), x.creds)
  }

  /** An exchange of a spendable code burns it whatever else is wrong, and issues exactly when nothing else is; any
      other exchange that finds the code unspent leaves the store alone. */
  lemma ExchangeSettles(cfg: Config, db: Db, now: int, x: ExchangeReq, draws: Draws)
    requires !Spent(db, Code(Sha256(x.code)))
    ensures var h, settled := Sha256(x.code), RunTask(cfg, db, now, SpendCode(x), draws);
            if !CodeSpendable(db, h, now) then settled == Settled(db, Refused(InvalidGrant))
            else
              var spent, row := CodeSpent(db, h, now), db.codes[h];
              if Passes(cfg, db, x, row)
              then settled == Issuance(cfg, spent, now, CodeGrant(cfg, db, x, row), draws)
              else settled.db == spent && settled.reply.Refused?
  {
    var h := Sha256(x.code);
    if CodeSpendable(db, h, now) {
      var spent, row := CodeSpent(db, h, now), db.codes[h];
      assert RunTask(cfg, db, now, SpendCode(x), draws)
          == RunTask(cfg, spent, now, AfterSpendCode(cfg, db, now, x), draws);
      if Bound(cfg, x, row) {
        assert RunTask(cfg, spent, now, CheckExchange(x, row), draws)
            == RunTask(cfg, spent, now, AfterCheckExchange(cfg, spent, x, row), draws);
        assert Refusal(spent, row.clientId, x.creds) == Refusal(db, row.clientId, x.creds);
        if Passes(cfg, db, x, row) {
          IssueSettles(cfg, spent, now, CodeGrant(cfg, db, x, row), draws);
        }
      }
    }
  }

  /** Revoking answers alike whatever was handed in: a working access token dies alone, a refresh token takes its family
      with it, spent or live, and anything else changes nothing. */
  lemma RevokeSettles(cfg: Config, db: Db, now: int, token: string, draws: Draws)
    ensures var h, settled := Sha256(token), RunTask(cfg, db, now, RevokeAccess(token), draws);
            && settled.reply == Accepted
            && settled.db ==
               if TokenRevocable(db, h) then TokenRevoked(db, h)
               else if Spent(db, Token(h)) || RefreshLive(db, h, now)
               then FamilyRevoked(RefreshSpent(db, h, now), db.refreshes[h].family)
               else db
  {
    var h := Sha256(token);
    if !TokenRevocable(db, h) {
      if Spent(db, Token(h)) || RefreshLive(db, h, now) {
        RevokedTokenKills(cfg, db, now, token, draws);
      } else {
        assert RunTask(cfg, db, now, RevokeRefresh(token), draws) == Settled(db, Accepted);
      }
    }
  }

  // ---- what kills a family ----

  /** A replayed code, a replayed refresh token, or a refresh token handed in for revocation. */
  predicate Kills(cfg: Config, m: Moment, e: Event, f: Family) {
    match e
    case Exchange(form, creds) =>
      && BeginExchange(form, creds).SpendCode?
      && f == FamilyOf(Sha256(form.code.value)) && Spent(m.db, Code(f.code))
    case Rotate(form, creds) =>
      && BeginRotate(cfg, form, creds).LookUp?
      && var h := Sha256(form.refreshToken.value);
      Spent(m.db, Token(h)) && m.db.refreshes[h].family == f
    case Revoke(form) =>
      && BeginRevoke(form).RevokeAccess?
      && var h := Sha256(form.token.value);
      && !TokenRevocable(m.db, h)
      && (Spent(m.db, Token(h)) || RefreshLive(m.db, h, m.now)) && m.db.refreshes[h].family == f
    case _ => false
  }

  lemma ReplayedCodeKills(cfg: Config, db: Db, now: int, x: ExchangeReq, draws: Draws)
    requires Spent(db, Code(Sha256(x.code)))
    ensures RunTask(cfg, db, now, SpendCode(x), draws) ==
            Settled(FamilyRevoked(db, FamilyOf(Sha256(x.code))), Refused(InvalidGrant))
  {
    KillSettles(cfg, db, now, FamilyOf(Sha256(x.code)), Refused(InvalidGrant), draws);
  }

  lemma ReplayedTokenKills(cfg: Config, db: Db, now: int, r: RefreshReq, draws: Draws)
    requires Spent(db, Token(Sha256(r.token)))
    ensures RunTask(cfg, db, now, LookUp(r), draws) ==
            Settled(FamilyRevoked(db, db.refreshes[Sha256(r.token)].family), Refused(InvalidGrant))
  {
    var f := db.refreshes[Sha256(r.token)].family;
    KillSettles(cfg, db, now, f, Refused(InvalidGrant), draws);
    var spend := SpendRefresh(r, None, true);
    assert RunTask(cfg, db, now, spend, draws) == RunTask(cfg, db, now, KillFamily(f, Refused(InvalidGrant)), draws);
    assert RunTask(cfg, db, now, LookUp(r), draws) == RunTask(cfg, db, now, spend, draws);
  }

  lemma RevokedTokenKills(cfg: Config, db: Db, now: int, token: string, draws: Draws)
    requires var h := Sha256(token); !TokenRevocable(db, h) && (Spent(db, Token(h)) || RefreshLive(db, h, now))
    ensures var h := Sha256(token);
            RunTask(cfg, db, now, RevokeAccess(token), draws) ==
            Settled(FamilyRevoked(RefreshSpent(db, h, now), db.refreshes[h].family), Accepted)
  {
    var h := Sha256(token);
    var spent, f := RefreshSpent(db, h, now), db.refreshes[h].family;
    KillSettles(cfg, spent, now, f, Accepted, draws);
    assert RunTask(cfg, db, now, RevokeRefresh(token), draws) ==
           RunTask(cfg, spent, now, KillFamily(f, Accepted), draws);
    assert RunTask(cfg, db, now, RevokeAccess(token), draws) == RunTask(cfg, db, now, RevokeRefresh(token), draws);
  }

  lemma KillsRevokesAll(cfg: Config, m: Moment, e: Event, draws: Draws, f: Family)
    requires Allowed(cfg, m, Whole(e, draws)) && Kills(cfg, m, e, f)
    ensures AllRevoked(Then(cfg, m, Whole(e, draws)).db, f)
  {
    match e
    case Exchange(form, creds) =>
      ReplayedCodeKills(cfg, m.db, m.now, BeginExchange(form, creds).x, draws);
      KillRevokesAll(m.db, f);
    case Rotate(form, creds) =>
      ReplayedTokenKills(cfg, m.db, m.now, BeginRotate(cfg, form, creds).r, draws);
      KillRevokesAll(m.db, f);
    case Revoke(form) =>
      RevokedTokenKills(cfg, m.db, m.now, form.token.value, draws);
      KillRevokesAll(RefreshSpent(m.db, Sha256(form.token.value), m.now), f);
  }

  /** A family that has a refresh token has a spent code. */
  lemma KilledCodeWasSpent(cfg: Config, s: State, m: Moment, e: Event, f: Family)
    requires Shows(s, m) && AllInOrder(s) && Kills(cfg, m, e, f)
    ensures Spent(s.db, Code(f.code))
  {
    assert InOrder(s, f);
    if !e.Exchange? {
      var h := Sha256(if e.Rotate? then e.form.refreshToken.value else e.form.token.value);
      assert h in s.db.refreshes && s.db.refreshes[h].family == f;
      assert InLine(Line(s.log, f), h);
    }
  }

  lemma {:induction false} RunKeepsCodeSpent(cfg: Config, s: State, run: seq<Event>, f: Family)
    requires Possible(cfg, s, run) && Spent(s.db, Code(f.code))
    ensures Spent(After(cfg, s, run).db, Code(f.code))
    decreases |run|
  {
    if run != [] {
      CodeStaysSpent(cfg, s, run[0], f);
      RunKeepsCodeSpent(cfg, Next(cfg, s, run[0]), run[1..], f);
    }
  }

  lemma KillLeavesDead(cfg: Config, s: State, m: Moment, a: Act, f: Family)
    requires Shows(s, m) && AllInOrder(s) && Allowed(cfg, m, a) && a.Whole? && Kills(cfg, m, a.begin, f)
    ensures Possible(cfg, s, Interleaving(cfg, s, a)) && Dead(After(cfg, s, Interleaving(cfg, s, a)), f)
  {
    ActIsAnInterleaving(cfg, s, m, a);
    KillsRevokesAll(cfg, m, a.begin, a.draws, f);
    KilledCodeWasSpent(cfg, s, m, a.begin, f);
    RunKeepsCodeSpent(cfg, s, Interleaving(cfg, s, a), f);
  }

  /** With requests one after another, once a replay or a revocation has killed a family, no later request, owner's act
      or passage of time leaves a token in it that is not revoked. */
  lemma KilledFamiliesStayDead(cfg: Config, start: int, before: seq<Act>, kill: Act, later: seq<Act>, f: Family)
    requires AllAllowed(cfg, Moment(Init(start).db, start), before)
    requires var m := AfterActs(cfg, Moment(Init(start).db, start), before);
             && Allowed(cfg, m, kill) && kill.Whole? && Kills(cfg, m, kill.begin, f)
             && AllAllowed(cfg, Then(cfg, m, kill), later)
    ensures var m := AfterActs(cfg, Moment(Init(start).db, start), before);
            AllRevoked(AfterActs(cfg, Then(cfg, m, kill), later).db, f)
  {
    var m0 := Moment(Init(start).db, start);
    var m := AfterActs(cfg, m0, before);
    var run := ActsAreARun(cfg, Init(start), m0, before);
    var s := After(cfg, Init(start), run);
    InitInOrder(start);
    RunKeepsOrder(cfg, Init(start), run);
    ActIsAnInterleaving(cfg, s, m, kill);
    KillLeavesDead(cfg, s, m, kill, f);
    var t := After(cfg, s, Interleaving(cfg, s, kill));
    var rest := ActsAreARun(cfg, t, Then(cfg, m, kill), later);
    DeadStaysDead(cfg, t, rest, f);
  }
}
