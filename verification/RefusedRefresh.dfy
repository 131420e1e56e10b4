/** A refresh request that is turned away costs its token nothing, and a spent token costs its family everything
    (src/authserver/routes.rs `rotate`, `refresh_caller`). */
module RefusedRefresh {
  import opened Text
  import opened OauthStore
  import opened TokenEndpoint
  import opened TokenRuns
  import opened Provenance
  import opened AtomicRuns

  /** One whole refresh request. */
  datatype Attempt = Attempt(form: Form, creds: Credentials, at: int, draws: Draws)

  function Answer(cfg: Config, db: Db, a: Attempt): Settled {
    RunTask(cfg, db, a.at, BeginRotate(cfg, a.form, a.creds), a.draws)
  }

  predicate Presents(a: Attempt, token: string) {
    Field(a.form.refreshToken) == Some(token)
  }

  /** An unserved resource, another client's id, or a client that refuses the caller. */
  predicate TurnedAway(cfg: Config, db: Db, a: Attempt, owner: string) {
    || ResourceForIssue(cfg, Field(a.form.resource)).Err?
    || NamesAnother(a.creds, owner)
    || Refusal(db, owner, a.creds).Some?
  }

  function OwnersGrant(cfg: Config, db: Db, a: Attempt, h: Hash): Grant
    requires h in db.refreshes && ResourceForIssue(cfg, Field(a.form.resource)).Ok?
  {
    var row := db.refreshes[h];
    Grant(row.clientId, Refreshes(db, row.clientId), row.family, DEFAULT_SCOPE,
          ResourceForIssue(cfg, Field(a.form.resource)).value, Token(h), a.creds)
  }

  /** The rotation of a live token: it is spent, and its successors are issued. */
  function Rotation(cfg: Config, db: Db, a: Attempt, h: Hash): Settled
    requires h in db.refreshes && ResourceForIssue(cfg, Field(a.form.resource)).Ok?
  {
    Issuance(cfg, RefreshSpent(db, h, a.at), a.at, OwnersGrant(cfg, db, a, h), a.draws)
  }

  lemma DoneSettles(cfg: Config, db: Db, now: int, e: Error, draws: Draws)
    ensures RunTask(cfg, db, now, Done(Refused(e)), draws) == Settled(db, Refused(e))
  {
  }

  lemma TurnedAwayCostsNothing(cfg: Config, db: Db, a: Attempt, token: string)
    requires Presents(a, token) && RefreshLive(db, Sha256(token), a.at)
    requires TurnedAway(cfg, db, a, db.refreshes[Sha256(token)].clientId)
    ensures Answer(cfg, db, a).db == db && Answer(cfg, db, a).reply.Refused?
  {
    var owner := db.refreshes[Sha256(token)].clientId;
    if ResourceForIssue(cfg, Field(a.form.resource)).Ok? {
      var r := RefreshReq(token, a.creds, Field(a.form.resource));
      assert RunTask(cfg, db, a.at, LookUp(r), a.draws) == RunTask(cfg, db, a.at, AfterLookUp(db, a.at, r), a.draws);
      if NamesAnother(a.creds, owner) {
        DoneSettles(cfg, db, a.at, InvalidGrant, a.draws);
      } else {
        var e := Refusal(db, owner, a.creds).value;
        DoneSettles(cfg, db, a.at, e, a.draws);
        assert RunTask(cfg, db, a.at, CheckOwner(r, owner), a.draws) ==
               RunTask(cfg, db, a.at, Done(Refused(e)), a.draws);
      }
    } else {
      DoneSettles(cfg, db, a.at, ResourceForIssue(cfg, Field(a.form.resource)).error, a.draws);
    }
  }

  lemma OwnerRotates(cfg: Config, db: Db, a: Attempt, token: string)
    requires Presents(a, token) && RefreshLive(db, Sha256(token), a.at)
    requires !TurnedAway(cfg, db, a, db.refreshes[Sha256(token)].clientId)
    ensures Answer(cfg, db, a) == Rotation(cfg, db, a, Sha256(token))
  {
    var h := Sha256(token);
    var row, r := db.refreshes[h], RefreshReq(token, a.creds, Field(a.form.resource));
    var spent := RefreshSpent(db, h, a.at);
    var g := OwnersGrant(cfg, db, a, h);
    assert RunTask(cfg, db, a.at, LookUp(r), a.draws) == RunTask(cfg, db, a.at, CheckOwner(r, row.clientId), a.draws);
    var spend := SpendRefresh(r, Some(row.clientId), true);
    assert RunTask(cfg, db, a.at, CheckOwner(r, row.clientId), a.draws) == RunTask(cfg, db, a.at, spend, a.draws);
    assert AfterSpendRefresh(db, a.at, r) == Recheck(r, row.clientId, row.family);
    assert RunTask(cfg, db, a.at, spend, a.draws)
        == RunTask(cfg, spent, a.at, Recheck(r, row.clientId, row.family), a.draws);
    assert AfterRecheck(cfg, spent, r, row.clientId, row.family) == InsertAccess(g);
    assert RunTask(cfg, spent, a.at, Recheck(r, row.clientId, row.family), a.draws)
        == RunTask(cfg, spent, a.at, InsertAccess(g), a.draws);
    IssueSettles(cfg, spent, a.at, g, a.draws);
  }

  lemma RotationSpends(cfg: Config, db: Db, a: Attempt, h: Hash)
    requires RefreshLive(db, h, a.at) && ResourceForIssue(cfg, Field(a.form.resource)).Ok?
    ensures Spent(Rotation(cfg, db, a, h).db, Token(h))
  {
  }

  /** A refresh request against a live token leaves the store as it was exactly when it is turned away. */
  lemma UnchangedExactlyWhenTurnedAway(cfg: Config, db: Db, a: Attempt, token: string)
    requires Presents(a, token) && RefreshLive(db, Sha256(token), a.at)
    ensures Answer(cfg, db, a).db == db <==> TurnedAway(cfg, db, a, db.refreshes[Sha256(token)].clientId)
  {
    var h := Sha256(token);
    if TurnedAway(cfg, db, a, db.refreshes[h].clientId) {
      TurnedAwayCostsNothing(cfg, db, a, token);
    } else {
      OwnerRotates(cfg, db, a, token);
      RotationSpends(cfg, db, a, h);
    }
  }

  function AfterAttempts(cfg: Config, db: Db, attempts: seq<Attempt>): Db
    decreases |attempts|
  {
    if attempts == [] then db else AfterAttempts(cfg, Answer(cfg, db, attempts[0]).db, attempts[1..])
  }

  /** However many such requests come first, the owner's own still rotates the token. */
  lemma {:induction false} OwnerStillRotates(cfg: Config, db: Db, attempts: seq<Attempt>, own: Attempt, token: string)
    requires Presents(own, token) && RefreshLive(db, Sha256(token), own.at)
    requires !TurnedAway(cfg, db, own, db.refreshes[Sha256(token)].clientId)
    requires forall a | a in attempts ::
               Presents(a, token) && a.at <= own.at && TurnedAway(cfg, db, a, db.refreshes[Sha256(token)].clientId)
    ensures Answer(cfg, AfterAttempts(cfg, db, attempts), own) ==
            Rotation(cfg, db, own, Sha256(token))
    decreases |attempts|
  {
    if attempts == [] {
      OwnerRotates(cfg, db, own, token);
    } else {
      assert attempts[0] in attempts;
      TurnedAwayCostsNothing(cfg, db, attempts[0], token);
      OwnerStillRotates(cfg, db, attempts[1..], own, token);
    }
  }

  /** A spent token, whoever presents it under whatever id and secret, revokes its family exactly when the resource
      asked for is acceptable, and changes nothing otherwise. */
  lemma SpentTokenKillsWhoeverPresentsIt(cfg: Config, db: Db, a: Attempt, token: string)
    requires Presents(a, token) && Spent(db, Token(Sha256(token)))
    ensures Answer(cfg, db, a).reply.Refused?
    ensures Answer(cfg, db, a).db ==
            if ResourceForIssue(cfg, Field(a.form.resource)).Ok?
            then FamilyRevoked(db, db.refreshes[Sha256(token)].family) else db
  {
    if ResourceForIssue(cfg, Field(a.form.resource)).Ok? {
      ReplayedTokenKills(cfg, db, a.at, RefreshReq(token, a.creds, Field(a.form.resource)), a.draws);
    }
  }

  // ---- and in every interleaving ----

  predicate RowOf(db: Db, h: Hash, owner: string) {
    h in db.refreshes && db.refreshes[h].clientId == owner
  }

  /** A request past its lookup either was accepted as the token's owner, or found the row dead, or found no row. */
  predicate Vouched(db: Db, now: int, task: Task) {
    match task
    case CheckOwner(r, owner) => RowOf(db, Sha256(r.token), owner) && !NamesAnother(r.creds, owner)
    case SpendRefresh(r, Some(owner), known) => RowOf(db, Sha256(r.token), owner) && Accepts(db, owner, r.creds)
    case SpendRefresh(r, None, known) =>
      known ==> Sha256(r.token) in db.refreshes && !RefreshLive(db, Sha256(r.token), now)
    case _ => true
  }

  ghost predicate AllVouched(s: State) {
    forall i | 0 <= i < |s.tasks| :: Vouched(s.db, s.now, s.tasks[i])
  }

  /** Rows stay with their clients, and a dead one never lives again. */
  predicate RowsAge(db: Db, now: int, after: Db, later: int) {
    forall h | h in db.refreshes ::
      && h in after.refreshes && after.refreshes[h].clientId == db.refreshes[h].clientId
      && (RefreshLive(after, h, later) ==> RefreshLive(db, h, now))
  }

  lemma CallAges(cfg: Config, db: Db, now: int, task: Task, drawn: string)
    ensures RowsAge(db, now, DbAfter(cfg, db, now, task, drawn), now)
  {
  }

  lemma StepAges(cfg: Config, s: State, e: Event)
    requires Enabled(cfg, s, e)
    ensures RowsAge(s.db, s.now, Next(cfg, s, e).db, Next(cfg, s, e).now)
  {
    if e.Advance? {
      CallAges(cfg, s.db, s.now, s.tasks[e.i], e.drawn);
    }
  }

  lemma VouchedStays(db: Db, now: int, after: Db, later: int, task: Task)
    requires Vouched(db, now, task) && RowsAge(db, now, after, later) && ClientsKept(db, after)
    ensures Vouched(after, later, task)
  {
  }

  lemma NextIsVouched(cfg: Config, db: Db, now: int, task: Task, drawn: string)
    requires Vouched(db, now, task)
    ensures Vouched(db, now, TaskAfter(cfg, db, now, task, drawn))
  {
  }

  lemma StepKeepsVouched(cfg: Config, s: State, e: Event)
    requires Enabled(cfg, s, e) && AllVouched(s)
    ensures AllVouched(Next(cfg, s, e))
  {
    var t := Next(cfg, s, e);
    StepAges(cfg, s, e);
    StepKeepsClients(cfg, s, e);
    forall i | 0 <= i < |t.tasks| ensures Vouched(t.db, t.now, t.tasks[i]) {
      if e.Advance? && i == e.i {
        NextIsVouched(cfg, s.db, s.now, s.tasks[i], e.drawn);
        VouchedStays(s.db, s.now, t.db, t.now, t.tasks[i]);
      } else if i < |s.tasks| {
        VouchedStays(s.db, s.now, t.db, t.now, s.tasks[i]);
      }
    }
  }

  lemma {:induction false} RunKeepsVouched(cfg: Config, s: State, run: seq<Event>)
    requires AllVouched(s) && Possible(cfg, s, run)
    ensures AllVouched(After(cfg, s, run))
    decreases |run|
  {
    if run != [] {
      StepKeepsVouched(cfg, s, run[0]);
      RunKeepsVouched(cfg, Next(cfg, s, run[0]), run[1..]);
    }
  }

  /** Whatever else is in flight, a refresh request that is about to spend a live token was accepted as its owner,
      with the owner's own id and secret, or asked before the token was there. So no other caller can spend a token it
      could name. */
  lemma LiveTokensAreSpentByTheirOwners(cfg: Config, now: int, run: seq<Event>, i: nat)
    requires Possible(cfg, Init(now), run)
    requires var s := After(cfg, Init(now), run);
             i < |s.tasks| && s.tasks[i].SpendRefresh? && RefreshLive(s.db, Sha256(s.tasks[i].r.token), s.now)
    ensures var s := After(cfg, Init(now), run);
            var task, owner := s.tasks[i], s.db.refreshes[Sha256(s.tasks[i].r.token)].clientId;
            || (task.passedAs == Some(owner) && Accepts(s.db, owner, task.r.creds))
            || (task.passedAs == None && !task.known)
  {
    RunKeepsVouched(cfg, Init(now), run);
    assert Vouched(After(cfg, Init(now), run).db, After(cfg, Init(now), run).now, After(cfg, Init(now), run).tasks[i]);
  }

  // ---- when nobody guesses a token before it is drawn ----

  /** A refresh request that has not spent its token yet. */
  predicate Names(task: Task, token: string) {
    (task.LookUp? || task.CheckOwner? || task.SpendRefresh?) && task.r.token == token
  }

  /** The refresh token this event draws, if it draws one, is named by no request in flight. */
  predicate DrawsUnnamed(s: State, e: Event) {
    e.Advance? && e.i < |s.tasks| && s.tasks[e.i].InsertRefresh? ==>
      forall task | task in s.tasks :: !Names(task, e.drawn)
  }

  ghost predicate Unguessed(cfg: Config, s: State, run: seq<Event>)
    requires Possible(cfg, s, run)
    decreases |run|
  {
    run == [] || (DrawsUnnamed(s, run[0]) && Unguessed(cfg, Next(cfg, s, run[0]), run[1..]))
  }

  /** A request whose lookup found no row, while there is none. */
  predicate StillAbsent(db: Db, task: Task) {
    task.SpendRefresh? && task.passedAs == None && !task.known ==> Sha256(task.r.token) !in db.refreshes
  }

  ghost predicate AllStillAbsent(s: State) {
    forall i | 0 <= i < |s.tasks| :: StillAbsent(s.db, s.tasks[i])
  }

  lemma CallAddsOneToken(cfg: Config, db: Db, now: int, task: Task, drawn: string)
    ensures DbAfter(cfg, db, now, task, drawn).refreshes.Keys <=
            db.refreshes.Keys + if task.InsertRefresh? then {Sha256(drawn)} else {}
  {
  }

  lemma CallKeepsAbsent(cfg: Config, db: Db, now: int, task: Task, drawn: string, other: Task)
    requires StillAbsent(db, other) && (task.InsertRefresh? ==> !Names(other, drawn))
    ensures StillAbsent(DbAfter(cfg, db, now, task, drawn), other)
  {
    CallAddsOneToken(cfg, db, now, task, drawn);
  }

  lemma NextIsAbsent(cfg: Config, db: Db, now: int, task: Task, drawn: string)
    requires StillAbsent(db, task)
    ensures StillAbsent(DbAfter(cfg, db, now, task, drawn), TaskAfter(cfg, db, now, task, drawn))
  {
  }

  lemma StepKeepsAbsent(cfg: Config, s: State, e: Event)
    requires Enabled(cfg, s, e) && DrawsUnnamed(s, e) && AllStillAbsent(s)
    ensures AllStillAbsent(Next(cfg, s, e))
  {
    if e.Advance? {
      var t := Next(cfg, s, e);
      forall i | 0 <= i < |t.tasks| ensures StillAbsent(t.db, t.tasks[i]) {
        if i == e.i {
          NextIsAbsent(cfg, s.db, s.now, s.tasks[i], e.drawn);
        } else {
          assert s.tasks[i] in s.tasks;
          CallKeepsAbsent(cfg, s.db, s.now, s.tasks[e.i], e.drawn, s.tasks[i]);
        }
      }
    }
  }

  lemma {:induction false} RunKeepsAbsent(cfg: Config, s: State, run: seq<Event>)
    requires AllStillAbsent(s) && Possible(cfg, s, run) && Unguessed(cfg, s, run)
    ensures AllStillAbsent(After(cfg, s, run))
    decreases |run|
  {
    if run != [] {
      StepKeepsAbsent(cfg, s, run[0]);
      RunKeepsAbsent(cfg, Next(cfg, s, run[0]), run[1..]);
    }
  }

  /** In every run in which no request names a refresh token before it is drawn, a request about to spend a live token
      was accepted as its owner. */
  lemma OnlyOwnersSpendLiveTokens(cfg: Config, now: int, run: seq<Event>, i: nat)
    requires Possible(cfg, Init(now), run) && Unguessed(cfg, Init(now), run)
    requires var s := After(cfg, Init(now), run);
             i < |s.tasks| && s.tasks[i].SpendRefresh? && RefreshLive(s.db, Sha256(s.tasks[i].r.token), s.now)
    ensures var s := After(cfg, Init(now), run);
            var task, owner := s.tasks[i], s.db.refreshes[Sha256(s.tasks[i].r.token)].clientId;
            task.passedAs == Some(owner) && Accepts(s.db, owner, task.r.creds)
  {
    LiveTokensAreSpentByTheirOwners(cfg, now, run, i);
    RunKeepsAbsent(cfg, Init(now), run);
    var s := After(cfg, Init(now), run);
    assert StillAbsent(s.db, s.tasks[i]);
  }
}
