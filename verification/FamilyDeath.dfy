/** What `revoke_family` achieves: for requests one after another, and for requests that interleave
    (src/authserver/routes.rs). */
module FamilyDeath {
  import opened Text
  import opened OauthStore
  import opened TokenEndpoint
  import opened TokenRuns
  import opened Provenance

  predicate AllRevoked(db: Db, f: Family) {
    && (forall h | h in db.tokens && db.tokens[h].family == f :: db.tokens[h].revoked)
    && (forall h | h in db.refreshes && db.refreshes[h].family == f :: db.refreshes[h].revoked)
  }

  /** Every row revoked, the code spent, and nobody between a spend and an insertion. */
  predicate Dead(s: State, f: Family) {
    Spent(s.db, Code(f.code)) && AllRevoked(s.db, f) && NoHolder(s.tasks, f)
  }

  lemma KillRevokesAll(db: Db, f: Family)
    ensures AllRevoked(FamilyRevoked(db, f), f)
    ensures Spent(db, Code(f.code)) ==> Spent(FamilyRevoked(db, f), Code(f.code))
  {
  }

  lemma CallKeepsRevoked(cfg: Config, db: Db, now: int, task: Task, drawn: string, f: Family)
    requires AllRevoked(db, f)
    requires task.InsertAccess? || task.InsertRefresh? ==> task.g.family != f || task.g.clientId !in db.clients
    ensures AllRevoked(DbAfter(cfg, db, now, task, drawn), f)
  {
  }

  /** Nobody comes to hold a family whose code is spent and whose tokens are revoked. */
  lemma NoNewHolder(cfg: Config, db: Db, now: int, task: Task, drawn: string, f: Family)
    requires AllRevoked(db, f) && Spent(db, Code(f.code)) && !Holds(task, f)
    ensures !Holds(TaskAfter(cfg, db, now, task, drawn), f)
  {
  }

  lemma CodeStaysSpent(cfg: Config, s: State, e: Event, f: Family)
    requires Enabled(cfg, s, e) && Spent(s.db, Code(f.code))
    ensures Spent(Next(cfg, s, e).db, Code(f.code))
  {
    SpentStaysSpent(cfg, s, e, Code(f.code));
  }

  lemma OthersKeepRevoked(cfg: Config, s: State, e: Event, f: Family)
    requires Enabled(cfg, s, e) && !e.Advance? && AllRevoked(s.db, f)
    ensures AllRevoked(Next(cfg, s, e).db, f)
  {
  }

  lemma StepKeepsDead(cfg: Config, s: State, e: Event, f: Family)
    requires Enabled(cfg, s, e) && Dead(s, f)
    ensures Dead(Next(cfg, s, e), f)
  {
    CodeStaysSpent(cfg, s, e, f);
    if e.Advance? {
      CallKeepsRevoked(cfg, s.db, s.now, s.tasks[e.i], e.drawn, f);
      NoNewHolder(cfg, s.db, s.now, s.tasks[e.i], e.drawn, f);
    } else {
      OthersKeepRevoked(cfg, s, e, f);
    }
  }

  lemma {:induction false} DeadStaysDead(cfg: Config, s: State, run: seq<Event>, f: Family)
    requires Possible(cfg, s, run) && Dead(s, f)
    ensures Dead(After(cfg, s, run), f)
    decreases |run|
  {
    if run != [] {
      StepKeepsDead(cfg, s, run[0], f);
      DeadStaysDead(cfg, Next(cfg, s, run[0]), run[1..], f);
    }
  }

  // ---- interleaved: exactly when a kill is final ----

  /** Every code names a client the owner approved. */
  predicate CodesGranted(s: State) {
    forall h | h in s.db.codes ::
      s.db.codes[h].clientId in s.db.clients && s.db.clients[s.db.codes[h].clientId].consented
  }

  ghost predicate Reachable(cfg: Config, s: State) {
    AllInOrder(s) && Sourced(cfg, s) && CodesGranted(s)
  }

  lemma NewCodesAreGranted(cfg: Config, s: State, e: Event, h: Hash)
    requires Enabled(cfg, s, e) && h in Next(cfg, s, e).db.codes
    ensures || (h in s.db.codes && Next(cfg, s, e).db.codes[h].clientId == s.db.codes[h].clientId)
            || (e.Permit? && Next(cfg, s, e).db.codes[h] == e.row)
  {
    if e.Advance? {
      CallTouches(cfg, s.db, s.now, s.tasks[e.i], e.drawn);
    }
  }

  lemma CodesStayGranted(cfg: Config, s: State, e: Event)
    requires Enabled(cfg, s, e) && CodesGranted(s) && Sourced(cfg, s)
    ensures CodesGranted(Next(cfg, s, e))
  {
    var t := Next(cfg, s, e);
    StepKeeps(cfg, s, e);
    forall h | h in t.db.codes
      ensures t.db.codes[h].clientId in t.db.clients && t.db.clients[t.db.codes[h].clientId].consented
    {
      NewCodesAreGranted(cfg, s, e, h);
    }
  }

  lemma StepKeepsReachable(cfg: Config, s: State, e: Event)
    requires Enabled(cfg, s, e) && Reachable(cfg, s)
    ensures Reachable(cfg, Next(cfg, s, e))
  {
    forall f: Family ensures InOrder(Next(cfg, s, e), f) {
      StepKeepsOrder(cfg, s, e, f);
    }
    StepKeepsSourced(cfg, s, e);
    CodesStayGranted(cfg, s, e);
  }

  lemma {:induction false} RunIsReachable(cfg: Config, s: State, run: seq<Event>)
    requires Possible(cfg, s, run) && Reachable(cfg, s)
    ensures Reachable(cfg, After(cfg, s, run))
    decreases |run|
  {
    if run != [] {
      StepKeepsReachable(cfg, s, run[0]);
      RunIsReachable(cfg, Next(cfg, s, run[0]), run[1..]);
    }
  }

  lemma InitIsReachable(cfg: Config, now: int)
    ensures Reachable(cfg, Init(now))
  {
    InitInOrder(now);
  }

  /** The request holds the family and every check left before its insertion would pass now. */
  predicate WillIssue(cfg: Config, db: Db, task: Task, f: Family) {
    Holds(task, f) &&
    match task
    case CheckExchange(x, row) =>
      Refusal(db, row.clientId, x.creds).None? && ResourceForCode(cfg, row.resource, x.resource).Ok?
    case Recheck(r, owner, _) => Refusal(db, owner, r.creds).None? && ResourceForIssue(cfg, r.resource).Ok?
    case InsertAccess(g) => g.clientId in db.clients
    case InsertRefresh(g, _) => g.clientId in db.clients
    case _ => false
  }

  predicate NobodyIssues(cfg: Config, s: State, f: Family) {
    forall i | 0 <= i < |s.tasks| :: !WillIssue(cfg, s.db, s.tasks[i], f)
  }

  /** The client a holder must still pass as is known and approved. */
  lemma HolderClientKnown(cfg: Config, s: State, i: nat)
    requires Reachable(cfg, s) && i < |s.tasks|
    ensures var task := s.tasks[i];
            && (task.CheckExchange? ==> task.row.clientId in s.db.clients && s.db.clients[task.row.clientId].consented)
            && (task.Recheck? ==> task.owner in s.db.clients && s.db.clients[task.owner].consented)
            && (task.InsertAccess? || task.InsertRefresh? ==> task.g.clientId in s.db.clients)
  {
    assert TaskSourced(s, s.tasks[i]);
  }

  /** A known client that refuses a caller goes on refusing it: secrets do not change and revocation is for good. */
  lemma RefusalIsForGood(cfg: Config, s: State, e: Event, id: string, creds: Credentials)
    requires Enabled(cfg, s, e) && id in s.db.clients && s.db.clients[id].consented
    requires Refusal(s.db, id, creds).Some?
    ensures Refusal(Next(cfg, s, e).db, id, creds).Some?
  {
    assert id in Next(cfg, s, e).db.clients;
  }

  lemma WaiterStaysRefused(cfg: Config, s: State, e: Event, i: nat, f: Family)
    requires Enabled(cfg, s, e) && Reachable(cfg, s) && i < |s.tasks| && !WillIssue(cfg, s.db, s.tasks[i], f)
    ensures !WillIssue(cfg, Next(cfg, s, e).db, s.tasks[i], f)
  {
    HolderClientKnown(cfg, s, i);
    match s.tasks[i]
    case CheckExchange(x, row) =>
      if Refusal(s.db, row.clientId, x.creds).Some? {
        RefusalIsForGood(cfg, s, e, row.clientId, x.creds);
      }
    case Recheck(r, owner, _) =>
      if Refusal(s.db, owner, r.creds).Some? {
        RefusalIsForGood(cfg, s, e, owner, r.creds);
      }
    case _ =>
  }

  /** A holder that will not issue is refused by its own next call. */
  lemma RefusedHolderLeaves(cfg: Config, db: Db, now: int, task: Task, drawn: string, f: Family)
    requires AllRevoked(db, f) && Spent(db, Code(f.code)) && !WillIssue(cfg, db, task, f)
    ensures !Holds(TaskAfter(cfg, db, now, task, drawn), f)
  {
  }

  lemma QuietKeepsRevoked(cfg: Config, s: State, e: Event, f: Family)
    requires Enabled(cfg, s, e) && AllRevoked(s.db, f) && NobodyIssues(cfg, s, f)
    ensures AllRevoked(Next(cfg, s, e).db, f)
  {
    if e.Advance? {
      assert !WillIssue(cfg, s.db, s.tasks[e.i], f);
      CallKeepsRevoked(cfg, s.db, s.now, s.tasks[e.i], e.drawn, f);
    } else {
      OthersKeepRevoked(cfg, s, e, f);
    }
  }

  lemma QuietKeepsQuiet(cfg: Config, s: State, e: Event, i: nat, f: Family)
    requires Enabled(cfg, s, e) && Reachable(cfg, s) && i < |Next(cfg, s, e).tasks|
    requires Spent(s.db, Code(f.code)) && AllRevoked(s.db, f) && NobodyIssues(cfg, s, f)
    ensures !WillIssue(cfg, Next(cfg, s, e).db, Next(cfg, s, e).tasks[i], f)
  {
    if e.Advance? && i == e.i {
      assert !WillIssue(cfg, s.db, s.tasks[i], f);
      RefusedHolderLeaves(cfg, s.db, s.now, s.tasks[i], e.drawn, f);
    } else if i < |s.tasks| {
      WaiterStaysRefused(cfg, s, e, i, f);
    }
  }

  lemma StepKeepsQuiet(cfg: Config, s: State, e: Event, f: Family)
    requires Enabled(cfg, s, e) && Reachable(cfg, s)
    requires Spent(s.db, Code(f.code)) && AllRevoked(s.db, f) && NobodyIssues(cfg, s, f)
    ensures var t := Next(cfg, s, e);
            Spent(t.db, Code(f.code)) && AllRevoked(t.db, f) && NobodyIssues(cfg, t, f)
  {
    CodeStaysSpent(cfg, s, e, f);
    QuietKeepsRevoked(cfg, s, e, f);
    forall i | 0 <= i < |Next(cfg, s, e).tasks|
      ensures !WillIssue(cfg, Next(cfg, s, e).db, Next(cfg, s, e).tasks[i], f)
    {
      QuietKeepsQuiet(cfg, s, e, i, f);
    }
  }

  lemma {:induction false} QuietStaysRevoked(cfg: Config, s: State, run: seq<Event>, f: Family)
    requires Possible(cfg, s, run) && Reachable(cfg, s)
    requires Spent(s.db, Code(f.code)) && AllRevoked(s.db, f) && NobodyIssues(cfg, s, f)
    ensures AllRevoked(After(cfg, s, run).db, f)
    decreases |run|
  {
    if run != [] {
      StepKeepsQuiet(cfg, s, run[0], f);
      StepKeepsReachable(cfg, s, run[0]);
      QuietStaysRevoked(cfg, Next(cfg, s, run[0]), run[1..], f);
    }
  }

  /** There is always a token nobody has drawn yet. */
  lemma {:induction false} SomethingUndrawn(hashes: set<Hash>) returns (d: string)
    ensures Sha256(d) !in hashes && forall h | h in hashes :: |h.of| < |d|
  {
    if hashes == {} {
      d := "";
    } else {
      var h :| h in hashes;
      var e := SomethingUndrawn(hashes - {h});
      d := e + h.of + "x";
    }
  }

  lemma InsertionEscapes(cfg: Config, s: State, i: nat, f: Family) returns (run: seq<Event>)
    requires i < |s.tasks| && Holds(s.tasks[i], f) && (s.tasks[i].InsertAccess? || s.tasks[i].InsertRefresh?)
    requires s.tasks[i].g.clientId in s.db.clients
    ensures Possible(cfg, s, run) && !AllRevoked(After(cfg, s, run).db, f)
  {
    var d := SomethingUndrawn(s.db.tokens.Keys + s.db.refreshes.Keys);
    run := [Advance(i, d)];
    var t := Next(cfg, s, run[0]);
    assert run[1..] == [];
    assert After(cfg, s, run) == t;
    if s.tasks[i].InsertAccess? {
      assert !t.db.tokens[Sha256(d)].revoked;
    } else {
      assert !t.db.refreshes[Sha256(d)].revoked;
    }
  }

  lemma IssuerEscapes(cfg: Config, s: State, i: nat, f: Family) returns (run: seq<Event>)
    requires i < |s.tasks| && WillIssue(cfg, s.db, s.tasks[i], f)
    ensures Possible(cfg, s, run) && !AllRevoked(After(cfg, s, run).db, f)
  {
    if s.tasks[i].InsertAccess? || s.tasks[i].InsertRefresh? {
      run := InsertionEscapes(cfg, s, i, f);
    } else {
      var e := Advance(i, "");
      var rest := InsertionEscapes(cfg, Next(cfg, s, e), i, f);
      run := [e] + rest;
      assert run[1..] == rest;
    }
  }

  /** Once a family's rows are revoked, they stay its only rows in every continuation exactly when no request in flight
      holds the family with its remaining checks passing. */
  lemma KillIsFinalExactlyWhenNobodyIssues(cfg: Config, s: State, f: Family)
    requires Reachable(cfg, s) && Spent(s.db, Code(f.code)) && AllRevoked(s.db, f)
    ensures (forall run :: Possible(cfg, s, run) ==> AllRevoked(After(cfg, s, run).db, f)) <==> NobodyIssues(cfg, s, f)
  {
    if NobodyIssues(cfg, s, f) {
      forall run | Possible(cfg, s, run) ensures AllRevoked(After(cfg, s, run).db, f) {
        QuietStaysRevoked(cfg, s, run, f);
      }
    } else {
      var i :| 0 <= i < |s.tasks| && WillIssue(cfg, s.db, s.tasks[i], f);
      var run := IssuerEscapes(cfg, s, i, f);
    }
  }

  /** The same of every state a run can reach. */
  lemma InEveryRunAKillIsFinalExactlyWhenNobodyIssues(cfg: Config, now: int, run: seq<Event>, f: Family)
    requires Possible(cfg, Init(now), run)
    requires var s := After(cfg, Init(now), run); Spent(s.db, Code(f.code)) && AllRevoked(s.db, f)
    ensures var s := After(cfg, Init(now), run);
            (forall rest :: Possible(cfg, s, rest) ==> AllRevoked(After(cfg, s, rest).db, f))
            <==> NobodyIssues(cfg, s, f)
  {
    InitIsReachable(cfg, now);
    RunIsReachable(cfg, Init(now), run);
    KillIsFinalExactlyWhenNobodyIssues(cfg, After(cfg, Init(now), run), f);
  }

  // ---- a replay that is outrun ----

  lemma OneMore(cfg: Config, s: State, run: seq<Event>, e: Event)
    requires Possible(cfg, s, run) && Enabled(cfg, After(cfg, s, run), e)
    ensures Possible(cfg, s, run + [e]) && After(cfg, s, run + [e]) == Next(cfg, After(cfg, s, run), e)
  {
    OneEvent(cfg, After(cfg, s, run), e);
    RunsCompose(cfg, s, run, [e]);
  }

  function FormOf(x: ExchangeReq): Form {
    Form(Some(x.code), Some(x.redirectUri), Some(x.verifier), None, x.resource, None)
  }

  /** An exchange that would go through. */
  predicate Honest(cfg: Config, s: State, x: ExchangeReq) {
    && x.code != "" && x.redirectUri != "" && x.resource == Field(x.resource)
    && CodeSpendable(s.db, Sha256(x.code), s.now) && Passes(cfg, s.db, x, s.db.codes[Sha256(x.code)])
  }

  /** The same exchange sent twice: the first has spent the code and stands before its checks, the second has seen the
      replay and is about to revoke the family. */
  lemma BothArrive(cfg: Config, s: State, x: ExchangeReq) returns (run: seq<Event>)
    requires Honest(cfg, s, x)
    ensures Possible(cfg, s, run)
    ensures var t, n, h := After(cfg, s, run), |s.tasks|, Sha256(x.code);
            && |t.tasks| == n + 2 && t.db == CodeSpent(s.db, h, s.now) && t.now == s.now
            && t.tasks[n] == CheckExchange(x, s.db.codes[h])
            && t.tasks[n + 1] == KillFamily(FamilyOf(h), Refused(InvalidGrant))
  {
    var n, e := |s.tasks|, Exchange(FormOf(x), x.creds);
    assert BeginExchange(FormOf(x), x.creds) == SpendCode(x);
    run := [];
    OneMore(cfg, s, run, e);
    run := run + [e];
    OneMore(cfg, s, run, e);
    run := run + [e];
    OneMore(cfg, s, run, Advance(n, ""));
    run := run + [Advance(n, "")];
    OneMore(cfg, s, run, Advance(n + 1, ""));
    run := run + [Advance(n + 1, "")];
  }

  /** The replay revokes the family, answers, and the first exchange then mints into it: the kill is not final. */
  lemma ReplayIsOutrun(cfg: Config, s: State, x: ExchangeReq) returns (run: seq<Event>, escape: seq<Event>)
    requires Honest(cfg, s, x)
    ensures Possible(cfg, s, run) && Possible(cfg, After(cfg, s, run), escape)
    ensures var t, f := After(cfg, s, run), FamilyOf(Sha256(x.code));
            && |t.tasks| == |s.tasks| + 2 && t.tasks[|s.tasks| + 1] == Done(Refused(InvalidGrant))
            && Spent(t.db, Code(f.code)) && AllRevoked(t.db, f)
            && !AllRevoked(After(cfg, t, escape).db, f)
  {
    var n, f := |s.tasks|, FamilyOf(Sha256(x.code));
    var first := BothArrive(cfg, s, x);
    var kill := Advance(n + 1, "");
    var u := After(cfg, s, first);
    KillRevokesAll(u.db, f);
    OneMore(cfg, s, first, kill);
    run := first + [kill];
    var t := After(cfg, s, run);
    assert t.db == FamilyRevoked(u.db, f) && t.tasks == u.tasks[n + 1 := Done(Refused(InvalidGrant))];
    assert WillIssue(cfg, t.db, t.tasks[n], f);
    escape := IssuerEscapes(cfg, t, n, f);
  }

  function SampleVerifier(): string {
    seq(43, _ => 'v')
  }

  function SampleRow(cfg: Config, now: int): CodeRow {
    CodeRow("client", "https://app.example/cb", cfg.s256(SampleVerifier()), DEFAULT_SCOPE, None,
            now + cfg.codeTtl, false)
  }

  /** Such a moment is reached from an empty store. */
  lemma SampleIsHonest(cfg: Config, now: int) returns (run: seq<Event>, x: ExchangeReq)
    requires cfg.codeTtl > 0
    ensures Possible(cfg, Init(now), run) && Honest(cfg, After(cfg, Init(now), run), x)
  {
    x := ExchangeReq("code", "https://app.example/cb", SampleVerifier(), Credentials(None, None), None);
    var record := ClientRecord("app", None, ["https://app.example/cb"], {AuthorizationCode}, false,
                               NO_GRANT, None, false);
    var s0 := Init(now);
    run := [];
    OneMore(cfg, s0, run, Register("client", record));
    run := run + [Register("client", record)];
    OneMore(cfg, s0, run, Approve("client", NO_GRANT));
    run := run + [Approve("client", NO_GRANT)];
    OneMore(cfg, s0, run, Permit("code", SampleRow(cfg, now)));
    run := run + [Permit("code", SampleRow(cfg, now))];
  }
}
