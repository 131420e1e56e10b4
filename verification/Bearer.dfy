/** Which access tokens this server accepts, and what their audience is in every run
    (src/adapters/auth/opaque.rs, src/authserver/routes.rs `resource_for_issue`). */
module Bearer {
  import opened Text
  import opened OauthStore
  import opened TokenEndpoint
  import opened TokenRuns
  import opened Provenance
  import opened FamilyDeath
  import Authorize
  import Lifetimes
  import E = EndpointOutcomes

  datatype Admission =
    | Admitted(clientId: string, grant: ClientGrant)
    | UnknownToken | ExpiredToken | RevokedToken
    | OtherResource | NoResource
    | UnknownClient | RevokedClient | UnapprovedClient | EmptyGrant

  predicate Live(row: TokenRow, now: int) {
    row.expiresAt > now && !row.revoked
  }

  /** The checks in the order the authenticator makes them. */
  function Authenticate(cfg: Config, db: Db, now: int, token: string): Admission {
    var h := Sha256(token);
    if h !in db.tokens then UnknownToken
    else
      var row := db.tokens[h];
      if row.expiresAt <= now then ExpiredToken
      else if row.revoked then RevokedToken
      else if cfg.audience != Off && row.resource.Some? && !ResourceMatches(cfg, row.resource.value, cfg.served) then
        OtherResource
      else if cfg.audience == Strict && row.resource.None? then NoResource
      else
        match ClientOf(db, row.clientId)
        case None => UnknownClient
        case Some(client) =>
          if client.revoked then RevokedClient
          else if !client.consented then UnapprovedClient
          else if client.grant.read == [] && client.grant.write == [] && !client.grant.mayIngest then EmptyGrant
          else Admitted(row.clientId, client.grant)
  }

  // ---- exactly who is admitted, told by the tables ----

  /** Off compares nothing; a resource has to be this deployment's; none at all is refused by the strict setting. */
  predicate AudienceAccepts(cfg: Config, resource: Option<string>) {
    || cfg.audience == Off
    || (resource.None? && cfg.audience == Lenient)
    || (resource.Some? && cfg.canon(resource.value).Some? && cfg.canon(resource.value) == cfg.canon(cfg.served))
  }

  predicate GrantsSomething(g: ClientGrant) {
    |g.read| > 0 || |g.write| > 0 || g.mayIngest
  }

  /** The row is there, unexpired and unrevoked, its resource passes, and its client is known, live, approved and holds
      a grant: then and only then is the token admitted, as that client and with that grant. */
  lemma AdmittedExactly(cfg: Config, db: Db, now: int, token: string)
    ensures var a, h := Authenticate(cfg, db, now, token), Sha256(token);
            && (a.Admitted? <==>
                  && h in db.tokens && now < db.tokens[h].expiresAt && !db.tokens[h].revoked
                  && AudienceAccepts(cfg, db.tokens[h].resource)
                  && var id := db.tokens[h].clientId;
                  && id in db.clients && !db.clients[id].revoked && db.clients[id].consented
                  && GrantsSomething(db.clients[id].grant))
            && (a.Admitted? ==>
                  a == Admitted(db.tokens[h].clientId, db.clients[db.tokens[h].clientId].grant))
  {
  }

  /** And which refusal it is: an expired row is expired before it is revoked, and the row is judged before its
      client. */
  lemma RefusedFor(cfg: Config, db: Db, now: int, token: string)
    ensures var a, h := Authenticate(cfg, db, now, token), Sha256(token);
            && (a == UnknownToken <==> h !in db.tokens)
            && (h in db.tokens ==>
                  var row := db.tokens[h];
                  var live := now < row.expiresAt && !row.revoked;
                  var heard := live && AudienceAccepts(cfg, row.resource);
                  var known := row.clientId in db.clients;
                  && (a == ExpiredToken <==> row.expiresAt <= now)
                  && (a == RevokedToken <==> now < row.expiresAt && row.revoked)
                  && (a == OtherResource <==> live && row.resource.Some? && !AudienceAccepts(cfg, row.resource))
                  && (a == NoResource <==> live && row.resource.None? && !AudienceAccepts(cfg, row.resource))
                  && (a == UnknownClient <==> heard && !known)
                  && (a == RevokedClient <==> heard && known && db.clients[row.clientId].revoked)
                  && (a == UnapprovedClient <==>
                        heard && known && !db.clients[row.clientId].revoked && !db.clients[row.clientId].consented))
  {
  }

  // ---- what issuance stamps ----

  /** The resource names this deployment; where the setting compares nothing, it is at least a resource. */
  predicate Stamped(cfg: Config, resource: string) {
    && (resource == cfg.served || cfg.canon(resource).Some?)
    && (cfg.audience != Off ==> ResourceMatches(cfg, resource, cfg.served))
  }

  lemma IssueStamps(cfg: Config, asked: Option<string>)
    requires Bootable(cfg)
    ensures var r := ResourceForIssue(cfg, asked);
            r.Ok? ==> Stamped(cfg, r.value) && (asked.Some? ==> r.value == asked.value)
  {
  }

  predicate TaskStamped(cfg: Config, task: Task) {
    task.InsertAccess? || task.InsertRefresh? ==> Stamped(cfg, task.g.resource)
  }

  predicate TasksStamped(cfg: Config, s: State) {
    forall i | 0 <= i < |s.tasks| :: TaskStamped(cfg, s.tasks[i])
  }

  /** A row of the earlier store, its revoked mark aside. */
  predicate Kept(earlier: Db, h: Hash, row: TokenRow) {
    h in earlier.tokens && row.(revoked := true) == earlier.tokens[h].(revoked := true)
  }

  /** Every access row is one the earlier store held, or names this deployment. */
  predicate RowsStamped(cfg: Config, earlier: Db, s: State) {
    forall h | h in s.db.tokens ::
      || Kept(earlier, h, s.db.tokens[h])
      || (s.db.tokens[h].resource.Some? && Stamped(cfg, s.db.tokens[h].resource.value))
  }

  lemma NextTaskIsStamped(cfg: Config, db: Db, now: int, task: Task, drawn: string)
    requires Bootable(cfg) && TaskStamped(cfg, task)
    ensures TaskStamped(cfg, TaskAfter(cfg, db, now, task, drawn))
  {
    match task
    case CheckExchange(x, row) =>
      var r := ResourceForExchange(cfg, row.resource, x.resource);
      if r.Ok? {
        IssueStamps(cfg, r.value);
      }
    case Recheck(r, _, _) => IssueStamps(cfg, r.resource);
    case _ =>
  }

  lemma CallKeepsTokens(cfg: Config, db: Db, now: int, task: Task, drawn: string, h: Hash)
    requires h in DbAfter(cfg, db, now, task, drawn).tokens
    ensures var row := DbAfter(cfg, db, now, task, drawn).tokens[h];
            Kept(db, h, row) || (task.InsertAccess? && row == AccessRow(cfg, task.g, now))
  {
  }

  lemma StepKeepsTokens(cfg: Config, s: State, e: Event, h: Hash)
    requires Enabled(cfg, s, e) && h in Next(cfg, s, e).db.tokens
    ensures var row := Next(cfg, s, e).db.tokens[h];
            || Kept(s.db, h, row)
            || (e.Advance? && s.tasks[e.i].InsertAccess? && row == AccessRow(cfg, s.tasks[e.i].g, s.now))
  {
    if e.Advance? {
      CallKeepsTokens(cfg, s.db, s.now, s.tasks[e.i], e.drawn, h);
    }
  }

  lemma StepKeepsStamped(cfg: Config, earlier: Db, s: State, e: Event)
    requires Bootable(cfg) && Enabled(cfg, s, e) && TasksStamped(cfg, s) && RowsStamped(cfg, earlier, s)
    ensures TasksStamped(cfg, Next(cfg, s, e)) && RowsStamped(cfg, earlier, Next(cfg, s, e))
  {
    var t := Next(cfg, s, e);
    if e.Advance? {
      NextTaskIsStamped(cfg, s.db, s.now, s.tasks[e.i], e.drawn);
    }
    forall h | h in t.db.tokens
      ensures || Kept(earlier, h, t.db.tokens[h])
              || (t.db.tokens[h].resource.Some? && Stamped(cfg, t.db.tokens[h].resource.value))
    {
      StepKeepsTokens(cfg, s, e, h);
    }
  }

  lemma {:induction false} RunKeepsStamped(cfg: Config, earlier: Db, s: State, run: seq<Event>)
    requires Bootable(cfg) && Possible(cfg, s, run)
    requires TasksStamped(cfg, s) && RowsStamped(cfg, earlier, s)
    ensures RowsStamped(cfg, earlier, After(cfg, s, run))
    decreases |run|
  {
    if run != [] {
      StepKeepsStamped(cfg, earlier, s, run[0]);
      RunKeepsStamped(cfg, earlier, Next(cfg, s, run[0]), run[1..]);
    }
  }

  /** From any store with no request in flight, every access token minted since names a resource, and unless the setting
      is off it is this deployment's in canonical form; so a token that names none was there before. */
  lemma MintedTokensAreStamped(cfg: Config, s: State, run: seq<Event>, h: Hash)
    requires Bootable(cfg) && s.tasks == [] && Possible(cfg, s, run)
    requires h in After(cfg, s, run).db.tokens
    ensures var row := After(cfg, s, run).db.tokens[h];
            || (h in s.db.tokens && row.(revoked := true) == s.db.tokens[h].(revoked := true))
            || (&& row.resource.Some?
                && (row.resource.value == cfg.served || cfg.canon(row.resource.value).Some?)
                && (cfg.audience != Off ==>
                      && cfg.canon(row.resource.value).Some?
                      && cfg.canon(row.resource.value) == cfg.canon(cfg.served)))
  {
    RunKeepsStamped(cfg, s.db, s, run);
  }

  // ---- the drain ----

  /** Tokens with no resource all expire within one access lifetime of `at`. */
  predicate BareTokensAreOld(cfg: Config, db: Db, at: int) {
    forall h | h in db.tokens && db.tokens[h].resource.None? :: db.tokens[h].expiresAt <= at + cfg.accessTtl
  }

  /** One access lifetime after the stamp came in, no live token is without a resource. */
  lemma BareTokensDrain(cfg: Config, s: State, run: seq<Event>, h: Hash)
    requires Bootable(cfg) && s.tasks == [] && BareTokensAreOld(cfg, s.db, s.now) && Possible(cfg, s, run)
    requires var t := After(cfg, s, run);
             t.now >= s.now + cfg.accessTtl && h in t.db.tokens && Live(t.db.tokens[h], t.now)
    ensures After(cfg, s, run).db.tokens[h].resource.Some?
  {
    MintedTokensAreStamped(cfg, s, run, h);
  }

  /** From then on `strict` refuses nobody `lenient` admits. */
  lemma StrictThenRefusesNobody(cfg: Config, s: State, run: seq<Event>, token: string)
    requires Bootable(cfg) && s.tasks == [] && BareTokensAreOld(cfg, s.db, s.now) && Possible(cfg, s, run)
    requires After(cfg, s, run).now >= s.now + cfg.accessTtl
    ensures var t := After(cfg, s, run);
            Authenticate(cfg.(audience := Strict), t.db, t.now, token) ==
            Authenticate(cfg.(audience := Lenient), t.db, t.now, token)
  {
    var t := After(cfg, s, run);
    var h := Sha256(token);
    if h in t.db.tokens && Live(t.db.tokens[h], t.now) {
      BareTokensDrain(cfg, s, run, h);
    }
  }

  // ---- the exchange keeps the code's own resource ----

  predicate BoundAsked(s: State, g: Grant) {
    g.spent.Code? ==>
      && g.spent.h in s.db.codes
      && (s.db.codes[g.spent.h].resource.Some? ==> g.resource == s.db.codes[g.spent.h].resource.value)
      && g.scope == s.db.codes[g.spent.h].scope
  }

  predicate TaskBound(s: State, task: Task) {
    match task
    case CheckExchange(x, row) =>
      && Sha256(x.code) in s.db.codes
      && s.db.codes[Sha256(x.code)].resource == row.resource && s.db.codes[Sha256(x.code)].scope == row.scope
    case InsertAccess(g) => BoundAsked(s, g)
    case InsertRefresh(g, _) => BoundAsked(s, g)
    case _ => true
  }

  /** Each minted access token is stored under its grant's resource and scope. */
  predicate MintStored(s: State, m: Mint) {
    m.AccessMint? ==>
      && m.hash in s.db.tokens
      && s.db.tokens[m.hash].resource == Some(m.g.resource) && s.db.tokens[m.hash].scope == m.g.scope
  }

  predicate MintsBound(s: State) {
    && (forall i | 0 <= i < |s.tasks| :: TaskBound(s, s.tasks[i]))
    && (forall a | 0 <= a < |s.log| :: BoundAsked(s, s.log[a].g) && MintStored(s, s.log[a]))
  }

  predicate CodesKept(s: State, t: State) {
    && (forall h | h in s.db.codes :: h in t.db.codes && t.db.codes[h].resource == s.db.codes[h].resource
                                     && t.db.codes[h].scope == s.db.codes[h].scope)
    && (forall h | h in s.db.tokens :: h in t.db.tokens && t.db.tokens[h].resource == s.db.tokens[h].resource
                                      && t.db.tokens[h].scope == s.db.tokens[h].scope)
  }

  lemma StepKeepsCodes(cfg: Config, s: State, e: Event)
    requires Enabled(cfg, s, e)
    ensures CodesKept(s, Next(cfg, s, e))
  {
    if e.Advance? {
      CallKeepsCodes(cfg, s, e.i, e.drawn);
    }
  }

  lemma CallKeepsResources(cfg: Config, db: Db, now: int, task: Task, drawn: string, h: Hash)
    requires h in db.tokens
    ensures var after := DbAfter(cfg, db, now, task, drawn).tokens;
            h in after && after[h].resource == db.tokens[h].resource && after[h].scope == db.tokens[h].scope
  {
  }

  lemma CallKeepsCodes(cfg: Config, s: State, i: nat, drawn: string)
    requires Enabled(cfg, s, Advance(i, drawn))
    ensures CodesKept(s, Advanced(cfg, s, i, drawn))
  {
    CallTouches(cfg, s.db, s.now, s.tasks[i], drawn);
    forall h | h in s.db.tokens
      ensures var after := Advanced(cfg, s, i, drawn).db.tokens;
              h in after && after[h].resource == s.db.tokens[h].resource && after[h].scope == s.db.tokens[h].scope
    {
      CallKeepsResources(cfg, s.db, s.now, s.tasks[i], drawn, h);
    }
  }

  lemma NextTaskIsBound(cfg: Config, s: State, task: Task, drawn: string)
    requires TaskBound(s, task) && !task.SpendCode?
    ensures TaskBound(s, TaskAfter(cfg, s.db, s.now, task, drawn))
  {
  }

  lemma SpenderIsBound(cfg: Config, s: State, i: nat, drawn: string)
    requires Enabled(cfg, s, Advance(i, drawn)) && s.tasks[i].SpendCode?
    ensures TaskBound(Advanced(cfg, s, i, drawn), TaskAfter(cfg, s.db, s.now, s.tasks[i], drawn))
  {
  }

  lemma TaskStaysBound(s: State, t: State, task: Task)
    requires CodesKept(s, t) && TaskBound(s, task)
    ensures TaskBound(t, task)
  {
  }

  lemma StepKeepsTasksBound(cfg: Config, s: State, e: Event)
    requires Enabled(cfg, s, e) && MintsBound(s)
    ensures var t := Next(cfg, s, e); forall i | 0 <= i < |t.tasks| :: TaskBound(t, t.tasks[i])
  {
    var t := Next(cfg, s, e);
    StepKeepsCodes(cfg, s, e);
    forall i | 0 <= i < |t.tasks| ensures TaskBound(t, t.tasks[i]) {
      if e.Advance? && i == e.i {
        if s.tasks[i].SpendCode? {
          SpenderIsBound(cfg, s, i, e.drawn);
        } else {
          NextTaskIsBound(cfg, s, s.tasks[i], e.drawn);
          TaskStaysBound(s, t, t.tasks[i]);
        }
      } else if i < |s.tasks| {
        TaskStaysBound(s, t, s.tasks[i]);
      }
    }
  }

  lemma StepKeepsMintsBound(cfg: Config, s: State, e: Event)
    requires Enabled(cfg, s, e) && MintsBound(s)
    ensures MintsBound(Next(cfg, s, e))
  {
    var t := Next(cfg, s, e);
    StepKeepsCodes(cfg, s, e);
    StepKeepsTasksBound(cfg, s, e);
    forall a | 0 <= a < |t.log| ensures BoundAsked(t, t.log[a].g) && MintStored(t, t.log[a]) {
      if a < |s.log| {
        assert t.log[a] == s.log[a];
      } else {
        assert TaskBound(s, s.tasks[e.i]);
      }
    }
  }

  lemma {:induction false} RunKeepsMintsBound(cfg: Config, s: State, run: seq<Event>)
    requires MintsBound(s) && Possible(cfg, s, run)
    ensures MintsBound(After(cfg, s, run))
    decreases |run|
  {
    if run != [] {
      StepKeepsMintsBound(cfg, s, run[0]);
      RunKeepsMintsBound(cfg, Next(cfg, s, run[0]), run[1..]);
    }
  }

  /** Whatever the setting, an access token minted by spending a code carries the code's scope, and its resource when it
      was bound to one. */
  lemma ExchangeKeepsTheCodesResource(cfg: Config, now: int, run: seq<Event>, a: nat)
    requires Possible(cfg, Init(now), run)
    requires var s := After(cfg, Init(now), run);
             a < |s.log| && s.log[a].AccessMint? && s.log[a].g.spent.Code?
    ensures var s := After(cfg, Init(now), run);
            var m := s.log[a];
            && m.g.spent.h in s.db.codes && m.hash in s.db.tokens
            && s.db.tokens[m.hash].scope == s.db.codes[m.g.spent.h].scope
            && (s.db.codes[m.g.spent.h].resource.Some? ==>
                  s.db.tokens[m.hash].resource == s.db.codes[m.g.spent.h].resource)
  {
    RunKeepsMintsBound(cfg, Init(now), run);
  }

  // ---- what admission means ----

  /** An admitted token descends from one properly opened code of a client that is approved and not revoked. */
  lemma AdmittedTokensAreAuthorised(cfg: Config, now: int, run: seq<Event>, token: string)
    requires Possible(cfg, Init(now), run)
    requires var s := After(cfg, Init(now), run); Authenticate(cfg, s.db, s.now, token).Admitted?
    ensures var s := After(cfg, Init(now), run);
            var row, id := s.db.tokens[Sha256(token)], Authenticate(cfg, s.db, s.now, token).clientId;
            && Authorised(cfg, s, row.family, id)
            && s.db.clients[id].consented && !s.db.clients[id].revoked && Live(row, s.now)
            && Authenticate(cfg, s.db, s.now, token).grant == s.db.clients[id].grant != NO_GRANT
            && (Bootable(cfg) ==> row.resource.Some? && Stamped(cfg, row.resource.value))
  {
    EveryTokenIsAuthorised(cfg, now, run, Sha256(token));
    if Bootable(cfg) {
      MintedTokensAreStamped(cfg, Init(now), run, Sha256(token));
    }
  }

  /** A token of a client the owner let through at the consent screen works until its expiry, unless it or its client
      is revoked. */
  lemma IssuedTokensWork(cfg: Config, start: int, run: seq<Event>, token: string, profile: Option<string>)
    requires Bootable(cfg) && Possible(cfg, Init(start), run) && Authorize.ChosenGrant(profile).Some?
    requires var s := After(cfg, Init(start), run);
             && Sha256(token) in s.db.tokens
             && var row := s.db.tokens[Sha256(token)];
             && s.now < row.expiresAt && !row.revoked
             && row.clientId in s.db.clients && !s.db.clients[row.clientId].revoked
             && s.db.clients[row.clientId].grant == Authorize.ChosenGrant(profile).value
    ensures var s := After(cfg, Init(start), run);
            Authenticate(cfg, s.db, s.now, token) ==
            Admitted(s.db.tokens[Sha256(token)].clientId, Authorize.ChosenGrant(profile).value)
  {
    var s := After(cfg, Init(start), run);
    EveryTokenIsAuthorised(cfg, start, run, Sha256(token));
    MintedTokensAreStamped(cfg, Init(start), run, Sha256(token));
    Authorize.OnlyFullReachesFar(profile);
    AdmittedExactly(cfg, s.db, s.now, token);
  }

  /** A token stored along a run is dead one access lifetime after the instant it was stored at. */
  lemma NoTokenOutlivesItsMint(cfg: Config, s: State, run: seq<Event>, token: string) returns (k: nat)
    requires Possible(cfg, s, run) && Sha256(token) in After(cfg, s, run).db.tokens && Sha256(token) !in s.db.tokens
    ensures Lifetimes.AccessMintedAt(cfg, s, run, k, Sha256(token))
    ensures var t := After(cfg, s, run);
            After(cfg, s, run[..k]).now + cfg.accessTtl <= t.now ==>
            Authenticate(cfg, t.db, t.now, token) == ExpiredToken
  {
    k := Lifetimes.AccessTokensExpire(cfg, s, run, Sha256(token));
    RefusedFor(cfg, After(cfg, s, run).db, After(cfg, s, run).now, token);
  }

  /** The token a code was exchanged for opens the door at once, for its client and with that client's grant, and stops
      doing so one access lifetime later to the instant. */
  lemma ExchangedTokenWorks(cfg: Config, db: Db, now: int, form: Form, creds: Credentials, draws: Draws, later: int,
                            id: string)
    requires Bootable(cfg) && E.ExchangeGiven(form) && E.CodeGood(db, now, Sha256(form.code.value))
    requires E.Exchanged(cfg, db, now, form, creds, draws).reply == Issued
    requires id == db.codes[Sha256(form.code.value)].clientId && id in db.clients
    requires GrantsSomething(db.clients[id].grant)
    ensures Authenticate(cfg, E.Exchanged(cfg, db, now, form, creds, draws).db, later, draws.access) ==
            if later < now + cfg.accessTtl then Admitted(id, db.clients[id].grant) else ExpiredToken
  {
    E.ExchangeOfAGoodCode(cfg, db, now, form, creds, draws);
    var after, row := E.Exchanged(cfg, db, now, form, creds, draws).db, db.codes[Sha256(form.code.value)];
    assert after.tokens[Sha256(draws.access)].resource == Some(E.ExchangeStamp(cfg, row.resource, form.resource));
    AdmittedExactly(cfg, after, later, draws.access);
    RefusedFor(cfg, after, later, draws.access);
  }

  lemma RevocationIsForGood(cfg: Config, s: State, e: Event, id: string)
    requires Enabled(cfg, s, e) && id in s.db.clients && s.db.clients[id].revoked
    ensures id in Next(cfg, s, e).db.clients && Next(cfg, s, e).db.clients[id].revoked
  {
  }

  /** From the owner's revocation on, no token of the client is admitted, whatever requests were in flight. */
  lemma {:induction false} RevokedClientsAreShutOut(cfg: Config, s: State, run: seq<Event>, id: string, token: string)
    requires Possible(cfg, s, run) && id in s.db.clients && s.db.clients[id].revoked
    ensures var t := After(cfg, s, run); var a := Authenticate(cfg, t.db, t.now, token);
            a.Admitted? ==> a.clientId != id
    decreases |run|
  {
    if run != [] {
      RevocationIsForGood(cfg, s, run[0], id);
      RevokedClientsAreShutOut(cfg, Next(cfg, s, run[0]), run[1..], id, token);
    }
  }

  /** The owner's revocation itself: from the event on, no token of the client is admitted. */
  lemma OwnersRevocationShutsOut(cfg: Config, s: State, id: string, run: seq<Event>, token: string)
    requires id in s.db.clients && Possible(cfg, Next(cfg, s, Withdraw(id)), run)
    ensures var t := After(cfg, Next(cfg, s, Withdraw(id)), run);
            var a := Authenticate(cfg, t.db, t.now, token);
            a.Admitted? ==> a.clientId != id
  {
    RevokedClientsAreShutOut(cfg, Next(cfg, s, Withdraw(id)), run, id, token);
  }
}
