/** From the owner's password to a token that opens the door: where nothing is wrong, nothing is refused
    (src/authserver/routes.rs `login`, `authorize`, `consent`, `exchange_code`; src/adapters/auth/opaque.rs). */
module WholeFlow {
  import opened Text
  import opened Utf8
  import Decimal
  import opened Session
  import opened OauthStore
  import opened TokenEndpoint
  import opened Authorize
  import opened ConsentFlow
  import OwnerHandlers
  import E = EndpointOutcomes
  import Bearer

  // ---- a page was shown, and can be answered ----

  /** The owner is signed in, and the page for this request is out under that session. */
  predicate Answerable(f: Settings, t: State, headers: seq<Option<string>>, request: Request) {
    && Verified(f, t, headers).Some? && Resolved(f, t, request).Ok? && CookiesMinted(f, t, headers)
    && var p := PageFor(Resolved(f, t, request).value, Verified(f, t, headers).value);
    && p in t.pages && PageFits(p) && CsrfInput(p) in t.minted
  }

  /** The post that page makes when Allow is pressed and no name is typed. */
  function AllowPost(f: Settings, t: State, headers: seq<Option<string>>, request: Request,
                     profile: Option<string>): Event
    requires Verified(f, t, headers).Some?
  {
    Consent(headers, request,
            f.sessions.Csrf(Verified(f, t, headers).value, request.clientId, request.redirectUri, request.challenge,
                            if request.state.Some? then request.state.value else ""),
            true, profile, None)
  }

  /** A visit to the authorization endpoint by a signed-in owner shows such a page. */
  lemma VisitShowsThePage(f: Settings, s: State, headers: seq<Option<string>>, request: Request)
    requires Enabled(f, s, Visit(headers, request))
    requires Verified(f, s, headers).Some? && Resolved(f, s, request).Ok?
    ensures Answerable(f, Next(f, s, Visit(headers, request)), headers, request)
    ensures Next(f, s, Visit(headers, request)).grants == s.grants
  {
  }

  /** The header a browser sends with the cookie it was just given. */
  function CookieHeader(cookie: string): seq<Option<string>> {
    [Some(COOKIE_NAME + "=" + cookie)]
  }

  lemma OnePairIsRead(pair: string, value: string)
    requires Free(pair, {';'}) && SplitOnce(Trim(pair), '=') == Some((COOKIE_NAME, value))
    ensures Candidates([Some(pair)]) == [value]
  {
    SplitFree(pair, {';'});
    var pairs, headers := [pair], [Some(pair)];
    assert pairs[1..] == [] && headers[1..] == [];
    assert Named(pairs) == [value] + Named(pairs[1..]) == [value];
  }

  lemma CookieHeaderIsRead(s: Sessions, t: int)
    requires s.Hexes()
    ensures Candidates(CookieHeader(s.Issue(t))) == [s.Issue(t)] && Trim(s.Issue(t)) == s.Issue(t)
  {
    var value := s.Issue(t);
    OwnPairIsRead(s, [], t);
    NothingInFront(COOKIE_NAME + "=" + value);
    OnePairIsRead(COOKIE_NAME + "=" + value, value);
  }

  lemma NothingInFront(s: string)
    ensures [] + s == s
  {
  }

  lemma NewSessionOpens(f: Settings, s: State)
    requires f.sessions.Hexes() && f.sessions.ttl > 0 && Decimal.IsI64(s.grants.now + f.sessions.ttl)
    ensures SessionNow(f, s).Some?
  {
    OpensUntilExpiry(f.sessions, s.grants.now, s.grants.now);
  }

  /** The new cookie verifies, and its input has been through the MAC. */
  lemma NewCookieVerifies(f: Settings, s: State, t: State)
    requires f.sessions.Hexes() && f.sessions.ttl > 0 && Decimal.IsI64(s.grants.now + f.sessions.ttl)
    requires t.grants == s.grants && SessionInput(s.grants.now + f.sessions.ttl) in t.minted
    ensures var headers := CookieHeader(f.sessions.Issue(s.grants.now));
            CookiesMinted(f, t, headers) && Verified(f, t, headers) == SessionNow(f, s) && SessionNow(f, s).Some?
  {
    var now, values := s.grants.now, [f.sessions.Issue(s.grants.now)];
    CookieHeaderIsRead(f.sessions, now);
    IssueSplits(f.sessions, now);
    NumeralFits(now + f.sessions.ttl);
    OpensUntilExpiry(f.sessions, now, now);
    assert values[1..] == [];
    assert f.sessions.FirstOpen(values, now) == f.sessions.Open(values[0], now);
  }

  /** So does a sign-in with the right password, to a browser that sends its new cookie. */
  lemma SignInShowsThePage(f: Settings, s: State, request: Request)
    requires f.sessions.Hexes() && f.sessions.ttl > 0
    requires Enabled(f, s, Login(request, true)) && Resolved(f, s, request).Ok?
    ensures var t := Next(f, s, Login(request, true));
            && Answerable(f, t, CookieHeader(f.sessions.Issue(s.grants.now)), request)
            && t.grants == s.grants
  {
    NewSessionOpens(f, s);
    var i, session := Resolved(f, s, request).value, SessionNow(f, s).value;
    var signedIn, p := WithSession(f, s), PageFor(i, session);
    assert AfterLogin(f, s, request) == WithPage(signedIn, p);
    NewCookieVerifies(f, s, WithPage(signedIn, p));
  }

  /** The Allow on such a page goes through. */
  lemma AllowGoesThrough(f: Settings, t: State, headers: seq<Option<string>>, request: Request, profile: Option<string>)
    requires Answerable(f, t, headers, request) && ChosenGrant(profile).Some?
    ensures var e := AllowPost(f, t, headers, request, profile);
            Enabled(f, t, e) && Allows(f, t, e) && Typed(f, t, e) == Leave
  {
    ResolvedIsSound(f.cfg, f.parses, t.grants.db, request);
  }

  /** The handler's writes for this request, with no name to store. */
  predicate Wrote(f: Settings, db: Db, after: Db, request: Request, profile: Option<string>, code: string, now: int) {
    var i, grant := Resolve(f.cfg, f.parses, db, request), ChosenGrant(profile);
    && i.Ok? && grant.Some?
    && after == OwnerHandlers.WrittenDb(db, i.value, grant.value, Leave, code, now + f.cfg.codeTtl)
  }

  lemma AllowRunsFrom(f: Settings, t: State, e: Event, code: string) returns (run: seq<Event>, after: Db)
    requires e.Consent? && Enabled(f, t, e) && Allows(f, t, e) && Typed(f, t, e) == Leave
    ensures |run| == 3 && run[0] == e && Possible(f, t, run) && After(f, t, run).grants.db == after
    ensures Wrote(f, t.grants.db, after, e.request, e.profile, code, t.grants.now)
  {
    run := OwnerHandlers.AllowIsARun(f, t, e, code);
    after := After(f, t, run).grants.db;
    assert |run| == 3 && run[0] == e;
  }

  /** Its writes follow. */
  lemma AllowRuns(f: Settings, t: State, headers: seq<Option<string>>, request: Request, profile: Option<string>,
                  code: string) returns (run: seq<Event>, after: Db)
    requires Answerable(f, t, headers, request) && ChosenGrant(profile).Some?
    ensures |run| == 3 && run[0] == AllowPost(f, t, headers, request, profile)
    ensures Possible(f, t, run) && After(f, t, run).grants.db == after
    ensures Wrote(f, t.grants.db, after, request, profile, code, t.grants.now)
  {
    AllowGoesThrough(f, t, headers, request, profile);
    run, after := AllowRunsFrom(f, t, AllowPost(f, t, headers, request, profile), code);
  }

  /** The client is approved with the grant chosen, the code is in the table, and everything else is as it was. */
  ghost predicate AllowLeft(f: Settings, db: Db, after: Db, request: Request, profile: Option<string>, code: string,
                            now: int)
  {
    && ChosenGrant(profile).Some? && request.clientId in db.clients
    && OwnerHandlers.AllowWritten(f, db, after, request, ChosenGrant(profile).value, None, code, now)
  }

  lemma TheWritesAre(f: Settings, db: Db, after: Db, request: Request, profile: Option<string>, code: string, now: int)
    requires Wrote(f, db, after, request, profile, code, now) && Sha256(code) !in db.codes
    ensures AllowLeft(f, db, after, request, profile, code, now)
  {
    var i := Resolve(f.cfg, f.parses, db, request).value;
    ResolvedIsSound(f.cfg, f.parses, db, request);
    OwnerHandlers.WrittenIsAllowWritten(f, db, request, i, ChosenGrant(profile).value, Leave, None, code, now);
  }

  /** Which leave just that. */
  lemma AllowLeavesACode(f: Settings, t: State, headers: seq<Option<string>>, request: Request,
                         profile: Option<string>, code: string) returns (run: seq<Event>, after: Db)
    requires Answerable(f, t, headers, request) && ChosenGrant(profile).Some? && Sha256(code) !in t.grants.db.codes
    ensures |run| == 3 && run[0] == AllowPost(f, t, headers, request, profile)
    ensures Possible(f, t, run) && After(f, t, run).grants.db == after
    ensures AllowLeft(f, t.grants.db, after, request, profile, code, t.grants.now)
  {
    run, after := AllowRuns(f, t, headers, request, profile, code);
    TheWritesAre(f, t.grants.db, after, request, profile, code, t.grants.now);
  }

  lemma FormIsOut(f: Settings, s: State, headers: seq<Option<string>>, action: string, target: string)
    requires CanForm(f, s, headers, action, target) && Verified(f, s, headers).Some?
    ensures var t := AfterForm(f, s, headers, action, target);
            && t.grants == s.grants && CookiesMinted(f, t, headers)
            && ApprovalStands(f, t, headers, action, target,
                              f.sessions.ConsoleCsrf(Verified(f, s, headers).value, action, target))
  {
  }

  lemma StandingApprovalIsWritten(s: State, id: string, grant: ClientGrant)
    requires id in s.grants.db.clients
    ensures var after := AfterApproval(s, true, id, grant).grants.db;
            id in after.clients && after.clients[id].consented && after.clients[id].grant == grant
  {
  }

  lemma ApprovalStep(f: Settings, t: State, e: Event)
    requires e.ConsoleApprove? && ForClient(e.action, e.target, e.id) && CookiesMinted(f, t, e.headers)
    requires ApprovalStands(f, t, e.headers, e.action, e.target, e.csrf)
    ensures Enabled(f, t, e) && Next(f, t, e) == AfterApproval(t, true, e.id, e.grant)
  {
  }

  lemma FormStep(f: Settings, s: State, headers: seq<Option<string>>, action: string, target: string)
    requires Enabled(f, s, ConsoleForm(headers, action, target))
    ensures CanForm(f, s, headers, action, target)
    ensures Next(f, s, ConsoleForm(headers, action, target)) == AfterForm(f, s, headers, action, target)
  {
  }

  /** The console's own form can be posted too: its token stands, and the client is approved with the grant posted. */
  lemma ConsoleFormCanBePosted(f: Settings, s: State, headers: seq<Option<string>>, action: string, target: string,
                               id: string, grant: ClientGrant) returns (t: State, post: Event)
    requires Enabled(f, s, ConsoleForm(headers, action, target)) && Verified(f, s, headers).Some?
    requires ForClient(action, target, id) && id in s.grants.db.clients
    ensures t == Next(f, s, ConsoleForm(headers, action, target)) && t.grants == s.grants
    ensures post == ConsoleApprove(headers, action, target,
                                   f.sessions.ConsoleCsrf(Verified(f, s, headers).value, action, target), id, grant)
    ensures Enabled(f, t, post)
    ensures var after := Next(f, t, post).grants.db;
            id in after.clients && after.clients[id].consented && after.clients[id].grant == grant
  {
    FormStep(f, s, headers, action, target);
    t := AfterForm(f, s, headers, action, target);
    post := ConsoleApprove(headers, action, target,
                           f.sessions.ConsoleCsrf(Verified(f, s, headers).value, action, target), id, grant);
    FormIsOut(f, s, headers, action, target);
    ApprovalStep(f, t, post);
    StandingApprovalIsWritten(t, id, grant);
  }

  // ---- and the code opens the door ----

  /** The form and the credentials of the client the request was for. */
  predicate OwnExchange(cfg: Config, db: Db, request: Request, code: string, form: Form, creds: Credentials) {
    && code != "" && form.code == Some(code)
    && request.redirectUri != "" && form.redirectUri == Some(request.redirectUri)
    && form.verifier.Some? && E.ProvesChallenge(cfg, request.challenge, form.verifier.value)
    && E.NamesNoOther(creds, request.clientId)
    && request.clientId in db.clients && !db.clients[request.clientId].revoked
    && E.SecretRight(db, request.clientId, creds.secret)
    && E.ExchangeResourceRight(cfg, request.resource, form.resource)
  }

  lemma CodeOpensTheDoor(f: Settings, db: Db, after: Db, request: Request, profile: Option<string>, code: string,
                         now: int, form: Form, creds: Credentials, at: int, draws: Draws, later: int)
    requires Bootable(f.cfg) && OwnExchange(f.cfg, db, request, code, form, creds)
    requires AllowLeft(f, db, after, request, profile, code, now)
    requires at < now + f.cfg.codeTtl && !E.DrawnTwice(db, request.clientId, draws)
    ensures var s := E.Exchanged(f.cfg, after, at, form, creds, draws);
            && s.reply == Issued
            && Bearer.Authenticate(f.cfg, s.db, later, draws.access) ==
               if later < at + f.cfg.accessTtl then Bearer.Admitted(request.clientId, ChosenGrant(profile).value)
               else Bearer.ExpiredToken
  {
    E.ExchangeOfAGoodCode(f.cfg, after, at, form, creds, draws);
    OnlyFullReachesFar(profile);
    Bearer.ExchangedTokenWorks(f.cfg, after, at, form, creds, draws, later, request.clientId);
  }

  lemma OneEventFirst(f: Settings, s: State, e: Event, run: seq<Event>)
    requires Enabled(f, s, e) && Possible(f, Next(f, s, e), run)
    ensures Possible(f, s, [e] + run) && After(f, s, [e] + run) == After(f, Next(f, s, e), run)
  {
    assert ([e] + run)[1..] == run;
  }

  /** The right password for a request that resolves, an Allow on the page it brings, and the client's own exchange of
      the code before it expires: the token is issued, is admitted as that client with the grant chosen, and is so until
      one access lifetime has passed. */
  lemma APasswordOpensTheDoor(f: Settings, s: State, request: Request, profile: Option<string>, code: string,
                              form: Form, creds: Credentials, at: int, draws: Draws, later: int)
    returns (run: seq<Event>)
    requires f.sessions.Hexes() && f.sessions.ttl > 0 && Bootable(f.cfg)
    requires Enabled(f, s, Login(request, true)) && Resolved(f, s, request).Ok?
    requires ChosenGrant(profile).Some? && Sha256(code) !in s.grants.db.codes
    requires OwnExchange(f.cfg, s.grants.db, request, code, form, creds)
    requires at < s.grants.now + f.cfg.codeTtl && !E.DrawnTwice(s.grants.db, request.clientId, draws)
    ensures |run| == 4 && run[0] == Login(request, true) && run[1].Consent? && run[1].request == request
    ensures Possible(f, s, run)
    ensures var t := E.Exchanged(f.cfg, After(f, s, run).grants.db, at, form, creds, draws);
            && t.reply == Issued
            && Bearer.Authenticate(f.cfg, t.db, later, draws.access) ==
               if later < at + f.cfg.accessTtl then Bearer.Admitted(request.clientId, ChosenGrant(profile).value)
               else Bearer.ExpiredToken
  {
    var login, headers := Login(request, true), CookieHeader(f.sessions.Issue(s.grants.now));
    SignInShowsThePage(f, s, request);
    var t := Next(f, s, login);
    var after: Db;
    run, after := AllowLeavesACode(f, t, headers, request, profile, code);
    CodeOpensTheDoor(f, s.grants.db, after, request, profile, code, s.grants.now, form, creds, at, draws, later);
    OneEventFirst(f, s, login, run);
    run := [login] + run;
  }
}
