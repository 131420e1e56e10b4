/** From the owner's password to a code: sign-in, the consent page, the Allow, over the token endpoint's runs
    (src/authserver/routes.rs `login`, `authorize`, `consent`; src/console/mod.rs `login`; src/authserver/session.rs).
    */
module ConsentFlow {
  import opened Text
  import opened Utf8
  import Decimal
  import opened Session
  import opened OauthStore
  import opened TokenEndpoint
  import opened Authorize
  import Runs = TokenRuns
  import Provenance

  const ACCESS_ACTION: string := "client-access"
  const NEW_ACTION: string := "client-new"
  const NEW_TARGET: string := "new"

  datatype Settings = Settings(cfg: Config, sessions: Sessions, parses: string -> bool,
                               labelFor: (string, string) -> Option<Option<string>>)

  /** A consent page that was rendered: what it showed, and under which sign-in. */
  datatype Page = Page(clientId: string, redirectUri: string, challenge: string, state: string,
                       signature: string, expiresAt: int)

  /** An Allow that passed every check, between its writes: the grant, the name if one was typed, the code. */
  datatype Allow =
    | Granting(intent: Intent, expiresAt: int, grant: ClientGrant, choice: LabelChoice)
    | Naming(intent: Intent, expiresAt: int, name: Option<string>)
    | Coding(intent: Intent, expiresAt: int)
    | Written

  /** The token endpoint's state, every input that went through the MAC and out, the expiries of the sessions issued
      after a correct password, every consent page, the Allows in flight, and what each code was written for. */
  datatype State = State(grants: Runs.State, minted: set<Bytes>, issued: set<int>, pages: set<Page>,
                         allows: seq<Allow>, writtenFor: map<Hash, Allow>)

  datatype Event =
    | Token(e: Runs.Event)
    | Login(request: Request, right: bool)
    | Visit(headers: seq<Option<string>>, request: Request)
    | Consent(headers: seq<Option<string>>, request: Request, csrf: string, allow: bool,
              profile: Option<string>, typed: Option<string>)
    | SetGrant(j: nat)
    | SetLabel(j: nat)
    | InsertCode(j: nat, code: string)
    | ConsoleLogin(right: bool)
    | ConsoleForm(headers: seq<Option<string>>, action: string, target: string)
    | ConsoleApprove(headers: seq<Option<string>>, action: string, target: string, csrf: string, id: string,
                     grant: ClientGrant)

  function Init(now: int): State {
    State(Runs.Init(now), {}, {}, {}, [], map[])
  }

  // ---- the MAC: what is minted can be presented, and only that ----

  function SessionInput(expiresAt: int): Bytes {
    SignInput(SESSION, [Decimal.ToString(expiresAt)])
  }

  function CsrfInput(p: Page): Bytes {
    SignInput(CSRF, [p.signature, p.clientId, p.redirectUri, p.challenge, p.state])
  }

  function ConsoleInput(signature: string, action: string, target: string): Bytes {
    SignInput(CSRF_CONSOLE, [signature, action, target])
  }

  /** A new input collides with none that is out. */
  predicate NoClash(f: Settings, minted: set<Bytes>, b: Bytes) {
    forall a | a in minted :: f.sessions.mac(a) == f.sessions.mac(b) ==> a == b
  }

  /** A cookie that opens was minted here. */
  predicate CookiesMinted(f: Settings, s: State, headers: seq<Option<string>>) {
    forall v | v in Candidates(headers) && f.sessions.Open(Trim(v), s.grants.now).Some? ::
      var raw := SplitOn(Trim(v), {'.'})[1];
      Fits(raw) && SignInput(SESSION, [raw]) in s.minted
  }

  function StateOf(state: Option<string>): string {
    if state.Some? then state.value else ""
  }

  function PageFor(i: Intent, session: OwnerSession): Page {
    Page(i.clientId, i.redirectUri, i.challenge, StateOf(i.state), session.signature, session.expiresAt)
  }

  predicate PageFits(p: Page) {
    Fits(p.clientId) && Fits(p.redirectUri) && Fits(p.challenge) && Fits(p.state)
  }

  // ---- the steps ----

  function Verified(f: Settings, s: State, headers: seq<Option<string>>): Option<OwnerSession> {
    f.sessions.Verify(headers, s.grants.now)
  }

  function Resolved(f: Settings, s: State, r: Request): Result<Intent, Refused> {
    Resolve(f.cfg, f.parses, s.grants.db, r)
  }

  /** The session a correct password would open now. */
  function SessionNow(f: Settings, s: State): Option<OwnerSession> {
    f.sessions.Open(f.sessions.Issue(s.grants.now), s.grants.now)
  }

  function WithSession(f: Settings, s: State): State {
    var e := s.grants.now + f.sessions.ttl;
    s.(issued := s.issued + {e}, minted := s.minted + {SessionInput(e)})
  }

  function WithPage(s: State, p: Page): State {
    s.(pages := s.pages + {p}, minted := s.minted + {CsrfInput(p)})
  }

  predicate CanIssue(f: Settings, s: State) {
    var e := s.grants.now + f.sessions.ttl;
    Decimal.IsI64(e) && NoClash(f, s.minted, SessionInput(e))
  }

  predicate CanRender(f: Settings, s: State, p: Page) {
    PageFits(p) && NoClash(f, s.minted, CsrfInput(p))
  }

  predicate CanSignIn(f: Settings, s: State, request: Request) {
    Resolved(f, s, request).Ok? ==>
      && CanIssue(f, s)
      && (SessionNow(f, s).Some? ==>
            CanRender(f, WithSession(f, s), PageFor(Resolved(f, s, request).value, SessionNow(f, s).value)))
  }

  predicate CanForm(f: Settings, s: State, headers: seq<Option<string>>, action: string, target: string) {
    && CookiesMinted(f, s, headers) && Fits(action) && Fits(target)
    && (Verified(f, s, headers).Some? ==>
          NoClash(f, s.minted, ConsoleInput(Verified(f, s, headers).value.signature, action, target)))
  }

  /** Access is posted for the row it names; a new client is drawn after its form was posted. */
  predicate ForClient(action: string, target: string, id: string) {
    (action == ACCESS_ACTION && target == id) || (action == NEW_ACTION && target == NEW_TARGET)
  }

  predicate Enabled(f: Settings, s: State, e: Event) {
    match e
    case Token(t) => !t.Permit? && !t.Approve? && Runs.Enabled(f.cfg, s.grants, t)
    case Login(request, right) => right ==> CanSignIn(f, s, request)
    case Visit(headers, request) =>
      && CookiesMinted(f, s, headers)
      && (Resolved(f, s, request).Ok? && Verified(f, s, headers).Some? ==>
            CanRender(f, s, PageFor(Resolved(f, s, request).value, Verified(f, s, headers).value)))
    case Consent(headers, request, csrf, _, _, _) =>
      && CookiesMinted(f, s, headers)
      && (Verified(f, s, headers).Some? && Resolved(f, s, request).Ok? ==>
            var p := PageFor(Resolved(f, s, request).value, Verified(f, s, headers).value);
            PageFits(p) && (f.sessions.mac(CsrfInput(p)) == csrf ==> CsrfInput(p) in s.minted))
    case SetGrant(j) => j < |s.allows| && s.allows[j].Granting?
    case SetLabel(j) => j < |s.allows| && s.allows[j].Naming?
    case InsertCode(j, _) => j < |s.allows| && s.allows[j].Coding?
    case ConsoleLogin(right) => right ==> CanIssue(f, s)
    case ConsoleForm(headers, action, target) => CanForm(f, s, headers, action, target)
    case ConsoleApprove(headers, action, target, _, id, _) =>
      CookiesMinted(f, s, headers) && ForClient(action, target, id)
  }

  predicate Allows(f: Settings, s: State, e: Event)
    requires e.Consent?
  {
    && Verified(f, s, e.headers).Some? && Resolved(f, s, e.request).Ok?
    && (var session, i := Verified(f, s, e.headers).value, Resolved(f, s, e.request).value;
        f.sessions.CsrfOk(session, i.clientId, i.redirectUri, i.challenge, StateOf(i.state), e.csrf))
    && e.allow && ChosenGrant(e.profile).Some? && Typed(f, s, e) != Unusable
  }

  function Typed(f: Settings, s: State, e: Event): LabelChoice
    requires e.Consent? && Resolved(f, s, e.request).Ok?
  {
    ChosenLabel(f.labelFor, s.grants.db, Resolved(f, s, e.request).value.clientId, e.typed)
  }

  function CodeRowFor(f: Settings, s: State, i: Intent): CodeRow {
    CodeRow(i.clientId, i.redirectUri, i.challenge, i.scope, i.resource, s.grants.now + f.cfg.codeTtl, false)
  }

  function WithGrants(s: State, db: Db): State {
    s.(grants := s.grants.(db := db))
  }

  function AfterLogin(f: Settings, s: State, request: Request): State {
    var i := Resolved(f, s, request);
    if i.Ok? && SessionNow(f, s).Some? then WithPage(WithSession(f, s), PageFor(i.value, SessionNow(f, s).value)) else s
  }

  function AfterVisit(f: Settings, s: State, headers: seq<Option<string>>, request: Request): State {
    var i, session := Resolved(f, s, request), Verified(f, s, headers);
    if i.Ok? && session.Some? then WithPage(s, PageFor(i.value, session.value)) else s
  }

  function AfterForm(f: Settings, s: State, headers: seq<Option<string>>, action: string, target: string): State {
    match Verified(f, s, headers)
    case Some(session) => s.(minted := s.minted + {ConsoleInput(session.signature, action, target)})
    case None => s
  }

  /** A signed-in post whose form token matches. */
  predicate ApprovalStands(f: Settings, s: State, headers: seq<Option<string>>, action: string, target: string,
                           csrf: string)
  {
    Verified(f, s, headers).Some? && f.sessions.ConsoleCsrfOk(Verified(f, s, headers).value, action, target, csrf)
  }

  function AfterApproval(s: State, stands: bool, id: string, grant: ClientGrant): State {
    if stands then WithGrants(s, Granted(s.grants.db, id, grant)) else s
  }

  function AfterGrant(s: State, j: nat): State
    requires j < |s.allows| && s.allows[j].Granting?
  {
    var a := s.allows[j];
    var next := if a.choice.Store? then Naming(a.intent, a.expiresAt, a.choice.name) else Coding(a.intent, a.expiresAt);
    WithGrants(s, Granted(s.grants.db, a.intent.clientId, a.grant)).(allows := s.allows[j := next])
  }

  /** A label that finds no approved client is only logged. */
  function AfterLabel(s: State, j: nat): State
    requires j < |s.allows| && s.allows[j].Naming?
  {
    var a := s.allows[j];
    WithGrants(s, Labelled(s.grants.db, a.intent.clientId, a.name))
      .(allows := s.allows[j := Coding(a.intent, a.expiresAt)])
  }

  function AfterAllow(s: State, i: Intent, expiresAt: int, grant: ClientGrant, choice: LabelChoice): State {
    s.(allows := s.allows + [Granting(i, expiresAt, grant, choice)])
  }

  predicate Stores(f: Settings, s: State, j: nat, code: string)
    requires j < |s.allows| && s.allows[j].Coding?
  {
    CodeFits(s.grants.db, Sha256(code), CodeRowFor(f, s, s.allows[j].intent))
  }

  /** A code whose hash is taken is a fault of the server's own: nothing is written and nothing sent. */
  function AfterInsert(f: Settings, s: State, j: nat, code: string): State
    requires j < |s.allows| && s.allows[j].Coding?
  {
    var a := s.allows[j];
    var t := WithGrants(s, CodeInserted(s.grants.db, Sha256(code), CodeRowFor(f, s, a.intent)))
      .(allows := s.allows[j := Written]);
    if Stores(f, s, j, code) then t.(writtenFor := s.writtenFor[Sha256(code) := a]) else t
  }

  function Next(f: Settings, s: State, e: Event): State
    requires Enabled(f, s, e)
  {
    match e
    case Token(t) => s.(grants := Runs.Next(f.cfg, s.grants, t))
    case Login(request, right) => if right then AfterLogin(f, s, request) else s
    case Visit(headers, request) => AfterVisit(f, s, headers, request)
    case Consent(headers, request, _, _, profile, _) =>
      if Allows(f, s, e)
      then AfterAllow(s, Resolved(f, s, request).value, Verified(f, s, headers).value.expiresAt,
                      ChosenGrant(profile).value, Typed(f, s, e))
      else s
    case SetGrant(j) => AfterGrant(s, j)
    case SetLabel(j) => AfterLabel(s, j)
    case InsertCode(j, code) => AfterInsert(f, s, j, code)
    case ConsoleLogin(right) => if right then WithSession(f, s) else s
    case ConsoleForm(headers, action, target) => AfterForm(f, s, headers, action, target)
    case ConsoleApprove(headers, action, target, csrf, id, grant) =>
      AfterApproval(s, ApprovalStands(f, s, headers, action, target, csrf), id, grant)
  }

  ghost predicate Possible(f: Settings, s: State, run: seq<Event>)
    decreases |run|
  {
    run == [] || (Enabled(f, s, run[0]) && Possible(f, Next(f, s, run[0]), run[1..]))
  }

  ghost function After(f: Settings, s: State, run: seq<Event>): State
    requires Possible(f, s, run)
    decreases |run|
  {
    if run == [] then s else After(f, Next(f, s, run[0]), run[1..])
  }

  // ---- what is out, and why ----

  predicate PageKnown(f: Settings, s: State, p: Page) {
    && p.expiresAt in s.issued && Decimal.IsI64(p.expiresAt) && SessionInput(p.expiresAt) in s.minted
    && p.signature == f.sessions.mac(SessionInput(p.expiresAt))
    && PageFits(p)
  }

  ghost predicate InputKnown(s: State, b: Bytes) {
    || (exists e :: IssuedInput(s, e, b))
    || (exists p :: p in s.pages && b == CsrfInput(p))
    || (exists tag, action, target :: IsConsoleInput(tag, action, target, b))
  }

  predicate IssuedInput(s: State, e: int, b: Bytes) {
    e in s.issued && Decimal.IsI64(e) && b == SessionInput(e)
  }

  predicate IsConsoleInput(tag: string, action: string, target: string, b: Bytes) {
    IsTag(tag) && Fits(action) && Fits(target) && b == ConsoleInput(tag, action, target)
  }

  ghost predicate InputsKnown(s: State) {
    forall b | b in s.minted :: InputKnown(s, b)
  }

  predicate NoCollisions(f: Settings, minted: set<Bytes>) {
    forall a, b | a in minted && b in minted && f.sessions.mac(a) == f.sessions.mac(b) :: a == b
  }

  predicate PagesKnown(f: Settings, s: State) {
    forall p | p in s.pages :: PageKnown(f, s, p)
  }

  /** The page this Allow answers. */
  predicate Answers(p: Page, i: Intent, expiresAt: int) {
    && p.clientId == i.clientId && p.redirectUri == i.redirectUri && p.challenge == i.challenge
    && p.state == StateOf(i.state) && p.expiresAt == expiresAt
  }

  ghost predicate Consented(s: State, i: Intent, expiresAt: int) {
    expiresAt in s.issued && exists p :: p in s.pages && Answers(p, i, expiresAt)
  }

  ghost predicate AllowsConsented(s: State) {
    forall j | 0 <= j < |s.allows| && !s.allows[j].Written? :: Consented(s, s.allows[j].intent, s.allows[j].expiresAt)
  }

  predicate WrittenAs(row: CodeRow, i: Intent) {
    && row.clientId == i.clientId && row.redirectUri == i.redirectUri && row.challenge == i.challenge
    && row.scope == i.scope && row.resource == i.resource
  }

  ghost predicate CodesConsented(s: State) {
    forall h | h in s.grants.db.codes ::
      && h in s.writtenFor && s.writtenFor[h].Coding?
      && WrittenAs(s.grants.db.codes[h], s.writtenFor[h].intent)
      && Consented(s, s.writtenFor[h].intent, s.writtenFor[h].expiresAt)
  }

  ghost predicate Known(f: Settings, s: State) {
    && InputsKnown(s) && NoCollisions(f, s.minted) && PagesKnown(f, s)
    && AllowsConsented(s) && CodesConsented(s)
  }

  // ---- what a verifying cookie and a matching token show ----

  lemma PageAdmissible(p: Page)
    requires PageFits(p) && IsTag(p.signature)
    ensures Admissible(CSRF, [p.signature, p.clientId, p.redirectUri, p.challenge, p.state])
  {
    TagFits(p.signature);
  }

  lemma OneAdmissible(raw: string)
    requires Fits(raw)
    ensures Admissible(SESSION, [raw])
  {
  }

  lemma SessionIsNoCsrf(raw: string, p: Page)
    requires Fits(raw) && PageFits(p) && IsTag(p.signature)
    ensures SignInput(SESSION, [raw]) != CsrfInput(p)
  {
    OneAdmissible(raw);
    PageAdmissible(p);
    if SignInput(SESSION, [raw]) == CsrfInput(p) {
      InputInjective(SESSION, [raw], CSRF, [p.signature, p.clientId, p.redirectUri, p.challenge, p.state]);
    }
  }

  lemma SessionIsNoConsole(raw: string, tag: string, action: string, target: string)
    requires Fits(raw) && IsTag(tag) && Fits(action) && Fits(target)
    ensures SignInput(SESSION, [raw]) != ConsoleInput(tag, action, target)
  {
    OneAdmissible(raw);
    ConsoleFieldsAdmissible(tag, action, target);
    if SignInput(SESSION, [raw]) == ConsoleInput(tag, action, target) {
      InputInjective(SESSION, [raw], CSRF_CONSOLE, [tag, action, target]);
    }
  }

  lemma CsrfIsNoConsole(p: Page, tag: string, action: string, target: string)
    requires PageFits(p) && IsTag(p.signature) && IsTag(tag) && Fits(action) && Fits(target)
    ensures CsrfInput(p) != ConsoleInput(tag, action, target)
  {
    PageAdmissible(p);
    ConsoleFieldsAdmissible(tag, action, target);
    if CsrfInput(p) == ConsoleInput(tag, action, target) {
      InputInjective(CSRF, [p.signature, p.clientId, p.redirectUri, p.challenge, p.state],
                     CSRF_CONSOLE, [tag, action, target]);
    }
  }

  lemma SameSessionInput(raw: string, e: int)
    requires Fits(raw) && Decimal.IsI64(e) && SignInput(SESSION, [raw]) == SessionInput(e)
    ensures raw == Decimal.ToString(e)
  {
    NumeralFits(e);
    OneAdmissible(raw);
    OneAdmissible(Decimal.ToString(e));
    InputInjective(SESSION, [raw], SESSION, [Decimal.ToString(e)]);
    assert [raw][0] == [Decimal.ToString(e)][0];
  }

  lemma SameCsrfInput(p: Page, q: Page)
    requires PageFits(p) && PageFits(q) && IsTag(p.signature) && IsTag(q.signature) && CsrfInput(p) == CsrfInput(q)
    ensures p.(expiresAt := q.expiresAt) == q
  {
    var mine := [p.signature, p.clientId, p.redirectUri, p.challenge, p.state];
    var theirs := [q.signature, q.clientId, q.redirectUri, q.challenge, q.state];
    PageAdmissible(p);
    PageAdmissible(q);
    InputInjective(CSRF, mine, CSRF, theirs);
    assert mine[0] == theirs[0] && mine[1] == theirs[1] && mine[2] == theirs[2] && mine[3] == theirs[3]
        && mine[4] == theirs[4];
  }

  /** A minted session input is that of an issued session. */
  lemma SessionInputWasIssued(f: Settings, s: State, raw: string) returns (e: int)
    requires f.sessions.Hexes() && Known(f, s) && Fits(raw) && SignInput(SESSION, [raw]) in s.minted
    ensures e in s.issued && Decimal.IsI64(e) && raw == Decimal.ToString(e)
  {
    var b := SignInput(SESSION, [raw]);
    assert InputKnown(s, b);
    forall p | p in s.pages ensures b != CsrfInput(p) {
      PageTagged(f, s, p);
      SessionIsNoCsrf(raw, p);
    }
    forall tag, action, target ensures !IsConsoleInput(tag, action, target, b) {
      if IsConsoleInput(tag, action, target, b) {
        SessionIsNoConsole(raw, tag, action, target);
      }
    }
    e :| IssuedInput(s, e, b);
    SameSessionInput(raw, e);
  }

  lemma PageTagged(f: Settings, s: State, p: Page)
    requires f.sessions.Hexes() && PagesKnown(f, s) && p in s.pages
    ensures IsTag(p.signature)
  {
    assert IsTag(f.sessions.mac(SessionInput(p.expiresAt)));
  }

  /** A session that verifies was issued, and is the one of its expiry. */
  lemma VerifiedWasIssued(f: Settings, s: State, headers: seq<Option<string>>)
    requires f.sessions.Hexes() && Known(f, s) && CookiesMinted(f, s, headers) && Verified(f, s, headers).Some?
    ensures var session := Verified(f, s, headers).value;
            && session.expiresAt in s.issued && Decimal.IsI64(session.expiresAt)
            && SessionInput(session.expiresAt) in s.minted
            && session.signature == f.sessions.mac(SessionInput(session.expiresAt))
  {
    FirstOpenFinds(f.sessions, Candidates(headers), s.grants.now);
    var v :| v in Candidates(headers) && f.sessions.Open(Trim(v), s.grants.now) == Verified(f, s, headers);
    var raw := SplitOn(Trim(v), {'.'})[1];
    var e := SessionInputWasIssued(f, s, raw);
    Decimal.ParseToString(e);
  }

  /** A minted consent input is that of a rendered page. */
  lemma CsrfInputWasRendered(f: Settings, s: State, q: Page) returns (p: Page)
    requires f.sessions.Hexes() && Known(f, s) && PageFits(q) && IsTag(q.signature) && CsrfInput(q) in s.minted
    ensures p in s.pages && p.(expiresAt := q.expiresAt) == q
  {
    var b := CsrfInput(q);
    assert InputKnown(s, b);
    forall e ensures !IssuedInput(s, e, b) {
      if IssuedInput(s, e, b) {
        NumeralFits(e);
        SessionIsNoCsrf(Decimal.ToString(e), q);
      }
    }
    forall tag, action, target ensures !IsConsoleInput(tag, action, target, b) {
      if IsConsoleInput(tag, action, target, b) {
        CsrfIsNoConsole(q, tag, action, target);
      }
    }
    p :| p in s.pages && b == CsrfInput(p);
    PageTagged(f, s, p);
    SameCsrfInput(p, q);
  }

  /** Sessions with one signature have one expiry. */
  lemma OneExpiryPerSignature(f: Settings, s: State, d: int, e: int)
    requires f.sessions.Hexes() && NoCollisions(f, s.minted)
    requires SessionInput(d) in s.minted && SessionInput(e) in s.minted && Decimal.IsI64(d) && Decimal.IsI64(e)
    requires f.sessions.mac(SessionInput(d)) == f.sessions.mac(SessionInput(e))
    ensures d == e
  {
    assert TellsApart(f.sessions, d, e);
    SignatureNamesExpiry(f.sessions, d, e);
  }

  /** An Allow that goes through answers a page rendered with the same values under the same sign-in. */
  lemma AllowAnswersAPage(f: Settings, s: State, e: Event)
    requires f.sessions.Hexes() && Known(f, s) && e.Consent? && Enabled(f, s, e) && Allows(f, s, e)
    ensures Consented(s, Resolved(f, s, e.request).value, Verified(f, s, e.headers).value.expiresAt)
  {
    var session, i := Verified(f, s, e.headers).value, Resolved(f, s, e.request).value;
    var q := PageFor(i, session);
    VerifiedWasIssued(f, s, e.headers);
    assert IsTag(q.signature) by { assert IsTag(f.sessions.mac(SessionInput(session.expiresAt))); }
    assert CsrfInput(q) in s.minted;
    var p := CsrfInputWasRendered(f, s, q);
    assert PageKnown(f, s, p);
    OneExpiryPerSignature(f, s, p.expiresAt, session.expiresAt);
    assert Answers(p, i, session.expiresAt);
  }

  // ---- one step ----

  lemma ConsentStays(s: State, t: State, i: Intent, expiresAt: int)
    requires s.issued <= t.issued && s.pages <= t.pages && Consented(s, i, expiresAt)
    ensures Consented(t, i, expiresAt)
  {
    var p :| p in s.pages && Answers(p, i, expiresAt);
    assert p in t.pages;
  }

  lemma InputStaysKnown(s: State, t: State, b: Bytes)
    requires s.issued <= t.issued && s.pages <= t.pages && InputKnown(s, b)
    ensures InputKnown(t, b)
  {
    if e :| IssuedInput(s, e, b) {
      assert IssuedInput(t, e, b);
    } else if p :| p in s.pages && b == CsrfInput(p) {
      assert p in t.pages;
    }
  }

  lemma CodesStayConsented(s: State, t: State)
    requires CodesConsented(s) && s.issued <= t.issued && s.pages <= t.pages && t.writtenFor == s.writtenFor
    requires forall h | h in t.grants.db.codes ::
               h in s.grants.db.codes &&
               t.grants.db.codes[h].(consumed := true) == s.grants.db.codes[h].(consumed := true)
    ensures CodesConsented(t)
  {
    forall h | h in t.grants.db.codes
      ensures && h in t.writtenFor && t.writtenFor[h].Coding?
              && WrittenAs(t.grants.db.codes[h], t.writtenFor[h].intent)
              && Consented(t, t.writtenFor[h].intent, t.writtenFor[h].expiresAt)
    {
      var had, has := s.grants.db.codes[h], t.grants.db.codes[h];
      assert had.(consumed := true) == has.(consumed := true);
      assert WrittenAs(had, s.writtenFor[h].intent);
      ConsentStays(s, t, s.writtenFor[h].intent, s.writtenFor[h].expiresAt);
    }
  }

  lemma AllowsStayConsented(s: State, t: State)
    requires AllowsConsented(s) && s.issued <= t.issued && s.pages <= t.pages && t.allows == s.allows
    ensures AllowsConsented(t)
  {
    forall j | 0 <= j < |t.allows| && !t.allows[j].Written?
      ensures Consented(t, t.allows[j].intent, t.allows[j].expiresAt)
    {
      ConsentStays(s, t, s.allows[j].intent, s.allows[j].expiresAt);
    }
  }

  lemma NoNewCollision(f: Settings, minted: set<Bytes>, b: Bytes)
    requires NoCollisions(f, minted) && NoClash(f, minted, b)
    ensures NoCollisions(f, minted + {b})
  {
  }

  lemma OneMoreInput(f: Settings, s: State, t: State, b: Bytes)
    requires InputsKnown(s) && NoCollisions(f, s.minted) && NoClash(f, s.minted, b)
    requires s.issued <= t.issued && s.pages <= t.pages && t.minted == s.minted + {b} && InputKnown(t, b)
    ensures InputsKnown(t) && NoCollisions(f, t.minted)
  {
    NoNewCollision(f, s.minted, b);
    forall a | a in t.minted ensures InputKnown(t, a) {
      if a != b {
        InputStaysKnown(s, t, a);
      }
    }
  }

  lemma PagesStayKnown(f: Settings, s: State, t: State)
    requires PagesKnown(f, s) && t.pages == s.pages && s.issued <= t.issued && s.minted <= t.minted
    ensures PagesKnown(f, t)
  {
    forall p | p in t.pages ensures PageKnown(f, t, p) {
      assert PageKnown(f, s, p);
    }
  }

  lemma InputKeepsKnown(f: Settings, s: State, t: State, b: Bytes)
    requires Known(f, s) && NoClash(f, s.minted, b) && InputKnown(t, b)
    requires s.issued <= t.issued && t.minted == s.minted + {b} && t.(issued := s.issued, minted := s.minted) == s
    ensures Known(f, t)
  {
    OneMoreInput(f, s, t, b);
    PagesStayKnown(f, s, t);
    CodesStayConsented(s, t);
    AllowsStayConsented(s, t);
  }

  lemma IssueKeepsKnown(f: Settings, s: State, t: State, e: int, b: Bytes)
    requires Known(f, s) && NoClash(f, s.minted, b) && Decimal.IsI64(e) && b == SessionInput(e)
    requires t == s.(issued := s.issued + {e}, minted := s.minted + {b})
    ensures Known(f, t)
  {
    assert IssuedInput(t, e, b);
    InputKeepsKnown(f, s, t, b);
  }

  lemma IssueIsOneInput(f: Settings, s: State) returns (e: int, b: Bytes)
    requires CanIssue(f, s)
    ensures Decimal.IsI64(e) && b == SessionInput(e) && NoClash(f, s.minted, b)
    ensures WithSession(f, s) == s.(issued := s.issued + {e}, minted := s.minted + {b})
  {
    e := s.grants.now + f.sessions.ttl;
    b := SessionInput(e);
  }

  lemma SessionKeepsKnown(f: Settings, s: State, t: State)
    requires Known(f, s) && CanIssue(f, s) && t == WithSession(f, s)
    ensures Known(f, t)
  {
    var e, b := IssueIsOneInput(f, s);
    IssueKeepsKnown(f, s, t, e, b);
  }

  lemma ConsoleLoginKeepsKnown(f: Settings, s: State)
    requires Known(f, s) && CanIssue(f, s)
    ensures Known(f, WithSession(f, s))
  {
    SessionKeepsKnown(f, s, WithSession(f, s));
  }

  lemma OneMorePage(f: Settings, s: State, t: State, p: Page)
    requires PagesKnown(f, s) && PageKnown(f, t, p)
    requires t.pages == s.pages + {p} && s.issued <= t.issued && s.minted <= t.minted
    ensures PagesKnown(f, t)
  {
    forall q | q in t.pages ensures PageKnown(f, t, q) {
      assert q in s.pages ==> PageKnown(f, s, q);
    }
  }

  lemma PageKeepsKnown(f: Settings, s: State, p: Page)
    requires Known(f, s) && CanRender(f, s, p)
    requires p.expiresAt in s.issued && Decimal.IsI64(p.expiresAt) && SessionInput(p.expiresAt) in s.minted
    requires p.signature == f.sessions.mac(SessionInput(p.expiresAt))
    ensures Known(f, WithPage(s, p))
  {
    var t := WithPage(s, p);
    assert p in t.pages;
    OneMoreInput(f, s, t, CsrfInput(p));
    CodesStayConsented(s, t);
    AllowsStayConsented(s, t);
    OneMorePage(f, s, t, p);
  }

  lemma SessionNowIsTheIssued(f: Settings, s: State)
    requires f.sessions.Hexes() && CanIssue(f, s) && SessionNow(f, s).Some?
    ensures var e := s.grants.now + f.sessions.ttl;
            SessionNow(f, s).value == SessionUntil(f.sessions, e)
  {
    OpensUntilExpiry(f.sessions, s.grants.now, s.grants.now);
  }

  lemma SessionIsOut(f: Settings, s: State, e: int)
    requires CanIssue(f, s) && e == s.grants.now + f.sessions.ttl
    ensures var t := WithSession(f, s); e in t.issued && Decimal.IsI64(e) && SessionInput(e) in t.minted
  {
  }

  /** A fresh session and the page shown under it. */
  lemma SignInKeepsKnown(f: Settings, s: State, t: State, p: Page)
    requires Known(f, s) && CanIssue(f, s) && t == WithSession(f, s) && CanRender(f, t, p)
    requires p.expiresAt == s.grants.now + f.sessions.ttl && p.signature == f.sessions.mac(SessionInput(p.expiresAt))
    ensures Known(f, WithPage(t, p))
  {
    SessionKeepsKnown(f, s, t);
    SessionIsOut(f, s, p.expiresAt);
    PageKeepsKnown(f, t, p);
  }

  /** The same for the page of a request, under the session a correct password opens. */
  lemma RightPasswordKeepsKnown(f: Settings, s: State, i: Intent, session: OwnerSession)
    requires Known(f, s) && CanIssue(f, s) && CanRender(f, WithSession(f, s), PageFor(i, session))
    requires session == SessionUntil(f.sessions, s.grants.now + f.sessions.ttl)
    ensures Known(f, WithPage(WithSession(f, s), PageFor(i, session)))
  {
    SignInKeepsKnown(f, s, WithSession(f, s), PageFor(i, session));
  }

  lemma LoginKeepsKnown(f: Settings, s: State, request: Request)
    requires f.sessions.Hexes() && Known(f, s) && CanSignIn(f, s, request)
    ensures Known(f, AfterLogin(f, s, request))
  {
    if Resolved(f, s, request).Ok? && SessionNow(f, s).Some? {
      SessionNowIsTheIssued(f, s);
      RightPasswordKeepsKnown(f, s, Resolved(f, s, request).value, SessionNow(f, s).value);
    }
  }

  lemma VisitKeepsKnown(f: Settings, s: State, headers: seq<Option<string>>, request: Request)
    requires f.sessions.Hexes() && Known(f, s) && Enabled(f, s, Visit(headers, request))
    ensures Known(f, AfterVisit(f, s, headers, request))
  {
    if Resolved(f, s, request).Ok? && Verified(f, s, headers).Some? {
      VerifiedWasIssued(f, s, headers);
      PageKeepsKnown(f, s, PageFor(Resolved(f, s, request).value, Verified(f, s, headers).value));
    }
  }

  lemma AllowKeepsKnown(f: Settings, s: State, i: Intent, expiresAt: int, grant: ClientGrant, choice: LabelChoice)
    requires Known(f, s) && Consented(s, i, expiresAt)
    ensures Known(f, AfterAllow(s, i, expiresAt, grant, choice))
  {
    var t := AfterAllow(s, i, expiresAt, grant, choice);
    CodesStayConsented(s, t);
    forall b | b in t.minted ensures InputKnown(t, b) {
      InputStaysKnown(s, t, b);
    }
    forall j | 0 <= j < |t.allows| && !t.allows[j].Written?
      ensures Consented(t, t.allows[j].intent, t.allows[j].expiresAt)
    {
      ConsentStays(s, t, t.allows[j].intent, t.allows[j].expiresAt);
    }
  }

  lemma ConsentKeepsKnown(f: Settings, s: State, e: Event)
    requires f.sessions.Hexes() && Known(f, s) && e.Consent? && Enabled(f, s, e)
    ensures Known(f, Next(f, s, e))
  {
    if Allows(f, s, e) {
      AllowAnswersAPage(f, s, e);
      AllowKeepsKnown(f, s, Resolved(f, s, e.request).value, Verified(f, s, e.headers).value.expiresAt,
                      ChosenGrant(e.profile).value, Typed(f, s, e));
    }
  }

  /** Steps that hand nothing out and write no code. */
  lemma SilentKeepsKnown(f: Settings, s: State, t: State)
    requires Known(f, s) && t.(grants := s.grants, allows := s.allows) == s
    requires forall h | h in t.grants.db.codes ::
               h in s.grants.db.codes &&
               t.grants.db.codes[h].(consumed := true) == s.grants.db.codes[h].(consumed := true)
    requires |t.allows| == |s.allows|
    requires forall j | 0 <= j < |s.allows| ::
               t.allows[j] == s.allows[j] || (!s.allows[j].Written? && !t.allows[j].Written?
                 && t.allows[j].intent == s.allows[j].intent && t.allows[j].expiresAt == s.allows[j].expiresAt)
    ensures Known(f, t)
  {
    CodesStayConsented(s, t);
    forall b | b in t.minted ensures InputKnown(t, b) {
      InputStaysKnown(s, t, b);
    }
    forall j | 0 <= j < |t.allows| && !t.allows[j].Written?
      ensures Consented(t, t.allows[j].intent, t.allows[j].expiresAt)
    {
      ConsentStays(s, t, s.allows[j].intent, s.allows[j].expiresAt);
    }
  }

  lemma InsertKeepsKnown(f: Settings, s: State, j: nat, code: string)
    requires Known(f, s) && j < |s.allows| && s.allows[j].Coding?
    ensures Known(f, AfterInsert(f, s, j, code))
  {
    var t, mine := AfterInsert(f, s, j, code), Sha256(code);
    forall h | h in t.grants.db.codes
      ensures && h in t.writtenFor && t.writtenFor[h].Coding?
              && WrittenAs(t.grants.db.codes[h], t.writtenFor[h].intent)
              && Consented(t, t.writtenFor[h].intent, t.writtenFor[h].expiresAt)
    {
      if h == mine && Stores(f, s, j, code) {
        ConsentStays(s, t, s.allows[j].intent, s.allows[j].expiresAt);
      } else {
        assert WrittenAs(s.grants.db.codes[h], s.writtenFor[h].intent);
        ConsentStays(s, t, s.writtenFor[h].intent, s.writtenFor[h].expiresAt);
      }
    }
    forall b | b in t.minted ensures InputKnown(t, b) {
      InputStaysKnown(s, t, b);
    }
    forall k | 0 <= k < |t.allows| && !t.allows[k].Written?
      ensures Consented(t, t.allows[k].intent, t.allows[k].expiresAt)
    {
      assert k != j;
      ConsentStays(s, t, s.allows[k].intent, s.allows[k].expiresAt);
    }
  }

  lemma ConsoleInputKeepsKnown(f: Settings, s: State, tag: string, action: string, target: string)
    requires Known(f, s) && IsTag(tag) && Fits(action) && Fits(target)
    requires NoClash(f, s.minted, ConsoleInput(tag, action, target))
    ensures Known(f, s.(minted := s.minted + {ConsoleInput(tag, action, target)}))
  {
    var b := ConsoleInput(tag, action, target);
    assert IsConsoleInput(tag, action, target, b);
    InputKeepsKnown(f, s, s.(minted := s.minted + {b}), b);
  }

  lemma VerifiedIsTagged(f: Settings, s: State, headers: seq<Option<string>>)
    requires f.sessions.Hexes() && Known(f, s) && CookiesMinted(f, s, headers) && Verified(f, s, headers).Some?
    ensures IsTag(Verified(f, s, headers).value.signature)
  {
    VerifiedWasIssued(f, s, headers);
    assert IsTag(f.sessions.mac(SessionInput(Verified(f, s, headers).value.expiresAt)));
  }

  lemma FormKeepsKnown(f: Settings, s: State, headers: seq<Option<string>>, action: string, target: string)
    requires f.sessions.Hexes() && Known(f, s) && CanForm(f, s, headers, action, target)
    ensures Known(f, AfterForm(f, s, headers, action, target))
  {
    if Verified(f, s, headers).Some? {
      VerifiedIsTagged(f, s, headers);
      ConsoleInputKeepsKnown(f, s, Verified(f, s, headers).value.signature, action, target);
    }
  }

  lemma TokenStepKeepsCodes(cfg: Config, s: Runs.State, e: Runs.Event)
    requires Runs.Enabled(cfg, s, e) && !e.Permit?
    ensures var t := Runs.Next(cfg, s, e);
            forall h | h in t.db.codes ::
              h in s.db.codes && t.db.codes[h].(consumed := true) == s.db.codes[h].(consumed := true)
  {
  }

  lemma TokenKeepsKnown(f: Settings, s: State, t: Runs.Event)
    requires Known(f, s) && Enabled(f, s, Event.Token(t))
    ensures Known(f, s.(grants := Runs.Next(f.cfg, s.grants, t)))
  {
    TokenStepKeepsCodes(f.cfg, s.grants, t);
    SilentKeepsKnown(f, s, s.(grants := Runs.Next(f.cfg, s.grants, t)));
  }

  /** `set_client_grant` from the console. */
  lemma ApprovalKeepsKnown(f: Settings, s: State, stands: bool, id: string, grant: ClientGrant)
    requires Known(f, s)
    ensures Known(f, AfterApproval(s, stands, id, grant))
  {
    SilentKeepsKnown(f, s, AfterApproval(s, stands, id, grant));
  }

  lemma LabelKeepsKnown(f: Settings, s: State, j: nat)
    requires Known(f, s) && j < |s.allows| && s.allows[j].Naming?
    ensures Known(f, AfterLabel(s, j))
  {
    SilentKeepsKnown(f, s, AfterLabel(s, j));
  }

  lemma GrantKeepsKnown(f: Settings, s: State, j: nat)
    requires Known(f, s) && j < |s.allows| && s.allows[j].Granting?
    ensures Known(f, AfterGrant(s, j))
  {
    SilentKeepsKnown(f, s, AfterGrant(s, j));
  }

  lemma StepKeepsKnown(f: Settings, s: State, e: Event)
    requires f.sessions.Hexes() && Known(f, s) && Enabled(f, s, e)
    ensures Known(f, Next(f, s, e))
  {
    match e
    case Token(t) => TokenKeepsKnown(f, s, t);
    case Login(request, right) => if right { LoginKeepsKnown(f, s, request); }
    case Visit(headers, request) => VisitKeepsKnown(f, s, headers, request);
    case Consent(_, _, _, _, _, _) => ConsentKeepsKnown(f, s, e);
    case SetGrant(j) => GrantKeepsKnown(f, s, j);
    case SetLabel(j) => LabelKeepsKnown(f, s, j);
    case InsertCode(j, code) => InsertKeepsKnown(f, s, j, code);
    case ConsoleLogin(right) => if right { ConsoleLoginKeepsKnown(f, s); }
    case ConsoleForm(headers, action, target) => FormKeepsKnown(f, s, headers, action, target);
    case ConsoleApprove(headers, action, target, csrf, id, grant) =>
      ApprovalKeepsKnown(f, s, ApprovalStands(f, s, headers, action, target, csrf), id, grant);
  }

  lemma {:induction false} RunKeepsKnown(f: Settings, s: State, run: seq<Event>)
    requires f.sessions.Hexes() && Known(f, s) && Possible(f, s, run)
    ensures Known(f, After(f, s, run))
    decreases |run|
  {
    if run != [] {
      StepKeepsKnown(f, s, run[0]);
      RunKeepsKnown(f, Next(f, s, run[0]), run[1..]);
    }
  }

  // ---- who opened a session ----

  predicate PasswordRight(e: Event) {
    (e.Login? && e.right) || (e.ConsoleLogin? && e.right)
  }

  lemma AllowingIssuesNothing(f: Settings, s: State, e: Event)
    requires Enabled(f, s, e) && (e.Consent? || e.SetGrant? || e.SetLabel? || e.InsertCode?)
    ensures Next(f, s, e).issued == s.issued
  {
  }

  lemma VisitIssuesNothing(f: Settings, s: State, headers: seq<Option<string>>, request: Request)
    ensures AfterVisit(f, s, headers, request).issued == s.issued
  {
  }

  lemma FormIssuesNothing(f: Settings, s: State, headers: seq<Option<string>>, action: string, target: string)
    ensures AfterForm(f, s, headers, action, target).issued == s.issued
  {
  }

  lemma OnlyPasswordsIssue(f: Settings, s: State, e: Event)
    requires Enabled(f, s, e) && !PasswordRight(e)
    ensures Next(f, s, e).issued == s.issued
  {
    if e.Consent? || e.SetGrant? || e.SetLabel? || e.InsertCode? {
      AllowingIssuesNothing(f, s, e);
    } else if e.ConsoleForm? {
      FormIssuesNothing(f, s, e.headers, e.action, e.target);
    } else if e.Visit? {
      VisitIssuesNothing(f, s, e.headers, e.request);
    }
  }

  lemma LoginIssuesOne(f: Settings, s: State, request: Request)
    ensures AfterLogin(f, s, request).issued <= s.issued + {s.grants.now + f.sessions.ttl}
  {
  }

  lemma PasswordIssuesOne(f: Settings, s: State, e: Event)
    requires Enabled(f, s, e) && PasswordRight(e)
    ensures Next(f, s, e).issued <= s.issued + {s.grants.now + f.sessions.ttl}
  {
    if e.Login? {
      LoginIssuesOne(f, s, e.request);
    }
  }

  lemma OneStepIssues(f: Settings, s: State, e: Event, expiresAt: int)
    requires Enabled(f, s, e) && expiresAt in Next(f, s, e).issued && expiresAt !in s.issued
    ensures PasswordRight(e) && expiresAt == s.grants.now + f.sessions.ttl
  {
    if PasswordRight(e) {
      PasswordIssuesOne(f, s, e);
    } else {
      OnlyPasswordsIssue(f, s, e);
    }
  }

  /** The run's event `k` is a right password, at the time that gives a session this expiry. */
  ghost predicate OpenedAt(f: Settings, s: State, run: seq<Event>, k: nat, expiresAt: int) {
    && k < |run| && Possible(f, s, run[..k]) && PasswordRight(run[k])
    && expiresAt == After(f, s, run[..k]).grants.now + f.sessions.ttl
  }

  ghost predicate Opened(f: Settings, s: State, run: seq<Event>, expiresAt: int) {
    exists k: nat :: OpenedAt(f, s, run, k, expiresAt)
  }

  lemma OpenedLater(f: Settings, s: State, run: seq<Event>, expiresAt: int)
    requires run != [] && Enabled(f, s, run[0]) && Opened(f, Next(f, s, run[0]), run[1..], expiresAt)
    ensures Opened(f, s, run, expiresAt)
  {
    var k: nat :| OpenedAt(f, Next(f, s, run[0]), run[1..], k, expiresAt);
    assert run[..k + 1][0] == run[0] && run[..k + 1][1..] == run[1..][..k];
    assert OpenedAt(f, s, run, k + 1, expiresAt);
  }

  lemma OpenedFirst(f: Settings, s: State, run: seq<Event>, expiresAt: int)
    requires run != [] && Enabled(f, s, run[0])
    requires expiresAt in Next(f, s, run[0]).issued && expiresAt !in s.issued
    ensures Opened(f, s, run, expiresAt)
  {
    OneStepIssues(f, s, run[0], expiresAt);
    assert run[..0] == [];
    assert OpenedAt(f, s, run, 0, expiresAt);
  }

  /** Every session there is was opened by a right password, at its own expiry less the session's length. */
  lemma {:induction false} SessionsAreOpenedByPasswords(f: Settings, s: State, run: seq<Event>, expiresAt: int)
    requires Possible(f, s, run) && expiresAt in After(f, s, run).issued && expiresAt !in s.issued
    ensures Opened(f, s, run, expiresAt)
    decreases |run|
  {
    if expiresAt in Next(f, s, run[0]).issued {
      OpenedFirst(f, s, run, expiresAt);
    } else {
      SessionsAreOpenedByPasswords(f, Next(f, s, run[0]), run[1..], expiresAt);
      OpenedLater(f, s, run, expiresAt);
    }
  }

  // ---- and what was posted ----

  /** The intent and the expiry of an Allow in flight, or of one a code was written for. */
  predicate InFlight(allows: seq<Allow>, i: Intent, expiresAt: int) {
    exists j :: 0 <= j < |allows| && !allows[j].Written? && allows[j].intent == i && allows[j].expiresAt == expiresAt
  }

  predicate InCode(writtenFor: map<Hash, Allow>, i: Intent, expiresAt: int) {
    exists h :: h in writtenFor && !writtenFor[h].Written? && writtenFor[h].intent == i
                && writtenFor[h].expiresAt == expiresAt
  }

  predicate Carried(s: State, i: Intent, expiresAt: int) {
    InFlight(s.allows, i, expiresAt) || InCode(s.writtenFor, i, expiresAt)
  }

  /** The event is an Allow that was pressed, passed every check, and asked for this. */
  predicate Allowing(f: Settings, s: State, e: Event, i: Intent, expiresAt: int) {
    && e.Consent? && Allows(f, s, e) && Resolved(f, s, e.request).value == i
    && Verified(f, s, e.headers).value.expiresAt == expiresAt
  }

  lemma MovedAllowIsTheSame(allows: seq<Allow>, j: nat, a: Allow, i: Intent, expiresAt: int)
    requires j < |allows| && !allows[j].Written?
    requires a.Written? || (a.intent == allows[j].intent && a.expiresAt == allows[j].expiresAt)
    requires InFlight(allows[j := a], i, expiresAt)
    ensures InFlight(allows, i, expiresAt)
  {
    var k :| 0 <= k < |allows| && !allows[j := a][k].Written? && allows[j := a][k].intent == i
             && allows[j := a][k].expiresAt == expiresAt;
    assert !allows[k].Written? && allows[k].intent == i && allows[k].expiresAt == expiresAt;
  }

  lemma InsertCarriesNothingNew(f: Settings, s: State, j: nat, code: string, i: Intent, expiresAt: int)
    requires j < |s.allows| && s.allows[j].Coding?
    ensures Carried(AfterInsert(f, s, j, code), i, expiresAt) ==> Carried(s, i, expiresAt)
  {
    var t := AfterInsert(f, s, j, code);
    if InFlight(t.allows, i, expiresAt) {
      MovedAllowIsTheSame(s.allows, j, Written, i, expiresAt);
    } else if InCode(t.writtenFor, i, expiresAt) {
      var h :| h in t.writtenFor && !t.writtenFor[h].Written? && t.writtenFor[h].intent == i
               && t.writtenFor[h].expiresAt == expiresAt;
      if h !in s.writtenFor || s.writtenFor[h] != t.writtenFor[h] {
        assert t.writtenFor[h] == s.allows[j];
      }
    }
  }

  lemma AllowCarriesItsOwn(s: State, own: Intent, ownExpiry: int, grant: ClientGrant, choice: LabelChoice, i: Intent,
                           expiresAt: int)
    requires Carried(AfterAllow(s, own, ownExpiry, grant, choice), i, expiresAt) && !Carried(s, i, expiresAt)
    ensures i == own && expiresAt == ownExpiry
  {
    var t := AfterAllow(s, own, ownExpiry, grant, choice);
    assert t.writtenFor == s.writtenFor;
    var j :| 0 <= j < |t.allows| && !t.allows[j].Written? && t.allows[j].intent == i
             && t.allows[j].expiresAt == expiresAt;
    assert j < |s.allows| ==> t.allows[j] == s.allows[j];
  }

  lemma GrantCarriesNothingNew(s: State, j: nat, i: Intent, expiresAt: int)
    requires j < |s.allows| && s.allows[j].Granting?
    ensures Carried(AfterGrant(s, j), i, expiresAt) ==> Carried(s, i, expiresAt)
  {
    var t := AfterGrant(s, j);
    if InFlight(t.allows, i, expiresAt) {
      MovedAllowIsTheSame(s.allows, j, t.allows[j], i, expiresAt);
    }
  }

  lemma LabelCarriesNothingNew(s: State, j: nat, i: Intent, expiresAt: int)
    requires j < |s.allows| && s.allows[j].Naming?
    ensures Carried(AfterLabel(s, j), i, expiresAt) ==> Carried(s, i, expiresAt)
  {
    var t := AfterLabel(s, j);
    if InFlight(t.allows, i, expiresAt) {
      MovedAllowIsTheSame(s.allows, j, t.allows[j], i, expiresAt);
    }
  }

  predicate SameAllows(s: State, t: State) {
    t.allows == s.allows && t.writtenFor == s.writtenFor
  }

  lemma LoginCarriesTheSame(f: Settings, s: State, request: Request)
    ensures SameAllows(s, AfterLogin(f, s, request))
  {
  }

  lemma VisitCarriesTheSame(f: Settings, s: State, headers: seq<Option<string>>, request: Request)
    ensures SameAllows(s, AfterVisit(f, s, headers, request))
  {
  }

  lemma FormCarriesTheSame(f: Settings, s: State, headers: seq<Option<string>>, action: string, target: string)
    ensures SameAllows(s, AfterForm(f, s, headers, action, target))
  {
  }

  lemma PagesCarryTheSame(f: Settings, s: State, e: Event)
    requires Enabled(f, s, e) && (e.Login? || e.Visit? || e.ConsoleForm?)
    ensures SameAllows(s, Next(f, s, e))
  {
    if e.Login? {
      LoginCarriesTheSame(f, s, e.request);
    } else if e.Visit? {
      VisitCarriesTheSame(f, s, e.headers, e.request);
    } else {
      FormCarriesTheSame(f, s, e.headers, e.action, e.target);
    }
  }

  lemma StoppedPostCarriesTheSame(f: Settings, s: State, e: Event)
    requires Enabled(f, s, e) && e.Consent? && !Allows(f, s, e)
    ensures SameAllows(s, Next(f, s, e))
  {
  }

  lemma ApprovalCarriesTheSame(s: State, stands: bool, id: string, grant: ClientGrant)
    ensures SameAllows(s, AfterApproval(s, stands, id, grant))
  {
  }

  lemma ConsoleCarriesTheSame(f: Settings, s: State, e: Event)
    requires Enabled(f, s, e) && (e.ConsoleLogin? || e.ConsoleApprove?)
    ensures SameAllows(s, Next(f, s, e))
  {
    if e.ConsoleApprove? {
      ApprovalCarriesTheSame(s, ApprovalStands(f, s, e.headers, e.action, e.target, e.csrf), e.id, e.grant);
    }
  }

  lemma TokenCarriesTheSame(f: Settings, s: State, t: Runs.Event)
    requires Enabled(f, s, Event.Token(t))
    ensures SameAllows(s, Next(f, s, Event.Token(t)))
  {
  }

  predicate Allowed(f: Settings, s: State, e: Event) {
    e.Consent? && Allows(f, s, e)
  }

  lemma OthersCarryNothingNew(f: Settings, s: State, e: Event, i: Intent, expiresAt: int)
    requires Enabled(f, s, e) && !Allowed(f, s, e)
    ensures Carried(Next(f, s, e), i, expiresAt) ==> Carried(s, i, expiresAt)
  {
    if e.SetGrant? {
      GrantCarriesNothingNew(s, e.j, i, expiresAt);
    } else if e.SetLabel? {
      LabelCarriesNothingNew(s, e.j, i, expiresAt);
    } else if e.InsertCode? {
      InsertCarriesNothingNew(f, s, e.j, e.code, i, expiresAt);
    } else if e.Login? || e.Visit? || e.ConsoleForm? {
      PagesCarryTheSame(f, s, e);
    } else if e.Consent? {
      StoppedPostCarriesTheSame(f, s, e);
    } else if e.Token? {
      TokenCarriesTheSame(f, s, e.e);
    } else {
      ConsoleCarriesTheSame(f, s, e);
    }
  }

  lemma OnlyAllowsCarry(f: Settings, s: State, e: Event, i: Intent, expiresAt: int)
    requires Enabled(f, s, e)
    ensures Carried(Next(f, s, e), i, expiresAt) && !Carried(s, i, expiresAt) ==> Allowing(f, s, e, i, expiresAt)
  {
    if !Allowed(f, s, e) {
      OthersCarryNothingNew(f, s, e, i, expiresAt);
    } else if Carried(Next(f, s, e), i, expiresAt) && !Carried(s, i, expiresAt) {
      AllowCarriesItsOwn(s, Resolved(f, s, e.request).value, Verified(f, s, e.headers).value.expiresAt,
                         ChosenGrant(e.profile).value, Typed(f, s, e), i, expiresAt);
    }
  }

  ghost predicate AllowedAt(f: Settings, s: State, run: seq<Event>, k: nat, i: Intent, expiresAt: int) {
    k < |run| && Possible(f, s, run[..k]) && Allowing(f, After(f, s, run[..k]), run[k], i, expiresAt)
  }

  lemma AllowedLater(f: Settings, s: State, run: seq<Event>, j: nat, i: Intent, expiresAt: int)
    requires run != [] && Enabled(f, s, run[0]) && AllowedAt(f, Next(f, s, run[0]), run[1..], j, i, expiresAt)
    ensures AllowedAt(f, s, run, j + 1, i, expiresAt)
  {
    assert run[..j + 1][0] == run[0] && run[..j + 1][1..] == run[1..][..j];
  }

  lemma AllowedFirst(f: Settings, s: State, run: seq<Event>, i: Intent, expiresAt: int)
    requires run != [] && Allowing(f, s, run[0], i, expiresAt)
    ensures AllowedAt(f, s, run, 0, i, expiresAt)
  {
    assert run[..0] == [];
  }

  /** Everything on its way to a code, or behind one, was asked for by an Allow of the run. */
  lemma {:induction false} EverythingWasAllowed(f: Settings, s: State, run: seq<Event>, i: Intent, expiresAt: int)
    returns (k: nat)
    requires Possible(f, s, run) && Carried(After(f, s, run), i, expiresAt) && !Carried(s, i, expiresAt)
    ensures AllowedAt(f, s, run, k, i, expiresAt)
    decreases |run|
  {
    if Carried(Next(f, s, run[0]), i, expiresAt) {
      OnlyAllowsCarry(f, s, run[0], i, expiresAt);
      AllowedFirst(f, s, run, i, expiresAt);
      k := 0;
    } else {
      var j := EverythingWasAllowed(f, Next(f, s, run[0]), run[1..], i, expiresAt);
      AllowedLater(f, s, run, j, i, expiresAt);
      k := j + 1;
    }
  }

  /** The post an Allow was pressed on, told by its fields: a checked choice, and the values of the row. */
  ghost predicate PostedFor(f: Settings, s: State, e: Event, row: CodeRow, expiresAt: int) {
    && e.Consent? && e.allow && ChosenGrant(e.profile).Some?
    && e.request.clientId == row.clientId && e.request.redirectUri == row.redirectUri
    && e.request.challenge == row.challenge && e.request.resource == row.resource
    && ScopeAsked(e.request.scope, row.scope)
    && Verified(f, s, e.headers).Some? && Verified(f, s, e.headers).value.expiresAt == expiresAt
  }

  ghost predicate PostedAt(f: Settings, s: State, run: seq<Event>, k: nat, row: CodeRow, expiresAt: int) {
    k < |run| && Possible(f, s, run[..k]) && PostedFor(f, After(f, s, run[..k]), run[k], row, expiresAt)
  }

  lemma AllowingIsPosted(f: Settings, s: State, e: Event, i: Intent, expiresAt: int, row: CodeRow)
    requires Allowing(f, s, e, i, expiresAt) && WrittenAs(row, i)
    ensures PostedFor(f, s, e, row, expiresAt)
  {
    ResolvedIsSound(f.cfg, f.parses, s.grants.db, e.request);
  }

  lemma CodeIsCarried(f: Settings, s: State, h: Hash)
    requires Known(f, s) && h in s.grants.db.codes
    ensures h in s.writtenFor && s.writtenFor[h].Coding?
    ensures WrittenAs(s.grants.db.codes[h], s.writtenFor[h].intent)
    ensures Carried(s, s.writtenFor[h].intent, s.writtenFor[h].expiresAt)
  {
    assert InCode(s.writtenFor, s.writtenFor[h].intent, s.writtenFor[h].expiresAt);
  }

  lemma CarriedWasPosted(f: Settings, now: int, run: seq<Event>, i: Intent, expiresAt: int, row: CodeRow)
    returns (k: nat)
    requires f.sessions.Hexes() && Possible(f, Init(now), run)
    requires Carried(After(f, Init(now), run), i, expiresAt) && WrittenAs(row, i)
    ensures PostedAt(f, Init(now), run, k, row, expiresAt)
  {
    k := EverythingWasAllowed(f, Init(now), run, i, expiresAt);
    AllowingIsPosted(f, After(f, Init(now), run[..k]), run[k], i, expiresAt, row);
  }

  lemma CodesWerePosted(f: Settings, now: int, run: seq<Event>, h: Hash) returns (k: nat)
    requires f.sessions.Hexes() && Possible(f, Init(now), run)
    requires h in After(f, Init(now), run).grants.db.codes
    ensures var s := After(f, Init(now), run);
            h in s.writtenFor && s.writtenFor[h].Coding?
            && PostedAt(f, Init(now), run, k, s.grants.db.codes[h], s.writtenFor[h].expiresAt)
  {
    RunKeepsKnown(f, Init(now), run);
    var s := After(f, Init(now), run);
    CodeIsCarried(f, s, h);
    var a, row := s.writtenFor[h], s.grants.db.codes[h];
    k := CarriedWasPosted(f, now, run, a.intent, a.expiresAt, row);
  }

  /** In every reachable state each code stands for an Allow whose consent page was rendered for the same client,
      redirect URI, challenge and state, under a session of the same expiry that a correct password opened. */
  lemma CodesWereConsentedTo(f: Settings, now: int, run: seq<Event>, h: Hash)
    requires f.sessions.Hexes() && Possible(f, Init(now), run)
    requires h in After(f, Init(now), run).grants.db.codes
    ensures var s := After(f, Init(now), run);
            var row := s.grants.db.codes[h];
            && h in s.writtenFor && s.writtenFor[h].Coding?
            && var i, expiresAt := s.writtenFor[h].intent, s.writtenFor[h].expiresAt;
            && row.scope == i.scope && row.resource == i.resource
            && Opened(f, Init(now), run, expiresAt)
            && (exists k :: PostedAt(f, Init(now), run, k, row, expiresAt))
            && exists p :: p in s.pages && p.clientId == row.clientId && p.redirectUri == row.redirectUri
                           && p.challenge == row.challenge && p.state == StateOf(i.state) && p.expiresAt == expiresAt
  {
    RunKeepsKnown(f, Init(now), run);
    var s := After(f, Init(now), run);
    assert WrittenAs(s.grants.db.codes[h], s.writtenFor[h].intent);
    SessionsAreOpenedByPasswords(f, Init(now), run, s.writtenFor[h].expiresAt);
    var k := CodesWerePosted(f, now, run, h);
    var p :| p in s.pages && Answers(p, s.writtenFor[h].intent, s.writtenFor[h].expiresAt);
  }

  // ---- under it, the token endpoint's own runs ----

  /** Clients the owner is approving exist; once approved they stay so. */
  predicate AllowedClientsKnown(s: State) {
    forall j | 0 <= j < |s.allows| ::
      && (!s.allows[j].Written? ==> s.allows[j].intent.clientId in s.grants.db.clients)
      && (s.allows[j].Naming? || s.allows[j].Coding? ==> s.grants.db.clients[s.allows[j].intent.clientId].consented)
  }

  /** The token endpoint's step inside a step, if it has one. */
  function Inner(f: Settings, s: State, e: Event): seq<Runs.Event>
    requires Enabled(f, s, e)
  {
    match e
    case Token(t) => [t]
    case SetGrant(j) => [Runs.Approve(s.allows[j].intent.clientId, s.allows[j].grant)]
    case SetLabel(j) => [Runs.Rename(s.allows[j].intent.clientId, s.allows[j].name)]
    case InsertCode(j, code) =>
      if Stores(f, s, j, code) then [Runs.Permit(code, CodeRowFor(f, s, s.allows[j].intent))] else []
    case ConsoleApprove(headers, action, target, csrf, id, grant) =>
      if ApprovalStands(f, s, headers, action, target, csrf) then [Runs.Approve(id, grant)] else []
    case _ => []
  }

  lemma PermitIsEnabled(f: Settings, s: State, j: nat, code: string)
    requires j < |s.allows| && s.allows[j].Coding? && Stores(f, s, j, code) && AllowedClientsKnown(s)
    ensures var e := Runs.Permit(code, CodeRowFor(f, s, s.allows[j].intent));
            Runs.Enabled(f.cfg, s.grants, e) && Runs.Next(f.cfg, s.grants, e) == AfterInsert(f, s, j, code).grants
  {
  }

  lemma OwnersStepIsEnabled(f: Settings, s: State, e: Event)
    requires Enabled(f, s, e) && (e.SetGrant? || e.SetLabel? || e.ConsoleApprove?) && Inner(f, s, e) != []
    ensures Runs.Enabled(f.cfg, s.grants, Inner(f, s, e)[0])
    ensures Runs.Next(f.cfg, s.grants, Inner(f, s, e)[0]) == Next(f, s, e).grants
  {
  }

  lemma InnerIsEnabled(f: Settings, s: State, e: Event)
    requires Enabled(f, s, e) && AllowedClientsKnown(s) && Inner(f, s, e) != []
    ensures Runs.Enabled(f.cfg, s.grants, Inner(f, s, e)[0])
    ensures Runs.Next(f.cfg, s.grants, Inner(f, s, e)[0]) == Next(f, s, e).grants
  {
    if e.InsertCode? {
      PermitIsEnabled(f, s, e.j, e.code);
    } else if !e.Token? {
      OwnersStepIsEnabled(f, s, e);
    }
  }

  lemma AtMostOneInner(f: Settings, s: State, e: Event)
    requires Enabled(f, s, e)
    ensures Inner(f, s, e) == [] || Inner(f, s, e) == [Inner(f, s, e)[0]]
  {
  }

  lemma NoInnerNoChange(f: Settings, s: State, e: Event)
    requires Enabled(f, s, e) && Inner(f, s, e) == []
    ensures Next(f, s, e).grants == s.grants
  {
  }

  lemma InnerIsAStep(f: Settings, s: State, e: Event)
    requires Enabled(f, s, e) && AllowedClientsKnown(s)
    ensures var inner := Inner(f, s, e);
            && Runs.Possible(f.cfg, s.grants, inner)
            && Runs.After(f.cfg, s.grants, inner) == Next(f, s, e).grants
    ensures Provenance.ClientsKept(s.grants.db, Next(f, s, e).grants.db)
  {
    var inner := Inner(f, s, e);
    AtMostOneInner(f, s, e);
    if inner != [] {
      InnerIsEnabled(f, s, e);
      Runs.OneEvent(f.cfg, s.grants, inner[0]);
      Provenance.StepKeepsClients(f.cfg, s.grants, inner[0]);
    } else {
      NoInnerNoChange(f, s, e);
    }
  }

  lemma GrantKeepsAllowed(s: State, j: nat)
    requires AllowedClientsKnown(s) && j < |s.allows| && s.allows[j].Granting?
    ensures AllowedClientsKnown(AfterGrant(s, j))
  {
  }

  lemma LabelKeepsAllowed(s: State, j: nat)
    requires AllowedClientsKnown(s) && j < |s.allows| && s.allows[j].Naming?
    ensures AllowedClientsKnown(AfterLabel(s, j))
  {
  }

  lemma InsertKeepsAllowed(f: Settings, s: State, j: nat, code: string)
    requires AllowedClientsKnown(s) && j < |s.allows| && s.allows[j].Coding?
    ensures AllowedClientsKnown(AfterInsert(f, s, j, code))
  {
  }

  lemma AllowKeepsAllowed(s: State, i: Intent, expiresAt: int, grant: ClientGrant, choice: LabelChoice)
    requires AllowedClientsKnown(s) && i.clientId in s.grants.db.clients
    ensures AllowedClientsKnown(AfterAllow(s, i, expiresAt, grant, choice))
  {
  }

  lemma SameAllowsStayKnown(s: State, t: State)
    requires AllowedClientsKnown(s) && t.allows == s.allows && Provenance.ClientsKept(s.grants.db, t.grants.db)
    ensures AllowedClientsKnown(t)
  {
  }

  lemma OtherStepsKeepAllows(f: Settings, s: State, e: Event)
    requires Enabled(f, s, e) && !e.SetGrant? && !e.SetLabel? && !e.InsertCode? && !e.Consent?
    ensures Next(f, s, e).allows == s.allows
  {
  }

  lemma StepKeepsAllowedClients(f: Settings, s: State, e: Event)
    requires Enabled(f, s, e) && AllowedClientsKnown(s)
    ensures AllowedClientsKnown(Next(f, s, e))
  {
    if e.SetGrant? {
      GrantKeepsAllowed(s, e.j);
    } else if e.SetLabel? {
      LabelKeepsAllowed(s, e.j);
    } else if e.InsertCode? {
      InsertKeepsAllowed(f, s, e.j, e.code);
    } else if e.Consent? {
      if Allows(f, s, e) {
        ResolvedIsSound(f.cfg, f.parses, s.grants.db, e.request);
        AllowKeepsAllowed(s, Resolved(f, s, e.request).value, Verified(f, s, e.headers).value.expiresAt,
                          ChosenGrant(e.profile).value, Typed(f, s, e));
      }
    } else {
      OtherStepsKeepAllows(f, s, e);
      InnerIsAStep(f, s, e);
      SameAllowsStayKnown(s, Next(f, s, e));
    }
  }

  /** So every run here is a run of the token endpoint, and all that holds of those holds of these. */
  lemma {:induction false} RunsAreTokenRuns(f: Settings, s: State, run: seq<Event>) returns (inner: seq<Runs.Event>)
    requires AllowedClientsKnown(s) && Possible(f, s, run)
    ensures Runs.Possible(f.cfg, s.grants, inner)
    ensures Runs.After(f.cfg, s.grants, inner) == After(f, s, run).grants
    decreases |run|
  {
    if run == [] {
      inner := [];
    } else {
      var t := Next(f, s, run[0]);
      InnerIsAStep(f, s, run[0]);
      StepKeepsAllowedClients(f, s, run[0]);
      var rest := RunsAreTokenRuns(f, t, run[1..]);
      Runs.RunsCompose(f.cfg, s.grants, Inner(f, s, run[0]), rest);
      inner := Inner(f, s, run[0]) + rest;
    }
  }

  /** The family and the client of a token, access or refresh. */
  function TokenFamily(db: Db, h: Hash): Family
    requires h in db.tokens || h in db.refreshes
  {
    if h in db.tokens then db.tokens[h].family else db.refreshes[h].family
  }

  function TokenClient(db: Db, h: Hash): string
    requires h in db.tokens || h in db.refreshes
  {
    if h in db.tokens then db.tokens[h].clientId else db.refreshes[h].clientId
  }

  /** The page behind a code shows the client, and the redirect URI and the challenge that the exchange which opened the
      code went on to meet. */
  predicate PageMet(f: Settings, p: Page, id: string, x: ExchangeReq, expiresAt: int, state: string) {
    && p.clientId == id && p.expiresAt == expiresAt && p.state == state
    && p.redirectUri == x.redirectUri && p.challenge == f.cfg.s256(x.verifier)
  }

  /** Every access and refresh token descends from a spent code whose consent page the owner was shown while signed in,
      with the values the exchange of that code met. */
  lemma EveryTokenWasConsentedTo(f: Settings, now: int, run: seq<Event>, h: Hash)
    requires f.sessions.Hexes() && Possible(f, Init(now), run)
    requires var db := After(f, Init(now), run).grants.db; h in db.tokens || h in db.refreshes
    ensures var s := After(f, Init(now), run);
            var c, id := TokenFamily(s.grants.db, h).code, TokenClient(s.grants.db, h);
            && Provenance.Authorised(f.cfg, s.grants, FamilyOf(c), id)
            && c in s.writtenFor && s.writtenFor[c].Coding? && c in s.grants.openings
            && Opened(f, Init(now), run, s.writtenFor[c].expiresAt)
            && exists p :: p in s.pages
                  && PageMet(f, p, id, s.grants.openings[c], s.writtenFor[c].expiresAt,
                             StateOf(s.writtenFor[c].intent.state))
  {
    var s := After(f, Init(now), run);
    var inner := RunsAreTokenRuns(f, Init(now), run);
    Provenance.EveryTokenIsAuthorised(f.cfg, now, inner, h);
    var c, id := TokenFamily(s.grants.db, h).code, TokenClient(s.grants.db, h);
    assert Provenance.OpenedWith(f.cfg, s.grants, FamilyOf(c), id, c);
    CodesWereConsentedTo(f, now, run, c);
    var row := s.grants.db.codes[c];
    var p :| p in s.pages && p.clientId == row.clientId && p.redirectUri == row.redirectUri
             && p.challenge == row.challenge && p.state == StateOf(s.writtenFor[c].intent.state)
             && p.expiresAt == s.writtenFor[c].expiresAt;
    assert PageMet(f, p, id, s.grants.openings[c], s.writtenFor[c].expiresAt, StateOf(s.writtenFor[c].intent.state));
  }

  // ---- no password, nothing ----

  predicate ApprovalsKnown(s: State) {
    s.issued == {} ==> forall id | id in s.grants.db.clients :: !s.grants.db.clients[id].consented
  }

  lemma TokenStepApprovesNobody(cfg: Config, s: Runs.State, e: Runs.Event)
    requires Runs.Enabled(cfg, s, e) && !e.Approve?
    ensures var t := Runs.Next(cfg, s, e);
            forall id | id in t.db.clients && t.db.clients[id].consented ::
              id in s.db.clients && s.db.clients[id].consented
  {
  }

  lemma ApproverSignedIn(f: Settings, s: State, e: Event)
    requires f.sessions.Hexes() && Known(f, s) && Enabled(f, s, e)
    requires e.SetGrant? || e.SetLabel? || e.ConsoleApprove?
    ensures s.issued == {} ==> Next(f, s, e) == s
  {
    if e.SetGrant? || e.SetLabel? {
      assert Consented(s, s.allows[e.j].intent, s.allows[e.j].expiresAt);
    } else if Verified(f, s, e.headers).Some? {
      VerifiedWasIssued(f, s, e.headers);
    }
  }

  lemma OthersApproveNobody(f: Settings, s: State, e: Event)
    requires Enabled(f, s, e) && !e.SetGrant? && !e.SetLabel? && !e.ConsoleApprove? && !e.Token?
    ensures Next(f, s, e).grants.db.clients == s.grants.db.clients
  {
    if e.InsertCode? {
      assert Next(f, s, e) == AfterInsert(f, s, e.j, e.code);
    } else {
      NoInnerNoChange(f, s, e);
    }
  }

  lemma StepKeepsApprovals(f: Settings, s: State, e: Event)
    requires f.sessions.Hexes() && Known(f, s) && Enabled(f, s, e) && s.issued == {} && !PasswordRight(e)
    requires ApprovalsKnown(s)
    ensures ApprovalsKnown(Next(f, s, e))
  {
    if e.Token? {
      TokenStepApprovesNobody(f.cfg, s.grants, e.e);
    } else if e.SetGrant? || e.SetLabel? || e.ConsoleApprove? {
      ApproverSignedIn(f, s, e);
    } else {
      OthersApproveNobody(f, s, e);
    }
  }

  lemma {:induction false} RunWithoutPassword(f: Settings, s: State, run: seq<Event>)
    requires f.sessions.Hexes() && Known(f, s) && ApprovalsKnown(s) && s.issued == {} && Possible(f, s, run)
    requires forall e | e in run :: !PasswordRight(e)
    ensures After(f, s, run).issued == {} && ApprovalsKnown(After(f, s, run))
    decreases |run|
  {
    if run != [] {
      assert !PasswordRight(run[0]);
      OnlyPasswordsIssue(f, s, run[0]);
      StepKeepsKnown(f, s, run[0]);
      StepKeepsApprovals(f, s, run[0]);
      RunWithoutPassword(f, Next(f, s, run[0]), run[1..]);
    }
  }

  /** A run in which nobody typed the right password has no approved client, no grant, no code and no token. */
  lemma NoPasswordNothing(f: Settings, now: int, run: seq<Event>)
    requires f.sessions.Hexes() && Possible(f, Init(now), run)
    requires forall e | e in run :: !PasswordRight(e)
    ensures var db := After(f, Init(now), run).grants.db;
            && (forall id | id in db.clients ::
                  !db.clients[id].consented && db.clients[id].grant == NO_GRANT && db.clients[id].ownerLabel == None)
            && db.codes == map[] && db.tokens == map[] && db.refreshes == map[]
  {
    RunWithoutPassword(f, Init(now), run);
    var inner := RunsAreTokenRuns(f, Init(now), run);
    Provenance.UnapprovedClientsHoldNothing(f.cfg, Runs.Init(now), inner);
    var db := After(f, Init(now), run).grants.db;
    forall h ensures h !in db.codes && h !in db.tokens && h !in db.refreshes {
      if h in db.codes {
        CodesWereConsentedTo(f, now, run, h);
      } else if h in db.tokens || h in db.refreshes {
        EveryTokenWasConsentedTo(f, now, run, h);
      }
    }
  }
}
