/** The console's own way to an approval, in the runs of the whole server (src/console/clients.rs,
    src/authserver/session.rs). */
module ConsoleFlow {
  import opened Text
  import opened Utf8
  import Decimal
  import opened Session
  import opened OauthStore
  import opened Authorize
  import opened ConsentFlow
  import Runs = TokenRuns

  // ---- one post ----

  /** A console approval writes the grant posted exactly when a session verifies and the token is that session's for
      this action and this row; and otherwise nothing. */
  lemma ConsoleApprovesExactly(f: Settings, s: State, e: Event)
    requires e.ConsoleApprove? && Enabled(f, s, e) && e.id in s.grants.db.clients
    ensures var session, db, after := f.sessions.Verify(e.headers, s.grants.now), s.grants.db, Next(f, s, e);
            var had := db.clients[e.id];
            after == if session.Some? && e.csrf == f.sessions.ConsoleCsrf(session.value, e.action, e.target)
                     then s.(grants := s.grants.(db := db.(clients := db.clients[e.id :=
                            ClientRecord(had.name, had.secretHash, had.redirectUris, had.grantTypes, true, e.grant,
                                         had.ownerLabel, had.revoked)])))
                     else s
  {
    var had := s.grants.db.clients[e.id];
    assert had.(consented := true, grant := e.grant) ==
           ClientRecord(had.name, had.secretHash, had.redirectUris, had.grantTypes, true, e.grant, had.ownerLabel,
                        had.revoked);
  }

  // ---- every token that can be presented was on a form ----

  /** The event is a console form for this action and row, shown to the session of this signature. */
  predicate Renders(f: Settings, s: State, e: Event, tag: string, action: string, target: string) {
    && e.ConsoleForm? && e.action == action && e.target == target
    && Verified(f, s, e.headers).Some? && Verified(f, s, e.headers).value.signature == tag
  }

  lemma SameConsoleInput(tag: string, action: string, target: string, tag1: string, action1: string, target1: string)
    requires IsTag(tag) && Fits(action) && Fits(target) && IsTag(tag1) && Fits(action1) && Fits(target1)
    requires ConsoleInput(tag, action, target) == ConsoleInput(tag1, action1, target1)
    ensures tag == tag1 && action == action1 && target == target1
  {
    ConsoleFieldsAdmissible(tag, action, target);
    ConsoleFieldsAdmissible(tag1, action1, target1);
    InputInjective(CSRF_CONSOLE, [tag, action, target], CSRF_CONSOLE, [tag1, action1, target1]);
    ThreeAreOne(tag, action, target, tag1, action1, target1);
  }

  lemma FormMintsItsOwn(f: Settings, s: State, e: Event, tag: string, action: string, target: string)
    requires f.sessions.Hexes() && Known(f, s) && e.ConsoleForm? && CanForm(f, s, e.headers, e.action, e.target)
    requires IsTag(tag) && Fits(action) && Fits(target)
    requires ConsoleInput(tag, action, target) in AfterForm(f, s, e.headers, e.action, e.target).minted
    ensures ConsoleInput(tag, action, target) in s.minted || Renders(f, s, e, tag, action, target)
  {
    if ConsoleInput(tag, action, target) !in s.minted {
      VerifiedWasIssued(f, s, e.headers);
      var session := Verified(f, s, e.headers).value;
      assert IsTag(session.signature) by { assert IsTag(f.sessions.mac(SessionInput(session.expiresAt))); }
      SameConsoleInput(tag, action, target, session.signature, e.action, e.target);
    }
  }

  /** A session issued, or a page rendered. */
  ghost predicate OwnersInput(t: State, b: Bytes) {
    (exists x :: IssuedInput(t, x, b)) || (exists p :: p in t.pages && b == CsrfInput(p))
  }

  lemma SessionMints(f: Settings, s: State, b: Bytes)
    requires CanIssue(f, s) && b in WithSession(f, s).minted && b !in s.minted
    ensures OwnersInput(WithSession(f, s), b)
  {
    assert IssuedInput(WithSession(f, s), s.grants.now + f.sessions.ttl, b);
  }

  lemma PageMints(s: State, p: Page, b: Bytes)
    requires b in WithPage(s, p).minted && b !in s.minted
    ensures OwnersInput(WithPage(s, p), b)
  {
    assert p in WithPage(s, p).pages;
  }

  lemma OwnersInputStays(s: State, p: Page, b: Bytes)
    requires OwnersInput(s, b)
    ensures OwnersInput(WithPage(s, p), b)
  {
    if x :| IssuedInput(s, x, b) {
      assert IssuedInput(WithPage(s, p), x, b);
    } else if q :| q in s.pages && b == CsrfInput(q) {
      assert q in WithPage(s, p).pages;
    }
  }

  lemma LoginMints(f: Settings, s: State, request: Request, b: Bytes)
    requires CanSignIn(f, s, request) && b in AfterLogin(f, s, request).minted && b !in s.minted
    ensures OwnersInput(AfterLogin(f, s, request), b)
  {
    var signedIn, p := WithSession(f, s), PageFor(Resolved(f, s, request).value, SessionNow(f, s).value);
    if b in signedIn.minted {
      SessionMints(f, s, b);
      OwnersInputStays(signedIn, p, b);
    } else {
      PageMints(signedIn, p, b);
    }
  }

  lemma VisitMints(f: Settings, s: State, headers: seq<Option<string>>, request: Request, b: Bytes)
    requires b in AfterVisit(f, s, headers, request).minted && b !in s.minted
    ensures OwnersInput(AfterVisit(f, s, headers, request), b)
  {
    PageMints(s, PageFor(Resolved(f, s, request).value, Verified(f, s, headers).value), b);
  }

  predicate Quiet(e: Event) {
    !e.ConsoleForm? && !e.Visit? && !(e.Login? && e.right) && !(e.ConsoleLogin? && e.right)
  }

  lemma QuietMintsNothing(f: Settings, s: State, e: Event)
    requires Enabled(f, s, e) && Quiet(e)
    ensures Next(f, s, e).minted == s.minted
  {
    match e
    case Token(_) =>
    case Consent(_, _, _, _, _, _) =>
    case SetGrant(j) =>
    case SetLabel(j) =>
    case InsertCode(j, code) => InsertMintsNothing(f, s, j, code);
    case _ =>
  }

  lemma InsertMintsNothing(f: Settings, s: State, j: nat, code: string)
    requires j < |s.allows| && s.allows[j].Coding?
    ensures AfterInsert(f, s, j, code).minted == s.minted
  {
  }

  /** What a sign-in or a visit puts through the MAC: a session it issued, a page it rendered. */
  lemma OthersMint(f: Settings, s: State, e: Event, b: Bytes)
    requires Enabled(f, s, e) && !e.ConsoleForm? && b in Next(f, s, e).minted && b !in s.minted
    ensures OwnersInput(Next(f, s, e), b)
  {
    if Quiet(e) {
      QuietMintsNothing(f, s, e);
    } else if e.Visit? {
      VisitMints(f, s, e.headers, e.request, b);
    } else if e.Login? {
      LoginMints(f, s, e.request, b);
    } else {
      SessionMints(f, s, b);
    }
  }

  lemma OnlyFormsMint(f: Settings, s: State, e: Event, tag: string, action: string, target: string)
    requires f.sessions.Hexes() && Known(f, s) && Enabled(f, s, e)
    requires IsTag(tag) && Fits(action) && Fits(target)
    requires ConsoleInput(tag, action, target) in Next(f, s, e).minted
    ensures ConsoleInput(tag, action, target) in s.minted || Renders(f, s, e, tag, action, target)
  {
    var b, t := ConsoleInput(tag, action, target), Next(f, s, e);
    if e.ConsoleForm? {
      FormMintsItsOwn(f, s, e, tag, action, target);
    } else if b !in s.minted {
      OthersMint(f, s, e, b);
      StepKeepsKnown(f, s, e);
      NotAConsoleInput(f, t, tag, action, target);
      assert false;
    }
  }

  lemma NotAConsoleInput(f: Settings, t: State, tag: string, action: string, target: string)
    requires f.sessions.Hexes() && Known(f, t) && IsTag(tag) && Fits(action) && Fits(target)
    ensures forall x :: !IssuedInput(t, x, ConsoleInput(tag, action, target))
    ensures forall p | p in t.pages :: ConsoleInput(tag, action, target) != CsrfInput(p)
  {
    var b := ConsoleInput(tag, action, target);
    forall x ensures !IssuedInput(t, x, b) {
      if IssuedInput(t, x, b) {
        NumeralFits(x);
        SessionIsNoConsole(Decimal.ToString(x), tag, action, target);
      }
    }
    forall p | p in t.pages ensures b != CsrfInput(p) {
      PageTagged(f, t, p);
      CsrfIsNoConsole(p, tag, action, target);
    }
  }

  ghost predicate RendersAt(f: Settings, s: State, run: seq<Event>, k: nat, tag: string, action: string,
                            target: string)
  {
    k < |run| && Possible(f, s, run[..k]) && Renders(f, After(f, s, run[..k]), run[k], tag, action, target)
  }

  lemma RendersFirst(f: Settings, s: State, run: seq<Event>, tag: string, action: string, target: string)
    requires run != [] && Renders(f, s, run[0], tag, action, target)
    ensures RendersAt(f, s, run, 0, tag, action, target)
  {
    assert run[..0] == [];
  }

  lemma RendersLater(f: Settings, s: State, run: seq<Event>, j: nat, tag: string, action: string, target: string)
    requires run != [] && Enabled(f, s, run[0]) && RendersAt(f, Next(f, s, run[0]), run[1..], j, tag, action, target)
    ensures RendersAt(f, s, run, j + 1, tag, action, target)
  {
    assert run[..j + 1][0] == run[0] && run[..j + 1][1..] == run[1..][..j];
  }

  lemma {:induction false} InputsWereOnForms(f: Settings, s: State, run: seq<Event>, tag: string, action: string,
                                             target: string) returns (k: nat)
    requires f.sessions.Hexes() && Known(f, s) && Possible(f, s, run)
    requires IsTag(tag) && Fits(action) && Fits(target)
    requires ConsoleInput(tag, action, target) in After(f, s, run).minted
    requires ConsoleInput(tag, action, target) !in s.minted
    ensures RendersAt(f, s, run, k, tag, action, target)
    decreases |run|
  {
    var next := Next(f, s, run[0]);
    if ConsoleInput(tag, action, target) in next.minted {
      OnlyFormsMint(f, s, run[0], tag, action, target);
      RendersFirst(f, s, run, tag, action, target);
      k := 0;
    } else {
      StepKeepsKnown(f, s, run[0]);
      var j := InputsWereOnForms(f, next, run[1..], tag, action, target);
      RendersLater(f, s, run, j, tag, action, target);
      k := j + 1;
    }
  }

  /** A console approval that stands, at the end of any run, answers a form that the run showed for the same action and
      row, to the same session, which a right password opened. A token that verifies is taken to have been minted. */
  lemma ApprovalAnswersAForm(f: Settings, now: int, run: seq<Event>, e: Event) returns (k: nat)
    requires f.sessions.Hexes() && Possible(f, Init(now), run) && e.ConsoleApprove? && Fits(e.action) && Fits(e.target)
    requires var s := After(f, Init(now), run);
             && Enabled(f, s, e) && ApprovalStands(f, s, e.headers, e.action, e.target, e.csrf)
             && ConsoleInput(Verified(f, s, e.headers).value.signature, e.action, e.target) in s.minted
    ensures var session := Verified(f, After(f, Init(now), run), e.headers).value;
            && RendersAt(f, Init(now), run, k, session.signature, e.action, e.target)
            && (e.target == e.id || (e.action == "client-new" && e.target == "new"))
            && Opened(f, Init(now), run, session.expiresAt)
  {
    var s := After(f, Init(now), run);
    RunKeepsKnown(f, Init(now), run);
    VerifiedWasIssued(f, s, e.headers);
    var session := Verified(f, s, e.headers).value;
    assert IsTag(session.signature) by { assert IsTag(f.sessions.mac(SessionInput(session.expiresAt))); }
    SessionsAreOpenedByPasswords(f, Init(now), run, session.expiresAt);
    k := InputsWereOnForms(f, Init(now), run, session.signature, e.action, e.target);
  }

  // ---- who approves ----

  /** The grant an Allow is about to write, or a console approval that stands. */
  predicate Approving(f: Settings, s: State, e: Event, id: string) {
    || (e.SetGrant? && e.j < |s.allows| && s.allows[e.j].Granting? && s.allows[e.j].intent.clientId == id)
    || (e.ConsoleApprove? && e.id == id && ApprovalStands(f, s, e.headers, e.action, e.target, e.csrf))
  }

  predicate Approved(s: State, id: string) {
    id in s.grants.db.clients && s.grants.db.clients[id].consented
  }

  lemma TokenApprovesNobody(f: Settings, s: State, t: Runs.Event, id: string)
    requires Enabled(f, s, Event.Token(t)) && Approved(Next(f, s, Event.Token(t)), id)
    ensures Approved(s, id)
  {
  }

  lemma ApprovalApprovesOne(s: State, stands: bool, posted: string, grant: ClientGrant, id: string)
    requires Approved(AfterApproval(s, stands, posted, grant), id) && !Approved(s, id)
    ensures stands && posted == id
  {
  }

  lemma ConsoleApprovesOne(f: Settings, s: State, e: Event, id: string)
    requires Enabled(f, s, e) && e.ConsoleApprove? && Approved(Next(f, s, e), id) && !Approved(s, id)
    ensures Approving(f, s, e, id)
  {
    ApprovalApprovesOne(s, ApprovalStands(f, s, e.headers, e.action, e.target, e.csrf), e.id, e.grant, id);
  }

  lemma WritesApproveNobody(f: Settings, s: State, e: Event, id: string)
    requires Enabled(f, s, e) && (e.SetLabel? || e.InsertCode?) && Approved(Next(f, s, e), id)
    ensures Approved(s, id)
  {
  }

  lemma PagesApproveNobody(f: Settings, s: State, e: Event)
    requires Enabled(f, s, e) && (e.Login? || e.Visit? || e.Consent? || e.ConsoleLogin? || e.ConsoleForm?)
    ensures Next(f, s, e).grants == s.grants
  {
  }

  lemma OnlyApprovalsApprove(f: Settings, s: State, e: Event, id: string)
    requires Enabled(f, s, e) && Approved(Next(f, s, e), id) && !Approved(s, id)
    ensures Approving(f, s, e, id)
  {
    if e.Token? {
      TokenApprovesNobody(f, s, e.e, id);
    } else if e.ConsoleApprove? {
      ConsoleApprovesOne(f, s, e, id);
    } else if e.SetLabel? || e.InsertCode? {
      WritesApproveNobody(f, s, e, id);
    } else if !e.SetGrant? {
      PagesApproveNobody(f, s, e);
    }
  }

  ghost predicate ApprovedAt(f: Settings, s: State, run: seq<Event>, k: nat, id: string) {
    k < |run| && Possible(f, s, run[..k]) && Approving(f, After(f, s, run[..k]), run[k], id)
  }

  lemma ApprovedFirst(f: Settings, s: State, run: seq<Event>, id: string)
    requires run != [] && Approving(f, s, run[0], id)
    ensures ApprovedAt(f, s, run, 0, id)
  {
    assert run[..0] == [];
  }

  lemma OneEventOn(f: Settings, s: State, run: seq<Event>, j: nat)
    requires run != [] && Enabled(f, s, run[0]) && j < |run[1..]| && Possible(f, Next(f, s, run[0]), run[1..][..j])
    ensures run[j + 1] == run[1..][j] && Possible(f, s, run[..j + 1])
    ensures After(f, s, run[..j + 1]) == After(f, Next(f, s, run[0]), run[1..][..j])
  {
    assert run[..j + 1][0] == run[0] && run[..j + 1][1..] == run[1..][..j];
  }

  lemma ApprovedLater(f: Settings, s: State, run: seq<Event>, j: nat, id: string)
    requires run != [] && Enabled(f, s, run[0]) && ApprovedAt(f, Next(f, s, run[0]), run[1..], j, id)
    ensures ApprovedAt(f, s, run, j + 1, id)
  {
    OneEventOn(f, s, run, j);
  }

  /** Every approved client was approved by an Allow of the run or by a console post of the run that stood. */
  lemma {:induction false} ApprovedClientsWereApproved(f: Settings, s: State, run: seq<Event>, id: string)
    returns (k: nat)
    requires Possible(f, s, run) && Approved(After(f, s, run), id) && !Approved(s, id)
    ensures ApprovedAt(f, s, run, k, id)
    decreases |run|
  {
    if Approved(Next(f, s, run[0]), id) {
      OnlyApprovalsApprove(f, s, run[0], id);
      ApprovedFirst(f, s, run, id);
      k := 0;
    } else {
      var j := ApprovedClientsWereApproved(f, Next(f, s, run[0]), run[1..], id);
      ApprovedLater(f, s, run, j, id);
      k := j + 1;
    }
  }
}
