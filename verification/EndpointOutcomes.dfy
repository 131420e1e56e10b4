/** What each request at the token and revocation endpoints answers and leaves, told by the form, the credentials and
    the tables alone: nothing here is defined by the handlers' own decisions
    (src/authserver/routes.rs `exchange_code`, `rotate`, `issue_tokens`, `revoke`). */
module EndpointOutcomes {
  import opened Text
  import opened OauthStore
  import opened TokenEndpoint
  import opened TokenRuns
  import opened AtomicRuns
  import opened RefusedRefresh

  // ---- what has to be right, told by the tables ----

  predicate Given(v: Option<string>) {
    v.Some? && |v.value| > 0
  }

  predicate NamesNoOther(creds: Credentials, id: string) {
    creds.clientId == None || creds.clientId == Some(id)
  }

  predicate Standing(db: Db, id: string) {
    id in db.clients && !db.clients[id].revoked
  }

  /** A confidential client's own secret, or none for a public one. */
  predicate SecretRight(db: Db, id: string, secret: Option<string>)
    requires id in db.clients
  {
    if db.clients[id].secretHash == None then secret == None
    else secret.Some? && db.clients[id].secretHash == Some(Sha256(secret.value))
  }

  predicate ClientRight(db: Db, id: string, secret: Option<string>) {
    Standing(db, id) && db.clients[id].consented && SecretRight(db, id, secret)
  }

  /** An approved client's wrong secret, or no such live client. Want of approval is another error. */
  predicate ClientWrong(db: Db, id: string, secret: Option<string>) {
    !Standing(db, id) || (db.clients[id].consented && !SecretRight(db, id, secret))
  }

  predicate ProvesChallenge(cfg: Config, challenge: string, verifier: string) {
    && cfg.s256(verifier) == challenge
    && 43 <= |verifier| && |verifier| <= 128
    && forall c | c in verifier ::
         'a' <= c <= 'z' || 'A' <= c <= 'Z' || '0' <= c <= '9' || c in ['-', '.', '_', '~']
  }

  predicate SameResource(cfg: Config, a: string, b: string) {
    cfg.canon(a).Some? && cfg.canon(a) == cfg.canon(b)
  }

  /** A resource, and this deployment's own unless the setting is off. */
  predicate Served(cfg: Config, resource: string) {
    cfg.canon(resource).Some? && (cfg.audience == Off || SameResource(cfg, resource, cfg.served))
  }

  /** The code's own resource, else the one asked for, else the served one. */
  function ExchangeStamp(cfg: Config, bound: Option<string>, asked: Option<string>): string {
    if bound.Some? then bound.value else if Given(asked) then asked.value else cfg.served
  }

  predicate ExchangeResourceRight(cfg: Config, bound: Option<string>, asked: Option<string>) {
    && (bound.Some? && Given(asked) ==> SameResource(cfg, bound.value, asked.value))
    && (bound.Some? || Given(asked) ==> Served(cfg, ExchangeStamp(cfg, bound, asked)))
  }

  function RotationStamp(cfg: Config, asked: Option<string>): string {
    if Given(asked) then asked.value else cfg.served
  }

  // ---- the handlers' decisions are these ----

  lemma CallersAgree(db: Db, id: string, creds: Credentials)
    ensures !NamesAnother(creds, id) <==> NamesNoOther(creds, id)
    ensures Refusal(db, id, creds) ==
            if ClientRight(db, id, creds.secret) then None
            else if ClientWrong(db, id, creds.secret) then Some(InvalidClient)
            else Some(InvalidGrant)
  {
  }

  lemma VerifiersAgree(cfg: Config, challenge: string, verifier: string)
    ensures VerifyPkce(cfg, challenge, verifier) <==> ProvesChallenge(cfg, challenge, verifier)
  {
    if VerifyPkce(cfg, challenge, verifier) {
      forall c | c in verifier ensures VerifierChar(c) {}
    }
    if ProvesChallenge(cfg, challenge, verifier) {
      forall k | 0 <= k < |verifier| ensures VerifierChar(verifier[k]) {
        assert verifier[k] in verifier;
      }
    }
  }

  lemma IssueResourcesAgree(cfg: Config, asked: Option<string>)
    ensures ResourceForIssue(cfg, Field(asked)) ==
            if Given(asked) && !Served(cfg, asked.value) then Err(InvalidTarget) else Ok(RotationStamp(cfg, asked))
  {
  }

  lemma ExchangeResourcesAgree(cfg: Config, bound: Option<string>, asked: Option<string>)
    ensures ResourceForCode(cfg, bound, Field(asked)) ==
            if ExchangeResourceRight(cfg, bound, asked) then Ok(ExchangeStamp(cfg, bound, asked))
            else Err(InvalidTarget)
  {
  }

  // ---- what a grant stores ----

  /** One access row, and one refresh row when the client registered for it; every other row as before. */
  predicate Stores(cfg: Config, db: Db, after: Db, id: string, f: Family, scope: string, resource: string,
                   now: int, draws: Draws)
    requires id in db.clients
  {
    && after.clients == db.clients && after.codes == db.codes
    && after.tokens == db.tokens[Sha256(draws.access) :=
                                 TokenRow(id, scope, Some(resource), f, now + cfg.accessTtl, false)]
    && after.refreshes == if RefreshToken in db.clients[id].grantTypes
                          then db.refreshes[Sha256(draws.refresh) :=
                                            RefreshRow(id, f, now + cfg.refreshTtl, false, false)]
                          else db.refreshes
  }

  /** A drawn token that is in a table already. */
  predicate DrawnTwice(db: Db, id: string, draws: Draws)
    requires id in db.clients
  {
    || Sha256(draws.access) in db.tokens
    || (RefreshToken in db.clients[id].grantTypes && Sha256(draws.refresh) in db.refreshes)
  }

  lemma IssuanceStores(cfg: Config, db: Db, now: int, g: Grant, draws: Draws)
    requires g.clientId in db.clients && (g.refreshes <==> RefreshToken in db.clients[g.clientId].grantTypes)
    ensures var s := Issuance(cfg, db, now, g, draws);
            && s.reply == (if DrawnTwice(db, g.clientId, draws) then Failed else Issued)
            && (s.reply == Issued ==>
                  Stores(cfg, db, s.db, g.clientId, g.family, g.scope, g.resource, now, draws))
  {
  }

  // ---- the exchange ----

  predicate ExchangeGiven(form: Form) {
    Given(form.code) && Given(form.redirectUri) && Given(form.verifier)
  }

  predicate CodeGood(db: Db, now: int, h: Hash) {
    h in db.codes && !db.codes[h].consumed && now < db.codes[h].expiresAt
  }

  predicate BindingsMet(cfg: Config, form: Form, creds: Credentials, row: CodeRow)
    requires ExchangeGiven(form)
  {
    && NamesNoOther(creds, row.clientId) && form.redirectUri.value == row.redirectUri
    && ProvesChallenge(cfg, row.challenge, form.verifier.value)
  }

  lemma BindingsAgree(cfg: Config, form: Form, creds: Credentials, row: CodeRow)
    requires ExchangeGiven(form)
    ensures BeginExchange(form, creds) ==
            SpendCode(ExchangeReq(form.code.value, form.redirectUri.value, form.verifier.value, creds,
                                  Field(form.resource)))
    ensures Bound(cfg, BeginExchange(form, creds).x, row) <==> BindingsMet(cfg, form, creds, row)
  {
    VerifiersAgree(cfg, row.challenge, form.verifier.value);
  }

  function Exchanged(cfg: Config, db: Db, now: int, form: Form, creds: Credentials, draws: Draws): Settled {
    RunTask(cfg, db, now, BeginExchange(form, creds), draws)
  }

  function Marked(db: Db, h: Hash): Db
    requires h in db.codes
  {
    var row := db.codes[h];
    db.(codes := db.codes[h := CodeRow(row.clientId, row.redirectUri, row.challenge, row.scope, row.resource,
                                       row.expiresAt, true)])
  }

  lemma ExchangeWithoutItsFields(cfg: Config, db: Db, now: int, form: Form, creds: Credentials, draws: Draws)
    requires !ExchangeGiven(form)
    ensures Exchanged(cfg, db, now, form, creds, draws) == Settled(db, Refused(InvalidRequest))
  {
  }

  /** No such code, or one that has expired. */
  lemma ExchangeOfNoCode(cfg: Config, db: Db, now: int, form: Form, creds: Credentials, draws: Draws)
    requires ExchangeGiven(form)
    requires var h := Sha256(form.code.value); h !in db.codes || (!db.codes[h].consumed && db.codes[h].expiresAt <= now)
    ensures Exchanged(cfg, db, now, form, creds, draws) == Settled(db, Refused(InvalidGrant))
  {
    ExchangeSettles(cfg, db, now, BeginExchange(form, creds).x, draws);
  }

  /** A code presented again revokes its own family, changes nothing else, and is refused, whatever else is right. */
  lemma ExchangeOfASpentCode(cfg: Config, db: Db, now: int, form: Form, creds: Credentials, draws: Draws)
    requires ExchangeGiven(form)
    requires var h := Sha256(form.code.value); h in db.codes && db.codes[h].consumed
    ensures var s := Exchanged(cfg, db, now, form, creds, draws);
            s.reply == Refused(InvalidGrant) && OnlyFamilyRevoked(db, s.db, FamilyOf(Sha256(form.code.value)))
  {
    ReplayedCodeKills(cfg, db, now, BeginExchange(form, creds).x, draws);
    var f := FamilyOf(Sha256(form.code.value));
    FamilyRevocationIsOnly(db, FamilyRevoked(db, f), f);
  }

  lemma MarkedIsSpent(db: Db, now: int, h: Hash)
    requires CodeGood(db, now, h)
    ensures CodeSpendable(db, h, now) && CodeSpent(db, h, now) == Marked(db, h)
  {
  }

  /** The error of an exchange that spends its code and issues nothing. */
  lemma ExchangeRefuses(cfg: Config, db: Db, now: int, x: ExchangeReq, draws: Draws)
    requires CodeSpendable(db, Sha256(x.code), now) && !Passes(cfg, db, x, db.codes[Sha256(x.code)])
    ensures var row := db.codes[Sha256(x.code)];
            var e := if !Bound(cfg, x, row) then InvalidGrant
                     else if Refusal(db, row.clientId, x.creds).Some? then Refusal(db, row.clientId, x.creds).value
                     else ResourceForCode(cfg, row.resource, x.resource).error;
            RunTask(cfg, db, now, SpendCode(x), draws).reply == Refused(e)
  {
    var h := Sha256(x.code);
    var spent, row := CodeSpent(db, h, now), db.codes[h];
    var next := AfterSpendCode(cfg, db, now, x);
    assert RunTask(cfg, db, now, SpendCode(x), draws) == RunTask(cfg, spent, now, next, draws);
    if Bound(cfg, x, row) {
      assert Refusal(spent, row.clientId, x.creds) == Refusal(db, row.clientId, x.creds);
      assert RunTask(cfg, spent, now, CheckExchange(x, row), draws)
          == RunTask(cfg, spent, now, AfterCheckExchange(cfg, spent, x, row), draws);
    }
  }

  /** A good code is spent whatever else is wrong. It issues exactly when the bindings are met, the client is right and
      the resource is; and the first of these that fails names the error. */
  lemma ExchangeOfAGoodCode(cfg: Config, db: Db, now: int, form: Form, creds: Credentials, draws: Draws)
    requires ExchangeGiven(form) && CodeGood(db, now, Sha256(form.code.value))
    ensures var h, s := Sha256(form.code.value), Exchanged(cfg, db, now, form, creds, draws);
            var row := db.codes[h];
            var bound, right := BindingsMet(cfg, form, creds, row), ClientRight(db, row.clientId, creds.secret);
            var target := ExchangeResourceRight(cfg, row.resource, form.resource);
            && (s.reply in {Issued, Failed} <==> bound && right && target)
            && (s.reply == Refused(InvalidClient) <==> bound && ClientWrong(db, row.clientId, creds.secret))
            && (s.reply == Refused(InvalidTarget) <==> bound && right && !target)
            && (s.reply == Refused(InvalidGrant) <==>
                  !bound || (!right && !ClientWrong(db, row.clientId, creds.secret)))
            && (s.reply == Failed <==> bound && right && target && DrawnTwice(db, row.clientId, draws))
            && (s.reply.Refused? ==> s.db == Marked(db, h))
            && (s.reply == Issued ==>
                  Stores(cfg, Marked(db, h), s.db, row.clientId, FamilyOf(h), row.scope,
                         ExchangeStamp(cfg, row.resource, form.resource), now, draws))
  {
    var h := Sha256(form.code.value);
    var row, x := db.codes[h], BeginExchange(form, creds).x;
    MarkedIsSpent(db, now, h);
    BindingsAgree(cfg, form, creds, row);
    CallersAgree(db, row.clientId, creds);
    ExchangeResourcesAgree(cfg, row.resource, form.resource);
    ExchangeSettles(cfg, db, now, x, draws);
    if Passes(cfg, db, x, row) {
      IssuanceStores(cfg, Marked(db, h), now, CodeGrant(cfg, db, x, row), draws);
    } else {
      ExchangeRefuses(cfg, db, now, x, draws);
    }
  }

  // ---- the rotation ----

  function Rotated(cfg: Config, db: Db, now: int, form: Form, creds: Credentials, draws: Draws): Settled {
    RunTask(cfg, db, now, BeginRotate(cfg, form, creds), draws)
  }

  predicate TokenGood(db: Db, now: int, h: Hash) {
    h in db.refreshes && !db.refreshes[h].consumed && !db.refreshes[h].revoked && now < db.refreshes[h].expiresAt
  }

  function MarkedToken(db: Db, h: Hash): Db
    requires h in db.refreshes
  {
    var row := db.refreshes[h];
    db.(refreshes := db.refreshes[h := RefreshRow(row.clientId, row.family, row.expiresAt, true, row.revoked)])
  }

  /** The token is not looked at before the field is there and the resource is right. */
  lemma RotationWithoutItsFields(cfg: Config, db: Db, now: int, form: Form, creds: Credentials, draws: Draws)
    requires !Given(form.refreshToken) || (Given(form.resource) && !Served(cfg, form.resource.value))
    ensures Rotated(cfg, db, now, form, creds, draws) ==
            Settled(db, Refused(if Given(form.refreshToken) then InvalidTarget else InvalidRequest))
  {
    IssueResourcesAgree(cfg, form.resource);
  }

  predicate RotationGiven(cfg: Config, form: Form) {
    Given(form.refreshToken) && (Given(form.resource) ==> Served(cfg, form.resource.value))
  }

  lemma RotationBegins(cfg: Config, db: Db, now: int, form: Form, creds: Credentials, draws: Draws)
    requires RotationGiven(cfg, form)
    ensures BeginRotate(cfg, form, creds) ==
            LookUp(RefreshReq(form.refreshToken.value, creds, Field(form.resource)))
    ensures Presents(Attempt(form, creds, now, draws), form.refreshToken.value)
    ensures Rotated(cfg, db, now, form, creds, draws) == Answer(cfg, db, Attempt(form, creds, now, draws))
  {
    IssueResourcesAgree(cfg, form.resource);
  }

  /** Unknown, revoked or expired: refused, and nothing changes. */
  lemma RotationOfADeadToken(cfg: Config, db: Db, now: int, form: Form, creds: Credentials, draws: Draws)
    requires RotationGiven(cfg, form)
    requires var h := Sha256(form.refreshToken.value);
             h in db.refreshes ==> !db.refreshes[h].consumed && !TokenGood(db, now, h)
    ensures Rotated(cfg, db, now, form, creds, draws) == Settled(db, Refused(InvalidGrant))
  {
    RotationBegins(cfg, db, now, form, creds, draws);
    var h, r := Sha256(form.refreshToken.value), RefreshReq(form.refreshToken.value, creds, Field(form.resource));
    var spend := SpendRefresh(r, None, h in db.refreshes);
    assert RunTask(cfg, db, now, LookUp(r), draws) == RunTask(cfg, db, now, spend, draws);
    assert RunTask(cfg, db, now, spend, draws) == RunTask(cfg, db, now, Done(Refused(InvalidGrant)), draws);
  }

  /** A spent token revokes its own family, changes nothing else, and is refused, whoever presents it. */
  lemma RotationOfASpentToken(cfg: Config, db: Db, now: int, form: Form, creds: Credentials, draws: Draws)
    requires RotationGiven(cfg, form)
    requires var h := Sha256(form.refreshToken.value); h in db.refreshes && db.refreshes[h].consumed
    ensures var s := Rotated(cfg, db, now, form, creds, draws);
            && s.reply == Refused(InvalidGrant)
            && OnlyFamilyRevoked(db, s.db, db.refreshes[Sha256(form.refreshToken.value)].family)
  {
    RotationBegins(cfg, db, now, form, creds, draws);
    var f := db.refreshes[Sha256(form.refreshToken.value)].family;
    ReplayedTokenKills(cfg, db, now, RefreshReq(form.refreshToken.value, creds, Field(form.resource)), draws);
    FamilyRevocationIsOnly(db, FamilyRevoked(db, f), f);
  }

  lemma MarkedTokenIsSpent(db: Db, now: int, h: Hash)
    requires TokenGood(db, now, h)
    ensures RefreshLive(db, h, now) && RefreshSpent(db, h, now) == MarkedToken(db, h)
  {
  }

  /** The error of a live token's refused rotation. */
  lemma RotationRefuses(cfg: Config, db: Db, now: int, r: RefreshReq, draws: Draws)
    requires RefreshLive(db, Sha256(r.token), now)
    requires var owner := db.refreshes[Sha256(r.token)].clientId;
             NamesAnother(r.creds, owner) || Refusal(db, owner, r.creds).Some?
    ensures var owner := db.refreshes[Sha256(r.token)].clientId;
            RunTask(cfg, db, now, LookUp(r), draws) ==
            Settled(db, Refused(if NamesAnother(r.creds, owner) then InvalidGrant
                                else Refusal(db, owner, r.creds).value))
  {
    var owner := db.refreshes[Sha256(r.token)].clientId;
    var next := AfterLookUp(db, now, r);
    assert RunTask(cfg, db, now, LookUp(r), draws) == RunTask(cfg, db, now, next, draws);
    if NamesAnother(r.creds, owner) {
      DoneSettles(cfg, db, now, InvalidGrant, draws);
    } else {
      var e := Refusal(db, owner, r.creds).value;
      DoneSettles(cfg, db, now, e, draws);
      assert RunTask(cfg, db, now, CheckOwner(r, owner), draws) == RunTask(cfg, db, now, Done(Refused(e)), draws);
    }
  }

  /** A live token is spent exactly when its own client asks for it, and then its successors keep its client and family
      under the default scope; a caller that is turned away changes nothing. */
  lemma RotationOfAGoodToken(cfg: Config, db: Db, now: int, form: Form, creds: Credentials, draws: Draws)
    requires RotationGiven(cfg, form) && TokenGood(db, now, Sha256(form.refreshToken.value))
    ensures var h, s := Sha256(form.refreshToken.value), Rotated(cfg, db, now, form, creds, draws);
            var row := db.refreshes[h];
            var own, right := NamesNoOther(creds, row.clientId), ClientRight(db, row.clientId, creds.secret);
            && (s.reply in {Issued, Failed} <==> own && right)
            && (s.reply == Refused(InvalidClient) <==> own && ClientWrong(db, row.clientId, creds.secret))
            && (s.reply == Refused(InvalidGrant) <==>
                  !own || (!right && !ClientWrong(db, row.clientId, creds.secret)))
            && (s.reply == Failed <==> own && right && DrawnTwice(db, row.clientId, draws))
            && (s.reply.Refused? ==> s.db == db)
            && (s.reply == Issued ==>
                  Stores(cfg, MarkedToken(db, h), s.db, row.clientId, row.family, "lumberroom:memory",
                         RotationStamp(cfg, form.resource), now, draws))
  {
    var h := Sha256(form.refreshToken.value);
    var row, a := db.refreshes[h], Attempt(form, creds, now, draws);
    RotationBegins(cfg, db, now, form, creds, draws);
    MarkedTokenIsSpent(db, now, h);
    CallersAgree(db, row.clientId, creds);
    IssueResourcesAgree(cfg, form.resource);
    if NamesAnother(creds, row.clientId) || Refusal(db, row.clientId, creds).Some? {
      RotationRefuses(cfg, db, now, RefreshReq(form.refreshToken.value, creds, Field(form.resource)), draws);
    } else {
      OwnerRotates(cfg, db, a, form.refreshToken.value);
      IssuanceStores(cfg, MarkedToken(db, h), now, OwnersGrant(cfg, db, a, h), draws);
    }
  }

  // ---- the revocation ----

  function RevokedBy(cfg: Config, db: Db, now: int, form: Form, draws: Draws): Settled {
    RunTask(cfg, db, now, BeginRevoke(form), draws)
  }

  /** An access token that still works is the one row marked. */
  predicate OnlyTokenRevoked(db: Db, after: Db, h: Hash)
    requires h in db.tokens
  {
    && after.clients == db.clients && after.codes == db.codes && after.refreshes == db.refreshes
    && var row := db.tokens[h];
    after.tokens == db.tokens[h := TokenRow(row.clientId, row.scope, row.resource, row.family, row.expiresAt, true)]
  }

  lemma RevocationOfNothing(cfg: Config, db: Db, now: int, form: Form, draws: Draws)
    requires !Given(form.token)
    ensures RevokedBy(cfg, db, now, form, draws) == Settled(db, Refused(InvalidRequest))
  {
  }

  /** The answer never tells what was handed in. An access token goes alone; a refresh token, spent or live, takes its
      whole family and nothing else; anything else changes nothing. */
  lemma RevocationOutcome(cfg: Config, db: Db, now: int, form: Form, draws: Draws)
    requires Given(form.token)
    ensures var h, s := Sha256(form.token.value), RevokedBy(cfg, db, now, form, draws);
            && s.reply == Accepted
            && (if h in db.tokens && !db.tokens[h].revoked then OnlyTokenRevoked(db, s.db, h)
                else if TokenGood(db, now, h)
                then OnlyFamilyRevoked(MarkedToken(db, h), s.db, db.refreshes[h].family)
                else if h in db.refreshes && db.refreshes[h].consumed
                then OnlyFamilyRevoked(db, s.db, db.refreshes[h].family)
                else s.db == db)
  {
    var h := Sha256(form.token.value);
    RevokeSettles(cfg, db, now, form.token.value, draws);
    if h in db.tokens && !db.tokens[h].revoked {
      assert TokenRevocable(db, h);
    } else if TokenGood(db, now, h) {
      MarkedTokenIsSpent(db, now, h);
      var f := db.refreshes[h].family;
      FamilyRevocationIsOnly(MarkedToken(db, h), FamilyRevoked(MarkedToken(db, h), f), f);
    } else if h in db.refreshes && db.refreshes[h].consumed {
      var f := db.refreshes[h].family;
      FamilyRevocationIsOnly(db, FamilyRevoked(db, f), f);
    }
  }

  // ---- whole requests among whole requests ----

  /** What kills a family, told by the form and the tables. */
  predicate PresentsDead(cfg: Config, m: Moment, e: Event, f: Family) {
    match e
    case Exchange(form, creds) =>
      && ExchangeGiven(form)
      && var h := Sha256(form.code.value); h in m.db.codes && m.db.codes[h].consumed && f == FamilyOf(h)
    case Rotate(form, creds) =>
      && RotationGiven(cfg, form)
      && var h := Sha256(form.refreshToken.value);
      h in m.db.refreshes && m.db.refreshes[h].consumed && m.db.refreshes[h].family == f
    case Revoke(form) =>
      && Given(form.token)
      && var h := Sha256(form.token.value);
      && !(h in m.db.tokens && !m.db.tokens[h].revoked)
      && h in m.db.refreshes && (m.db.refreshes[h].consumed || TokenGood(m.db, m.now, h))
      && m.db.refreshes[h].family == f
    case _ => false
  }

  /** The one other thing a kill does: a live refresh token handed in for revocation is spent on the way. */
  function BeforeTheKill(m: Moment, e: Event): Db {
    match e
    case Revoke(form) =>
      if Given(form.token) && TokenGood(m.db, m.now, Sha256(form.token.value))
      then MarkedToken(m.db, Sha256(form.token.value)) else m.db
    case _ => m.db
  }

  /** A killing request marks the rows of its family and touches no other row, of any table. */
  lemma KillTouchesOnlyItsFamily(cfg: Config, m: Moment, e: Event, draws: Draws, f: Family)
    requires PresentsDead(cfg, m, e, f)
    ensures Allowed(cfg, m, Whole(e, draws)) && Kills(cfg, m, e, f)
    ensures OnlyFamilyRevoked(BeforeTheKill(m, e), Then(cfg, m, Whole(e, draws)).db, f)
  {
    match e
    case Exchange(form, creds) => ExchangeOfASpentCode(cfg, m.db, m.now, form, creds, draws);
    case Rotate(form, creds) =>
      RotationBegins(cfg, m.db, m.now, form, creds, draws);
      RotationOfASpentToken(cfg, m.db, m.now, form, creds, draws);
    case Revoke(form) => RevocationOutcome(cfg, m.db, m.now, form, draws);
  }
}
