/** The handlers over the store object, each tied to its chain of calls run to the end
    (src/authserver/routes.rs). */
module Handlers {
  import opened Text
  import opened OauthStore
  import opened TokenEndpoint

  /** What `issue_tokens` makes of a client that passed every check. */
  function IssueFrom(cfg: Config, db: Db, now: int, id: string, refreshes: bool, f: Family, scope: string,
                     asked: Option<string>, spent: Credential, caller: Credentials, draws: Draws): Settled
  {
    match ResourceForIssue(cfg, asked)
    case Err(e) => Settled(db, Refused(e))
    case Ok(resource) => RunTask(cfg, db, now,
                                InsertAccess(Grant(id, refreshes, f, scope, resource, spent, caller)), draws)
  }

  class AuthServer {
    const cfg: Config
    const store: PgStore

    constructor (cfg: Config, store: PgStore)
      ensures this.cfg == cfg && this.store == store
    {
      this.cfg, this.store := cfg, store;
    }

    method IssueTokens(id: string, client: ClientRecord, f: Family, scope: string, asked: Option<string>,
                       ghost spent: Credential, ghost caller: Credentials, now: int, draws: Draws)
      returns (reply: Reply)
      modifies store
      ensures Settled(store.View(), reply) ==
              IssueFrom(cfg, old(store.View()), now, id, RefreshToken in client.grantTypes, f, scope, asked,
                        spent, caller, draws)
      ensures reply == Issued ==>
                && store.tokens == old(store.tokens)[Sha256(draws.access) :=
                     TokenRow(id, scope, Some(if asked.Some? then asked.value else cfg.served), f,
                              now + cfg.accessTtl, false)]
                && store.refreshes == (if RefreshToken in client.grantTypes
                                       then old(store.refreshes)[Sha256(draws.refresh) :=
                                              RefreshRow(id, f, now + cfg.refreshTtl, false, false)]
                                       else old(store.refreshes))
      ensures store.clients == old(store.clients) && store.codes == old(store.codes)
    {
      var answer := ResourceForIssue(cfg, asked);
      if answer.Err? {
        return Refused(answer.error);
      }
      var refreshes := RefreshToken in client.grantTypes;
      ghost var g := Grant(id, refreshes, f, scope, answer.value, spent, caller);
      IssueSettles(cfg, store.View(), now, g, draws);
      var stored := store.InsertToken(Sha256(draws.access),
                                      TokenRow(id, scope, Some(answer.value), f, now + cfg.accessTtl, false));
      if !stored {
        return Failed;
      }
      if refreshes {
        stored := store.InsertRefresh(Sha256(draws.refresh), RefreshRow(id, f, now + cfg.refreshTtl, false, false));
        if !stored {
          return Failed;
        }
      }
      reply := Issued;
    }

    method RefreshCaller(owner: string, creds: Credentials) returns (caller: Result<ClientRecord, Error>)
      ensures caller ==
              if NamesAnother(creds, owner) then Err(InvalidGrant)
              else match Refusal(store.View(), owner, creds)
                   case Some(e) => Err(e)
                   case None => Ok(store.View().clients[owner])
    {
      if creds.clientId.Some? && creds.clientId.value != owner {
        return Err(InvalidGrant);
      }
      var record := store.FindClient(owner);
      var refusal := ClientRefusal(record, creds);
      caller := if refusal.Some? then Err(refusal.value) else Ok(record.value);
    }

    method ExchangeCode(form: Form, creds: Credentials, now: int, draws: Draws) returns (reply: Reply)
      modifies store
      ensures Settled(store.View(), reply) ==
              RunTask(cfg, old(store.View()), now, BeginExchange(form, creds), draws)
    {
      if Field(form.code).None? || Field(form.redirectUri).None? || Field(form.verifier).None? {
        return Refused(InvalidRequest);
      }
      var h := Sha256(form.code.value);
      ghost var x := ExchangeReq(form.code.value, form.redirectUri.value, form.verifier.value, creds,
                                   Field(form.resource));
      ghost var before := store.View();
      var outcome := store.ConsumeCode(h, now);
      assert RunTask(cfg, before, now, SpendCode(x), draws) ==
             RunTask(cfg, store.View(), now, AfterSpendCode(cfg, before, now, x), draws);
      match outcome {
        case Fresh(row) =>
          reply := FinishExchange(x, h, row, form, creds, now, draws);
        case AlreadyConsumed =>
          KillSettles(cfg, store.View(), now, FamilyOf(h), Refused(InvalidGrant), draws);
          store.RevokeFamily(FamilyOf(h));
          reply := Refused(InvalidGrant);
        case _ =>
          reply := Refused(InvalidGrant);
      }
    }

    /** The bindings and everything after them, on the row the code was spent for. */
    method FinishExchange(ghost x: ExchangeReq, h: Hash, row: CodeRow, form: Form, creds: Credentials, now: int,
                          draws: Draws) returns (reply: Reply)
      requires form.redirectUri.Some? && form.verifier.Some?
      requires h == Sha256(x.code) && x.redirectUri == form.redirectUri.value && x.verifier == form.verifier.value
      requires x.creds == creds && x.resource == Field(form.resource)
      modifies store
      ensures Settled(store.View(), reply) ==
              if Bound(cfg, x, row) then RunTask(cfg, old(store.View()), now, CheckExchange(x, row), draws)
              else Settled(old(store.View()), Refused(InvalidGrant))
    {
      if creds.clientId.Some? && creds.clientId.value != row.clientId {
        return Refused(InvalidGrant);
      }
      if form.redirectUri.value != row.redirectUri {
        return Refused(InvalidGrant);
      }
      if !VerifyPkce(cfg, row.challenge, form.verifier.value) {
        return Refused(InvalidGrant);
      }
      var caller := store.FindClient(row.clientId);
      var refusal := ClientRefusal(caller, creds);
      if refusal.Some? {
        return Refused(refusal.value);
      }
      var resource := ResourceForExchange(cfg, row.resource, Field(form.resource));
      if resource.Err? {
        return Refused(resource.error);
      }
      reply := IssueTokens(row.clientId, caller.value, FamilyOf(h), row.scope, resource.value, Code(h), creds,
                           now, draws);
    }

    method Rotate(form: Form, creds: Credentials, now: int, draws: Draws) returns (reply: Reply)
      modifies store
      ensures Settled(store.View(), reply) ==
              RunTask(cfg, old(store.View()), now, BeginRotate(cfg, form, creds), draws)
    {
      if Field(form.refreshToken).None? {
        return Refused(InvalidRequest);
      }
      var resource := Field(form.resource);
      var settled := ResourceForIssue(cfg, resource);
      if settled.Err? {
        return Refused(settled.error);
      }
      ghost var r := RefreshReq(form.refreshToken.value, creds, resource);
      ghost var before := store.View();
      var h := Sha256(form.refreshToken.value);
      var owner := store.RefreshOwner(h, now);
      assert RunTask(cfg, before, now, LookUp(r), draws) ==
             RunTask(cfg, before, now, AfterLookUp(before, now, r), draws);
      if owner.Some? {
        var caller := RefreshCaller(owner.value, creds);
        if caller.Err? {
          assert !NamesAnother(creds, owner.value) ==>
                   RunTask(cfg, before, now, CheckOwner(r, owner.value), draws)
                   == Settled(before, Refused(caller.error));
          return Refused(caller.error);
        }
        assert RunTask(cfg, before, now, CheckOwner(r, owner.value), draws)
            == RunTask(cfg, before, now, SpendRefresh(r, owner, true), draws);
      }
      reply := FinishRotation(r, owner, owner.Some? || h in before.refreshes, h, creds, resource, now, draws);
    }

    /** From the spend on. */
    method FinishRotation(ghost r: RefreshReq, ghost owner: Option<string>, ghost known: bool, h: Hash,
                          creds: Credentials, resource: Option<string>, now: int, draws: Draws) returns (reply: Reply)
      requires h == Sha256(r.token) && r.creds == creds && r.resource == resource
      modifies store
      ensures Settled(store.View(), reply) == RunTask(cfg, old(store.View()), now, SpendRefresh(r, owner, known), draws)
    {
      ghost var before := store.View();
      var outcome := store.RotateRefresh(h, now);
      assert RunTask(cfg, before, now, SpendRefresh(r, owner, known), draws) ==
             RunTask(cfg, store.View(), now, AfterSpendRefresh(before, now, r), draws);
      match outcome {
        case Rotated(id, f) =>
          ghost var spent := store.View();
          assert RunTask(cfg, spent, now, Recheck(r, id, f), draws) ==
                 RunTask(cfg, spent, now, AfterRecheck(cfg, spent, r, id, f), draws);
          var caller := RefreshCaller(id, creds);
          if caller.Err? {
            assert !NamesAnother(creds, id) ==> AfterRecheck(cfg, spent, r, id, f) == Done(Refused(caller.error));
            return Refused(caller.error);
          }
          reply := IssueTokens(id, caller.value, f, DEFAULT_SCOPE, resource, Token(h), creds, now, draws);
        case Replayed(f) =>
          KillSettles(cfg, store.View(), now, f, Refused(InvalidGrant), draws);
          store.RevokeFamily(f);
          reply := Refused(InvalidGrant);
        case _ =>
          reply := Refused(InvalidGrant);
      }
    }

    method Revoke(form: Form, now: int, ghost draws: Draws) returns (reply: Reply)
      modifies store
      ensures Settled(store.View(), reply) ==
              RunTask(cfg, old(store.View()), now, BeginRevoke(form), draws)
    {
      if Field(form.token).None? {
        return Refused(InvalidRequest);
      }
      var token := form.token.value;
      reply := Accepted;
      ghost var before := store.View();
      var revoked := store.RevokeToken(Sha256(token));
      if revoked {
        return;
      }
      assert store.View() == before;
      var outcome := store.RotateRefresh(Sha256(token), now);
      assert RunTask(cfg, before, now, RevokeRefresh(token), draws) ==
             RunTask(cfg, store.View(), now, AfterRevokeRefresh(before, now, token), draws);
      match outcome {
        case Rotated(_, f) =>
          KillSettles(cfg, store.View(), now, f, Accepted, draws);
          store.RevokeFamily(f);
        case Replayed(f) =>
          KillSettles(cfg, store.View(), now, f, Accepted, draws);
          store.RevokeFamily(f);
        case _ =>
      }
    }
  }
}
