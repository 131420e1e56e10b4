/** The authorization request on its way through a page: printed by `flow_fields`, posted back and resolved again
    (src/authserver/routes.rs `FlowForm`, `flow_fields`, `resolve_request`). */
module FlowForm {
  import opened Text
  import opened OauthStore
  import opened TokenEndpoint
  import opened Authorize
  import opened HiddenForm

  function Posted(fields: seq<(string, string)>, name: string): Option<string> {
    if fields == [] then None
    else if fields[0].0 == name then Some(fields[0].1)
    else Posted(fields[1..], name)
  }

  function OrDefault(v: Option<string>): string {
    if v.Some? then v.value else ""
  }

  /** `FlowForm::authorize_request`. */
  function RequestOf(fields: seq<(string, string)>): Request {
    Request(
      OrDefault(Posted(fields, "response_type")), OrDefault(Posted(fields, "client_id")),
      OrDefault(Posted(fields, "redirect_uri")), OrDefault(Posted(fields, "code_challenge")),
      Posted(fields, "code_challenge_method"),
      Posted(fields, "state"), Posted(fields, "scope"), Posted(fields, "resource"))
  }

  lemma {:induction false} PostedConcat(a: seq<(string, string)>, b: seq<(string, string)>, name: string)
    ensures Posted(a + b, name) == if Posted(a, name).Some? then Posted(a, name) else Posted(b, name)
  {
    if a == [] {
      assert a + b == b;
    } else {
      assert (a + b)[1..] == a[1..] + b;
      PostedConcat(a[1..], b, name);
    }
  }

  lemma PostedPresent(name: string, value: Option<string>, asked: string)
    ensures Posted(Present(name, value), asked) == if asked == name then value else None
  {
  }

  lemma PostedRequired(f: FlowFields, name: string)
    ensures Posted(Required(f), name) ==
              if name == "client_id" then Some(f.clientId)
              else if name == "redirect_uri" then Some(f.redirectUri)
              else if name == "code_challenge" then Some(f.codeChallenge)
              else if name == "code_challenge_method" then Some(f.codeChallengeMethod)
              else if name == "response_type" then Some(f.responseType)
              else None
  {
    var all := Required(f);
    var four, three, two, one := all[1..], all[2..], all[3..], all[4..];
    assert four[1..] == three && three[1..] == two && two[1..] == one && one[1..] == [];
    assert Posted(one, name) == if name == "response_type" then Some(f.responseType) else None;
    assert Posted(two, name) ==
           if name == "code_challenge_method" then Some(f.codeChallengeMethod) else Posted(one, name);
    assert Posted(three, name) == if name == "code_challenge" then Some(f.codeChallenge) else Posted(two, name);
    assert Posted(four, name) == if name == "redirect_uri" then Some(f.redirectUri) else Posted(three, name);
  }

  lemma PostedField(f: FlowFields, name: string)
    ensures Posted(Fields(f), name) ==
              if name == "client_id" then Some(f.clientId)
              else if name == "redirect_uri" then Some(f.redirectUri)
              else if name == "code_challenge" then Some(f.codeChallenge)
              else if name == "code_challenge_method" then Some(f.codeChallengeMethod)
              else if name == "response_type" then Some(f.responseType)
              else if name == "state" then f.state
              else if name == "scope" then f.scope
              else if name == "resource" then f.resource
              else None
  {
    var required := Required(f);
    PostedRequired(f, name);
    var state, scope, resource := Present("state", f.state), Present("scope", f.scope), Present("resource", f.resource);
    PostedConcat(required + state + scope, resource, name);
    PostedConcat(required + state, scope, name);
    PostedConcat(required, state, name);
    PostedPresent("state", f.state, name);
    PostedPresent("scope", f.scope, name);
    PostedPresent("resource", f.resource, name);
  }

  /** A request printed on a page and posted back arrives as it left: an absent optional is still absent, an empty one
      still empty. */
  lemma RequestSurvivesThePage(f: FlowFields)
    ensures ReadInputs(Printed(Fields(f))) == Some(Fields(f))
    ensures RequestOf(Fields(f)) ==
            Request(f.responseType, f.clientId, f.redirectUri, f.codeChallenge, Some(f.codeChallengeMethod),
                    f.state, f.scope, f.resource)
  {
    InputsReadBack(Fields(f));
    PostedField(f, "response_type");
    PostedField(f, "client_id");
    PostedField(f, "redirect_uri");
    PostedField(f, "code_challenge");
    PostedField(f, "code_challenge_method");
    PostedField(f, "state");
    PostedField(f, "scope");
    PostedField(f, "resource");
  }

  // ---- shown, posted, resolved again ----

  /** `flow_fields`. */
  function FieldsOf(i: Intent): FlowFields {
    FlowFields(i.clientId, i.redirectUri, i.challenge, S256, CODE, i.state, Some(i.scope), i.resource)
  }

  /** What the browser posts of a page that shows `i`. */
  function PostedBack(i: Intent): Request {
    RequestOf(Fields(FieldsOf(i)))
  }

  lemma ScopeStays(scope: Option<string>)
    ensures ScopeOf(Some(ScopeOf(scope))) == ScopeOf(scope)
  {
    if scope.Some? && Trim(scope.value) != [] {
      TrimAgain(scope.value);
    } else {
      TrimsToItself(DEFAULT_SCOPE);
    }
  }

  /** What the checks that need no client settle about a resolved request. */
  predicate Settled(cfg: Config, parses: string -> bool, i: Intent) {
    && i.clientId != [] && IsChallenge(i.challenge)
    && ScopeOf(Some(i.scope)) == i.scope
    && (i.resource.Some? ==>
          && '#' !in i.resource.value && parses(i.resource.value)
          && (cfg.audience != Off ==> ResourceMatches(cfg, i.resource.value, cfg.served)))
  }

  lemma ResolvedIsSettled(cfg: Config, parses: string -> bool, db: Db, r: Request)
    requires Resolve(cfg, parses, db, r).Ok?
    ensures var i := Resolve(cfg, parses, db, r).value;
            && Settled(cfg, parses, i) && i.clientId in db.clients && !db.clients[i.clientId].revoked
            && i.redirectUri in db.clients[i.clientId].redirectUris
  {
    ScopeStays(r.scope);
  }

  /** Where a settled request stands over a store. */
  function Standing(db: Db, i: Intent): Result<Intent, Refused> {
    if i.clientId !in db.clients then Err(UnknownClient)
    else if db.clients[i.clientId].revoked then Err(RevokedClient)
    else if i.redirectUri !in db.clients[i.clientId].redirectUris then Err(UnregisteredRedirect)
    else Ok(i)
  }

  lemma SettledResolvesAgain(cfg: Config, parses: string -> bool, db: Db, i: Intent, q: Request)
    requires Settled(cfg, parses, i)
    requires q == Request(CODE, i.clientId, i.redirectUri, i.challenge, Some(S256), i.state, Some(i.scope), i.resource)
    ensures Resolve(cfg, parses, db, q) == Standing(db, i)
  {
  }

  lemma PostedBackIs(i: Intent)
    ensures ReadInputs(Printed(Fields(FieldsOf(i)))) == Some(Fields(FieldsOf(i)))
    ensures PostedBack(i) ==
            Request(CODE, i.clientId, i.redirectUri, i.challenge, Some(S256), i.state, Some(i.scope), i.resource)
  {
    RequestSurvivesThePage(FieldsOf(i));
  }

  /** A resolved request shown on a page and posted back resolves to the same intent, and over a store that has changed
      since it does so exactly while its client is live and still has the redirect URI. */
  lemma IntentSurvivesThePage(cfg: Config, parses: string -> bool, db: Db, r: Request, later: Db)
    requires Resolve(cfg, parses, db, r).Ok?
    ensures var i := Resolve(cfg, parses, db, r).value;
            && ReadInputs(Printed(Fields(FieldsOf(i)))) == Some(Fields(FieldsOf(i)))
            && Resolve(cfg, parses, db, PostedBack(i)) == Ok(i)
            && Resolve(cfg, parses, later, PostedBack(i)) == Standing(later, i)
  {
    ResolvedIsSettled(cfg, parses, db, r);
    var i := Resolve(cfg, parses, db, r).value;
    PostedBackIs(i);
    SettledResolvesAgain(cfg, parses, db, i, PostedBack(i));
    SettledResolvesAgain(cfg, parses, later, i, PostedBack(i));
  }
}
