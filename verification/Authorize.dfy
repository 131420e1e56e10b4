/** The authorization request, checked against its client
    (src/domain/oauth.rs `validate`, src/authserver/routes.rs `resolve_request`). */
module Authorize {
  import opened Text
  import opened OauthStore
  import opened TokenEndpoint

  const CODE: string := "code"
  const S256: string := "S256"

  datatype Request = Request(
    responseType: string,
    clientId: string,
    redirectUri: string,
    challenge: string,
    method_: Option<string>,
    state: Option<string>,
    scope: Option<string>,
    resource: Option<string>)

  datatype Intent = Intent(
    clientId: string,
    redirectUri: string,
    challenge: string,
    state: Option<string>,
    scope: string,
    resource: Option<string>)

  datatype Refused = NoClientId | UnknownClient | RevokedClient
                   | UnregisteredRedirect | WrongResponseType | WrongMethod | BadChallenge | BadResource
                   | UnservedResource

  predicate Base64Url(c: char) {
    'A' <= c <= 'Z' || 'a' <= c <= 'z' || '0' <= c <= '9' || c == '-' || c == '_'
  }

  predicate IsChallenge(s: string) {
    |s| == 43 && forall k | 0 <= k < |s| :: Base64Url(s[k])
  }

  function ScopeOf(scope: Option<string>): string {
    if scope.Some? && Trim(scope.value) != [] then Trim(scope.value) else DEFAULT_SCOPE
  }

  /** `parses` is `Url::parse(..).is_ok()`. */
  function Validate(parses: string -> bool, r: Request, registered: seq<string>): Result<Intent, Refused> {
    if r.redirectUri !in registered then Err(UnregisteredRedirect)
    else if r.responseType != CODE then Err(WrongResponseType)
    else if r.method_ != Some(S256) then Err(WrongMethod)
    else if !IsChallenge(r.challenge) then Err(BadChallenge)
    else if r.resource.Some? && ('#' in r.resource.value || !parses(r.resource.value)) then Err(BadResource)
    else Ok(Intent(r.clientId, r.redirectUri, r.challenge, r.state, ScopeOf(r.scope), r.resource))
  }

  function Resolve(cfg: Config, parses: string -> bool, db: Db, r: Request): Result<Intent, Refused> {
    if r.clientId == [] then Err(NoClientId)
    else
      match ClientOf(db, r.clientId)
      case None => Err(UnknownClient)
      case Some(client) =>
        if client.revoked then Err(RevokedClient)
        else
          match Validate(parses, r, client.redirectUris)
          case Err(e) => Err(e)
          case Ok(intent) =>
            if cfg.audience != Off && intent.resource.Some? && !ResourceMatches(cfg, intent.resource.value, cfg.served)
            then Err(UnservedResource)
            else Ok(intent)
  }

  /** What a resolved request is known to be. */
  predicate Sound(cfg: Config, db: Db, i: Intent) {
    && i.clientId in db.clients
    && i.redirectUri in db.clients[i.clientId].redirectUris
    && IsChallenge(i.challenge)
    && (cfg.audience != Off && i.resource.Some? ==> ResourceMatches(cfg, i.resource.value, cfg.served))
  }

  // ---- the same, told by the request and the table alone ----

  predicate HasInk(raw: string) {
    exists k :: 0 <= k < |raw| && !IsSpace(raw[k])
  }

  /** `t` is `raw` without the whitespace around it. */
  ghost predicate PaddedBy(raw: string, t: string) {
    && t != [] && !IsSpace(t[0]) && !IsSpace(t[|t| - 1])
    && exists a, b :: AllSpace(a) && AllSpace(b) && raw == a + t + b
  }

  /** What the client asked for, whitespace around it aside; the default when it asked for nothing else. */
  ghost predicate ScopeAsked(asked: Option<string>, scope: string) {
    if asked.Some? && HasInk(asked.value) then PaddedBy(asked.value, scope) else scope == "lumberroom:memory"
  }

  lemma ScopeIsAsked(asked: Option<string>)
    ensures ScopeAsked(asked, ScopeOf(asked))
  {
    if asked.Some? {
      var raw := asked.value;
      var a, b := TrimCuts(raw);
      if Trim(raw) == [] {
        assert raw == a + b;
      } else {
        assert raw[|a|] == Trim(raw)[0];
      }
    }
  }

  lemma ResolvedIsSound(cfg: Config, parses: string -> bool, db: Db, r: Request)
    requires Resolve(cfg, parses, db, r).Ok?
    ensures var i := Resolve(cfg, parses, db, r).value;
            && Sound(cfg, db, i) && !db.clients[i.clientId].revoked
            && i.clientId == r.clientId && i.redirectUri == r.redirectUri && i.challenge == r.challenge
            && i.state == r.state && i.resource == r.resource && ScopeAsked(r.scope, i.scope)
  {
    ScopeIsAsked(r.scope);
  }

  predicate ChallengeShaped(challenge: string) {
    && |challenge| == 43
    && forall c | c in challenge ::
         'a' <= c <= 'z' || 'A' <= c <= 'Z' || '0' <= c <= '9' || c in ['-', '_']
  }

  lemma ChallengesAgree(challenge: string)
    ensures IsChallenge(challenge) <==> ChallengeShaped(challenge)
  {
    if ChallengeShaped(challenge) {
      forall k | 0 <= k < |challenge| ensures Base64Url(challenge[k]) {
        assert challenge[k] in challenge;
      }
    }
  }

  /** The request itself, apart from who sends it and where to. */
  predicate WellAsked(parses: string -> bool, r: Request) {
    && r.responseType == "code" && r.method_ == Some("S256") && ChallengeShaped(r.challenge)
    && (r.resource.Some? ==> '#' !in r.resource.value && parses(r.resource.value))
  }

  predicate AsksForThisServer(cfg: Config, r: Request) {
    || cfg.audience == Off || r.resource == None
    || (cfg.canon(r.resource.value).Some? && cfg.canon(r.resource.value) == cfg.canon(cfg.served))
  }

  /** A request resolves exactly when its client is registered and live, it names one of that client's redirect URIs, it
      is a code request with an S256 challenge, and its resource is a URI this server serves. The client is judged
      before the URI, then the response type, the method, the challenge and the resource, and what is served last. */
  lemma ResolvesExactly(cfg: Config, parses: string -> bool, db: Db, r: Request)
    ensures var known := r.clientId in db.clients;
            var live := known && !db.clients[r.clientId].revoked;
            var sent := r.clientId != "" && live && r.redirectUri in db.clients[r.clientId].redirectUris;
            var answer := Resolve(cfg, parses, db, r);
            && (answer.Ok? <==> sent && WellAsked(parses, r) && AsksForThisServer(cfg, r))
            && (answer == Err(NoClientId) <==> r.clientId == "")
            && (answer == Err(UnknownClient) <==> r.clientId != "" && !known)
            && (answer == Err(RevokedClient) <==> r.clientId != "" && known && !live)
            && (answer == Err(UnregisteredRedirect) <==> r.clientId != "" && live && !sent)
            && (answer == Err(WrongResponseType) <==> sent && r.responseType != "code")
            && (answer == Err(WrongMethod) <==> sent && r.responseType == "code" && r.method_ != Some("S256"))
            && (answer == Err(BadChallenge) <==>
                  sent && r.responseType == "code" && r.method_ == Some("S256") && !ChallengeShaped(r.challenge))
            && (answer == Err(BadResource) <==>
                  && sent && r.responseType == "code" && r.method_ == Some("S256") && ChallengeShaped(r.challenge)
                  && !WellAsked(parses, r))
            && (answer == Err(UnservedResource) <==> sent && WellAsked(parses, r) && !AsksForThisServer(cfg, r))
  {
    ChallengesAgree(r.challenge);
  }

  /** The resource check comes early enough: unless the setting is off, a code bound by a resolved request is never
      refused at the exchange for its own resource. */
  lemma ResolvedResourceIsIssuable(cfg: Config, db: Db, i: Intent)
    requires Bootable(cfg) && cfg.audience != Off && Sound(cfg, db, i)
    ensures ResourceForCode(cfg, i.resource, None).Ok?
    ensures i.resource.Some? ==> ResourceForCode(cfg, i.resource, i.resource).Ok?
  {
  }

  // ---- what the owner chooses at the consent screen ----

  datatype GrantProfile = Full | Standard | Narrow

  function AsciiLower(c: char): char {
    if 'A' <= c <= 'Z' then (c as int + 32) as char else c
  }

  function Lowered(s: string): string {
    if s == [] then [] else [AsciiLower(s[0])] + Lowered(s[1..])
  }

  function ProfileNamed(s: string): Option<GrantProfile> {
    var name := Lowered(Trim(s));
    if name == "full" then Some(Full)
    else if name == "standard" then Some(Standard)
    else if name == "narrow" then Some(Narrow)
    else None
  }

  function Namespaces(p: GrantProfile): seq<NamespaceGrant> {
    match p
    case Full => [NamespaceGrant("*", SealedLevel)]
    case Standard => [NamespaceGrant("user:me", OpenLevel), NamespaceGrant("global", OpenLevel),
                      NamespaceGrant("project:*", OpenLevel)]
    case Narrow => [NamespaceGrant("user:me", OpenLevel), NamespaceGrant("global", OpenLevel)]
  }

  function ProfileName(p: GrantProfile): string {
    match p
    case Full => "full"
    case Standard => "standard"
    case Narrow => "narrow"
  }

  /** The update the consent handler writes; history is never part of it. */
  function GrantOf(p: GrantProfile): ClientGrant {
    ClientGrant(Some(ProfileName(p)), Namespaces(p), Namespaces(p), p.Full?, p.Full?, p.Full?, p.Full?, false)
  }

  /** The profile field, absent or not a profile being no choice. */
  function ChosenGrant(profile: Option<string>): Option<ClientGrant> {
    if profile.None? || ProfileNamed(profile.value).None? then None
    else Some(GrantOf(ProfileNamed(profile.value).value))
  }

  /** The name field: absent leaves the label alone; otherwise it is stored, cleared, or refused. */
  datatype LabelChoice = Leave | Store(name: Option<string>) | Unusable

  /** `labelFor` is `owner_label`: what was typed and the registered name give the label, none, or a refusal. */
  function ChosenLabel(labelFor: (string, string) -> Option<Option<string>>, db: Db, id: string,
                       typed: Option<string>): LabelChoice
  {
    if typed.None? then Leave
    else
      match labelFor(typed.value, if id in db.clients then db.clients[id].name else "")
      case None => Unusable
      case Some(name) => Store(name)
  }

  // ---- the choices, told by what is posted ----

  /** `raw` is the word in letters of either case, with whitespace around it. */
  ghost predicate Spells(raw: string, word: string) {
    exists a, t, b :: AllSpace(a) && AllSpace(b) && raw == a + t + b && SameLetters(t, word)
  }

  predicate SameLetters(t: string, word: string) {
    |t| == |word| && forall k | 0 <= k < |t| :: t[k] == word[k] || t[k] as int + 32 == word[k] as int
  }

  predicate SmallLetters(word: string) {
    word != [] && forall k | 0 <= k < |word| :: 'a' <= word[k] <= 'z'
  }

  lemma {:induction false} LoweredIs(t: string, word: string)
    requires forall k | 0 <= k < |word| :: 'a' <= word[k] <= 'z'
    ensures Lowered(t) == word <==> SameLetters(t, word)
  {
    if t != [] && word != [] {
      LoweredIs(t[1..], word[1..]);
      assert Lowered(t) == word <==> AsciiLower(t[0]) == word[0] && Lowered(t[1..]) == word[1..] by {
        assert Lowered(t)[0] == AsciiLower(t[0]) && Lowered(t)[1..] == Lowered(t[1..]);
        assert word == [word[0]] + word[1..];
      }
      assert SameLetters(t, word) <==>
        (t[0] == word[0] || t[0] as int + 32 == word[0] as int) && SameLetters(t[1..], word[1..]);
    }
  }

  lemma SpelledIsLowered(raw: string, word: string)
    requires SmallLetters(word)
    ensures Spells(raw, word) <==> Lowered(Trim(raw)) == word
  {
    if a, t, b :| AllSpace(a) && AllSpace(b) && raw == a + t + b && SameLetters(t, word) {
      assert !IsSpace(t[0]) && !IsSpace(t[|t| - 1]);
      TrimOfPadded(a, t, b);
      LoweredIs(t, word);
    }
    if Lowered(Trim(raw)) == word {
      var a, b := TrimCuts(raw);
      LoweredIs(Trim(raw), word);
    }
  }

  const FULL_GRANT: ClientGrant :=
    ClientGrant(Some("full"), [NamespaceGrant("*", SealedLevel)], [NamespaceGrant("*", SealedLevel)],
                true, true, true, true, false)

  const OPEN_NOTES: seq<NamespaceGrant> := [NamespaceGrant("user:me", OpenLevel), NamespaceGrant("global", OpenLevel)]

  const STANDARD_GRANT: ClientGrant :=
    ClientGrant(Some("standard"), OPEN_NOTES + [NamespaceGrant("project:*", OpenLevel)],
                OPEN_NOTES + [NamespaceGrant("project:*", OpenLevel)], false, false, false, false, false)

  const NARROW_GRANT: ClientGrant :=
    ClientGrant(Some("narrow"), OPEN_NOTES, OPEN_NOTES, false, false, false, false, false)

  /** Three words choose three grants, in any case and with any whitespace around them; nothing else is a choice. */
  lemma ChoicesAreThree(raw: string)
    ensures ChosenGrant(Some(raw)) ==
            if Spells(raw, "full") then Some(FULL_GRANT)
            else if Spells(raw, "standard") then Some(STANDARD_GRANT)
            else if Spells(raw, "narrow") then Some(NARROW_GRANT)
            else None
    ensures ChosenGrant(None) == None
  {
    SpelledIsLowered(raw, "full");
    SpelledIsLowered(raw, "standard");
    SpelledIsLowered(raw, "narrow");
    assert OPEN_NOTES + [NamespaceGrant("project:*", OpenLevel)] == Namespaces(Standard);
  }

  /** A field that was not sent leaves the name alone; one that was is stored as the rule gives it for the client's
      registered name, or refused with it. */
  lemma LabelIsTheRules(labelFor: (string, string) -> Option<Option<string>>, db: Db, id: string, typed: Option<string>)
    requires id in db.clients
    ensures var choice := ChosenLabel(labelFor, db, id, typed);
            && (choice == Leave <==> typed == None)
            && (choice == Unusable <==> typed.Some? && labelFor(typed.value, db.clients[id].name) == None)
            && (forall name :: choice == Store(name) <==>
                  typed.Some? && labelFor(typed.value, db.clients[id].name) == Some(name))
  {
  }

  /** Only the full profile reaches what is private or sealed, deletes, ingests or writes the registry; and every choice
      grants something. */
  lemma OnlyFullReachesFar(profile: Option<string>)
    requires ChosenGrant(profile).Some?
    ensures var g := ChosenGrant(profile).value;
            && g.read == g.write && g.read != [] && !g.mayReadHistory
            && (ProfileNamed(profile.value) != Some(Full) ==>
                  && (forall n | n in g.read :: n.max == OpenLevel)
                  && !g.registryWrite && !g.sealedCapable && !g.mayDelete && !g.mayIngest)
  {
  }
}
