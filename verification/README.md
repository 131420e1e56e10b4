# lumberroom, verified

A Dafny model of lumberroom's built-in OAuth 2.1 authorization server and of the other places in the repository where a
small piece of code carries a promise that is easy to break: the login limiter, the per-row envelope, the signed owner
cookie and its tokens, and a handful of printers, parsers and walks. The statements below
are about all inputs, all runs or all reachable states; three, `FamilyDeath.ReplayIsOutrun`, `FamilyDeath.SampleIsHonest`
and `LoginFlow.AClearForgetsTheKeys`, show one run each, of a limit that is real.

`dafny verify dfyconfig.toml` checks the whole project.

## What is where

The authorization server

- `OauthStore.dfy` the tables and statements of the Postgres store, as functions on a value and as a class that runs them
- `TokenEndpoint.dfy` the decisions of the token endpoint, and a request as the chain of store calls it makes
- `Handlers.dfy` `exchange_code`, `rotate`, `issue_tokens` and `revoke` as methods over the store, tied to that chain
- `TokenRuns.dfy` every interleaving of those chains, with registration, approval, revocation by the owner and the clock:
  one unspent successor per family, one chain per family, one mint per credential
- `Provenance.dfy` every token descends from one code, opened by an exchange that met all of its bindings
- `FamilyDeath.dfy` what `revoke_family` achieves among requests in flight: exactly when it is final, and a run that
  outruns it
- `AtomicRuns.dfy` whole requests as particular interleavings; with those, a killed family stays dead
- `EndpointOutcomes.dfy` each whole request's answer and rows, told by the form and the tables alone
- `Lifetimes.dfy` in every interleaving: credentials spent in time, tokens dead on time
- `RefusedRefresh.dfy` what a refused refresh costs (nothing), what a replayed one costs (the family), and who can be
  about to spend a live token in any interleaving
- `Bearer.dfy` the authenticator, the audience stamped on every token, the drain of tokens that carry none
- `Authorize.dfy` the authorization request against its client, and what the owner can choose for it
- `ConsentFlow.dfy` sign-in, the consent page, the Allow: no code without the owner's password
- `ConsoleFlow.dfy` the console's approvals: each answers a form shown to the same signed-in session
- `WholeFlow.dfy` and where nothing is wrong nothing is refused: from a right password to an admitted token
- `Session.dfy` the MAC input, the cookie, the three kinds of token
- `Limiter.dfy`, `LoginFlow.dfy` the two login limiters, the shared pool of password checks, and all interleavings of the
  two login handlers
- `OwnerHandlers.dfy` the login and consent handlers as methods over the limiter, the pool and the store

The rest

- `Envelope.dfy` `seal` and `open` over an ideal AEAD
- `HiddenForm.dfy`, `FlowForm.dfy` hidden inputs, and the authorization request that travels in them
- `RedirectQuery.dfy` the redirect's query
- `Paging.dfy`, `Uuid.dfy`, `Decimal.dfy` the keyset cursor and the walk along it
- `DigestCut.dfy` `fit_digest`; `Fence.dfy` `carries_fence`
- `Text.dfy`, `Utf8.dfy` splitting, trimming, hex digits and UTF-8

## Choices

- `hash_token` and `family_for` are symbols: a hash is the term `Sha256(text)`, a family the term `FamilyOf(hash)`.
  `hashes_match` is then equality. The S256 transform and the canonical form of a resource are arbitrary functions of the
  configuration.
- The MAC is an arbitrary function of bytes to 64 hex characters, so it is not assumed injective. What is assumed is that
  no new input collides with one this server has already minted, and that a tag which verifies was minted. The claims
  about single tokens name the one pair of inputs that must not collide.
- `consume_code` and `rotate_refresh` are one step each: the second statement of either only sorts a refusal.
- Between two store calls of a request anything else may happen. `issue_tokens` reads its clock at its first insertion.
- Characters are Unicode scalar values; a Rust length in bytes is the length of the UTF-8 encoding, and where the code
  accepts only ASCII the two lengths agree.
- Where a property is not true of the code, the code is kept: a family revoked while another exchange of its code is in
  flight can still gain tokens (`FamilyDeath.ReplayIsOutrun`, reached from an empty store by `FamilyDeath.SampleIsHonest`).
  `FamilyDeath.InEveryRunAKillIsFinalExactlyWhenNobodyIssues` gives the exact condition.

## Model

| member | source | states |
|---|---|---|
| OauthStore.PgStore.constructor | migrations/20260819000007_oauth.sql:10-84 | the store starts with four empty tables |
| OauthStore.PgStore.ConsumeCode | src/adapters/postgres/oauth.rs:258-308 | spends a code exactly when it is there, unspent and short of its expiry, and answers its row; otherwise writes nothing and sorts the refusal, consumed before expired |
| OauthStore.PgStore.RotateRefresh | src/adapters/postgres/oauth.rs:375-424 | spends a token exactly when it is there, unspent, unrevoked and short of its expiry, and answers its own client and family; a replay outranks revoked and expired |
| OauthStore.PgStore.RefreshOwner | src/adapters/postgres/oauth.rs:426-441 | names the owner of a live token only, and writes nothing |
| OauthStore.PgStore.FindClient | src/adapters/postgres/oauth.rs:98-115 | reads one client, revoked ones included |
| OauthStore.PgStore.InsertToken | src/adapters/postgres/oauth.rs:310-324 | adds one access row for a known client under an unused key, refuses it otherwise, and touches no other table |
| OauthStore.PgStore.InsertRefresh | src/adapters/postgres/oauth.rs:361-373 | the same of one refresh row |
| OauthStore.PgStore.RevokeToken | src/adapters/postgres/oauth.rs:349-359 | revokes one unrevoked access token and says whether there was one |
| OauthStore.PgStore.RevokeFamily | src/adapters/postgres/oauth.rs:443-461 | every access and refresh row of the family is its old row marked, and no other row of any table has changed, come or gone |
| OauthStore.PgStore.RevokeClient | src/adapters/postgres/oauth.rs:186-219 | the same of a client and its rows, whether or not it was revoked before |
| OauthStore.PgStore.SetClientGrant | src/adapters/postgres/oauth.rs:147-175 | writes approval, profile, both namespace lists and the five capabilities of an existing client together; an unknown id changes nothing |
| OauthStore.PgStore.SetClientLabel | src/adapters/postgres/oauth.rs:177-184 | names an approved client, revoked or not, and nobody else, and moves no grant |
| OauthStore.PgStore.RegisterClient | src/adapters/postgres/oauth.rs:76-96 | a new client starts with the empty grant, no approval and no label; a taken id is refused |
| OauthStore.PgStore.InsertCode | src/adapters/postgres/oauth.rs:240-256 | the same of one code row |
| TokenEndpoint.Refusal | src/authserver/routes.rs:1413-1439 | whoever is not refused acts for a client that exists, is approved and is not revoked |
| TokenEndpoint.RankFalls | src/authserver/routes.rs:715-1031 | every store call brings a request closer to its answer, whatever the store holds |
| TokenEndpoint.IssueSettles | src/authserver/routes.rs:922-992 | a grant stores one access row, and one refresh row exactly when the client registered for refresh tokens |
| TokenEndpoint.KillSettles | src/authserver/routes.rs:749-756 | a kill leaves exactly the family's rows revoked |
| Handlers.AuthServer.constructor | src/authserver/routes.rs:63-100 | the handlers share one store and one configuration |
| Handlers.AuthServer.ExchangeCode | src/authserver/routes.rs:715-811 | answer and store are those of the exchange's chain of calls run to its end |
| Handlers.AuthServer.FinishExchange | src/authserver/routes.rs:769-810 | the three bindings, the client, the secret and the resource, in that order, on a code already spent |
| Handlers.AuthServer.Rotate | src/authserver/routes.rs:813-902 | answer and store are those of the rotation's chain: resource first, then a lookup that spends nothing, then the spend |
| Handlers.AuthServer.FinishRotation | src/authserver/routes.rs:855-901 | the spend, the replay verdict, and the second check of the caller |
| Handlers.AuthServer.RefreshCaller | src/authserver/routes.rs:906-920 | the caller names no other client and the client accepts it, with the errors in order |
| Handlers.AuthServer.IssueTokens | src/authserver/routes.rs:922-992 | stamps the resource or refuses before any insertion; on success the access row lives one access lifetime, the refresh row, stored exactly for a client registered for it, one refresh lifetime |
| Handlers.AuthServer.Revoke | src/authserver/routes.rs:996-1031 | answer and store are those of the revocation's chain |
| TokenRuns.RunsCompose | src/authserver/routes.rs:688-713 | a run followed by a run is a run, ending where the second ends |
| TokenRuns.StepKeepsOrder | src/authserver/routes.rs:715-1031 | each store call of each request keeps every family in order: its line linked, stored, complete, and at most one holder at its tip |
| TokenRuns.RunKeepsOrder | src/authserver/routes.rs:715-1031 | so does every run |
| TokenRuns.CodeSpendInOrder | src/authserver/routes.rs:731-768 | the winner of a code is the family's first and only holder |
| TokenRuns.TokenSpendInOrder | src/authserver/routes.rs:855-884 | the winner of a live token becomes the family's only holder, and the token was the tip |
| TokenRuns.MintInOrder | src/authserver/routes.rs:958-978 | storing a successor extends the line by one and leaves nobody holding the family |
| TokenRuns.LiveTokenIsTip | src/ports/oauth.rs:173-174 | an unspent refresh token is the last of its family's line, and nobody is inserting beside it |
| TokenRuns.OneSuccessorAtATime | src/authserver/routes.rs:813-992 | in every interleaving, a family's unspent refresh tokens and the requests between a spend and its insertion number at most one |
| TokenRuns.RefreshTokensFormOneChain | src/authserver/routes.rs:813-992 | a family's refresh tokens are one chain from its spent code, each minted by spending the one before, all but the last spent |
| TokenRuns.CredentialsMintOnce | src/authserver/routes.rs:737-768 | however many requests present one code or token, together they mint at most one access and one refresh token |
| TokenRuns.RunIsThrifty | src/authserver/routes.rs:860-901 | every mint's credential is spent, and a request still inserting has minted at most its access token |
| Provenance.RunKeepsSourced | src/authserver/routes.rs:769-810 | openings, requests in flight and rows all trace to a bound, spent code in every reachable state |
| Provenance.StepKeepsSourced | src/authserver/routes.rs:715-992 | one step keeps that |
| Provenance.EveryTokenIsAuthorised | src/authserver/routes.rs:769-811 | every token's family grew from exactly one spent code of its client, by an exchange with the bound redirect URI, a verifier of its challenge and the client's own credentials |
| Provenance.EveryMintWentToItsClient | src/authserver/routes.rs:886-894 | every mint of every run, rotations included, went to a request that named no other client and held the client's secret, or none where it has none |
| Provenance.UnapprovedClientsHoldNothing | src/authserver/mod.rs:7-13 | along every run a client nobody approved has the empty grant and no label |
| FamilyDeath.DeadStaysDead | src/authserver/routes.rs:739-757 | with rows revoked, code spent and nobody holding, a family stays that way in every interleaving |
| FamilyDeath.KillIsFinalExactlyWhenNobodyIssues | src/authserver/routes.rs:862-874 | after a kill, no continuation has an unrevoked row exactly when no request in flight holds the family with its remaining checks passing |
| FamilyDeath.InEveryRunAKillIsFinalExactlyWhenNobodyIssues | src/authserver/routes.rs:739-757 | the same of every state a run from an empty store reaches |
| FamilyDeath.ReplayIsOutrun | src/authserver/routes.rs:737-811 | an exchange sent twice: the replay revokes the family and answers, and the first exchange then mints into it |
| FamilyDeath.SampleIsHonest | src/authserver/routes.rs:658-671 | a concrete run from an empty store to such a moment |
| FamilyDeath.RefusalIsForGood | src/authserver/routes.rs:1413-1439 | a known client that refuses a caller goes on refusing it |
| FamilyDeath.RunIsReachable | src/authserver/routes.rs:688-713 | order, provenance and approved codes hold together along every run |
| AtomicRuns.FinishingRuns | src/authserver/routes.rs:715-1031 | a request run to its end is a run of the interleaved system with the same store and answer |
| AtomicRuns.ActsAreARun | src/authserver/routes.rs:688-713 | so is any sequence of whole requests, owner's acts and clock readings |
| AtomicRuns.ExchangeSettles | src/authserver/routes.rs:715-811 | an exchange of a spendable code burns it whatever else is wrong, and issues exactly when nothing else is |
| AtomicRuns.RevokeSettles | src/authserver/routes.rs:1005-1030 | an access token dies alone, a refresh token takes its family along, anything else changes nothing, and the answer is the same |
| AtomicRuns.ReplayedCodeKills | src/authserver/routes.rs:739-757 | a spent code presented again revokes exactly its family |
| AtomicRuns.ReplayedTokenKills | src/authserver/routes.rs:862-874 | a spent refresh token presented again revokes exactly its family |
| AtomicRuns.RevokedTokenKills | src/authserver/routes.rs:1015-1021 | a refresh token handed in for revocation, live or spent, revokes its family |
| AtomicRuns.KilledFamiliesStayDead | src/authserver/routes.rs:739-757 | with whole requests, after a replay or a revocation no later step of any run leaves an unrevoked token in the family |
| EndpointOutcomes.ExchangeWithoutItsFields | src/authserver/routes.rs:720-729 | an exchange with a field missing or empty is refused and changes nothing |
| EndpointOutcomes.ExchangeOfNoCode | src/authserver/routes.rs:758-766 | so is one of an unknown or expired code |
| EndpointOutcomes.ExchangeOfASpentCode | src/authserver/routes.rs:739-757 | one of a spent code marks the rows of its own family and touches no other row of any table |
| EndpointOutcomes.ExchangeOfAGoodCode | src/authserver/routes.rs:769-810 | a good code is spent whatever else is wrong; tokens are issued exactly when redirect URI, verifier, client, secret and resource are right, which of them fails gives the error, and the rows stored are written out field by field |
| EndpointOutcomes.RotationWithoutItsFields | src/authserver/routes.rs:818-834 | a rotation without a token, or for a resource not served, is refused before the token is looked at |
| EndpointOutcomes.RotationOfADeadToken | src/authserver/routes.rs:876-883 | an unknown, revoked or expired token is refused and changes nothing |
| EndpointOutcomes.RotationOfASpentToken | src/authserver/routes.rs:862-875 | a spent token marks the rows of its own family and touches no other, whoever presents it |
| EndpointOutcomes.RotationOfAGoodToken | src/authserver/routes.rs:838-901 | a live token is spent exactly for its own client with the right secret, and its successors keep client and family under the default scope; any other caller changes nothing and gets the error the failed check names |
| EndpointOutcomes.RevocationOfNothing | src/authserver/routes.rs:1000-1002 | a revocation without a token is refused and changes nothing |
| EndpointOutcomes.RevocationOutcome | src/authserver/routes.rs:1000-1030 | one answer always; a working access token is the one row marked, a refresh token marks its family and no other row, anything else changes nothing |
| EndpointOutcomes.KillTouchesOnlyItsFamily | src/adapters/postgres/oauth.rs:443-461 | every whole request that kills a family marks that family's rows and leaves every other row of every table as it was |
| Lifetimes.CredentialsAreSpentInTime | src/adapters/postgres/oauth.rs:258-308 | in every interleaving, a code or refresh token that opened a family, is held or was minted from was spent at an instant before its expiry |
| Lifetimes.AccessTokensExpire | src/authserver/routes.rs:944-955 | every access token stored along a run expires one access lifetime after the instant it was stored at |
| Lifetimes.RefreshTokensExpire | src/authserver/routes.rs:961-972 | every refresh token one refresh lifetime after the instant its access token was stored at |
| RefusedRefresh.UnchangedExactlyWhenTurnedAway | src/authserver/routes.rs:822-853 | a refresh against a live token leaves the store alone exactly when the resource, the client id or the client refuses it |
| RefusedRefresh.TurnedAwayCostsNothing | src/authserver/routes.rs:838-853 | a refused refresh answers an error and writes nothing |
| RefusedRefresh.OwnerRotates | src/authserver/routes.rs:855-901 | an accepted one spends the token and stores its successors, and nothing else |
| RefusedRefresh.OwnerStillRotates | src/authserver/routes.rs:838-853 | after any number of refused ones the owner's own still rotates, with the same result |
| RefusedRefresh.SpentTokenKillsWhoeverPresentsIt | src/authserver/routes.rs:843-874 | a spent token under any id and secret revokes its family exactly when the resource asked for is acceptable |
| RefusedRefresh.RunKeepsVouched | src/authserver/routes.rs:838-853 | in every interleaving, a request past its lookup was accepted as the owner, found the row dead, or found none |
| RefusedRefresh.LiveTokensAreSpentByTheirOwners | src/authserver/routes.rs:886-894 | in every run a request about to spend a live token was accepted as its owner, or looked it up before the row was stored |
| RefusedRefresh.OnlyOwnersSpendLiveTokens | src/authserver/routes.rs:838-853 | so in every run in which no request names a refresh token before it is drawn, only accepted owners come to spend live ones |
| Bearer.MintedTokensAreStamped | src/authserver/routes.rs:922-954 | from any store, every access token minted since names a resource; unless the setting is off its canonical form is the served one's |
| Bearer.IssueStamps | src/authserver/routes.rs:1385-1411 | an accepted request is stamped with the served resource or with its own spelling of it |
| Bearer.BareTokensDrain | src/authserver/routes.rs:1371-1376 | one access lifetime later no live token is without a resource |
| Bearer.StrictThenRefusesNobody | src/config.rs:82-91 | from then on the strict setting answers every token as the lenient one does |
| Bearer.ExchangeKeepsTheCodesResource | src/authserver/routes.rs:1339-1366 | in every setting a token minted by spending a code carries its scope, and its resource when it was bound to one |
| Bearer.AdmittedTokensAreAuthorised | src/adapters/auth/opaque.rs:49-130 | whatever the authenticator admits is live, properly stamped, and descends from a code of a client that is approved and not revoked, and carries that client's own grant, never the empty one |
| Bearer.AdmittedExactly | src/adapters/auth/opaque.rs:49-125 | a token is admitted, as its row's client and with that client's grant, exactly when the row is there, unexpired and unrevoked, the setting accepts its resource, and the client is known, live, approved and holds some grant |
| Bearer.RefusedFor | src/adapters/auth/opaque.rs:56-114 | and which refusal it is otherwise, expiry before revocation and the row before its client |
| Bearer.IssuedTokensWork | src/adapters/auth/opaque.rs:116-125 | in every run a token of a client approved with any of the three profiles is admitted until it expires or it or the client is revoked |
| Bearer.ExchangedTokenWorks | src/authserver/routes.rs:943-957 | the access token of an exchange is admitted from the exchange on, and from one access lifetime later it is expired |
| Bearer.NoTokenOutlivesItsMint | src/authserver/routes.rs:952 | no token stored along a run is admitted one access lifetime after it was stored |
| Bearer.RevokedClientsAreShutOut | src/adapters/auth/opaque.rs:99-106 | once the owner revokes a client none of its tokens is admitted again, whatever was in flight |
| Bearer.OwnersRevocationShutsOut | src/adapters/postgres/oauth.rs:186-219 | and that holds from the owner's own revocation on |
| Authorize.ResolvedIsSound | src/authserver/routes.rs:1445-1510 | a resolved request names a live client, one of its redirect URIs, a challenge and a served resource, unchanged, and its scope is what was asked for less the whitespace around it, or the default when nothing was |
| Authorize.ResolvesExactly | src/domain/oauth.rs:90-162 | a request resolves exactly when client, redirect URI, response type, S256 challenge and resource are right, and the first of them that fails gives the answer |
| Authorize.ResolvedResourceIsIssuable | src/authserver/routes.rs:1487-1507 | unless the setting is off, a code from a resolved request is never refused at the exchange over its own resource |
| Authorize.OnlyFullReachesFar | src/domain/oauth.rs:299-380 | whatever is posted as the profile, a choice grants the same reads and writes, never history, and nothing private, sealed or destructive unless it is the full one |
| Authorize.ChoicesAreThree | src/domain/oauth.rs:300-380 | three words, in any case and any whitespace around them, choose three grants written out; nothing else is a choice |
| Authorize.LabelIsTheRules | src/authserver/routes.rs:606-620 | an absent name field leaves the name alone, one that is there is stored or refused as the rule says for the registered name |
| ConsentFlow.VerifiedWasIssued | src/authserver/session.rs:83-121 | a session that verifies was issued, with that expiry and signature |
| ConsentFlow.CsrfInputWasRendered | src/authserver/routes.rs:1560-1566 | a consent token that can be presented belongs to a page rendered with the same five values |
| ConsentFlow.AllowAnswersAPage | src/authserver/routes.rs:543-586 | an Allow that goes through answers a page shown with the same client, redirect URI, challenge and state, under a session of the same expiry |
| ConsentFlow.StepKeepsKnown | src/authserver/routes.rs:380-684 | each step of sign-in, visit, consent and console keeps every minted input, page, Allow and code accounted for |
| ConsentFlow.RunKeepsKnown | src/authserver/routes.rs:380-684 | so does every run |
| ConsentFlow.SessionsAreOpenedByPasswords | src/authserver/routes.rs:502-530 | every session issued along a run has the expiry that some correct password of the run gave it |
| ConsentFlow.EverythingWasAllowed | src/authserver/routes.rs:543-671 | every intent on its way to a code, or behind one, was put there by one Allow of the run |
| ConsentFlow.CodesWereConsentedTo | src/authserver/routes.rs:543-671 | every code was written for an Allow that was pressed with a choice, on a post whose client, redirect URI, challenge, scope and resource are the row's, whose page was rendered with the same values and state, under a session that one of the run's correct passwords opened |
| ConsentFlow.RunsAreTokenRuns | src/authserver/routes.rs:632-671 | every run of the whole server is a run of the token endpoint underneath |
| ConsentFlow.EveryTokenWasConsentedTo | src/authserver/mod.rs:7-13 | every token grew from a code whose consent page showed its client, the redirect URI and the challenge of the verifier its exchange presented, and its state, under a session one of the run's correct passwords opened |
| ConsentFlow.NoPasswordNothing | src/authserver/mod.rs:7-13 | a run without one correct password has no approved client, no grant, no label, no code and no token |
| ConsoleFlow.ConsoleApprovesExactly | src/console/clients.rs:481-518 | a console post writes the grant posted, and nothing else, exactly when its session verifies and its token is that session's for this action and row |
| ConsoleFlow.ApprovalAnswersAForm | src/authserver/session.rs:153-172 | a console approval that stands answers a form the run showed for the same action and row, to the same session, which one of the run's correct passwords opened; and the row is the client's own, or the form that makes a new one |
| ConsoleFlow.ApprovedClientsWereApproved | src/authserver/mod.rs:7-13 | every approved client was approved by an Allow of the run or by a console post of the run that stood |
| WholeFlow.VisitShowsThePage | src/authserver/routes.rs:380-397 | a signed-in owner's visit with a sound request leaves a page that can be answered |
| WholeFlow.SignInShowsThePage | src/authserver/routes.rs:527-539 | so does a sign-in with the right password, to a browser that sends back its new cookie |
| WholeFlow.AllowGoesThrough | src/authserver/routes.rs:543-604 | the Allow on such a page passes every check |
| WholeFlow.AllowRuns | src/authserver/routes.rs:622-671 | its writes follow in their order |
| WholeFlow.AllowLeavesACode | src/authserver/routes.rs:622-671 | and leave the client approved with the grant chosen and the request's code in the table, and nothing else changed |
| WholeFlow.CodeOpensTheDoor | src/authserver/routes.rs:769-811 | the client's own exchange of that code in time issues a token that is admitted as that client, with that grant, for one access lifetime |
| WholeFlow.APasswordOpensTheDoor | src/authserver/mod.rs:7-13 | the three together: from any state, a right password, an Allow and the client's own exchange end in an admitted token |
| WholeFlow.ConsoleFormCanBePosted | src/console/clients.rs:475-535 | a console form posted with the token it carries stands, and approves its client with the grant posted |
| OwnerHandlers.PasswordPool.constructor | src/authserver/limiter.rs:60-64 | eight permits |
| OwnerHandlers.PasswordPool.TryAcquire | src/authserver/limiter.rs:70-72 | takes a permit when there is one and answers at once when there is none |
| OwnerHandlers.PasswordPool.GiveBack | src/authserver/routes.rs:1734-1752 | gives it back when the check ends |
| OwnerHandlers.AloneLeaves | src/authserver/routes.rs:465-525 | one sign-in by itself, as a run of the interleaved system, leaves the pool whole and the limiter charged exactly when the attempt was let through and ended wrong or failed |
| OwnerHandlers.ChargedExactlyWhenWrong | src/authserver/routes.rs:501-523 | an attempt stays charged exactly when its check ran and did not find the password right |
| OwnerHandlers.AnswersExactly | src/authserver/routes.rs:468-524 | which answer each sign-in gets |
| OwnerHandlers.WelcomedWhileItLasts | src/authserver/routes.rs:527-530 | after a right password the cookie goes out exactly when the clock is still short of its expiry as it is opened |
| OwnerHandlers.Login | src/authserver/routes.rs:451-530 | the request is resolved before anything is charged; then limiter, pool and answer are those of that run: a slot is given back on every path but a wrong or failed check, and a cookie goes out only for a right password and if it opens |
| OwnerHandlers.StoppedUnlessAllowed | src/authserver/routes.rs:548-604 | the checks in order pass exactly the posts the interleaved system allows, with the same request, grant and name to write |
| OwnerHandlers.PostOutcome | src/authserver/routes.rs:543-684 | a post goes through exactly with a session, a resolved request, its own token, Allow, a choice and a usable name; the first that fails is the answer and writes nothing; what is written is given field by field |
| OwnerHandlers.AllowIsARun | src/authserver/routes.rs:622-671 | an Allow that goes through is a run of the interleaved system: the Allow, the grant, the name when one was typed, the code; and that run ends in the store the handler leaves |
| OwnerHandlers.Consent | src/authserver/routes.rs:543-684 | a post that a check stops changes nothing; an Allow leaves the store its run leaves, and the code goes out exactly when it was stored |
| Session.Feed | src/authserver/session.rs:180-191 | the loop feeds the label, then each field behind its eight-byte length |
| Session.InputReadsBack | src/authserver/session.rs:174-191 | one parser reads label and fields back from every signed input |
| Session.InputInjective | src/authserver/session.rs:174-191 | so equal inputs have equal labels and equal fields |
| Session.OpensUntilExpiry | src/authserver/session.rs:61-121 | an issued cookie opens exactly while the clock is short of its expiry, and reports that expiry |
| Session.OpensOnlyAsIssued | src/authserver/session.rs:94-121 | a value that opens under an issued cookie's signature is that cookie, byte for byte |
| Session.VerifiesWhenSomePairOpens | src/authserver/session.rs:83-92 | verification succeeds exactly when some pair of the right name, in any header, opens, and answers with one that does |
| Session.FirstOpenIsTheFirst | src/authserver/session.rs:83-92 | and it is the first of them |
| Session.LiveCookieVerifies | src/authserver/session.rs:77-92 | a live cookie is found whatever pairs stand around it |
| Session.CsrfBindsEverything | src/authserver/session.rs:130-151 | a consent token verifies exactly for its own session signature, client, redirect URI, challenge and state |
| Session.ConsoleCsrfBindsEverything | src/authserver/session.rs:153-172 | a console token verifies exactly for its own session signature, action and row |
| Session.CsrfNamesItsSession | src/authserver/session.rs:130-151 | between sessions the server issued, a consent token verifies exactly for its own expiry and the same four values |
| Session.ConsoleCsrfNamesItsSession | src/authserver/session.rs:153-172 | and a console token exactly for its own expiry, action and row |
| Session.SurfacesDoNotMix | src/authserver/session.rs:153-172 | neither is ever the other |
| Limiter.Prune | src/authserver/limiter.rs:157-159 | keeps exactly the charges younger than a minute, in order |
| Limiter.RemoveOne | src/authserver/limiter.rs:163-169 | takes out the first charge of that instant and no other |
| Limiter.YoungForAMinute | src/authserver/limiter.rs:157-159 | a charge counts for sixty seconds |
| Limiter.ReservedStaysBounded | src/authserver/limiter.rs:121-148 | no window outgrows its budget and neither map its 4096 keys |
| Limiter.ReservedCounts | src/authserver/limiter.rs:132-147 | in each map, once room is made, a let-through attempt adds one charge to its window, a refused one none, and nothing younger than a minute is lost |
| Limiter.KeyStops | src/authserver/limiter.rs:132-135 | a key stops the attempt exactly when its window holds its whole budget younger than a minute |
| Limiter.ReservedNames | src/authserver/limiter.rs:125-139 | an attempt makes an entry for its key, and for its peer when the key had room; a map is emptied first exactly when it holds 4096 names and not this one |
| Limiter.LetThroughExactlyWithRoom | src/authserver/limiter.rs:132-142 | let through exactly when both pruned windows are short of their budgets |
| Limiter.ReleasedCounts | src/authserver/limiter.rs:98-103 | a release takes one charge of that instant from each window, even among equals |
| Limiter.ReleaseUndoes | src/authserver/limiter.rs:95-104 | releasing what was just reserved leaves every window as the attempt found it once room was made, pruned |
| Limiter.Entered | src/authserver/limiter.rs:132-139 | makes a missing window and prunes it |
| Limiter.LoginLimiter.constructor | src/authserver/limiter.rs:107-114 | a configured zero is one attempt a minute |
| Limiter.LoginLimiter.Reserve | src/authserver/limiter.rs:121-148 | the windows after an attempt, still bounded, and a reservation exactly when it was let through |
| Limiter.LoginLimiter.Charge | src/authserver/limiter.rs:122-147 | clears, prunes, checks the key before the peer, and charges both or neither |
| Limiter.LoginLimiter.Release | src/authserver/limiter.rs:98-103 | the new maps are the old ones with that one charge out of each |
| LoginFlow.AtMostEightChecks | src/authserver/limiter.rs:53-72 | in no interleaving of the two surfaces do more than eight password checks run at once |
| LoginFlow.OnlyThreeStepsRefund | src/authserver/routes.rs:482-525 | a slot is given back when no password is set, when every check is busy, and when the password was right, and by no other step |
| LoginFlow.WrongAnswersStayCharged | src/authserver/routes.rs:507-523 | an attempt whose check failed, found the password wrong or was abandoned is never refunded |
| LoginFlow.RunKeepsSound | src/authserver/limiter.rs:84-148 | along every run, clears included, each window holds its name's unreleased charges younger than a minute and later than the last clear of its own map, and no more than those of any instant |
| LoginFlow.PrunedWindowIsBusy | src/authserver/limiter.rs:157-159 | a minute after the last clear of its map a pruned window holds exactly the attempts still charged |
| LoginFlow.BudgetHolds | src/authserver/routes.rs:468-525 | in every interleaving, at most per_minute attempts of a key and four times that of a peer are busy since the last clear of that map or the last minute, whichever is shorter |
| LoginFlow.BudgetHoldsFromTheStart | src/authserver/limiter.rs:11-17 | from a fresh start, whatever clears there were, a map's budget holds for the whole last minute once a minute has passed since its own last clear, with a configured zero read as one; and eight checks over both surfaces |
| LoginFlow.LetThroughExactlyWithBudget | src/console/mod.rs:351-414 | an attempt is let through exactly when its key and peer have budget left, a minute after both maps' clears, and before that never without budget |
| LoginFlow.ArrivalForgetsExactlyWhenItClears | src/authserver/limiter.rs:122-131 | where a minute has passed since the last clear, an arrival makes the limiter forget a charge younger than a minute exactly when it clears that map and there is one |
| LoginFlow.AClearForgetsTheKeys | src/authserver/limiter.rs:122-131 | the minute is needed: one peer changing its forwarded address 4097 times fills and clears the key map, and from a second peer a key then goes beyond its budget |
| Envelope.FillRandom | src/crypto/envelope.rs:42-48 | the caller's buffer holds the drawn bytes, or the draw is refused |
| Envelope.Vault.constructor | src/crypto/envelope.rs:41-48 | nothing sealed yet, nothing in the log |
| Envelope.Vault.Encrypt | src/crypto/envelope.rs:54-60 | each encryption enters the log once |
| Envelope.Vault.Seal | src/crypto/envelope.rs:41-72 | stores the two layers of one call, or nothing when a draw is refused |
| Envelope.OpensBack | src/crypto/envelope.rs:74-111 | a stored row opens, under its key and id, to what was sealed |
| Envelope.OpensOnlyWhole | src/crypto/envelope.rs:113-124 | whatever columns are put together, a row that opens is one call's stored row for that id and key |
| Envelope.OpensExactly | src/crypto/envelope.rs:74-111 | a row opens exactly with the one label, two nonces of twelve bytes, and a wrapped key that opens to thirty-two bytes under which the content opens to text |
| Envelope.MixedColumnsDoNotOpen | src/crypto/envelope.rs:113-124 | columns taken from up to four calls open exactly when together they are the stored row of one call for that id and key |
| HiddenForm.Escape | src/authserver/pages.rs:92-105 | the loop prints the five entities |
| HiddenForm.PrintHidden | src/authserver/pages.rs:118-120 | one input with both attributes escaped |
| HiddenForm.HiddenInputs | src/authserver/pages.rs:125-141 | prints exactly the request's fields, absent optionals omitted |
| HiddenForm.UnescapedEscaped | src/authserver/pages.rs:92-105 | decoding the entities gives the text back |
| HiddenForm.EscapedIsInert | src/authserver/pages.rs:86-105 | escaped text can close neither attribute nor tag |
| HiddenForm.InputsReadBack | src/authserver/pages.rs:118-141 | parsing the inputs gives the same names and values in order, whatever characters they hold |
| FlowForm.RequestSurvivesThePage | src/authserver/routes.rs:404-449 | the request read back from the page is the request shown, absent optionals still absent |
| FlowForm.IntentSurvivesThePage | src/authserver/routes.rs:1528-1541 | a resolved request shown on a page and posted back resolves to itself, and over a later store exactly while its client is live with that redirect URI |
| RedirectQuery.UrlEncode | src/authserver/routes.rs:1806-1817 | the loop keeps unreserved bytes and writes every other as two upper-case hex digits |
| RedirectQuery.AppendQuery | src/authserver/routes.rs:1791-1800 | the string arm appends pair by pair |
| RedirectQuery.PercentDecodeEncoded | src/authserver/routes.rs:1806-1817 | decoding gives back every byte string |
| RedirectQuery.AppendedReadsBack | src/authserver/routes.rs:1780-1802 | a reader finds the URI's own pairs, then exactly the new ones |
| RedirectQuery.AppendsNoFragment | src/authserver/routes.rs:1791-1800 | what is appended starts no fragment and leaves the URI its prefix |
| RedirectQuery.StateReadsBack | src/authserver/routes.rs:679-683 | the client's own state comes back last, and not at all when it sent none |
| RedirectQuery.EncodedIsPlain | src/authserver/routes.rs:1806-1817 | what is written is letters, digits, four marks and the escape |
| RedirectQuery.AllowReadsBack | src/authserver/routes.rs:679-683 | the Allow's redirect carries the code under its name, then the state |
| UuidText.ParseFormat | src/console/data.rs:168-180 | a formatted id parses back |
| Decimal.ParseToString | src/console/data.rs:168-180 | a printed 64-bit integer parses back |
| Paging.PageSize | src/console/data.rs:46-48 | 40 when nothing is asked, what is asked from 1 to 200, and the nearer end otherwise |
| Paging.ParseEncoded | src/console/data.rs:161-181 | an encoded cursor parses back |
| Paging.CursorSurvivesALink | src/console/data.rs:162-170 | it passes through an attribute and a query string unchanged |
| Paging.RetainOpened | src/console/data.rs:726-732 | keeps the openable rows in order |
| Paging.NewestFirst | src/adapters/postgres/memory.rs:572 | the listing is newest first, ties by the larger id |
| Paging.BelowIsOlder | src/adapters/postgres/memory.rs:568 | a cursor leaves exactly the rows older than it |
| Paging.ReadPage | src/console/data.rs:339-376 | truncates, takes the cursor off the last row kept, and only then drops what will not open |
| Paging.WalkReadsEverything | src/console/data.rs:339-376 | from the first page on, at every page size, the pages hold every openable row once, newest first, and end |
| Paging.OpenedKeepsOrder | src/console/data.rs:726-732 | dropping unopenable rows keeps the order and drops no other |
| DigestCut.FitWith | client/openwebui-filter.py:145-157 | one pass finds the longest admissible prefix of whole lines, or that there is none |
| DigestCut.FitDigest | client/openwebui-filter.py:119-158 | the digest when it fits; else the longest cut with the footer, else without, else nothing; never above the budget |
| DigestCut.DanglingExactly | client/openwebui-filter.py:128-143 | a cut must not end on a blank line, a heading, or text right under a heading whose bullets are cut off |
| DigestCut.BlankExactly | client/openwebui-filter.py:128-143 | a line is blank when it holds nothing but what Python strips |
| DigestCut.RenderedIs | client/openwebui-filter.py:151 | a cut is the kept lines, a blank line and the footer if there is one, and the note |
| DigestCut.FooterIsTheLastLine | client/openwebui-filter.py:126 | the footer is the last line when it starts with the server's mark |
| DigestCut.KeptIsABeginning | client/openwebui-filter.py:145-154 | what is kept is the digest's own beginning, up to the end of a line |
| Fence.AgreesWithLines | src/domain/fence.rs:9-24 | true exactly when some line, trimmed, is a whole marker with twelve lower-case hex digits |
| Fence.FenceLineIsMarker | src/domain/fence.rs:18-22 | the prefix and suffix tests accept exactly the two markers |
| Fence.BreakDisjoins | src/domain/fence.rs:14-17 | a line break between two texts makes the verdict the disjunction of theirs |
| Fence.CrLfDisjoins | src/domain/fence.rs:14-17 | so does a carriage return and line feed |
| Fence.LayoutIsIrrelevant | src/domain/fence.rs:14-17 | rewriting line endings or padding lines changes nothing |
| Fence.EveryTextIsLaid | src/domain/fence.rs:14-17 | and that speaks of every text |

## Left out

- TokenEndpoint.RankFalls: says each call brings the answer closer, not that a call answers; of the store's errors only a refused insertion is modelled, not a lost connection.
- RedirectQuery.AppendQuery: the arm that goes through the `url` crate is not modelled, so the claim is for URIs on the string path.
- LoginFlow.BudgetHolds: assumes clock readings that do not decrease. A full map's clear does forget its charges, so within the minute after one the claim reaches back to the clear only.
- Envelope.OpensOnlyWhole: assumes an ideal AEAD, data keys that are never drawn twice and never equal a key-encryption key.
- ConsoleFlow.ConsoleApprovesExactly: one write; the console's look at whether the client is revoked comes before it and is not modelled, so here a revoked client may be approved, which gains it nothing.
- ConsoleFlow.ApprovalAnswersAForm: assumes a verifying tag was minted.
- ConsentFlow.CodesWereConsentedTo: assumes a verifying tag was minted and that no new MAC input collides with one already out.
- FamilyDeath.SampleIsHonest: assumes a positive code lifetime.
- OauthStore.PgStore.RevokeFamily: a revocation that fails is only logged by the code; the successful path is modelled.
- `family_for` keeps the first sixteen bytes of a digest, so codes whose digests share them share a family; here a family is named after the whole hash.
- Purging: `purge_expired` deletes old rows on a timer; here rows stay.
- Timestamps of consumption and revocation are marks here, set or not.
- The checks of a registration request, and `owner_label`, the rule for a typed name, which is a parameter.
- What a grant admits once it is handed over: namespace globs and levels are carried, not evaluated.
- Parsing of Basic credentials and of forms; a request's fields arrive as optional strings.
- The canonical form of a resource (`Url::parse`, the trailing slash, the length ceiling) is a parameter.
- Argon2, SHA-256, HMAC, AES-GCM, base64 and the operating system's randomness are parameters or symbols; only the
  envelope's draws can be refused, the authorization server's codes and tokens are always drawn.
- SQL is modelled statement by statement over maps; isolation levels and the two statements inside `consume_code` and `rotate_refresh` are not.
- The throttle key and peer key derived from headers and the address are parameters; so is the outcome of a password check.
- The body of a token response: the tokens drawn, `expires_in` and the scope string are not part of a reply, only the rows behind them.
- Cookie attributes, page prose, headers, status codes and logging.
- A browser's newline normalisation of posted form values.
- The rows' own tag and namespace filters: a listing is given in its order, as the query returns it.
- The embedding migration, configuration parsing, the console's rendering, the filter's cache and the command line.
