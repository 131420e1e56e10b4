/** The token and revocation endpoints: each handler as the chain of store calls it makes
    (src/authserver/routes.rs `exchange_code`, `rotate`, `issue_tokens`, `revoke`). */
module TokenEndpoint {
  import opened Text
  import opened OauthStore

  const DEFAULT_SCOPE: string := "lumberroom:memory"

  datatype Error = InvalidRequest | InvalidClient | InvalidGrant | InvalidTarget

  datatype Audience = Off | Lenient | Strict

  /** `canon` is `canonical_resource`; `s256` is the base64url SHA-256 of a verifier. */
  datatype Config = Config(
    served: string,
    audience: Audience,
    canon: string -> Option<string>,
    s256: string -> string,
    accessTtl: int,
    refreshTtl: int,
    codeTtl: int)

  /** What `Config` refuses to boot without. */
  predicate Bootable(cfg: Config) {
    cfg.audience != Off ==> cfg.canon(cfg.served).Some?
  }

  datatype Credentials = Credentials(clientId: Option<string>, secret: Option<string>)

  /** The form fields the two endpoints read. */
  datatype Form = Form(
    code: Option<string>,
    redirectUri: Option<string>,
    verifier: Option<string>,
    refreshToken: Option<string>,
    resource: Option<string>,
    token: Option<string>)

  // ---- the decisions ----

  function Field(v: Option<string>): Option<string> {
    if v.Some? && v.value != [] then v else None
  }

  predicate ResourceMatches(cfg: Config, a: string, b: string) {
    cfg.canon(a).Some? && cfg.canon(b).Some? && cfg.canon(a).value == cfg.canon(b).value
  }

  function ResourceForExchange(cfg: Config, bound: Option<string>, asked: Option<string>):
    Result<Option<string>, Error>
  {
    match (bound, asked)
    case (Some(b), Some(a)) => if ResourceMatches(cfg, b, a) then Ok(Some(b)) else Err(InvalidTarget)
    case (Some(b), None) => Ok(Some(b))
    case (None, Some(a)) => if cfg.canon(a).None? then Err(InvalidTarget) else Ok(Some(a))
    case (None, None) => Ok(None)
  }

  function ResourceForIssue(cfg: Config, asked: Option<string>): Result<string, Error> {
    if asked.None? then Ok(cfg.served)
    else if cfg.canon(asked.value).None? then Err(InvalidTarget)
    else if cfg.audience != Off && !ResourceMatches(cfg, asked.value, cfg.served) then Err(InvalidTarget)
    else Ok(asked.value)
  }

  /** What the exchange stamps: first against the code, then against the deployment. */
  function ResourceForCode(cfg: Config, bound: Option<string>, asked: Option<string>): Result<string, Error> {
    match ResourceForExchange(cfg, bound, asked)
    case Err(e) => Err(e)
    case Ok(r) => ResourceForIssue(cfg, r)
  }

  predicate VerifierChar(c: char) {
    'A' <= c <= 'Z' || 'a' <= c <= 'z' || '0' <= c <= '9' || c == '-' || c == '.' || c == '_' || c == '~'
  }

  predicate ValidVerifier(v: string) {
    43 <= |v| <= 128 && forall k | 0 <= k < |v| :: VerifierChar(v[k])
  }

  predicate VerifyPkce(cfg: Config, challenge: string, verifier: string) {
    ValidVerifier(verifier) && cfg.s256(verifier) == challenge
  }

  predicate NamesAnother(creds: Credentials, id: string) {
    creds.clientId.Some? && creds.clientId.value != id
  }

  function AuthenticateClient(client: ClientRecord, creds: Credentials): Option<Error> {
    match (client.secretHash, creds.secret)
    case (Some(expected), Some(presented)) => if Sha256(presented) == expected then None else Some(InvalidClient)
    case (Some(_), None) => Some(InvalidClient)
    case (None, Some(_)) => Some(InvalidClient)
    case (None, None) => None
  }

  /** `live_consented_client`, then `authenticate_client`. */
  function ClientRefusal(record: Option<ClientRecord>, creds: Credentials): Option<Error> {
    match record
    case None => Some(InvalidClient)
    case Some(client) =>
      if client.revoked then Some(InvalidClient)
      else if !client.consented then Some(InvalidGrant)
      else AuthenticateClient(client, creds)
  }

  /** What stops `creds` from acting as the client `id`, if anything. */
  function Refusal(db: Db, id: string, creds: Credentials): (e: Option<Error>)
    ensures e.None? ==> id in db.clients && db.clients[id].consented && !db.clients[id].revoked
  {
    ClientRefusal(ClientOf(db, id), creds)
  }

  // ---- a request, between two store calls ----

  datatype ExchangeReq = ExchangeReq(code: string, redirectUri: string, verifier: string, creds: Credentials,
                                     resource: Option<string>)

  datatype RefreshReq = RefreshReq(token: string, creds: Credentials, resource: Option<string>)

  /** The single-use credential a request has spent. */
  datatype Credential = Code(h: Hash) | Token(h: Hash)

  /** What a request that passed every check is about to insert, with what it presented of itself. */
  datatype Grant = Grant(clientId: string, refreshes: bool, family: Family, scope: string, resource: string,
                         spent: Credential, caller: Credentials)

  /** `Failed` is a fault of the server's own. */
  datatype Reply = Issued | Accepted | Refused(e: Error) | Failed

  /** The next store call of a request. A request about to spend a refresh token has the owner its lookup found, and
      passed as, if any; `known` records whether the row was there at all. */
  datatype Task =
    | SpendCode(x: ExchangeReq)                            // consume_code
    | CheckExchange(x: ExchangeReq, row: CodeRow)          // find_client
    | LookUp(r: RefreshReq)                                // refresh_owner
    | CheckOwner(r: RefreshReq, owner: string)             // find_client
    | SpendRefresh(r: RefreshReq, passedAs: Option<string>, known: bool) // rotate_refresh
    | Recheck(r: RefreshReq, owner: string, family: Family) // find_client
    | InsertAccess(g: Grant)                               // insert_token
    | InsertRefresh(g: Grant, issuedAt: int)               // insert_refresh
    | RevokeAccess(token: string)                          // revoke_token
    | RevokeRefresh(token: string)                         // rotate_refresh
    | KillFamily(f: Family, reply: Reply)                  // revoke_family
    | Done(reply: Reply)

  function BeginExchange(form: Form, creds: Credentials): Task {
    match (Field(form.code), Field(form.redirectUri), Field(form.verifier))
    case (Some(code), Some(uri), Some(verifier)) =>
      SpendCode(ExchangeReq(code, uri, verifier, creds, Field(form.resource)))
    case _ => Done(Refused(InvalidRequest))
  }

  /** The resource is settled before the token is looked at. */
  function BeginRotate(cfg: Config, form: Form, creds: Credentials): Task {
    match Field(form.refreshToken)
    case None => Done(Refused(InvalidRequest))
    case Some(token) =>
      match ResourceForIssue(cfg, Field(form.resource))
      case Err(e) => Done(Refused(e))
      case Ok(_) => LookUp(RefreshReq(token, creds, Field(form.resource)))
  }

  function BeginRevoke(form: Form): Task {
    match Field(form.token)
    case None => Done(Refused(InvalidRequest))
    case Some(token) => RevokeAccess(token)
  }

  /** The three bindings of a code, in the order they are checked. */
  predicate Bound(cfg: Config, x: ExchangeReq, row: CodeRow) {
    && !NamesAnother(x.creds, row.clientId)
    && x.redirectUri == row.redirectUri
    && VerifyPkce(cfg, row.challenge, x.verifier)
  }

  predicate Refreshes(db: Db, id: string) {
    id in db.clients && RefreshToken in db.clients[id].grantTypes
  }

  function AfterSpendCode(cfg: Config, db: Db, now: int, x: ExchangeReq): Task {
    match CodeAnswer(db, Sha256(x.code), now)
    case Fresh(row) => if Bound(cfg, x, row) then CheckExchange(x, row) else Done(Refused(InvalidGrant))
    case AlreadyConsumed => KillFamily(FamilyOf(Sha256(x.code)), Refused(InvalidGrant))
    case _ => Done(Refused(InvalidGrant))
  }

  function AfterCheckExchange(cfg: Config, db: Db, x: ExchangeReq, row: CodeRow): Task {
    match Refusal(db, row.clientId, x.creds)
    case Some(e) => Done(Refused(e))
    case None =>
      match ResourceForCode(cfg, row.resource, x.resource)
      case Err(e) => Done(Refused(e))
      case Ok(resource) =>
        var h := Sha256(x.code);
        InsertAccess(Grant(row.clientId, Refreshes(db, row.clientId), FamilyOf(h), row.scope, resource,
                           Code(h), x.creds))
  }

  function AfterLookUp(db: Db, now: int, r: RefreshReq): Task {
    match LiveOwner(db, Sha256(r.token), now)
    case None => SpendRefresh(r, None, Sha256(r.token) in db.refreshes)
    case Some(owner) => if NamesAnother(r.creds, owner) then Done(Refused(InvalidGrant)) else CheckOwner(r, owner)
  }

  function AfterSpendRefresh(db: Db, now: int, r: RefreshReq): Task {
    match RefreshAnswer(db, Sha256(r.token), now)
    case Rotated(owner, f) => if NamesAnother(r.creds, owner) then Done(Refused(InvalidGrant)) else Recheck(r, owner, f)
    case Replayed(f) => KillFamily(f, Refused(InvalidGrant))
    case _ => Done(Refused(InvalidGrant))
  }

  function AfterRecheck(cfg: Config, db: Db, r: RefreshReq, owner: string, f: Family): Task {
    match Refusal(db, owner, r.creds)
    case Some(e) => Done(Refused(e))
    case None =>
      match ResourceForIssue(cfg, r.resource)
      case Err(e) => Done(Refused(e))
      case Ok(resource) =>
        InsertAccess(Grant(owner, Refreshes(db, owner), f, DEFAULT_SCOPE, resource, Token(Sha256(r.token)), r.creds))
  }

  function AfterRevokeRefresh(db: Db, now: int, token: string): Task {
    match RefreshAnswer(db, Sha256(token), now)
    case Rotated(_, f) => KillFamily(f, Accepted)
    case Replayed(f) => KillFamily(f, Accepted)
    case _ => Done(Accepted)
  }

  /** Where the request stands after its next store call; `drawn` is the token an insertion draws. */
  function TaskAfter(cfg: Config, db: Db, now: int, task: Task, drawn: string): Task {
    match task
    case SpendCode(x) => AfterSpendCode(cfg, db, now, x)
    case CheckExchange(x, row) => AfterCheckExchange(cfg, db, x, row)
    case LookUp(r) => AfterLookUp(db, now, r)
    case CheckOwner(r, owner) =>
      (match Refusal(db, owner, r.creds)
       case Some(e) => Done(Refused(e))
       case None => SpendRefresh(r, Some(owner), true))
    case SpendRefresh(r, _, _) => AfterSpendRefresh(db, now, r)
    case Recheck(r, owner, f) => AfterRecheck(cfg, db, r, owner, f)
    case InsertAccess(g) =>
      if !TokenFits(db, Sha256(drawn), g.clientId) then Done(Failed)
      else if g.refreshes then InsertRefresh(g, now) else Done(Issued)
    case InsertRefresh(g, _) => if RefreshFits(db, Sha256(drawn), g.clientId) then Done(Issued) else Done(Failed)
    case RevokeAccess(token) => if TokenRevocable(db, Sha256(token)) then Done(Accepted) else RevokeRefresh(token)
    case RevokeRefresh(token) => AfterRevokeRefresh(db, now, token)
    case KillFamily(_, reply) => Done(reply)
    case Done(_) => task
  }

  function AccessRow(cfg: Config, g: Grant, now: int): TokenRow {
    TokenRow(g.clientId, g.scope, Some(g.resource), g.family, now + cfg.accessTtl, false)
  }

  function SuccessorRow(cfg: Config, g: Grant, issuedAt: int): RefreshRow {
    RefreshRow(g.clientId, g.family, issuedAt + cfg.refreshTtl, false, false)
  }

  /** What that call leaves in the store. */
  function DbAfter(cfg: Config, db: Db, now: int, task: Task, drawn: string): Db {
    match task
    case SpendCode(x) => CodeSpent(db, Sha256(x.code), now)
    case SpendRefresh(r, _, _) => RefreshSpent(db, Sha256(r.token), now)
    case InsertAccess(g) => TokenInserted(db, Sha256(drawn), AccessRow(cfg, g, now))
    case InsertRefresh(g, issuedAt) => RefreshInserted(db, Sha256(drawn), SuccessorRow(cfg, g, issuedAt))
    case RevokeAccess(token) => TokenRevoked(db, Sha256(token))
    case RevokeRefresh(token) => RefreshSpent(db, Sha256(token), now)
    case KillFamily(f, _) => FamilyRevoked(db, f)
    case _ => db
  }

  /** Which tables one call can touch. */
  lemma CallTouches(cfg: Config, db: Db, now: int, task: Task, drawn: string)
    ensures var after := DbAfter(cfg, db, now, task, drawn);
            && after.clients == db.clients
            && after.codes == (if task.SpendCode? then CodeSpent(db, Sha256(task.x.code), now).codes else db.codes)
            && (task.SpendCode? || task.SpendRefresh? || task.RevokeRefresh? || task.InsertRefresh? ==>
               after.tokens == db.tokens)
  {
  }

  // ---- a request run to its end with nothing in between ----

  datatype Draws = Draws(access: string, refresh: string)

  function DrawFor(task: Task, draws: Draws): string {
    if task.InsertRefresh? then draws.refresh else draws.access
  }

  function Rank(task: Task): nat {
    match task
    case LookUp(_) => 7
    case CheckOwner(_, _) => 6
    case SpendRefresh(_, _, _) => 5
    case SpendCode(_) => 5
    case CheckExchange(_, _) => 4
    case Recheck(_, _, _) => 4
    case InsertAccess(_) => 3
    case InsertRefresh(_, _) => 2
    case RevokeAccess(_) => 3
    case RevokeRefresh(_) => 2
    case KillFamily(_, _) => 1
    case Done(_) => 0
  }

  lemma RankFalls(cfg: Config, db: Db, now: int, task: Task, drawn: string)
    requires !task.Done?
    ensures Rank(TaskAfter(cfg, db, now, task, drawn)) < Rank(task)
  {
  }

  datatype Settled = Settled(db: Db, reply: Reply)

  function RunTask(cfg: Config, db: Db, now: int, task: Task, draws: Draws): Settled
    decreases Rank(task)
  {
    if task.Done? then Settled(db, task.reply)
    else
      var drawn := DrawFor(task, draws);
      RankFalls(cfg, db, now, task, drawn);
      RunTask(cfg, DbAfter(cfg, db, now, task, drawn), now, TaskAfter(cfg, db, now, task, drawn), draws)
  }

  /** Everything an exchange has to get right beyond a code that can still be spent. */
  predicate Passes(cfg: Config, db: Db, x: ExchangeReq, row: CodeRow) {
    && Bound(cfg, x, row)
    && Refusal(db, row.clientId, x.creds).None?
    && ResourceForCode(cfg, row.resource, x.resource).Ok?
  }

  /** What a grant that is inserted with nothing in between leaves and answers. */
  function Issuance(cfg: Config, db: Db, now: int, g: Grant, draws: Draws): Settled {
    var access, refresh := Sha256(draws.access), Sha256(draws.refresh);
    if !TokenFits(db, access, g.clientId) then Settled(db, Failed)
    else
      var first := db.(tokens := db.tokens[access := AccessRow(cfg, g, now)]);
      if !g.refreshes then Settled(first, Issued)
      else if !RefreshFits(db, refresh, g.clientId) then Settled(first, Failed)
      else Settled(first.(refreshes := first.refreshes[refresh := SuccessorRow(cfg, g, now)]), Issued)
  }

  lemma IssueSettles(cfg: Config, db: Db, now: int, g: Grant, draws: Draws)
    ensures RunTask(cfg, db, now, InsertAccess(g), draws) == Issuance(cfg, db, now, g, draws)
  {
    var first := TokenInserted(db, Sha256(draws.access), AccessRow(cfg, g, now));
    if TokenFits(db, Sha256(draws.access), g.clientId) && g.refreshes {
      var second := RefreshInserted(first, Sha256(draws.refresh), SuccessorRow(cfg, g, now));
      var reply := if RefreshFits(first, Sha256(draws.refresh), g.clientId) then Issued else Failed;
      assert RunTask(cfg, second, now, Done(reply), draws) == Settled(second, reply);
      assert RunTask(cfg, first, now, InsertRefresh(g, now), draws) == Settled(second, reply);
    }
  }

  lemma KillSettles(cfg: Config, db: Db, now: int, f: Family, reply: Reply, draws: Draws)
    ensures RunTask(cfg, db, now, KillFamily(f, reply), draws) == Settled(FamilyRevoked(db, f), reply)
  {
    assert RunTask(cfg, FamilyRevoked(db, f), now, Done(reply), draws) == Settled(FamilyRevoked(db, f), reply);
  }
}
