/** The authorization server's tables and the statements over them (src/ports/oauth.rs, src/adapters/postgres/oauth.rs,
    migrations/20260819000007_oauth.sql). */
module OauthStore {
  import opened Text

  /** `hash_token`, kept as a symbol and so injective. */
  datatype Hash = Sha256(of: string)

  /** `family_for`: the family named after a code's hash. */
  datatype Family = FamilyOf(code: Hash)

  datatype GrantType = AuthorizationCode | RefreshToken

  datatype Sensitivity = OpenLevel | PrivateLevel | SealedLevel

  datatype NamespaceGrant = NamespaceGrant(namespace: string, max: Sensitivity)

  /** What the owner lets a client reach. */
  datatype ClientGrant = ClientGrant(
    profile: Option<string>,
    read: seq<NamespaceGrant>,
    write: seq<NamespaceGrant>,
    registryWrite: bool,
    sealedCapable: bool,
    mayDelete: bool,
    mayIngest: bool,
    mayReadHistory: bool)

  /** The columns' defaults. */
  const NO_GRANT: ClientGrant := ClientGrant(None, [], [], false, false, false, false, false)

  datatype ClientRecord = ClientRecord(
    name: string,
    secretHash: Option<Hash>,
    redirectUris: seq<string>,
    grantTypes: set<GrantType>,
    consented: bool,
    grant: ClientGrant,
    ownerLabel: Option<string>,
    revoked: bool)

  datatype CodeRow = CodeRow(
    clientId: string,
    redirectUri: string,
    challenge: string,
    scope: string,
    resource: Option<string>,
    expiresAt: int,
    consumed: bool)

  datatype TokenRow = TokenRow(
    clientId: string,
    scope: string,
    resource: Option<string>,
    family: Family,
    expiresAt: int,
    revoked: bool)

  datatype RefreshRow = RefreshRow(
    clientId: string,
    family: Family,
    expiresAt: int,
    consumed: bool,
    revoked: bool)

  datatype Db = Db(
    clients: map<string, ClientRecord>,
    codes: map<Hash, CodeRow>,
    tokens: map<Hash, TokenRow>,
    refreshes: map<Hash, RefreshRow>)

  // ---- codes ----

  datatype CodeOutcome = Fresh(row: CodeRow) | AlreadyConsumed | CodeExpired | CodeUnknown

  predicate CodeSpendable(db: Db, h: Hash, now: int) {
    h in db.codes && !db.codes[h].consumed && db.codes[h].expiresAt > now
  }

  /** Consumed outranks expired. */
  function CodeAnswer(db: Db, h: Hash, now: int): CodeOutcome {
    if CodeSpendable(db, h, now) then Fresh(db.codes[h])
    else if h !in db.codes then CodeUnknown
    else if db.codes[h].consumed then AlreadyConsumed
    else CodeExpired
  }

  function CodeSpent(db: Db, h: Hash, now: int): Db {
    if CodeSpendable(db, h, now) then db.(codes := db.codes[h := db.codes[h].(consumed := true)]) else db
  }

  // ---- refresh tokens ----

  datatype RefreshOutcome = Rotated(clientId: string, family: Family) | Replayed(family: Family)
                          | RefreshExpired | RefreshRevoked | RefreshUnknown

  predicate RefreshLive(db: Db, h: Hash, now: int) {
    h in db.refreshes && var r := db.refreshes[h]; !r.consumed && !r.revoked && r.expiresAt > now
  }

  /** A replay outranks both other verdicts. */
  function RefreshAnswer(db: Db, h: Hash, now: int): RefreshOutcome {
    if RefreshLive(db, h, now) then Rotated(db.refreshes[h].clientId, db.refreshes[h].family)
    else if h !in db.refreshes then RefreshUnknown
    else if db.refreshes[h].consumed then Replayed(db.refreshes[h].family)
    else if db.refreshes[h].revoked then RefreshRevoked
    else RefreshExpired
  }

  function RefreshSpent(db: Db, h: Hash, now: int): Db {
    if RefreshLive(db, h, now) then db.(refreshes := db.refreshes[h := db.refreshes[h].(consumed := true)]) else db
  }

  /** The owner of a live token, read without spending it. */
  function LiveOwner(db: Db, h: Hash, now: int): Option<string> {
    if RefreshLive(db, h, now) then Some(db.refreshes[h].clientId) else None
  }

  // ---- revocation ----

  predicate TokenRevocable(db: Db, h: Hash) {
    h in db.tokens && !db.tokens[h].revoked
  }

  function TokenRevoked(db: Db, h: Hash): Db {
    if TokenRevocable(db, h) then db.(tokens := db.tokens[h := db.tokens[h].(revoked := true)]) else db
  }

  function TokensOf(tokens: map<Hash, TokenRow>, f: Family): map<Hash, TokenRow> {
    map h | h in tokens :: if tokens[h].family == f then tokens[h].(revoked := true) else tokens[h]
  }

  function RefreshesOf(refreshes: map<Hash, RefreshRow>, f: Family): map<Hash, RefreshRow> {
    map h | h in refreshes :: if refreshes[h].family == f then refreshes[h].(revoked := true) else refreshes[h]
  }

  function FamilyRevoked(db: Db, f: Family): Db {
    db.(tokens := TokensOf(db.tokens, f), refreshes := RefreshesOf(db.refreshes, f))
  }

  function TokensFor(tokens: map<Hash, TokenRow>, id: string): map<Hash, TokenRow> {
    map h | h in tokens :: if tokens[h].clientId == id then tokens[h].(revoked := true) else tokens[h]
  }

  function RefreshesFor(refreshes: map<Hash, RefreshRow>, id: string): map<Hash, RefreshRow> {
    map h | h in refreshes :: if refreshes[h].clientId == id then refreshes[h].(revoked := true) else refreshes[h]
  }

  function ClientMarked(clients: map<string, ClientRecord>, id: string): map<string, ClientRecord> {
    if id in clients then clients[id := clients[id].(revoked := true)] else clients
  }

  function ClientRevoked(db: Db, id: string): Db {
    db.(clients := ClientMarked(db.clients, id), tokens := TokensFor(db.tokens, id),
        refreshes := RefreshesFor(db.refreshes, id))
  }

  // ---- what a revocation may touch, told row by row ----

  predicate RevokedIf(mine: bool, row: TokenRow, after: TokenRow) {
    after == if mine then row.(revoked := true) else row
  }

  predicate RefreshRevokedIf(mine: bool, row: RefreshRow, after: RefreshRow) {
    after == if mine then row.(revoked := true) else row
  }

  /** The rows of family `f` are marked and no other row of any table has changed, come or gone. */
  predicate OnlyFamilyRevoked(db: Db, after: Db, f: Family) {
    && after.clients == db.clients && after.codes == db.codes
    && after.tokens.Keys == db.tokens.Keys && after.refreshes.Keys == db.refreshes.Keys
    && (forall h | h in db.tokens :: RevokedIf(db.tokens[h].family == f, db.tokens[h], after.tokens[h]))
    && (forall h | h in db.refreshes ::
          RefreshRevokedIf(db.refreshes[h].family == f, db.refreshes[h], after.refreshes[h]))
  }

  /** The client and its rows are marked, and no other row of any table has changed, come or gone. */
  predicate OnlyClientRevoked(db: Db, after: Db, id: string) {
    && after.codes == db.codes && after.clients.Keys == db.clients.Keys
    && after.tokens.Keys == db.tokens.Keys && after.refreshes.Keys == db.refreshes.Keys
    && (forall other | other in db.clients ::
          after.clients[other] == if other == id then db.clients[id].(revoked := true) else db.clients[other])
    && (forall h | h in db.tokens :: RevokedIf(db.tokens[h].clientId == id, db.tokens[h], after.tokens[h]))
    && (forall h | h in db.refreshes ::
          RefreshRevokedIf(db.refreshes[h].clientId == id, db.refreshes[h], after.refreshes[h]))
  }

  lemma FamilyRevocationIsOnly(db: Db, after: Db, f: Family)
    requires after == FamilyRevoked(db, f)
    ensures OnlyFamilyRevoked(db, after, f)
  {
  }

  lemma ClientRevocationIsOnly(db: Db, after: Db, id: string)
    requires after == ClientRevoked(db, id)
    ensures OnlyClientRevoked(db, after, id)
  {
  }

  // ---- clients ----

  /** Approval and grant in one write. */
  function Granted(db: Db, id: string, grant: ClientGrant): Db {
    if id in db.clients then db.(clients := db.clients[id := db.clients[id].(consented := true, grant := grant)])
    else db
  }

  predicate Approved(db: Db, id: string) {
    id in db.clients && db.clients[id].consented
  }

  /** Only an approved client takes a label. */
  function Labelled(db: Db, id: string, name: Option<string>): Db {
    if Approved(db, id) then db.(clients := db.clients[id := db.clients[id].(ownerLabel := name)]) else db
  }

  function ClientOf(db: Db, id: string): Option<ClientRecord> {
    if id in db.clients then Some(db.clients[id]) else None
  }

  // ---- insertions: a taken primary key or an unknown client refuses the row ----

  predicate CodeFits(db: Db, h: Hash, row: CodeRow) {
    h !in db.codes && row.clientId in db.clients
  }

  predicate TokenFits(db: Db, h: Hash, id: string) {
    h !in db.tokens && id in db.clients
  }

  predicate RefreshFits(db: Db, h: Hash, id: string) {
    h !in db.refreshes && id in db.clients
  }

  function CodeInserted(db: Db, h: Hash, row: CodeRow): Db {
    if CodeFits(db, h, row) then db.(codes := db.codes[h := row]) else db
  }

  function TokenInserted(db: Db, h: Hash, row: TokenRow): Db {
    if TokenFits(db, h, row.clientId) then db.(tokens := db.tokens[h := row]) else db
  }

  function RefreshInserted(db: Db, h: Hash, row: RefreshRow): Db {
    if RefreshFits(db, h, row.clientId) then db.(refreshes := db.refreshes[h := row]) else db
  }

  function Registered(db: Db, id: string, record: ClientRecord): Db {
    if id in db.clients then db else db.(clients := db.clients[id := record])
  }

  // ---- the statements as the store runs them ----

  class PgStore {
    var clients: map<string, ClientRecord>
    var codes: map<Hash, CodeRow>
    var tokens: map<Hash, TokenRow>
    var refreshes: map<Hash, RefreshRow>

    function View(): Db
      reads this
    {
      Db(clients, codes, tokens, refreshes)
    }

    constructor ()
      ensures View() == Db(map[], map[], map[], map[])
    {
      clients, codes, tokens, refreshes := map[], map[], map[], map[];
    }

    method ConsumeCode(h: Hash, now: int) returns (outcome: CodeOutcome)
      modifies `codes
      ensures View() == CodeSpent(old(View()), h, now)
      ensures outcome == CodeAnswer(old(View()), h, now)
      ensures outcome.Fresh? <==> h in old(codes) && !old(codes)[h].consumed && now < old(codes)[h].expiresAt
      ensures outcome.Fresh? ==>
                && outcome.row == old(codes)[h]
                && codes == old(codes)[h := old(codes)[h].(consumed := true)]
      ensures outcome == AlreadyConsumed <==> h in old(codes) && old(codes)[h].consumed
      ensures outcome == CodeExpired <==> h in old(codes) && !old(codes)[h].consumed && old(codes)[h].expiresAt <= now
      ensures outcome == CodeUnknown <==> h !in old(codes)
      ensures !outcome.Fresh? ==> codes == old(codes)
    {
      if h in codes && !codes[h].consumed && codes[h].expiresAt > now {
        outcome := Fresh(codes[h]);
        codes := codes[h := codes[h].(consumed := true)];
        return;
      }
      if h !in codes {
        return CodeUnknown;
      }
      outcome := if codes[h].consumed then AlreadyConsumed
                 else if codes[h].expiresAt <= now then CodeExpired
                 else AlreadyConsumed;
    }

    method RotateRefresh(h: Hash, now: int) returns (outcome: RefreshOutcome)
      modifies `refreshes
      ensures View() == RefreshSpent(old(View()), h, now)
      ensures outcome == RefreshAnswer(old(View()), h, now)
      ensures outcome.Rotated? <==>
              h in old(refreshes)
              && var r := old(refreshes)[h]; !r.consumed && !r.revoked && now < r.expiresAt
      ensures outcome.Rotated? ==>
                && outcome == Rotated(old(refreshes)[h].clientId, old(refreshes)[h].family)
                && refreshes == old(refreshes)[h := old(refreshes)[h].(consumed := true)]
      ensures outcome.Replayed? <==> h in old(refreshes) && old(refreshes)[h].consumed
      ensures outcome.Replayed? ==> outcome.family == old(refreshes)[h].family
      ensures outcome == RefreshRevoked <==>
              h in old(refreshes) && !old(refreshes)[h].consumed && old(refreshes)[h].revoked
      ensures outcome == RefreshExpired <==>
              h in old(refreshes)
              && var r := old(refreshes)[h]; !r.consumed && !r.revoked && r.expiresAt <= now
      ensures outcome == RefreshUnknown <==> h !in old(refreshes)
      ensures !outcome.Rotated? ==> refreshes == old(refreshes)
    {
      if h in refreshes && !refreshes[h].consumed && !refreshes[h].revoked && refreshes[h].expiresAt > now {
        outcome := Rotated(refreshes[h].clientId, refreshes[h].family);
        refreshes := refreshes[h := refreshes[h].(consumed := true)];
        return;
      }
      if h !in refreshes {
        return RefreshUnknown;
      }
      var r := refreshes[h];
      outcome := if r.consumed then Replayed(r.family)
                 else if r.revoked then RefreshRevoked
                 else if r.expiresAt <= now then RefreshExpired
                 else Replayed(r.family);
    }

    method RefreshOwner(h: Hash, now: int) returns (owner: Option<string>)
      ensures owner == LiveOwner(View(), h, now)
      ensures owner.Some? <==>
              h in refreshes && !refreshes[h].consumed && !refreshes[h].revoked && now < refreshes[h].expiresAt
      ensures owner.Some? ==> owner.value == refreshes[h].clientId
    {
      owner := if h in refreshes && !refreshes[h].consumed && !refreshes[h].revoked && refreshes[h].expiresAt > now
               then Some(refreshes[h].clientId) else None;
    }

    method FindClient(id: string) returns (record: Option<ClientRecord>)
      ensures record == ClientOf(View(), id)
      ensures record == if id in clients then Some(clients[id]) else None
    {
      record := if id in clients then Some(clients[id]) else None;
    }

    method InsertToken(h: Hash, row: TokenRow) returns (ok: bool)
      modifies `tokens
      ensures View() == TokenInserted(old(View()), h, row)
      ensures ok == TokenFits(old(View()), h, row.clientId)
      ensures ok <==> h !in old(tokens) && row.clientId in clients
      ensures tokens == if ok then old(tokens)[h := row] else old(tokens)
    {
      ok := h !in tokens && row.clientId in clients;
      if ok {
        tokens := tokens[h := row];
      }
    }

    method InsertRefresh(h: Hash, row: RefreshRow) returns (ok: bool)
      modifies `refreshes
      ensures View() == RefreshInserted(old(View()), h, row)
      ensures ok == RefreshFits(old(View()), h, row.clientId)
      ensures ok <==> h !in old(refreshes) && row.clientId in clients
      ensures refreshes == if ok then old(refreshes)[h := row] else old(refreshes)
    {
      ok := h !in refreshes && row.clientId in clients;
      if ok {
        refreshes := refreshes[h := row];
      }
    }

    method RevokeToken(h: Hash) returns (revoked: bool)
      modifies `tokens
      ensures View() == TokenRevoked(old(View()), h)
      ensures revoked == TokenRevocable(old(View()), h)
      ensures revoked <==> h in old(tokens) && !old(tokens)[h].revoked
      ensures tokens == if revoked then old(tokens)[h := old(tokens)[h].(revoked := true)] else old(tokens)
    {
      revoked := h in tokens && !tokens[h].revoked;
      if revoked {
        tokens := tokens[h := tokens[h].(revoked := true)];
      }
    }

    /** One transaction over the two tables, each update touching only rows that are not revoked yet. */
    method RevokeFamily(f: Family)
      modifies `tokens, `refreshes
      ensures View() == FamilyRevoked(old(View()), f)
      ensures OnlyFamilyRevoked(old(View()), View(), f)
    {
      tokens := map h | h in tokens ::
        if tokens[h].family == f && !tokens[h].revoked then tokens[h].(revoked := true) else tokens[h];
      assert tokens == TokensOf(old(tokens), f);
      refreshes := map h | h in refreshes ::
        if refreshes[h].family == f && !refreshes[h].revoked then refreshes[h].(revoked := true) else refreshes[h];
      assert refreshes == RefreshesOf(old(refreshes), f);
      FamilyRevocationIsOnly(old(View()), View(), f);
    }

    method RevokeClient(id: string) returns (revoked: bool)
      modifies this
      ensures View() == ClientRevoked(old(View()), id)
      ensures OnlyClientRevoked(old(View()), View(), id)
      ensures revoked == (id in old(clients) && !old(clients)[id].revoked)
    {
      revoked := id in clients && !clients[id].revoked;
      if revoked {
        clients := clients[id := clients[id].(revoked := true)];
      }
      assert clients == ClientMarked(old(clients), id);
      tokens := map h | h in tokens ::
        if tokens[h].clientId == id && !tokens[h].revoked then tokens[h].(revoked := true) else tokens[h];
      assert tokens == TokensFor(old(tokens), id);
      refreshes := map h | h in refreshes ::
        if refreshes[h].clientId == id && !refreshes[h].revoked then refreshes[h].(revoked := true) else refreshes[h];
      assert refreshes == RefreshesFor(old(refreshes), id);
      ClientRevocationIsOnly(old(View()), View(), id);
    }

    method SetClientGrant(id: string, grant: ClientGrant)
      modifies `clients
      ensures View() == Granted(old(View()), id, grant)
      ensures clients == if id in old(clients)
                         then old(clients)[id := old(clients)[id].(consented := true, grant := grant)]
                         else old(clients)
    {
      if id in clients {
        clients := clients[id := clients[id].(consented := true, grant := grant)];
      }
    }

    method SetClientLabel(id: string, name: Option<string>) returns (found: bool)
      modifies `clients
      ensures View() == Labelled(old(View()), id, name)
      ensures found == Approved(old(View()), id)
      ensures found <==> id in old(clients) && old(clients)[id].consented
      ensures clients == if found then old(clients)[id := old(clients)[id].(ownerLabel := name)] else old(clients)
    {
      found := id in clients && clients[id].consented;
      if found {
        clients := clients[id := clients[id].(ownerLabel := name)];
      }
    }

    /** A new row has no grant, no approval and no label, whoever registers it. */
    method RegisterClient(id: string, name: string, secretHash: Option<Hash>, redirectUris: seq<string>,
                          grantTypes: set<GrantType>)
      returns (ok: bool)
      modifies `clients
      ensures View() == Registered(old(View()), id,
                                   ClientRecord(name, secretHash, redirectUris, grantTypes, false,
                                                NO_GRANT, None, false))
      ensures ok == (id !in old(clients))
      ensures ok ==> clients.Keys == old(clients).Keys + {id}
                     && forall other | other in old(clients) :: clients[other] == old(clients)[other]
      ensures ok ==> var c := clients[id];
                && c.name == name && c.secretHash == secretHash && c.redirectUris == redirectUris
                && c.grantTypes == grantTypes && !c.consented && !c.revoked && c.ownerLabel == None
                && c.grant.read == [] && c.grant.write == [] && !c.grant.mayIngest && !c.grant.mayDelete
      ensures !ok ==> clients == old(clients)
    {
      ok := id !in clients;
      if ok {
        clients := clients[id := ClientRecord(name, secretHash, redirectUris, grantTypes, false,
                                              NO_GRANT, None, false)];
      }
    }

    method InsertCode(h: Hash, row: CodeRow) returns (ok: bool)
      modifies `codes
      ensures View() == CodeInserted(old(View()), h, row)
      ensures ok == CodeFits(old(View()), h, row)
      ensures ok <==> h !in old(codes) && row.clientId in clients
      ensures codes == if ok then old(codes)[h := row] else old(codes)
    {
      ok := h !in codes && row.clientId in clients;
      if ok {
        codes := codes[h := row];
      }
    }
  }
}
