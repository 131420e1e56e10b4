/** Every interleaving of token requests, one store call at a time (src/authserver/routes.rs, src/ports/oauth.rs). */
module TokenRuns {
  import opened Text
  import opened OauthStore
  import opened TokenEndpoint

  /** One token this server handed out, with the grant it was minted under. */
  datatype Mint = AccessMint(hash: Hash, g: Grant) | RefreshMint(hash: Hash, g: Grant)

  /** The store, the clock, the requests in flight, and what happened so far: every mint in order, and the exchange
      that opened each code's family. */
  datatype State = State(db: Db, now: int, tasks: seq<Task>, log: seq<Mint>, openings: map<Hash, ExchangeReq>)

  datatype Event =
    | Register(id: string, record: ClientRecord)
    | Approve(id: string, grant: ClientGrant)            // set_client_grant
    | Rename(id: string, name: Option<string>)           // set_client_label
    | Withdraw(id: string)                               // revoke_client
    | Permit(code: string, row: CodeRow)                 // insert_code
    | Exchange(form: Form, creds: Credentials)
    | Rotate(form: Form, creds: Credentials)
    | Revoke(form: Form)
    | Advance(i: nat, drawn: string)                     // the next store call of one request
    | Tick(now: int)

  /** A client registers with nothing; a code is written for a client the same handler just approved. */
  predicate Enabled(cfg: Config, s: State, e: Event) {
    match e
    case Register(id, record) =>
      && id !in s.db.clients && !record.consented && !record.revoked
      && record.grant == NO_GRANT && record.ownerLabel == None
    case Permit(code, row) =>
      && Sha256(code) !in s.db.codes && !row.consumed && row.expiresAt == s.now + cfg.codeTtl
      && row.clientId in s.db.clients && s.db.clients[row.clientId].consented
    case Advance(i, _) => i < |s.tasks| && !s.tasks[i].Done?
    case Tick(now) => now >= s.now
    case _ => true
  }

  function MintsOf(db: Db, task: Task, drawn: string): seq<Mint> {
    match task
    case InsertAccess(g) => if TokenFits(db, Sha256(drawn), g.clientId) then [AccessMint(Sha256(drawn), g)] else []
    case InsertRefresh(g, _) =>
      if RefreshFits(db, Sha256(drawn), g.clientId) then [RefreshMint(Sha256(drawn), g)] else []
    case _ => []
  }

  function OpenedBy(openings: map<Hash, ExchangeReq>, task: Task, after: Task): map<Hash, ExchangeReq> {
    if task.SpendCode? && after.CheckExchange? then openings[Sha256(task.x.code) := task.x] else openings
  }

  function Advanced(cfg: Config, s: State, i: nat, drawn: string): State
    requires i < |s.tasks|
  {
    var task := s.tasks[i];
    var after := TaskAfter(cfg, s.db, s.now, task, drawn);
    State(DbAfter(cfg, s.db, s.now, task, drawn), s.now, s.tasks[i := after],
          s.log + MintsOf(s.db, task, drawn), OpenedBy(s.openings, task, after))
  }

  function Next(cfg: Config, s: State, e: Event): State
    requires Enabled(cfg, s, e)
  {
    match e
    case Register(id, record) => s.(db := s.db.(clients := s.db.clients[id := record]))
    case Approve(id, grant) => s.(db := Granted(s.db, id, grant))
    case Rename(id, name) => s.(db := Labelled(s.db, id, name))
    case Withdraw(id) => s.(db := ClientRevoked(s.db, id))
    case Permit(code, row) => s.(db := s.db.(codes := s.db.codes[Sha256(code) := row]))
    case Exchange(form, creds) => s.(tasks := s.tasks + [BeginExchange(form, creds)])
    case Rotate(form, creds) => s.(tasks := s.tasks + [BeginRotate(cfg, form, creds)])
    case Revoke(form) => s.(tasks := s.tasks + [BeginRevoke(form)])
    case Advance(i, drawn) => Advanced(cfg, s, i, drawn)
    case Tick(now) => s.(now := now)
  }

  function Init(now: int): State {
    State(Db(map[], map[], map[], map[]), now, [], [], map[])
  }

  ghost predicate Possible(cfg: Config, s: State, run: seq<Event>)
    decreases |run|
  {
    run == [] || (Enabled(cfg, s, run[0]) && Possible(cfg, Next(cfg, s, run[0]), run[1..]))
  }

  ghost function After(cfg: Config, s: State, run: seq<Event>): State
    requires Possible(cfg, s, run)
    decreases |run|
  {
    if run == [] then s else After(cfg, Next(cfg, s, run[0]), run[1..])
  }

  lemma {:induction false} RunsCompose(cfg: Config, s: State, first: seq<Event>, second: seq<Event>)
    requires Possible(cfg, s, first) && Possible(cfg, After(cfg, s, first), second)
    ensures Possible(cfg, s, first + second)
    ensures After(cfg, s, first + second) == After(cfg, After(cfg, s, first), second)
    decreases |first|
  {
    if first == [] {
      assert first + second == second;
    } else {
      assert (first + second)[1..] == first[1..] + second;
      RunsCompose(cfg, Next(cfg, s, first[0]), first[1..], second);
    }
  }

  lemma OneEvent(cfg: Config, s: State, e: Event)
    requires Enabled(cfg, s, e)
    ensures Possible(cfg, s, [e]) && After(cfg, s, [e]) == Next(cfg, s, e)
  {
    assert [e][1..] == [];
    assert After(cfg, Next(cfg, s, e), []) == Next(cfg, s, e);
  }

  // ---- what a request in flight has spent ----

  predicate HasSpent(task: Task) {
    task.CheckExchange? || task.Recheck? || task.InsertAccess? || task.InsertRefresh?
  }

  function SpentBy(task: Task): Credential
    requires HasSpent(task)
  {
    match task
    case CheckExchange(x, _) => Code(Sha256(x.code))
    case Recheck(r, _, _) => Token(Sha256(r.token))
    case InsertAccess(g) => g.spent
    case InsertRefresh(g, _) => g.spent
  }

  function FamilyHeld(task: Task): Family
    requires HasSpent(task)
  {
    match task
    case CheckExchange(x, _) => FamilyOf(Sha256(x.code))
    case Recheck(_, _, f) => f
    case InsertAccess(g) => g.family
    case InsertRefresh(g, _) => g.family
  }

  /** The request has spent a credential of the family and not finished inserting its successors. */
  predicate Holds(task: Task, f: Family) {
    HasSpent(task) && FamilyHeld(task) == f
  }

  predicate Spent(db: Db, c: Credential) {
    match c
    case Code(h) => h in db.codes && db.codes[h].consumed
    case Token(h) => h in db.refreshes && db.refreshes[h].consumed
  }

  // ---- the line of a family ----

  /** The refresh tokens minted in the family, oldest first. */
  function Line(log: seq<Mint>, f: Family): seq<Mint> {
    if log == [] then []
    else
      var last := log[|log| - 1];
      Line(log[..|log| - 1], f) + (if last.RefreshMint? && last.g.family == f then [last] else [])
  }

  /** The newest single-use credential of the family: its last refresh token, or the code it grew from. */
  function Tip(line: seq<Mint>, f: Family): Credential {
    if line == [] then Code(f.code) else Token(line[|line| - 1].hash)
  }

  /** Each token of the line was minted by spending the one before it, and the first by spending the code. */
  predicate Linked(line: seq<Mint>, f: Family) {
    forall k | 0 <= k < |line| :: line[k].g.spent == Tip(line[..k], f)
  }

  predicate Stored(db: Db, line: seq<Mint>, f: Family) {
    forall k | 0 <= k < |line| ::
      && line[k].hash in db.refreshes && db.refreshes[line[k].hash].family == f
      && (k < |line| - 1 ==> db.refreshes[line[k].hash].consumed)
  }

  predicate Distinct(line: seq<Mint>) {
    forall j, k | 0 <= j < k < |line| :: line[j].hash != line[k].hash
  }

  predicate InLine(line: seq<Mint>, h: Hash) {
    exists k :: 0 <= k < |line| && line[k].hash == h
  }

  predicate NothingElse(db: Db, line: seq<Mint>, f: Family) {
    forall h | h in db.refreshes && db.refreshes[h].family == f :: InLine(line, h)
  }

  /** The line holds the family's refresh tokens, all of them, and all but the last are spent. */
  ghost predicate LineInOrder(db: Db, line: seq<Mint>, f: Family) {
    Linked(line, f) && Stored(db, line, f) && Distinct(line) && NothingElse(db, line, f)
  }

  predicate HoldersSpent(db: Db, tasks: seq<Task>, tip: Credential, f: Family) {
    forall i | 0 <= i < |tasks| && Holds(tasks[i], f) :: SpentBy(tasks[i]) == tip && Spent(db, tip)
  }

  predicate OneHolder(tasks: seq<Task>, f: Family) {
    forall i, j | 0 <= i < |tasks| && 0 <= j < |tasks| && Holds(tasks[i], f) && Holds(tasks[j], f) :: i == j
  }

  predicate NoHolder(tasks: seq<Task>, f: Family) {
    forall i | 0 <= i < |tasks| :: !Holds(tasks[i], f)
  }

  /** A family whose code was never spent has no tokens and nobody inserting any. */
  predicate Rooted(s: State, f: Family) {
    Spent(s.db, Code(f.code)) ||
    (&& Line(s.log, f) == []
     && (forall h | h in s.db.tokens :: s.db.tokens[h].family != f)
     && NoHolder(s.tasks, f))
  }

  ghost predicate InOrder(s: State, f: Family) {
    var line := Line(s.log, f);
    && LineInOrder(s.db, line, f)
    && HoldersSpent(s.db, s.tasks, Tip(line, f), f) && OneHolder(s.tasks, f)
    && Rooted(s, f)
  }

  ghost predicate AllInOrder(s: State) {
    forall f: Family :: InOrder(s, f)
  }

  lemma LineGrows(log: seq<Mint>, m: Mint, f: Family)
    ensures Line(log + [m], f) == if m.RefreshMint? && m.g.family == f then Line(log, f) + [m] else Line(log, f)
  {
    assert (log + [m])[..|log|] == log;
  }

  // ---- steps that leave a family's affairs alone ----

  predicate SameRefreshes(db: Db, after: Db, f: Family) {
    && (forall h | h in db.refreshes && db.refreshes[h].family == f ::
          h in after.refreshes && after.refreshes[h].family == f &&
          after.refreshes[h].consumed == db.refreshes[h].consumed)
    && (forall h | h in after.refreshes && after.refreshes[h].family == f ::
          h in db.refreshes && db.refreshes[h].family == f)
  }

  predicate NoNewTokens(db: Db, after: Db, f: Family) {
    forall h | h in after.tokens && after.tokens[h].family == f :: h in db.tokens && db.tokens[h].family == f
  }

  /** The family's rows stay, revoked marks aside; access tokens come only to a family whose code is spent. */
  predicate Beside(db: Db, after: Db, f: Family) {
    && (Spent(db, Code(f.code)) ==> Spent(after, Code(f.code)))
    && SameRefreshes(db, after, f)
    && (Spent(db, Code(f.code)) || NoNewTokens(db, after, f))
  }

  /** Nothing of family `f` moved between the two states. */
  predicate Untouched(s: State, t: State, f: Family) {
    && Line(t.log, f) == Line(s.log, f)
    && Beside(s.db, t.db, f)
    && (forall i | 0 <= i < |t.tasks| && Holds(t.tasks[i], f) ::
          i < |s.tasks| && Holds(s.tasks[i], f) && SpentBy(t.tasks[i]) == SpentBy(s.tasks[i]))
  }

  lemma TipIsStored(s: State, f: Family)
    requires InOrder(s, f)
    ensures var tip := Tip(Line(s.log, f), f);
            tip == Code(f.code) || (tip.Token? && tip.h in s.db.refreshes && s.db.refreshes[tip.h].family == f)
  {
  }

  lemma LineStaysInOrder(db: Db, after: Db, line: seq<Mint>, f: Family)
    requires LineInOrder(db, line, f) && SameRefreshes(db, after, f)
    ensures LineInOrder(after, line, f)
  {
  }

  lemma TipStaysSpent(s: State, after: Db, f: Family)
    requires InOrder(s, f) && Beside(s.db, after, f) && Spent(s.db, Tip(Line(s.log, f), f))
    ensures Spent(after, Tip(Line(s.log, f), f))
  {
    TipIsStored(s, f);
  }

  lemma HoldersStay(s: State, t: State, tip: Credential, f: Family)
    requires HoldersSpent(s.db, s.tasks, tip, f) && OneHolder(s.tasks, f)
    requires Untouched(s, t, f) && (Spent(s.db, tip) ==> Spent(t.db, tip))
    ensures HoldersSpent(t.db, t.tasks, tip, f) && OneHolder(t.tasks, f)
  {
  }

  lemma RootStays(s: State, t: State, f: Family)
    requires Rooted(s, f) && Untouched(s, t, f)
    ensures Rooted(t, f)
  {
  }

  lemma UntouchedStaysInOrder(s: State, t: State, f: Family)
    requires InOrder(s, f) && Untouched(s, t, f)
    ensures InOrder(t, f)
  {
    var line := Line(s.log, f);
    LineStaysInOrder(s.db, t.db, line, f);
    if Spent(s.db, Tip(line, f)) {
      TipStaysSpent(s, t.db, f);
    }
    HoldersStay(s, t, Tip(line, f), f);
    RootStays(s, t, f);
  }

  lemma ClientRevocationBeside(db: Db, id: string, f: Family)
    ensures Beside(db, ClientRevoked(db, id), f)
  {
  }

  lemma FamilyRevocationBeside(db: Db, f: Family, g: Family)
    ensures Beside(db, FamilyRevoked(db, g), f)
  {
  }

  lemma OthersUntouched(cfg: Config, s: State, e: Event, f: Family)
    requires Enabled(cfg, s, e) && !e.Advance?
    ensures Untouched(s, Next(cfg, s, e), f)
  {
    if e.Withdraw? {
      ClientRevocationBeside(s.db, e.id, f);
    }
  }

  /** The store call spends a credential of the family, or stores a successor in it. */
  predicate Moves(s: State, i: nat, drawn: string, f: Family)
    requires i < |s.tasks|
  {
    match s.tasks[i]
    case SpendCode(x) => f == FamilyOf(Sha256(x.code)) && CodeSpendable(s.db, Sha256(x.code), s.now)
    case SpendRefresh(r, _, _) => RefreshLive(s.db, Sha256(r.token), s.now) &&
      s.db.refreshes[Sha256(r.token)].family == f
    case RevokeRefresh(token) => RefreshLive(s.db, Sha256(token), s.now) && s.db.refreshes[Sha256(token)].family == f
    case InsertRefresh(g, _) => g.family == f && RefreshFits(s.db, Sha256(drawn), g.clientId)
    case _ => false
  }

  lemma LineAfter(cfg: Config, s: State, i: nat, drawn: string, f: Family)
    requires Enabled(cfg, s, Advance(i, drawn)) && !Moves(s, i, drawn, f)
    ensures Line(Advanced(cfg, s, i, drawn).log, f) == Line(s.log, f)
  {
    var minted := MintsOf(s.db, s.tasks[i], drawn);
    if minted == [] {
      assert s.log + minted == s.log;
    } else {
      LineGrows(s.log, minted[0], f);
      assert s.log + minted == s.log + [minted[0]];
    }
  }

  lemma SpendBeside(db: Db, h: Hash, now: int, f: Family)
    ensures FamilyOf(h) != f || !CodeSpendable(db, h, now) ==> Beside(db, CodeSpent(db, h, now), f)
    ensures !(RefreshLive(db, h, now) && db.refreshes[h].family == f) ==> Beside(db, RefreshSpent(db, h, now), f)
  {
  }

  lemma DbAfterBeside(cfg: Config, s: State, i: nat, drawn: string, f: Family)
    requires Enabled(cfg, s, Advance(i, drawn)) && !Moves(s, i, drawn, f)
    requires s.tasks[i].InsertAccess? && s.tasks[i].g.family == f ==> Spent(s.db, Code(f.code))
    ensures Beside(s.db, DbAfter(cfg, s.db, s.now, s.tasks[i], drawn), f)
  {
    match s.tasks[i]
    case SpendCode(x) => SpendBeside(s.db, Sha256(x.code), s.now, f);
    case SpendRefresh(r, _, _) => SpendBeside(s.db, Sha256(r.token), s.now, f);
    case RevokeRefresh(token) => SpendBeside(s.db, Sha256(token), s.now, f);
    case KillFamily(g, _) => FamilyRevocationBeside(s.db, f, g);
    case _ =>
  }

  lemma HolderAfter(cfg: Config, s: State, i: nat, drawn: string, f: Family)
    requires i < |s.tasks| && !Moves(s, i, drawn, f)
    ensures var after := TaskAfter(cfg, s.db, s.now, s.tasks[i], drawn);
            Holds(after, f) ==> Holds(s.tasks[i], f) && SpentBy(after) == SpentBy(s.tasks[i])
  {
  }

  lemma AdvanceUntouched(cfg: Config, s: State, i: nat, drawn: string, f: Family)
    requires Enabled(cfg, s, Advance(i, drawn)) && !Moves(s, i, drawn, f) && InOrder(s, f)
    ensures Untouched(s, Advanced(cfg, s, i, drawn), f)
  {
    LineAfter(cfg, s, i, drawn, f);
    DbAfterBeside(cfg, s, i, drawn, f);
    HolderAfter(cfg, s, i, drawn, f);
  }

  // ---- steps that move it ----

  lemma CodeSpendInOrder(cfg: Config, s: State, i: nat, drawn: string, f: Family)
    requires Enabled(cfg, s, Advance(i, drawn)) && Moves(s, i, drawn, f) && s.tasks[i].SpendCode? && InOrder(s, f)
    ensures InOrder(Advanced(cfg, s, i, drawn), f)
  {
    var t := Advanced(cfg, s, i, drawn);
    assert s.log + [] == s.log;
    assert !Spent(s.db, Code(f.code)) && Spent(t.db, Code(f.code));
    OnlyThatHolder(t.db, s.tasks, i, t.tasks[i], Code(f.code), f);
  }

  /** The token being spent. */
  function Presented(task: Task): Hash
    requires task.SpendRefresh? || task.RevokeRefresh?
  {
    Sha256(if task.SpendRefresh? then task.r.token else task.token)
  }

  lemma LiveTokenIsTip(s: State, h: Hash, f: Family)
    requires InOrder(s, f) && h in s.db.refreshes && s.db.refreshes[h].family == f && !s.db.refreshes[h].consumed
    ensures Tip(Line(s.log, f), f) == Token(h) && Spent(s.db, Code(f.code))
    ensures NoHolder(s.tasks, f)
  {
    var line := Line(s.log, f);
    assert InLine(line, h);
    var k :| 0 <= k < |line| && line[k].hash == h;
  }

  lemma ConsumedLineStays(db: Db, h: Hash, line: seq<Mint>, f: Family)
    requires h in db.refreshes
    requires Stored(db, line, f) && NothingElse(db, line, f)
    ensures var after := db.(refreshes := db.refreshes[h := db.refreshes[h].(consumed := true)]);
            Stored(after, line, f) && NothingElse(after, line, f)
  {
  }

  lemma OnlyThatHolder(db: Db, tasks: seq<Task>, i: nat, task: Task, tip: Credential, f: Family)
    requires i < |tasks| && NoHolder(tasks, f)
    requires Holds(task, f) ==> SpentBy(task) == tip && Spent(db, tip)
    ensures OneHolder(tasks[i := task], f) && HoldersSpent(db, tasks[i := task], tip, f)
  {
    var after := tasks[i := task];
    assert forall j | 0 <= j < |tasks| && j != i :: after[j] == tasks[j];
  }

  lemma HolderLeaves(tasks: seq<Task>, i: nat, task: Task, f: Family)
    requires i < |tasks| && OneHolder(tasks, f) && Holds(tasks[i], f) && !Holds(task, f)
    ensures NoHolder(tasks[i := task], f)
  {
    var after := tasks[i := task];
    assert forall j | 0 <= j < |tasks| && j != i :: after[j] == tasks[j];
  }

  lemma TokenSpendInOrder(cfg: Config, s: State, i: nat, drawn: string, f: Family)
    requires Enabled(cfg, s, Advance(i, drawn)) && Moves(s, i, drawn, f) && InOrder(s, f)
    requires s.tasks[i].SpendRefresh? || s.tasks[i].RevokeRefresh?
    ensures InOrder(Advanced(cfg, s, i, drawn), f)
  {
    var t, h := Advanced(cfg, s, i, drawn), Presented(s.tasks[i]);
    assert s.log + [] == s.log;
    LiveTokenIsTip(s, h, f);
    ConsumedLineStays(s.db, h, Line(s.log, f), f);
    assert t.db == s.db.(refreshes := s.db.refreshes[h := s.db.refreshes[h].(consumed := true)]);
    SpenderHolds(cfg, s, i, drawn, f);
    OnlyThatHolder(t.db, s.tasks, i, t.tasks[i], Token(h), f);
  }

  lemma SpenderHolds(cfg: Config, s: State, i: nat, drawn: string, f: Family)
    requires i < |s.tasks| && Moves(s, i, drawn, f) && (s.tasks[i].SpendRefresh? || s.tasks[i].RevokeRefresh?)
    ensures var after := TaskAfter(cfg, s.db, s.now, s.tasks[i], drawn);
            Holds(after, f) ==> SpentBy(after) == Token(Presented(s.tasks[i]))
  {
  }

  lemma GrownLineIsLinked(line: seq<Mint>, m: Mint, f: Family)
    requires Linked(line, f) && m.g.spent == Tip(line, f)
    ensures Linked(line + [m], f)
  {
    var grown := line + [m];
    forall k | 0 <= k < |grown| ensures grown[k].g.spent == Tip(grown[..k], f) {
      assert grown[..k] == line[..k];
      assert line[..|line|] == line;
    }
  }

  lemma GrownLineIsAll(db: Db, after: Db, line: seq<Mint>, m: Mint, f: Family)
    requires NothingElse(db, line, f)
    requires m.hash in after.refreshes && after.refreshes == db.refreshes[m.hash := after.refreshes[m.hash]]
    ensures NothingElse(after, line + [m], f)
  {
    var grown := line + [m];
    forall h | h in after.refreshes && after.refreshes[h].family == f ensures InLine(grown, h) {
      if h == m.hash {
        assert grown[|line|].hash == h;
      } else {
        var k :| 0 <= k < |line| && line[k].hash == h;
        assert grown[k].hash == h;
      }
    }
  }

  lemma GrownLineIsStored(db: Db, after: Db, line: seq<Mint>, m: Mint, f: Family)
    requires Stored(db, line, f) && Distinct(line) && (line != [] ==> Spent(db, Tip(line, f)))
    requires m.hash !in db.refreshes && m.hash in after.refreshes
    requires after.refreshes[m.hash].family == f && after.refreshes == db.refreshes[m.hash := after.refreshes[m.hash]]
    ensures Stored(after, line + [m], f) && Distinct(line + [m])
  {
  }

  lemma GrownLineInOrder(db: Db, after: Db, line: seq<Mint>, m: Mint, f: Family)
    requires LineInOrder(db, line, f) && m.g.spent == Tip(line, f) && Spent(db, Tip(line, f))
    requires m.hash !in db.refreshes && m.hash in after.refreshes
    requires after.refreshes[m.hash].family == f && after.refreshes == db.refreshes[m.hash := after.refreshes[m.hash]]
    ensures LineInOrder(after, line + [m], f)
  {
    GrownLineIsLinked(line, m, f);
    GrownLineIsAll(db, after, line, m, f);
    GrownLineIsStored(db, after, line, m, f);
  }

  lemma MintInOrder(cfg: Config, s: State, i: nat, drawn: string, f: Family)
    requires Enabled(cfg, s, Advance(i, drawn)) && Moves(s, i, drawn, f) && s.tasks[i].InsertRefresh? && InOrder(s, f)
    ensures InOrder(Advanced(cfg, s, i, drawn), f)
  {
    var t, g := Advanced(cfg, s, i, drawn), s.tasks[i].g;
    var m := RefreshMint(Sha256(drawn), g);
    assert Holds(s.tasks[i], f) && t.tasks[i] == Done(Issued);
    HolderLeaves(s.tasks, i, t.tasks[i], f);
    GrownLineInOrder(s.db, t.db, Line(s.log, f), m, f);
    LineGrows(s.log, m, f);
  }

  lemma StepKeepsOrder(cfg: Config, s: State, e: Event, f: Family)
    requires Enabled(cfg, s, e) && InOrder(s, f)
    ensures InOrder(Next(cfg, s, e), f)
  {
    if !e.Advance? {
      OthersUntouched(cfg, s, e, f);
      UntouchedStaysInOrder(s, Next(cfg, s, e), f);
    } else if !Moves(s, e.i, e.drawn, f) {
      AdvanceUntouched(cfg, s, e.i, e.drawn, f);
      UntouchedStaysInOrder(s, Next(cfg, s, e), f);
    } else if s.tasks[e.i].SpendCode? {
      CodeSpendInOrder(cfg, s, e.i, e.drawn, f);
    } else if s.tasks[e.i].InsertRefresh? {
      MintInOrder(cfg, s, e.i, e.drawn, f);
    } else {
      TokenSpendInOrder(cfg, s, e.i, e.drawn, f);
    }
  }

  lemma {:induction false} RunKeepsOrder(cfg: Config, s: State, run: seq<Event>)
    requires AllInOrder(s) && Possible(cfg, s, run)
    ensures AllInOrder(After(cfg, s, run))
    decreases |run|
  {
    if run != [] {
      forall f: Family ensures InOrder(Next(cfg, s, run[0]), f) {
        StepKeepsOrder(cfg, s, run[0], f);
      }
      RunKeepsOrder(cfg, Next(cfg, s, run[0]), run[1..]);
    }
  }

  lemma InitInOrder(now: int)
    ensures AllInOrder(Init(now))
  {
  }

  // ---- what that gives every run ----

  function Unspent(db: Db, f: Family): set<Hash> {
    set h | h in db.refreshes && db.refreshes[h].family == f && !db.refreshes[h].consumed
  }

  function Holders(tasks: seq<Task>, f: Family): set<int> {
    set i | 0 <= i < |tasks| && Holds(tasks[i], f)
  }

  lemma FewerThanTwo<T>(xs: set<T>)
    requires forall x, y :: x in xs && y in xs ==> x == y
    ensures |xs| <= 1
  {
    if xs != {} {
      var x :| x in xs;
      assert xs == {x};
    }
  }

  lemma SeatIsSingle(s: State, f: Family)
    requires InOrder(s, f)
    ensures |Unspent(s.db, f)| + |Holders(s.tasks, f)| <= 1
  {
    forall h | h in Unspent(s.db, f) ensures Tip(Line(s.log, f), f) == Token(h) && Holders(s.tasks, f) == {} {
      LiveTokenIsTip(s, h, f);
    }
    FewerThanTwo(Unspent(s.db, f));
    FewerThanTwo(Holders(s.tasks, f));
  }

  /** In every interleaving, a family's unspent refresh tokens and the requests that have spent a credential of it
      and not yet stored the successor number at most one between them. */
  lemma OneSuccessorAtATime(cfg: Config, now: int, run: seq<Event>, f: Family)
    requires Possible(cfg, Init(now), run)
    ensures var s := After(cfg, Init(now), run);
            |Unspent(s.db, f)| + |Holders(s.tasks, f)| <= 1
  {
    InitInOrder(now);
    RunKeepsOrder(cfg, Init(now), run);
    SeatIsSingle(After(cfg, Init(now), run), f);
  }

  /** And the family's refresh tokens are one chain from its code: each spent by the request that minted the next,
      nothing outside it, only the last possibly unspent. */
  lemma RefreshTokensFormOneChain(cfg: Config, now: int, run: seq<Event>, f: Family)
    requires Possible(cfg, Init(now), run)
    ensures var s := After(cfg, Init(now), run);
            var line := Line(s.log, f);
            && (forall k | 0 <= k < |line| ::
                  line[k].g.spent == if k == 0 then Code(f.code) else Token(line[k - 1].hash))
            && (forall h :: h in s.db.refreshes && s.db.refreshes[h].family == f <==> InLine(line, h))
            && (forall k | 0 <= k < |line| - 1 :: s.db.refreshes[line[k].hash].consumed)
            && (line != [] ==> f.code in s.db.codes && s.db.codes[f.code].consumed)
  {
    InitInOrder(now);
    RunKeepsOrder(cfg, Init(now), run);
    var s := After(cfg, Init(now), run);
    assert InOrder(s, f);
    LinkedToTheOneBefore(Line(s.log, f), f);
    LineIsWholeFamily(s, f);
  }

  lemma LinkedToTheOneBefore(line: seq<Mint>, f: Family)
    requires Linked(line, f)
    ensures forall k | 0 <= k < |line| :: line[k].g.spent == if k == 0 then Code(f.code) else Token(line[k - 1].hash)
  {
    forall k | 0 <= k < |line| ensures line[k].g.spent == if k == 0 then Code(f.code) else Token(line[k - 1].hash) {
      assert k > 0 ==> line[..k][k - 1] == line[k - 1];
    }
  }

  lemma LineIsWholeFamily(s: State, f: Family)
    requires InOrder(s, f)
    ensures var line := Line(s.log, f);
            && (forall h :: h in s.db.refreshes && s.db.refreshes[h].family == f <==> InLine(line, h))
            && (line != [] ==> Spent(s.db, Code(f.code)))
  {
  }

  // ---- what one credential can mint ----

  predicate MintsAreSpent(s: State) {
    forall a | 0 <= a < |s.log| :: Spent(s.db, s.log[a].g.spent)
  }

  /** A request still inserting has minted nothing yet, or only its access token. */
  predicate HeldUnminted(s: State) {
    forall i, a | 0 <= i < |s.tasks| && HasSpent(s.tasks[i]) && 0 <= a < |s.log| &&
                 s.log[a].g.spent == SpentBy(s.tasks[i]) ::
      s.tasks[i].InsertRefresh? && s.log[a].AccessMint?
  }

  /** No credential mints two access tokens, nor two refresh tokens. */
  predicate MintedOnce(log: seq<Mint>) {
    forall a, b | 0 <= a < b < |log| && log[a].g.spent == log[b].g.spent :: log[a].AccessMint? && log[b].RefreshMint?
  }

  ghost predicate Thrifty(s: State) {
    MintsAreSpent(s) && HeldUnminted(s) && MintedOnce(s.log)
  }

  lemma CallKeepsSpent(cfg: Config, db: Db, now: int, task: Task, drawn: string, c: Credential)
    requires Spent(db, c)
    ensures Spent(DbAfter(cfg, db, now, task, drawn), c)
  {
  }

  lemma SpentStaysSpent(cfg: Config, s: State, e: Event, c: Credential)
    requires Enabled(cfg, s, e) && Spent(s.db, c)
    ensures Spent(Next(cfg, s, e).db, c)
  {
    if e.Advance? {
      CallKeepsSpent(cfg, s.db, s.now, s.tasks[e.i], e.drawn, c);
    }
  }

  lemma MintsStaySpent(cfg: Config, s: State, e: Event)
    requires Enabled(cfg, s, e)
    requires forall a | 0 <= a < |Next(cfg, s, e).log| :: Spent(s.db, Next(cfg, s, e).log[a].g.spent)
    ensures MintsAreSpent(Next(cfg, s, e))
  {
    var t := Next(cfg, s, e);
    forall a | 0 <= a < |t.log| ensures Spent(t.db, t.log[a].g.spent) {
      SpentStaysSpent(cfg, s, e, t.log[a].g.spent);
    }
  }

  lemma SameSpentSameHolder(s: State, i: nat, j: nat)
    requires AllInOrder(s) && i < |s.tasks| && j < |s.tasks| && HasSpent(s.tasks[i]) && HasSpent(s.tasks[j])
    requires SpentBy(s.tasks[i]) == SpentBy(s.tasks[j])
    ensures i == j
  {
    var f, g := FamilyHeld(s.tasks[i]), FamilyHeld(s.tasks[j]);
    assert InOrder(s, f) && InOrder(s, g);
    TipIsStored(s, f);
    TipIsStored(s, g);
    assert Holds(s.tasks[i], f) && Holds(s.tasks[j], g);
  }

  lemma SpenderWasUnspent(cfg: Config, s: State, i: nat, drawn: string)
    requires i < |s.tasks| && !HasSpent(s.tasks[i]) && HasSpent(TaskAfter(cfg, s.db, s.now, s.tasks[i], drawn))
    ensures !Spent(s.db, SpentBy(TaskAfter(cfg, s.db, s.now, s.tasks[i], drawn)))
  {
  }

  lemma HolderKeepsSpent(cfg: Config, s: State, i: nat, drawn: string)
    requires i < |s.tasks| && HasSpent(s.tasks[i]) && HasSpent(TaskAfter(cfg, s.db, s.now, s.tasks[i], drawn))
    ensures SpentBy(TaskAfter(cfg, s.db, s.now, s.tasks[i], drawn)) == SpentBy(s.tasks[i])
    ensures !s.tasks[i].InsertRefresh?
  {
  }

  /** A step that mints nothing. */
  lemma QuietStepIsThrifty(cfg: Config, s: State, i: nat, drawn: string)
    requires Enabled(cfg, s, Advance(i, drawn)) && Thrifty(s) && MintsOf(s.db, s.tasks[i], drawn) == []
    ensures Thrifty(Advanced(cfg, s, i, drawn))
  {
    var t := Advanced(cfg, s, i, drawn);
    assert t.log == s.log;
    MintsStaySpent(cfg, s, Advance(i, drawn));
    if HasSpent(t.tasks[i]) {
      if HasSpent(s.tasks[i]) {
        HolderKeepsSpent(cfg, s, i, drawn);
      } else {
        SpenderWasUnspent(cfg, s, i, drawn);
      }
    }
    assert forall j | 0 <= j < |t.tasks| && j != i :: t.tasks[j] == s.tasks[j];
  }

  lemma OnlyHolderOf(s: State, i: nat)
    requires AllInOrder(s) && i < |s.tasks| && HasSpent(s.tasks[i])
    ensures forall j | 0 <= j < |s.tasks| && HasSpent(s.tasks[j]) && SpentBy(s.tasks[j]) == SpentBy(s.tasks[i])
              :: j == i
  {
    forall j | 0 <= j < |s.tasks| && HasSpent(s.tasks[j]) && SpentBy(s.tasks[j]) == SpentBy(s.tasks[i]) ensures j == i {
      SameSpentSameHolder(s, i, j);
    }
  }

  lemma GrownLogMintsOnce(log: seq<Mint>, m: Mint)
    requires MintedOnce(log)
    requires forall a | 0 <= a < |log| && log[a].g.spent == m.g.spent :: log[a].AccessMint? && m.RefreshMint?
    ensures MintedOnce(log + [m])
  {
    var grown := log + [m];
    assert forall a | 0 <= a < |log| :: grown[a] == log[a];
  }

  lemma MinterKeepsUnminted(s: State, t: State, i: nat, m: Mint)
    requires AllInOrder(s) && HeldUnminted(s) && i < |s.tasks| && HasSpent(s.tasks[i])
    requires m.g.spent == SpentBy(s.tasks[i]) && t.log == s.log + [m] && |t.tasks| == |s.tasks|
    requires forall j | 0 <= j < |s.tasks| && j != i :: t.tasks[j] == s.tasks[j]
    requires HasSpent(t.tasks[i]) ==>
               t.tasks[i].InsertRefresh? && m.AccessMint? && SpentBy(t.tasks[i]) == SpentBy(s.tasks[i])
    ensures HeldUnminted(t)
  {
    OnlyHolderOf(s, i);
    assert forall a | 0 <= a < |s.log| :: t.log[a] == s.log[a];
  }

  /** A step that mints: who minted, and what it does next. */
  lemma MinterSteps(cfg: Config, s: State, i: nat, drawn: string) returns (m: Mint)
    requires i < |s.tasks| && MintsOf(s.db, s.tasks[i], drawn) != []
    ensures HasSpent(s.tasks[i]) && Holds(s.tasks[i], m.g.family) && m.g.spent == SpentBy(s.tasks[i])
    ensures var t := Advanced(cfg, s, i, drawn);
            && t.log == s.log + [m] && t.tasks == s.tasks[i := t.tasks[i]]
            && (HasSpent(t.tasks[i]) ==>
                  t.tasks[i].InsertRefresh? && m.AccessMint? && SpentBy(t.tasks[i]) == SpentBy(s.tasks[i]))
    ensures m.AccessMint? <==> s.tasks[i].InsertAccess?
  {
    m := MintsOf(s.db, s.tasks[i], drawn)[0];
  }

  lemma MintStepIsThrifty(cfg: Config, s: State, i: nat, drawn: string)
    requires Enabled(cfg, s, Advance(i, drawn)) && Thrifty(s) && AllInOrder(s)
    requires MintsOf(s.db, s.tasks[i], drawn) != []
    ensures Thrifty(Advanced(cfg, s, i, drawn))
  {
    var m := MinterSteps(cfg, s, i, drawn);
    var t := Advanced(cfg, s, i, drawn);
    assert InOrder(s, m.g.family);
    MintsStaySpent(cfg, s, Advance(i, drawn));
    GrownLogMintsOnce(s.log, m);
    MinterKeepsUnminted(s, t, i, m);
  }

  lemma StepIsThrifty(cfg: Config, s: State, e: Event)
    requires Enabled(cfg, s, e) && Thrifty(s) && AllInOrder(s)
    ensures Thrifty(Next(cfg, s, e))
  {
    if e.Advance? {
      if MintsOf(s.db, s.tasks[e.i], e.drawn) != [] {
        MintStepIsThrifty(cfg, s, e.i, e.drawn);
      } else {
        QuietStepIsThrifty(cfg, s, e.i, e.drawn);
      }
    } else {
      assert Next(cfg, s, e).log == s.log;
      MintsStaySpent(cfg, s, e);
    }
  }

  lemma {:induction false} RunIsThrifty(cfg: Config, s: State, run: seq<Event>)
    requires AllInOrder(s) && Thrifty(s) && Possible(cfg, s, run)
    ensures Thrifty(After(cfg, s, run))
    decreases |run|
  {
    if run != [] {
      StepIsThrifty(cfg, s, run[0]);
      forall f: Family ensures InOrder(Next(cfg, s, run[0]), f) {
        StepKeepsOrder(cfg, s, run[0], f);
      }
      RunIsThrifty(cfg, Next(cfg, s, run[0]), run[1..]);
    }
  }

  /** However many requests present one code or one refresh token, and however they interleave, together they mint
      at most one access token and at most one refresh token. */
  lemma CredentialsMintOnce(cfg: Config, now: int, run: seq<Event>)
    requires Possible(cfg, Init(now), run)
    ensures MintedOnce(After(cfg, Init(now), run).log)
  {
    InitInOrder(now);
    RunIsThrifty(cfg, Init(now), run);
  }
}
