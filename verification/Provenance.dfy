/** Where every token comes from, through any number of rotations (src/authserver/routes.rs). */
module Provenance {
  import opened Text
  import opened OauthStore
  import opened TokenEndpoint
  import opened TokenRuns

  /** The recorded exchange of every opened code presented that code and met its bindings. */
  predicate OpeningsBound(cfg: Config, s: State) {
    forall h | h in s.openings ::
      && Sha256(s.openings[h].code) == h
      && h in s.db.codes && s.db.codes[h].consumed && Bound(cfg, s.openings[h], s.db.codes[h])
  }

  predicate OpenedFor(s: State, f: Family, id: string) {
    f.code in s.openings && f.code in s.db.codes && s.db.codes[f.code].clientId == id
  }

  /** The family's code was opened for this client, by an exchange that authenticated as it. */
  predicate Descends(s: State, f: Family, id: string) {
    && OpenedFor(s, f, id)
    && id in s.db.clients && s.db.clients[id].consented
    && AuthenticateClient(s.db.clients[id], s.openings[f.code].creds).None?
  }

  predicate TaskSourced(s: State, task: Task) {
    match task
    case CheckExchange(x, row) =>
      OpenedFor(s, FamilyOf(Sha256(x.code)), row.clientId) && s.openings[Sha256(x.code)] == x
    case Recheck(_, owner, f) => Descends(s, f, owner)
    case InsertAccess(g) => Descends(s, g.family, g.clientId)
    case InsertRefresh(g, _) => Descends(s, g.family, g.clientId)
    case _ => true
  }

  predicate TasksSourced(s: State) {
    forall i | 0 <= i < |s.tasks| :: TaskSourced(s, s.tasks[i])
  }

  predicate RowsSourced(s: State) {
    && (forall h | h in s.db.tokens :: Descends(s, s.db.tokens[h].family, s.db.tokens[h].clientId))
    && (forall h | h in s.db.refreshes :: Descends(s, s.db.refreshes[h].family, s.db.refreshes[h].clientId))
  }

  ghost predicate Sourced(cfg: Config, s: State) {
    OpeningsBound(cfg, s) && TasksSourced(s) && RowsSourced(s)
  }

  // ---- nothing that was established is lost ----

  /** What a family's descent depends on is still there. */
  predicate Keeps(s: State, t: State) {
    && (forall h | h in s.openings :: h in t.openings && t.openings[h] == s.openings[h])
    && (forall h | h in s.db.codes ::
          h in t.db.codes && t.db.codes[h].(consumed := true) == s.db.codes[h].(consumed := true)
                                     && (s.db.codes[h].consumed ==> t.db.codes[h].consumed))
    && (forall id | id in s.db.clients ::
          && id in t.db.clients && t.db.clients[id].secretHash == s.db.clients[id].secretHash
          && (s.db.clients[id].consented ==> t.db.clients[id].consented))
  }

  lemma CallKeeps(cfg: Config, s: State, i: nat, drawn: string)
    requires Enabled(cfg, s, Advance(i, drawn)) && OpeningsBound(cfg, s)
    ensures Keeps(s, Advanced(cfg, s, i, drawn))
  {
    CallTouches(cfg, s.db, s.now, s.tasks[i], drawn);
  }

  lemma StepKeeps(cfg: Config, s: State, e: Event)
    requires Enabled(cfg, s, e) && OpeningsBound(cfg, s)
    ensures Keeps(s, Next(cfg, s, e))
  {
    if e.Advance? {
      CallKeeps(cfg, s, e.i, e.drawn);
    }
  }

  lemma DescentStays(s: State, t: State, f: Family, id: string)
    requires Keeps(s, t)
    ensures OpenedFor(s, f, id) ==> OpenedFor(t, f, id)
    ensures Descends(s, f, id) ==> Descends(t, f, id)
  {
  }

  lemma TaskStaysSourced(s: State, t: State, task: Task)
    requires Keeps(s, t) && TaskSourced(s, task)
    ensures TaskSourced(t, task)
  {
    if HasSpent(task) {
      match task
      case CheckExchange(x, row) => DescentStays(s, t, FamilyOf(Sha256(x.code)), row.clientId);
      case Recheck(_, owner, f) => DescentStays(s, t, f, owner);
      case InsertAccess(g) => DescentStays(s, t, g.family, g.clientId);
      case InsertRefresh(g, _) => DescentStays(s, t, g.family, g.clientId);
    }
  }

  // ---- one step ----

  lemma OpeningsStayBound(cfg: Config, s: State, e: Event)
    requires Enabled(cfg, s, e) && OpeningsBound(cfg, s)
    ensures OpeningsBound(cfg, Next(cfg, s, e))
  {
    StepKeeps(cfg, s, e);
  }

  /** An access row after a call was there before, or is the one this call inserts. */
  predicate OldToken(db: Db, h: Hash, row: TokenRow) {
    h in db.tokens && db.tokens[h].family == row.family && db.tokens[h].clientId == row.clientId
  }

  predicate OldRefresh(db: Db, h: Hash, row: RefreshRow) {
    h in db.refreshes && db.refreshes[h].family == row.family && db.refreshes[h].clientId == row.clientId
  }

  lemma CallsRows(cfg: Config, db: Db, now: int, task: Task, drawn: string, h: Hash)
    ensures var after := DbAfter(cfg, db, now, task, drawn);
            && (h in after.tokens ==>
                  || OldToken(db, h, after.tokens[h])
                  || (task.InsertAccess? && after.tokens[h] == AccessRow(cfg, task.g, now)))
            && (h in after.refreshes ==>
                  || OldRefresh(db, h, after.refreshes[h])
                  || (task.InsertRefresh? && after.refreshes[h] == SuccessorRow(cfg, task.g, task.issuedAt)))
  {
  }

  lemma RevokedRows(db: Db, id: string, h: Hash)
    ensures var after := ClientRevoked(db, id);
            && (h in after.tokens ==> OldToken(db, h, after.tokens[h]))
            && (h in after.refreshes ==> OldRefresh(db, h, after.refreshes[h]))
  {
  }

  /** The family and client of every row after a step are those of an old row, or of the grant being inserted. */
  lemma RowsAfter(cfg: Config, s: State, e: Event, h: Hash)
    requires Enabled(cfg, s, e) && Sourced(cfg, s)
    ensures var db := Next(cfg, s, e).db;
            && (h in db.tokens ==> Descends(s, db.tokens[h].family, db.tokens[h].clientId))
            && (h in db.refreshes ==> Descends(s, db.refreshes[h].family, db.refreshes[h].clientId))
  {
    if e.Advance? {
      assert TaskSourced(s, s.tasks[e.i]);
      CallsRows(cfg, s.db, s.now, s.tasks[e.i], e.drawn, h);
    } else if e.Withdraw? {
      RevokedRows(s.db, e.id, h);
    }
  }

  lemma SpenderIsSourced(cfg: Config, s: State, i: nat, drawn: string)
    requires Enabled(cfg, s, Advance(i, drawn)) && Sourced(cfg, s) && s.tasks[i].SpendCode?
    ensures TaskSourced(Advanced(cfg, s, i, drawn), TaskAfter(cfg, s.db, s.now, s.tasks[i], drawn))
  {
  }

  /** Short of a code spend, a request's next stand is as well sourced as where it stood. */
  lemma NextIsAsSourced(cfg: Config, s: State, task: Task, drawn: string)
    requires OpeningsBound(cfg, s) && TaskSourced(s, task) && RowsSourced(s) && !task.SpendCode?
    ensures TaskSourced(s, TaskAfter(cfg, s.db, s.now, task, drawn))
  {
  }

  lemma NextTaskIsSourced(cfg: Config, s: State, i: nat, drawn: string)
    requires Enabled(cfg, s, Advance(i, drawn)) && Sourced(cfg, s)
    ensures TaskSourced(Advanced(cfg, s, i, drawn), TaskAfter(cfg, s.db, s.now, s.tasks[i], drawn))
  {
    if s.tasks[i].SpendCode? {
      SpenderIsSourced(cfg, s, i, drawn);
    } else {
      StepKeeps(cfg, s, Advance(i, drawn));
      NextIsAsSourced(cfg, s, s.tasks[i], drawn);
      TaskStaysSourced(s, Advanced(cfg, s, i, drawn), TaskAfter(cfg, s.db, s.now, s.tasks[i], drawn));
    }
  }

  lemma RowsStaySourced(cfg: Config, s: State, e: Event)
    requires Enabled(cfg, s, e) && Sourced(cfg, s)
    ensures RowsSourced(Next(cfg, s, e))
  {
    var t := Next(cfg, s, e);
    StepKeeps(cfg, s, e);
    forall h | h in t.db.tokens ensures Descends(t, t.db.tokens[h].family, t.db.tokens[h].clientId) {
      RowsAfter(cfg, s, e, h);
      DescentStays(s, t, t.db.tokens[h].family, t.db.tokens[h].clientId);
    }
    forall h | h in t.db.refreshes ensures Descends(t, t.db.refreshes[h].family, t.db.refreshes[h].clientId) {
      RowsAfter(cfg, s, e, h);
      DescentStays(s, t, t.db.refreshes[h].family, t.db.refreshes[h].clientId);
    }
  }

  lemma StepKeepsSourced(cfg: Config, s: State, e: Event)
    requires Enabled(cfg, s, e) && Sourced(cfg, s)
    ensures Sourced(cfg, Next(cfg, s, e))
  {
    var t := Next(cfg, s, e);
    StepKeeps(cfg, s, e);
    OpeningsStayBound(cfg, s, e);
    RowsStaySourced(cfg, s, e);
    forall i | 0 <= i < |t.tasks| ensures TaskSourced(t, t.tasks[i]) {
      if e.Advance? && i == e.i {
        NextTaskIsSourced(cfg, s, i, e.drawn);
      } else if i < |s.tasks| {
        TaskStaysSourced(s, t, s.tasks[i]);
      }
    }
  }

  lemma {:induction false} RunKeepsSourced(cfg: Config, s: State, run: seq<Event>)
    requires Sourced(cfg, s) && Possible(cfg, s, run)
    ensures Sourced(cfg, After(cfg, s, run))
    decreases |run|
  {
    if run != [] {
      StepKeepsSourced(cfg, s, run[0]);
      RunKeepsSourced(cfg, Next(cfg, s, run[0]), run[1..]);
    }
  }

  // ---- registration is not authorization ----

  /** A client nobody approved has no grant and no name but its own. */
  predicate UnapprovedHoldNothing(db: Db) {
    forall id | id in db.clients && !db.clients[id].consented ::
      db.clients[id].grant == NO_GRANT && db.clients[id].ownerLabel == None
  }

  lemma StepKeepsUnapprovedBare(cfg: Config, s: State, e: Event)
    requires Enabled(cfg, s, e) && UnapprovedHoldNothing(s.db)
    ensures UnapprovedHoldNothing(Next(cfg, s, e).db)
  {
    if e.Advance? {
      CallTouches(cfg, s.db, s.now, s.tasks[e.i], e.drawn);
    }
  }

  lemma {:induction false} UnapprovedClientsHoldNothing(cfg: Config, s: State, run: seq<Event>)
    requires UnapprovedHoldNothing(s.db) && Possible(cfg, s, run)
    ensures UnapprovedHoldNothing(After(cfg, s, run).db)
    decreases |run|
  {
    if run != [] {
      StepKeepsUnapprovedBare(cfg, s, run[0]);
      UnapprovedClientsHoldNothing(cfg, Next(cfg, s, run[0]), run[1..]);
    }
  }

  // ---- the whole claim, of one token ----

  /** The family grew from exactly one code, spent, of this client, by an exchange that presented the code's own
      redirect URI and a verifier of its challenge, and authenticated as the client. */
  ghost predicate Authorised(cfg: Config, s: State, f: Family, id: string) {
    exists c :: OpenedWith(cfg, s, f, id, c) && forall other :: FamilyOf(other) == f ==> other == c
  }

  predicate OpenedWith(cfg: Config, s: State, f: Family, id: string, c: Hash) {
    && f == FamilyOf(c)
    && c in s.db.codes && s.db.codes[c].consumed && s.db.codes[c].clientId == id
    && c in s.openings && var x := s.openings[c];
    && Sha256(x.code) == c
    && x.redirectUri == s.db.codes[c].redirectUri
    && ValidVerifier(x.verifier) && cfg.s256(x.verifier) == s.db.codes[c].challenge
    && (x.creds.clientId.None? || x.creds.clientId.value == id)
    && id in s.db.clients && s.db.clients[id].consented
    && (match s.db.clients[id].secretHash
        case None => x.creds.secret.None?
        case Some(expected) => x.creds.secret.Some? && Sha256(x.creds.secret.value) == expected)
  }

  lemma DescentIsAuthorised(cfg: Config, s: State, f: Family, id: string)
    requires OpeningsBound(cfg, s) && Descends(s, f, id)
    ensures Authorised(cfg, s, f, id)
  {
    assert OpenedWith(cfg, s, f, id, f.code);
  }

  /** Every access token and every refresh token of every run. */
  lemma EveryTokenIsAuthorised(cfg: Config, now: int, run: seq<Event>, h: Hash)
    requires Possible(cfg, Init(now), run)
    ensures var s := After(cfg, Init(now), run);
            && (h in s.db.tokens ==> Authorised(cfg, s, s.db.tokens[h].family, s.db.tokens[h].clientId))
            && (h in s.db.refreshes ==> Authorised(cfg, s, s.db.refreshes[h].family, s.db.refreshes[h].clientId))
  {
    RunKeepsSourced(cfg, Init(now), run);
    var s := After(cfg, Init(now), run);
    if h in s.db.tokens {
      DescentIsAuthorised(cfg, s, s.db.tokens[h].family, s.db.tokens[h].clientId);
    }
    if h in s.db.refreshes {
      DescentIsAuthorised(cfg, s, s.db.refreshes[h].family, s.db.refreshes[h].clientId);
    }
  }

  // ---- who every mint went to ----

  /** The client is known and approved, and what was presented is its own. */
  predicate Accepts(db: Db, id: string, creds: Credentials) {
    && id in db.clients && db.clients[id].consented
    && !NamesAnother(creds, id)
    && AuthenticateClient(db.clients[id], creds).None?
  }

  predicate TaskAccepted(db: Db, task: Task) {
    match task
    case CheckExchange(x, row) => !NamesAnother(x.creds, row.clientId)
    case Recheck(r, owner, _) => !NamesAnother(r.creds, owner)
    case InsertAccess(g) => Accepts(db, g.clientId, g.caller)
    case InsertRefresh(g, _) => Accepts(db, g.clientId, g.caller)
    case _ => true
  }

  predicate CallersAccepted(s: State) {
    && (forall i | 0 <= i < |s.tasks| :: TaskAccepted(s.db, s.tasks[i]))
    && (forall a | 0 <= a < |s.log| :: Accepts(s.db, s.log[a].g.clientId, s.log[a].g.caller))
  }

  /** Clients stay, with their secrets; approval is for good. */
  predicate ClientsKept(db: Db, after: Db) {
    forall id | id in db.clients ::
      && id in after.clients && after.clients[id].secretHash == db.clients[id].secretHash
      && (db.clients[id].consented ==> after.clients[id].consented)
  }

  lemma StepKeepsClients(cfg: Config, s: State, e: Event)
    requires Enabled(cfg, s, e)
    ensures ClientsKept(s.db, Next(cfg, s, e).db)
  {
    if e.Advance? {
      CallTouches(cfg, s.db, s.now, s.tasks[e.i], e.drawn);
    }
  }

  lemma NextTaskIsAccepted(cfg: Config, db: Db, now: int, task: Task, drawn: string)
    requires TaskAccepted(db, task)
    ensures TaskAccepted(db, TaskAfter(cfg, db, now, task, drawn))
  {
  }

  lemma AcceptanceStays(db: Db, after: Db, task: Task)
    requires ClientsKept(db, after) && TaskAccepted(db, task)
    ensures TaskAccepted(after, task)
  {
  }

  lemma StepKeepsAccepted(cfg: Config, s: State, e: Event)
    requires Enabled(cfg, s, e) && CallersAccepted(s)
    ensures CallersAccepted(Next(cfg, s, e))
  {
    var t := Next(cfg, s, e);
    StepKeepsClients(cfg, s, e);
    forall i | 0 <= i < |t.tasks| ensures TaskAccepted(t.db, t.tasks[i]) {
      if e.Advance? && i == e.i {
        NextTaskIsAccepted(cfg, s.db, s.now, s.tasks[i], e.drawn);
        AcceptanceStays(s.db, t.db, t.tasks[i]);
      } else if i < |s.tasks| {
        AcceptanceStays(s.db, t.db, s.tasks[i]);
      }
    }
    forall a | 0 <= a < |t.log| ensures Accepts(t.db, t.log[a].g.clientId, t.log[a].g.caller) {
      if a < |s.log| {
        assert t.log[a] == s.log[a];
      } else {
        assert TaskAccepted(s.db, s.tasks[e.i]);
      }
    }
  }

  lemma {:induction false} RunKeepsAccepted(cfg: Config, s: State, run: seq<Event>)
    requires CallersAccepted(s) && Possible(cfg, s, run)
    ensures CallersAccepted(After(cfg, s, run))
    decreases |run|
  {
    if run != [] {
      StepKeepsAccepted(cfg, s, run[0]);
      RunKeepsAccepted(cfg, Next(cfg, s, run[0]), run[1..]);
    }
  }

  /** Every token minted in any run, by an exchange or by a rotation, went to a request that named no other client and
      held the client's secret, or none where the client has none. */
  lemma EveryMintWentToItsClient(cfg: Config, now: int, run: seq<Event>, a: nat)
    requires Possible(cfg, Init(now), run) && a < |After(cfg, Init(now), run).log|
    ensures var s := After(cfg, Init(now), run);
            var id, caller := s.log[a].g.clientId, s.log[a].g.caller;
            && id in s.db.clients && s.db.clients[id].consented
            && (caller.clientId.None? || caller.clientId.value == id)
            && (match s.db.clients[id].secretHash
                case None => caller.secret.None?
                case Some(expected) => caller.secret.Some? && Sha256(caller.secret.value) == expected)
  {
    RunKeepsAccepted(cfg, Init(now), run);
  }
}
