/** When credentials are spent and how long what they bring lives, in every interleaving
    (src/adapters/postgres/oauth.rs `consume_code`, `rotate_refresh`; src/authserver/routes.rs `issue_tokens`). */
module Lifetimes {
  import opened Text
  import opened OauthStore
  import opened TokenEndpoint
  import opened TokenRuns

  // ---- spent in time ----

  /** The event spends the credential: it is there, unspent, and the clock is short of its expiry. */
  predicate SpendsInTime(s: State, e: Event, c: Credential) {
    && e.Advance? && e.i < |s.tasks|
    && match c
       case Code(h) =>
         && s.tasks[e.i].SpendCode? && Sha256(s.tasks[e.i].x.code) == h
         && h in s.db.codes && !s.db.codes[h].consumed && s.now < s.db.codes[h].expiresAt
       case Token(h) =>
         && s.tasks[e.i].SpendRefresh? && Sha256(s.tasks[e.i].r.token) == h
         && h in s.db.refreshes && !s.db.refreshes[h].consumed && !s.db.refreshes[h].revoked
         && s.now < s.db.refreshes[h].expiresAt
  }

  predicate HeldBy(tasks: seq<Task>, c: Credential) {
    exists i :: 0 <= i < |tasks| && HasSpent(tasks[i]) && SpentBy(tasks[i]) == c
  }

  predicate MintedFrom(log: seq<Mint>, c: Credential) {
    exists a :: 0 <= a < |log| && log[a].g.spent == c
  }

  /** The credential brought something: a request is past spending it, a token was minted from it, or it opened its
      family. */
  predicate Used(s: State, c: Credential) {
    HeldBy(s.tasks, c) || MintedFrom(s.log, c) || (c.Code? && c.h in s.openings)
  }

  lemma TaskSpends(cfg: Config, s: State, i: nat, drawn: string)
    requires i < |s.tasks| && !HasSpent(s.tasks[i]) && HasSpent(TaskAfter(cfg, s.db, s.now, s.tasks[i], drawn))
    ensures SpendsInTime(s, Advance(i, drawn), SpentBy(TaskAfter(cfg, s.db, s.now, s.tasks[i], drawn)))
  {
  }

  lemma TaskKeepsItsCredential(cfg: Config, s: State, i: nat, drawn: string)
    requires i < |s.tasks| && HasSpent(s.tasks[i])
    ensures var after := TaskAfter(cfg, s.db, s.now, s.tasks[i], drawn);
            HasSpent(after) ==> SpentBy(after) == SpentBy(s.tasks[i])
  {
  }

  lemma OnlySpendersOpen(cfg: Config, s: State, i: nat, drawn: string, h: Hash)
    requires i < |s.tasks| && h !in s.openings && h in Advanced(cfg, s, i, drawn).openings
    ensures SpendsInTime(s, Advance(i, drawn), Code(h))
  {
  }

  /** Whoever mints from a credential was holding it. */
  lemma MintersHeld(cfg: Config, s: State, i: nat, drawn: string, c: Credential)
    requires i < |s.tasks|
    ensures MintedFrom(Advanced(cfg, s, i, drawn).log, c) ==> MintedFrom(s.log, c) || HeldBy(s.tasks, c)
  {
    var t := Advanced(cfg, s, i, drawn);
    if a :| 0 <= a < |t.log| && t.log[a].g.spent == c {
      if a < |s.log| {
        assert t.log[a] == s.log[a];
      } else {
        assert t.log[a] in MintsOf(s.db, s.tasks[i], drawn);
      }
    }
  }

  lemma AdvanceUses(cfg: Config, s: State, i: nat, drawn: string, c: Credential)
    requires i < |s.tasks| && Used(Advanced(cfg, s, i, drawn), c) && !Used(s, c)
    ensures SpendsInTime(s, Advance(i, drawn), c)
  {
    var t := Advanced(cfg, s, i, drawn);
    MintersHeld(cfg, s, i, drawn, c);
    if HeldBy(t.tasks, c) {
      var j :| 0 <= j < |t.tasks| && HasSpent(t.tasks[j]) && SpentBy(t.tasks[j]) == c;
      assert j == i;
      if HasSpent(s.tasks[i]) {
        TaskKeepsItsCredential(cfg, s, i, drawn);
      } else {
        TaskSpends(cfg, s, i, drawn);
      }
    } else {
      OnlySpendersOpen(cfg, s, i, drawn, c.h);
    }
  }

  lemma StepUses(cfg: Config, s: State, e: Event, c: Credential)
    requires Enabled(cfg, s, e) && Used(Next(cfg, s, e), c) && !Used(s, c)
    ensures SpendsInTime(s, e, c)
  {
    if e.Advance? {
      AdvanceUses(cfg, s, e.i, e.drawn, c);
    } else {
      var t := Next(cfg, s, e);
      assert t.log == s.log && t.openings == s.openings;
      assert forall i | 0 <= i < |t.tasks| && HasSpent(t.tasks[i]) :: i < |s.tasks| && t.tasks[i] == s.tasks[i];
    }
  }

  ghost predicate SpentAt(cfg: Config, s: State, run: seq<Event>, k: nat, c: Credential) {
    k < |run| && Possible(cfg, s, run[..k]) && SpendsInTime(After(cfg, s, run[..k]), run[k], c)
  }

  /** Whatever came of a code or a refresh token along a run, the run spent it before its expiry. */
  lemma {:induction false} CredentialsAreSpentInTime(cfg: Config, s: State, run: seq<Event>, c: Credential)
    returns (k: nat)
    requires Possible(cfg, s, run) && Used(After(cfg, s, run), c) && !Used(s, c)
    ensures SpentAt(cfg, s, run, k, c)
    decreases |run|
  {
    var t := Next(cfg, s, run[0]);
    if Used(t, c) {
      StepUses(cfg, s, run[0], c);
      k := 0;
      assert run[..0] == [];
    } else {
      var j := CredentialsAreSpentInTime(cfg, t, run[1..], c);
      k := j + 1;
      assert run[..k][0] == run[0] && run[..k][1..] == run[1..][..j];
    }
  }

  // ---- access tokens live one access lifetime ----

  ghost predicate AccessMintedAt(cfg: Config, s: State, run: seq<Event>, k: nat, h: Hash) {
    && k < |run| && Possible(cfg, s, run[..k])
    && var t := After(cfg, s, run[..k]);
    && run[k].Advance? && run[k].i < |t.tasks| && t.tasks[run[k].i].InsertAccess?
    && Sha256(run[k].drawn) == h && h !in t.db.tokens
  }

  lemma CallKeepsExpiry(cfg: Config, db: Db, now: int, task: Task, drawn: string, h: Hash)
    ensures var after := DbAfter(cfg, db, now, task, drawn);
            && (h in db.tokens ==> h in after.tokens && after.tokens[h].expiresAt == db.tokens[h].expiresAt)
            && (h in db.refreshes ==>
                  h in after.refreshes && after.refreshes[h].expiresAt == db.refreshes[h].expiresAt)
            && (h !in db.tokens && h in after.tokens ==>
                  && task.InsertAccess? && Sha256(drawn) == h
                  && after.tokens[h].expiresAt == now + cfg.accessTtl)
            && (h !in db.refreshes && h in after.refreshes ==>
                  && task.InsertRefresh? && Sha256(drawn) == h
                  && after.refreshes[h].expiresAt == task.issuedAt + cfg.refreshTtl)
  {
  }

  lemma StepKeepsExpiry(cfg: Config, s: State, e: Event, h: Hash)
    requires Enabled(cfg, s, e)
    ensures var after := Next(cfg, s, e).db;
            && (h in s.db.tokens ==> h in after.tokens && after.tokens[h].expiresAt == s.db.tokens[h].expiresAt)
            && (h in s.db.refreshes ==>
                  h in after.refreshes && after.refreshes[h].expiresAt == s.db.refreshes[h].expiresAt)
    ensures !e.Advance? ==>
              && (h in Next(cfg, s, e).db.tokens ==> h in s.db.tokens)
              && (h in Next(cfg, s, e).db.refreshes ==> h in s.db.refreshes)
  {
    if e.Advance? {
      CallKeepsExpiry(cfg, s.db, s.now, s.tasks[e.i], e.drawn, h);
    }
  }

  lemma {:induction false} RunKeepsExpiry(cfg: Config, s: State, run: seq<Event>, h: Hash)
    requires Possible(cfg, s, run)
    ensures var after := After(cfg, s, run).db;
            && (h in s.db.tokens ==> h in after.tokens && after.tokens[h].expiresAt == s.db.tokens[h].expiresAt)
            && (h in s.db.refreshes ==>
                  h in after.refreshes && after.refreshes[h].expiresAt == s.db.refreshes[h].expiresAt)
    decreases |run|
  {
    if run != [] {
      StepKeepsExpiry(cfg, s, run[0], h);
      RunKeepsExpiry(cfg, Next(cfg, s, run[0]), run[1..], h);
    }
  }

  /** An access token stored along a run was stored at some instant of it, and expires one access lifetime later. */
  lemma {:induction false} AccessTokensExpire(cfg: Config, s: State, run: seq<Event>, h: Hash) returns (k: nat)
    requires Possible(cfg, s, run) && h in After(cfg, s, run).db.tokens && h !in s.db.tokens
    ensures AccessMintedAt(cfg, s, run, k, h)
    ensures After(cfg, s, run).db.tokens[h].expiresAt == After(cfg, s, run[..k]).now + cfg.accessTtl
    decreases |run|
  {
    var t := Next(cfg, s, run[0]);
    StepKeepsExpiry(cfg, s, run[0], h);
    if h in t.db.tokens {
      CallKeepsExpiry(cfg, s.db, s.now, s.tasks[run[0].i], run[0].drawn, h);
      RunKeepsExpiry(cfg, t, run[1..], h);
      k := 0;
      assert run[..0] == [];
    } else {
      var j := AccessTokensExpire(cfg, t, run[1..], h);
      k := j + 1;
      assert run[..k][0] == run[0] && run[..k][1..] == run[1..][..j];
    }
  }

  // ---- refresh tokens live one refresh lifetime from the issue of their access token ----

  /** The event stores the access token of a request that goes on to store a refresh token. */
  predicate IssuesBoth(s: State, e: Event) {
    e.Advance? && e.i < |s.tasks| && s.tasks[e.i].InsertAccess? && s.tasks[e.i].g.refreshes
  }

  ghost predicate IssuedAt(cfg: Config, s: State, run: seq<Event>, k: nat) {
    k < |run| && Possible(cfg, s, run[..k]) && IssuesBoth(After(cfg, s, run[..k]), run[k])
  }

  /** A request of the earlier state is to store a refresh token issued at that instant. */
  predicate Pending(s: State, at: int) {
    exists i :: 0 <= i < |s.tasks| && s.tasks[i].InsertRefresh? && s.tasks[i].issuedAt == at
  }

  lemma PendingComesFromAnIssue(cfg: Config, s: State, e: Event, at: int)
    requires Enabled(cfg, s, e) && Pending(Next(cfg, s, e), at) && !Pending(s, at)
    ensures IssuesBoth(s, e) && at == s.now
  {
    var t := Next(cfg, s, e);
    assert forall i | 0 <= i < |s.tasks| && !(e.Advance? && i == e.i) :: t.tasks[i] == s.tasks[i];
  }

  lemma {:induction false} RefreshTokensExpireFrom(cfg: Config, s: State, run: seq<Event>, h: Hash)
    returns (at: int, k: nat)
    requires Possible(cfg, s, run) && h in After(cfg, s, run).db.refreshes && h !in s.db.refreshes
    ensures After(cfg, s, run).db.refreshes[h].expiresAt == at + cfg.refreshTtl
    ensures Pending(s, at) || (IssuedAt(cfg, s, run, k) && After(cfg, s, run[..k]).now == at)
    decreases |run|
  {
    var t := Next(cfg, s, run[0]);
    StepKeepsExpiry(cfg, s, run[0], h);
    k := 0;
    if h in t.db.refreshes {
      CallKeepsExpiry(cfg, s.db, s.now, s.tasks[run[0].i], run[0].drawn, h);
      RunKeepsExpiry(cfg, t, run[1..], h);
      at := s.tasks[run[0].i].issuedAt;
    } else {
      var j;
      at, j := RefreshTokensExpireFrom(cfg, t, run[1..], h);
      if Pending(t, at) && !Pending(s, at) {
        PendingComesFromAnIssue(cfg, s, run[0], at);
        assert run[..0] == [];
      } else if !Pending(s, at) {
        k := j + 1;
        assert run[..k][0] == run[0] && run[..k][1..] == run[1..][..j];
      }
    }
  }

  /** With no request in flight at the start, a refresh token stored along a run expires one refresh lifetime after the
      instant at which some request of the run stored its access token. */
  lemma RefreshTokensExpire(cfg: Config, s: State, run: seq<Event>, h: Hash) returns (k: nat)
    requires s.tasks == [] && Possible(cfg, s, run) && h in After(cfg, s, run).db.refreshes && h !in s.db.refreshes
    ensures IssuedAt(cfg, s, run, k)
    ensures After(cfg, s, run).db.refreshes[h].expiresAt == After(cfg, s, run[..k]).now + cfg.refreshTtl
  {
    var at;
    at, k := RefreshTokensExpireFrom(cfg, s, run, h);
  }
}
