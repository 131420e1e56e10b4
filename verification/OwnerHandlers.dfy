/** The two handlers the owner's browser reaches, as the code runs them: the password check over the limiter and the
    pool, and the consent post over the store (src/authserver/routes.rs `login`, `consent`). */
module OwnerHandlers {
  import opened Text
  import opened Utf8
  import Decimal
  import opened Session
  import opened Limiter
  import L = LoginFlow
  import opened OauthStore
  import opened TokenEndpoint
  import opened Authorize
  import C = ConsentFlow

  // ---- sign-in ----

  datatype SignIn = NoSuchFlow(e: Refused) | Throttled | NotConfigured | Busy | WrongPassword | CheckFailed
                  | DoesNotOpen | SignedIn(cookie: string)

  /** `PASSWORD_WORK_PERMITS` permits, taken and given back. */
  class PasswordPool {
    var free: nat

    constructor ()
      ensures free == PASSWORD_WORK_PERMITS
    {
      free := PASSWORD_WORK_PERMITS;
    }

    method TryAcquire() returns (ok: bool)
      modifies this
      ensures ok == (old(free) > 0)
      ensures free == if ok then old(free) - 1 else old(free)
    {
      ok := free > 0;
      if ok {
        free := free - 1;
      }
    }

    method GiveBack()
      modifies this
      ensures free == old(free) + 1
    {
      free := free + 1;
    }
  }

  /** The run of one sign-in with nothing in between, as events of the interleaved system. */
  function Alone(s: L.State, surface: L.Surface, slot: Reservation, configured: bool,
                 outcome: L.Outcome): seq<L.Event>
  {
    var n := |s.attempts|;
    if !LetThrough(s.On(surface), s.perMinute, slot) then [L.Arrive(surface, slot)]
    else if !configured then [L.Arrive(surface, slot), L.NoPassword(n)]
    else if s.free == 0 then [L.Arrive(surface, slot), L.Acquire(n)]
    else [L.Arrive(surface, slot), L.Acquire(n), L.Finish(n, outcome), L.Settle(n)]
  }

  lemma OneMoreStep(s: L.State, e: L.Event, rest: seq<L.Event>)
    requires L.Enabled(s, e) && L.Possible(L.Next(s, e), rest)
    ensures L.Possible(s, [e] + rest) && L.After(s, [e] + rest) == L.After(L.Next(s, e), rest)
  {
    assert ([e] + rest)[1..] == rest;
  }

  lemma OneStep(s: L.State, e: L.Event)
    requires L.Enabled(s, e)
    ensures L.Possible(s, [e]) && L.After(s, [e]) == L.Next(s, e)
  {
    OneMoreStep(s, e, []);
    assert [e] + [] == [e];
  }

  lemma TwoSteps(s: L.State, first: L.Event, second: L.Event)
    requires L.Enabled(s, first) && L.Enabled(L.Next(s, first), second)
    ensures L.Possible(s, [first, second]) && L.After(s, [first, second]) == L.Next(L.Next(s, first), second)
  {
    OneStep(L.Next(s, first), second);
    OneMoreStep(s, first, [second]);
    assert [first] + [second] == [first, second];
  }

  /** The attempt is in, its slot held. */
  lemma ArrivedAlone(s: L.State, surface: L.Surface, slot: Reservation)
    requires slot.at >= s.clock && LetThrough(s.On(surface), s.perMinute, slot)
    ensures var t := L.Next(s, L.Arrive(surface, slot));
            && t.On(surface) == Reserved(s.On(surface), s.perMinute, slot) && t.free == s.free
            && t.attempts == s.attempts + [L.Attempt(surface, slot, L.Waiting)]
  {
  }

  /** Turned away without a check: the slot is given back. */
  lemma RefundedAlone(s: L.State, n: nat, e: L.Event)
    requires n < |s.attempts| && s.attempts[n].phase == L.Waiting
    requires e == L.NoPassword(n) || (e == L.Acquire(n) && s.free == 0)
    ensures L.Enabled(s, e)
    ensures var a, t := s.attempts[n], L.Next(s, e);
            t.On(a.surface) == Released(s.On(a.surface), a.slot) && t.free == s.free
  {
  }

  /** The charge is kept when the attempt was let through and ended wrong or failed; a refused one only prunes. */
  function LimiterAfter(w: Windows, perMinute: nat, slot: Reservation, configured: bool, busy: bool,
                        outcome: L.Outcome): Windows
  {
    var charged := Reserved(w, perMinute, slot);
    if !LetThrough(w, perMinute, slot) then charged
    else if !configured || busy || outcome == L.Right then Released(charged, slot)
    else charged
  }

  lemma RefusedAlone(s: L.State, surface: L.Surface, slot: Reservation, e: L.Event)
    requires slot.at >= s.clock && LetThrough(s.On(surface), s.perMinute, slot)
    requires e == L.NoPassword(|s.attempts|) || (e == L.Acquire(|s.attempts|) && s.free == 0)
    ensures var run := [L.Arrive(surface, slot), e];
            && L.Possible(s, run) && L.After(s, run).free == s.free
            && L.After(s, run).On(surface) == Released(Reserved(s.On(surface), s.perMinute, slot), slot)
  {
    var arrive := L.Arrive(surface, slot);
    ArrivedAlone(s, surface, slot);
    RefundedAlone(L.Next(s, arrive), |s.attempts|, e);
    TwoSteps(s, arrive, e);
  }

  lemma ThroughAlone(s: L.State, surface: L.Surface, slot: Reservation, outcome: L.Outcome)
    requires slot.at >= s.clock && LetThrough(s.On(surface), s.perMinute, slot) && s.free > 0
    ensures var n, charged := |s.attempts|, Reserved(s.On(surface), s.perMinute, slot);
            var run := [L.Arrive(surface, slot), L.Acquire(n), L.Finish(n, outcome), L.Settle(n)];
            && L.Possible(s, run) && L.After(s, run).free == s.free
            && L.After(s, run).On(surface) == if outcome == L.Right then Released(charged, slot) else charged
  {
    var n, arrive := |s.attempts|, L.Arrive(surface, slot);
    var rest := [L.Acquire(n), L.Finish(n, outcome), L.Settle(n)];
    ArrivedAlone(s, surface, slot);
    CheckedAlone(L.Next(s, arrive), n, outcome);
    OneMoreStep(s, arrive, rest);
    assert [arrive] + rest == [L.Arrive(surface, slot), L.Acquire(n), L.Finish(n, outcome), L.Settle(n)];
  }

  /** The attempt is charged for good exactly when it was let through and its check ran and did not find the password
      right; every other attempt leaves, of what is younger than a minute, what it found once room was made. */
  lemma ChargedExactlyWhenWrong(w: Windows, perMinute: nat, slot: Reservation, configured: bool, busy: bool,
                                outcome: L.Outcome, axis: Axis, name: string, at: Instant)
    requires slot.at - at < 60_000_000_000
    ensures var after := LimiterAfter(w, perMinute, slot, configured, busy, outcome);
            var charged := LetThrough(w, perMinute, slot) && configured && !busy && outcome != L.Right;
            multiset(after.Of(axis, name))[at] ==
            multiset(WindowIn(RoomyOn(w, axis, slot), name))[at]
            + if charged && name == slot.Name(axis) && at == slot.at then 1 else 0
  {
    YoungForAMinute(at, slot.at);
    if LetThrough(w, perMinute, slot) && (!configured || busy || outcome == L.Right) {
      RefundCounts(w, perMinute, slot, axis, name, at);
    } else {
      ReservedCounts(w, perMinute, slot, axis, name, at);
    }
  }

  lemma RefundCounts(w: Windows, perMinute: nat, slot: Reservation, axis: Axis, name: string, at: Instant)
    requires LetThrough(w, perMinute, slot) && Young(at, slot.at)
    ensures multiset(Released(Reserved(w, perMinute, slot), slot).Of(axis, name))[at] ==
            multiset(WindowIn(RoomyOn(w, axis, slot), name))[at]
  {
    ReservedCounts(w, perMinute, slot, axis, name, at);
    ReleasedCounts(Reserved(w, perMinute, slot), slot, axis, name);
  }

  /** What such a run leaves of the limiter and the pool. */
  lemma AloneLeaves(s: L.State, surface: L.Surface, slot: Reservation, configured: bool, outcome: L.Outcome)
    requires slot.at >= s.clock
    ensures var run := Alone(s, surface, slot, configured, outcome);
            && L.Possible(s, run)
            && L.After(s, run).free == s.free
            && L.After(s, run).On(surface) ==
               LimiterAfter(s.On(surface), s.perMinute, slot, configured, s.free == 0, outcome)
  {
    var n := |s.attempts|;
    if !LetThrough(s.On(surface), s.perMinute, slot) {
      OneStep(s, L.Arrive(surface, slot));
    } else if !configured {
      RefusedAlone(s, surface, slot, L.NoPassword(n));
    } else if s.free == 0 {
      RefusedAlone(s, surface, slot, L.Acquire(n));
    } else {
      ThroughAlone(s, surface, slot, outcome);
    }
  }

  lemma CheckedAlone(s: L.State, n: nat, outcome: L.Outcome)
    requires n < |s.attempts| && s.attempts[n].phase == L.Waiting && s.free > 0
    ensures var run := [L.Acquire(n), L.Finish(n, outcome), L.Settle(n)];
            var a := s.attempts[n];
            && L.Possible(s, run)
            && L.After(s, run).free == s.free
            && L.After(s, run).On(a.surface) ==
               if outcome == L.Right then Released(s.On(a.surface), a.slot) else s.On(a.surface)
  {
    var s1 := L.Next(s, L.Acquire(n));
    var s2 := L.Next(s1, L.Finish(n, outcome));
    OneMoreStep(s2, L.Settle(n), []);
    OneMoreStep(s1, L.Finish(n, outcome), [L.Settle(n)] + []);
    OneMoreStep(s, L.Acquire(n), [L.Finish(n, outcome)] + ([L.Settle(n)] + []));
    assert [L.Acquire(n)] + ([L.Finish(n, outcome)] + ([L.Settle(n)] + [])) ==
           [L.Acquire(n), L.Finish(n, outcome), L.Settle(n)];
  }

  /** Which answer it is. */
  lemma AnswersExactly(w: Windows, perMinute: nat, slot: Reservation, configured: bool, busy: bool, outcome: L.Outcome,
                       welcome: SignIn)
    requires welcome.SignedIn? || welcome == DoesNotOpen
    ensures var a := Answer(w, perMinute, slot, configured, busy, outcome, welcome);
            var let := LetThrough(w, perMinute, slot);
            && (a == Throttled <==> !let)
            && (a == NotConfigured <==> let && !configured)
            && (a == Busy <==> let && configured && busy)
            && (a == WrongPassword <==> let && configured && !busy && outcome == L.Wrong)
            && (a == CheckFailed <==> let && configured && !busy && outcome == L.Failed)
            && (a.SignedIn? || a == DoesNotOpen <==> let && configured && !busy && outcome == L.Right)
            && (a.SignedIn? ==> a == welcome)
  {
  }

  /** A fresh cookie goes out only if it opens. */
  function Welcomed(sessions: Sessions, issuedAt: int, openedAt: int): SignIn {
    var cookie := sessions.Issue(issuedAt);
    if sessions.Open(cookie, openedAt).Some? then SignedIn(cookie) else DoesNotOpen
  }

  /** Which it does exactly when its session has not ended by then. */
  lemma WelcomedWhileItLasts(sessions: Sessions, issuedAt: int, openedAt: int)
    requires sessions.Hexes() && Decimal.IsI64(issuedAt + sessions.ttl)
    ensures Welcomed(sessions, issuedAt, openedAt) ==
            if openedAt < issuedAt + sessions.ttl then SignedIn(sessions.Issue(issuedAt)) else DoesNotOpen
  {
    OpensUntilExpiry(sessions, issuedAt, openedAt);
  }

  /** The answer to a request that resolved. */
  function Answer(w: Windows, perMinute: nat, slot: Reservation, configured: bool, busy: bool, outcome: L.Outcome,
                  welcome: SignIn): SignIn
  {
    if !LetThrough(w, perMinute, slot) then Throttled
    else if !configured then NotConfigured
    else if busy then Busy
    else match outcome
         case Right => welcome
         case Wrong => WrongPassword
         case Failed => CheckFailed
  }

  /** The whole post: the request is resolved before anything is charged. `outcome` is what the password check would
      answer. */
  method Login(f: C.Settings, store: PgStore, limiter: LoginLimiter, pool: PasswordPool, request: Request,
               key: string, peer: string, at: Instant, issuedAt: int, openedAt: int, configured: bool,
               outcome: L.Outcome)
    returns (reply: SignIn)
    requires limiter.Valid()
    modifies limiter, pool
    ensures limiter.Valid() && pool.free == old(pool.free)
    ensures match Resolve(f.cfg, f.parses, store.View(), request)
            case Err(e) => reply == NoSuchFlow(e) && limiter.View() == old(limiter.View())
            case Ok(_) =>
              var slot, w, busy := Reservation(key, peer, at), old(limiter.View()), old(pool.free) == 0;
              && limiter.View() == LimiterAfter(w, limiter.perMinute, slot, configured, busy, outcome)
              && reply == Answer(w, limiter.perMinute, slot, configured, busy, outcome,
                                 Welcomed(f.sessions, issuedAt, openedAt))
  {
    var intent := Resolve(f.cfg, f.parses, store.View(), request);
    if intent.Err? {
      return NoSuchFlow(intent.error);
    }
    var slot := limiter.Reserve(key, peer, at);
    if slot.None? {
      return Throttled;
    }
    if !configured {
      limiter.Release(slot.value);
      return NotConfigured;
    }
    var work := pool.TryAcquire();
    if !work {
      limiter.Release(slot.value);
      return Busy;
    }
    pool.GiveBack();
    match outcome {
      case Right =>
        limiter.Release(slot.value);
      case Wrong =>
        return WrongPassword;
      case Failed =>
        return CheckFailed;
    }
    var cookie := f.sessions.Issue(issuedAt);
    var session := f.sessions.Open(cookie, openedAt);
    reply := if session.Some? then SignedIn(cookie) else DoesNotOpen;
  }

  // ---- consent ----

  datatype ConsentReply = SignInExpired | CannotStart(e: Refused) | NotRecognised | Denied | NoChoice | NameNotSaved
                        | Sent(code: string) | ServerFault

  function CodeRowOf(i: Intent, expiresAt: int): CodeRow {
    CodeRow(i.clientId, i.redirectUri, i.challenge, i.scope, i.resource, expiresAt, false)
  }

  function Named(db: Db, id: string, choice: LabelChoice): Db {
    if choice.Store? then Labelled(db, id, choice.name) else db
  }

  /** The store after the writes of an Allow: the grant, the name if one was typed, the code. */
  function WrittenDb(db: Db, i: Intent, grant: ClientGrant, choice: LabelChoice, code: string, expiresAt: int): Db {
    CodeInserted(Named(Granted(db, i.clientId, grant), i.clientId, choice), Sha256(code), CodeRowOf(i, expiresAt))
  }

  /** A run and the writes of its Allow `n`, with nothing in between, as events of the interleaved system. */
  function AllowRun(run: seq<C.Event>, n: nat, choice: LabelChoice, code: string): seq<C.Event> {
    if choice.Store? then run + [C.SetGrant(n)] + [C.SetLabel(n)] + [C.InsertCode(n, code)]
    else run + [C.SetGrant(n)] + [C.InsertCode(n, code)]
  }

  lemma {:induction false} OneEventMore(f: C.Settings, s: C.State, run: seq<C.Event>, e: C.Event)
    requires C.Possible(f, s, run) && C.Enabled(f, C.After(f, s, run), e)
    ensures C.Possible(f, s, run + [e]) && C.After(f, s, run + [e]) == C.Next(f, C.After(f, s, run), e)
    decreases |run|
  {
    if run == [] {
      assert [] + [e] == [e] && [e][1..] == [];
    } else {
      assert (run + [e])[1..] == run[1..] + [e];
      OneEventMore(f, C.Next(f, s, run[0]), run[1..], e);
    }
  }

  lemma AllowStep(f: C.Settings, s: C.State, e: C.Event)
    requires e.Consent? && C.Enabled(f, s, e) && C.Allows(f, s, e)
    ensures C.Next(f, s, e) ==
            C.AfterAllow(s, C.Resolved(f, s, e.request).value, C.Verified(f, s, e.headers).value.expiresAt,
                         ChosenGrant(e.profile).value, C.Typed(f, s, e))
  {
  }

  lemma GrantStep(f: C.Settings, s: C.State, run: seq<C.Event>, j: nat)
    requires C.Possible(f, s, run)
    requires var t := C.After(f, s, run); j < |t.allows| && t.allows[j].Granting?
    ensures var next := run + [C.SetGrant(j)];
            C.Possible(f, s, next) && C.After(f, s, next) == C.AfterGrant(C.After(f, s, run), j)
  {
    OneEventMore(f, s, run, C.SetGrant(j));
  }

  lemma LabelStep(f: C.Settings, s: C.State, run: seq<C.Event>, j: nat)
    requires C.Possible(f, s, run)
    requires var t := C.After(f, s, run); j < |t.allows| && t.allows[j].Naming?
    ensures var next := run + [C.SetLabel(j)];
            C.Possible(f, s, next) && C.After(f, s, next) == C.AfterLabel(C.After(f, s, run), j)
  {
    OneEventMore(f, s, run, C.SetLabel(j));
  }

  lemma InsertStep(f: C.Settings, s: C.State, run: seq<C.Event>, j: nat, code: string)
    requires C.Possible(f, s, run)
    requires var t := C.After(f, s, run); j < |t.allows| && t.allows[j].Coding?
    ensures var next := run + [C.InsertCode(j, code)];
            C.Possible(f, s, next) && C.After(f, s, next) == C.AfterInsert(f, C.After(f, s, run), j, code)
  {
    OneEventMore(f, s, run, C.InsertCode(j, code));
  }

  /** What the writes leave, with no name to store and with one. */
  lemma PlainWrites(f: C.Settings, t: C.State, n: nat, code: string)
    requires n < |t.allows| && t.allows[n].Granting? && !t.allows[n].choice.Store?
    ensures var a, u := t.allows[n], C.AfterGrant(t, n);
            && u.allows[n].Coding? && n < |u.allows|
            && C.AfterInsert(f, u, n, code).grants.db ==
               WrittenDb(t.grants.db, a.intent, a.grant, a.choice, code, t.grants.now + f.cfg.codeTtl)
  {
  }

  lemma NamedWrites(f: C.Settings, t: C.State, n: nat, code: string)
    requires n < |t.allows| && t.allows[n].Granting? && t.allows[n].choice.Store?
    ensures var a, u := t.allows[n], C.AfterGrant(t, n);
            && n < |u.allows| && u.allows[n].Naming?
            && var v := C.AfterLabel(u, n);
            && n < |v.allows| && v.allows[n].Coding?
            && C.AfterInsert(f, v, n, code).grants.db ==
               WrittenDb(t.grants.db, a.intent, a.grant, a.choice, code, t.grants.now + f.cfg.codeTtl)
  {
  }

  /** The writes, once the Allow is in. */
  lemma PlainWritesFollow(f: C.Settings, s: C.State, run: seq<C.Event>, n: nat, code: string)
    returns (all: seq<C.Event>)
    requires C.Possible(f, s, run) && n < |C.After(f, s, run).allows|
    requires C.After(f, s, run).allows[n].Granting? && !C.After(f, s, run).allows[n].choice.Store?
    ensures all == run + [C.SetGrant(n)] + [C.InsertCode(n, code)] && C.Possible(f, s, all)
    ensures var t := C.After(f, s, run);
            var a := t.allows[n];
            C.After(f, s, all).grants.db ==
            WrittenDb(t.grants.db, a.intent, a.grant, a.choice, code, t.grants.now + f.cfg.codeTtl)
  {
    PlainWrites(f, C.After(f, s, run), n, code);
    GrantStep(f, s, run, n);
    all := run + [C.SetGrant(n)];
    InsertStep(f, s, all, n, code);
    all := all + [C.InsertCode(n, code)];
  }

  lemma NamedWritesFollow(f: C.Settings, s: C.State, run: seq<C.Event>, n: nat, code: string)
    returns (all: seq<C.Event>)
    requires C.Possible(f, s, run) && n < |C.After(f, s, run).allows|
    requires C.After(f, s, run).allows[n].Granting? && C.After(f, s, run).allows[n].choice.Store?
    ensures all == run + [C.SetGrant(n)] + [C.SetLabel(n)] + [C.InsertCode(n, code)] && C.Possible(f, s, all)
    ensures var t := C.After(f, s, run);
            var a := t.allows[n];
            C.After(f, s, all).grants.db ==
            WrittenDb(t.grants.db, a.intent, a.grant, a.choice, code, t.grants.now + f.cfg.codeTtl)
  {
    NamedWrites(f, C.After(f, s, run), n, code);
    GrantStep(f, s, run, n);
    all := run + [C.SetGrant(n)];
    LabelStep(f, s, all, n);
    all := all + [C.SetLabel(n)];
    InsertStep(f, s, all, n, code);
    all := all + [C.InsertCode(n, code)];
  }

  /** The run after the Allow alone. */
  lemma AllowIsIn(f: C.Settings, s: C.State, e: C.Event) returns (i: Intent, expiresAt: int, grant: ClientGrant)
    requires e.Consent? && C.Enabled(f, s, e) && C.Allows(f, s, e)
    ensures C.Resolved(f, s, e.request) == Ok(i) && ChosenGrant(e.profile) == Some(grant)
    ensures C.Possible(f, s, [e])
    ensures C.After(f, s, [e]) == C.AfterAllow(s, i, expiresAt, grant, C.Typed(f, s, e))
  {
    assert [] + [e] == [e];
    OneEventMore(f, s, [], e);
    AllowStep(f, s, e);
    i, expiresAt := C.Resolved(f, s, e.request).value, C.Verified(f, s, e.headers).value.expiresAt;
    grant := ChosenGrant(e.profile).value;
  }

  lemma WritesFollow(f: C.Settings, s: C.State, run: seq<C.Event>, n: nat, t: C.State, a: C.Allow, code: string)
    returns (all: seq<C.Event>)
    requires C.Possible(f, s, run) && C.After(f, s, run) == t && n < |t.allows| && t.allows[n] == a && a.Granting?
    ensures all == AllowRun(run, n, a.choice, code) && C.Possible(f, s, all)
    ensures C.After(f, s, all).grants.db ==
            WrittenDb(t.grants.db, a.intent, a.grant, a.choice, code, t.grants.now + f.cfg.codeTtl)
  {
    if a.choice.Store? {
      all := NamedWritesFollow(f, s, run, n, code);
    } else {
      all := PlainWritesFollow(f, s, run, n, code);
    }
  }

  lemma WritesFollowTheAllow(f: C.Settings, s: C.State, run: seq<C.Event>, i: Intent, expiresAt: int,
                             grant: ClientGrant, choice: LabelChoice, code: string) returns (all: seq<C.Event>)
    requires C.Possible(f, s, run) && C.After(f, s, run) == C.AfterAllow(s, i, expiresAt, grant, choice)
    ensures all == AllowRun(run, |s.allows|, choice, code) && C.Possible(f, s, all)
    ensures C.After(f, s, all).grants.db ==
            WrittenDb(s.grants.db, i, grant, choice, code, s.grants.now + f.cfg.codeTtl)
  {
    var t := C.AfterAllow(s, i, expiresAt, grant, choice);
    all := WritesFollow(f, s, run, |s.allows|, t, t.allows[|s.allows|], code);
  }

  /** An Allow that goes through is a run of the interleaved system, and the handler's store is where that run ends. */
  lemma AllowIsARun(f: C.Settings, s: C.State, e: C.Event, code: string) returns (run: seq<C.Event>)
    requires e.Consent? && C.Enabled(f, s, e) && C.Allows(f, s, e)
    ensures run == AllowRun([e], |s.allows|, C.Typed(f, s, e), code) && C.Possible(f, s, run)
    ensures C.After(f, s, run).grants.db ==
            WrittenDb(s.grants.db, C.Resolved(f, s, e.request).value, ChosenGrant(e.profile).value, C.Typed(f, s, e),
                      code, s.grants.now + f.cfg.codeTtl)
  {
    var i, expiresAt, grant := AllowIsIn(f, s, e);
    run := WritesFollowTheAllow(f, s, [e], i, expiresAt, grant, C.Typed(f, s, e), code);
  }

  /** The checks in the order they are made: the answer of the first that fails, or what is to be written. */
  function Checked(f: C.Settings, db: Db, now: int, headers: seq<Option<string>>, request: Request, csrf: string,
                   allow: bool, profile: Option<string>, typed: Option<string>):
    Result<(Intent, ClientGrant, LabelChoice), ConsentReply>
  {
    var session, intent := f.sessions.Verify(headers, now), Resolve(f.cfg, f.parses, db, request);
    if session.None? then Err(SignInExpired)
    else if intent.Err? then Err(CannotStart(intent.error))
    else
      var i := intent.value;
      if !f.sessions.CsrfOk(session.value, i.clientId, i.redirectUri, i.challenge, C.StateOf(i.state), csrf)
      then Err(NotRecognised)
      else if !allow then Err(Denied)
      else if ChosenGrant(profile).None? then Err(NoChoice)
      else
        var choice := ChosenLabel(f.labelFor, db, i.clientId, typed);
        if choice.Unusable? then Err(NameNotSaved) else Ok((i, ChosenGrant(profile).value, choice))
  }

  /** The post goes through exactly when the interleaved system allows it, and then writes what that system writes. */
  lemma StoppedUnlessAllowed(f: C.Settings, s: C.State, e: C.Event)
    requires e.Consent?
    ensures var passed := Checked(f, s.grants.db, s.grants.now, e.headers, e.request, e.csrf, e.allow, e.profile,
                                  e.typed);
            && (passed.Ok? <==> C.Allows(f, s, e))
            && (passed.Ok? ==>
                  passed.value == (C.Resolved(f, s, e.request).value, ChosenGrant(e.profile).value, C.Typed(f, s, e)))
  {
  }

  /** The answer and the store, given what the checks said. An Allow leaves what its writes leave, and the code goes out
      only if it was stored. */
  function Outcome(db: Db, checked: Result<(Intent, ClientGrant, LabelChoice), ConsentReply>, code: string,
                   expiresAt: int): (ConsentReply, Db)
  {
    match checked
    case Err(why) => (why, db)
    case Ok(w) =>
      (if Sha256(code) in db.codes then ServerFault else Sent(code), WrittenDb(db, w.0, w.1, w.2, code, expiresAt))
  }

  // ---- the same, told by the post and the tables ----

  /** The client takes the grant chosen, the approval, and the name if one was typed; the code row is the request's, for
      one code lifetime; and nothing else has changed. */
  ghost predicate AllowWritten(f: C.Settings, db: Db, after: Db, request: Request, grant: ClientGrant,
                               typed: Option<string>, code: string, now: int)
    requires request.clientId in db.clients
  {
    var had := db.clients[request.clientId];
    && after.tokens == db.tokens && after.refreshes == db.refreshes
    && (exists name ::
          && (typed == None ==> name == had.ownerLabel)
          && (typed.Some? ==> f.labelFor(typed.value, had.name) == Some(name))
          && after.clients == db.clients[request.clientId :=
               ClientRecord(had.name, had.secretHash, had.redirectUris, had.grantTypes, true, grant, name,
                            had.revoked)])
    && (exists scope ::
          && ScopeAsked(request.scope, scope)
          && after.codes == db.codes[Sha256(code) :=
               CodeRow(request.clientId, request.redirectUri, request.challenge, scope, request.resource,
                       now + f.cfg.codeTtl, false)])
  }

  lemma WrittenIsAllowWritten(f: C.Settings, db: Db, request: Request, i: Intent, grant: ClientGrant,
                              choice: LabelChoice, typed: Option<string>, code: string, now: int)
    requires Resolve(f.cfg, f.parses, db, request) == Ok(i) && request.clientId in db.clients
    requires choice == ChosenLabel(f.labelFor, db, i.clientId, typed) && !choice.Unusable?
    requires Sha256(code) !in db.codes
    ensures AllowWritten(f, db, WrittenDb(db, i, grant, choice, code, now + f.cfg.codeTtl), request, grant, typed, code,
                         now)
  {
    ResolvedIsSound(f.cfg, f.parses, db, request);
    var had, after := db.clients[i.clientId], WrittenDb(db, i, grant, choice, code, now + f.cfg.codeTtl);
    var name := if choice.Store? then choice.name else had.ownerLabel;
    assert after.clients == db.clients[i.clientId := had.(consented := true, grant := grant, ownerLabel := name)];
    assert after.codes == db.codes[Sha256(code) := CodeRowOf(i, now + f.cfg.codeTtl)];
  }

  /** A post goes through exactly when the session verifies, the request resolves, the token is that session's for that
      request, Allow was pressed with a choice, and the name can be had; the first of these that fails is the answer,
      and nothing is written. */
  lemma PostOutcome(f: C.Settings, db: Db, now: int, headers: seq<Option<string>>, request: Request, csrf: string,
                    allow: bool, profile: Option<string>, typed: Option<string>, code: string)
    ensures var (reply, after) := Outcome(db, Checked(f, db, now, headers, request, csrf, allow, profile, typed), code,
                                          now + f.cfg.codeTtl);
            var session, intent := f.sessions.Verify(headers, now), Resolve(f.cfg, f.parses, db, request);
            var begun := session.Some? && intent.Ok?;
            var own := begun && csrf == f.sessions.Csrf(session.value, request.clientId, request.redirectUri,
                                                        request.challenge,
                                                        if request.state.Some? then request.state.value else "");
            var chosen := own && allow && ChosenGrant(profile).Some?;
            var named := chosen && request.clientId in db.clients
                         && (typed.Some? ==> f.labelFor(typed.value, db.clients[request.clientId].name).Some?);
            && (reply == SignInExpired <==> session == None)
            && (reply.CannotStart? <==> session.Some? && intent.Err?)
            && (reply == NotRecognised <==> begun && !own)
            && (reply == Denied <==> own && !allow)
            && (reply == NoChoice <==> own && allow && !chosen)
            && (reply == NameNotSaved <==> chosen && !named)
            && (reply == Sent(code) <==> named && Sha256(code) !in db.codes)
            && (reply == ServerFault <==> named && Sha256(code) in db.codes)
            && (reply != Sent(code) && reply != ServerFault ==> after == db)
            && (reply == Sent(code) ==>
                  AllowWritten(f, db, after, request, ChosenGrant(profile).value, typed, code, now))
  {
    var intent := Resolve(f.cfg, f.parses, db, request);
    if intent.Ok? {
      ResolvedIsSound(f.cfg, f.parses, db, request);
      LabelIsTheRules(f.labelFor, db, request.clientId, typed);
      var checked := Checked(f, db, now, headers, request, csrf, allow, profile, typed);
      if checked.Ok? && Sha256(code) !in db.codes {
        WrittenIsAllowWritten(f, db, request, intent.value, checked.value.1, checked.value.2, typed, code, now);
      }
    }
  }

  lemma ResolvedIsKnown(f: C.Settings, db: Db, request: Request)
    requires Resolve(f.cfg, f.parses, db, request).Ok?
    ensures Resolve(f.cfg, f.parses, db, request).value.clientId in db.clients
  {
    ResolvedIsSound(f.cfg, f.parses, db, request);
  }

  /** The whole post: what stops it changes nothing, and an Allow leaves what its writes leave. */
  method Consent(f: C.Settings, store: PgStore, headers: seq<Option<string>>, request: Request, csrf: string,
                 allow: bool, profile: Option<string>, typed: Option<string>, code: string, now: int)
    returns (reply: ConsentReply)
    modifies store
    ensures var db := old(store.View());
            (reply, store.View()) ==
            Outcome(db, Checked(f, db, now, headers, request, csrf, allow, profile, typed), code, now + f.cfg.codeTtl)
  {
    var session := f.sessions.Verify(headers, now);
    if session.None? {
      return SignInExpired;
    }
    var intent := Resolve(f.cfg, f.parses, store.View(), request);
    if intent.Err? {
      return CannotStart(intent.error);
    }
    var i := intent.value;
    ResolvedIsKnown(f, store.View(), request);
    if !f.sessions.CsrfOk(session.value, i.clientId, i.redirectUri, i.challenge,
                          if i.state.Some? then i.state.value else "", csrf) {
      return NotRecognised;
    }
    if !allow {
      return Denied;
    }
    var grant := ChosenGrant(profile);
    if grant.None? {
      return NoChoice;
    }
    var choice := ChosenLabel(f.labelFor, store.View(), i.clientId, typed);
    if choice.Unusable? {
      return NameNotSaved;
    }
    store.SetClientGrant(i.clientId, grant.value);
    if choice.Store? {
      var _ := store.SetClientLabel(i.clientId, choice.name);
    }
    var stored := store.InsertCode(Sha256(code), CodeRowOf(i, now + f.cfg.codeTtl));
    reply := if stored then Sent(code) else ServerFault;
  }
}
