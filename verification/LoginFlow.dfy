/** Every interleaving of the two login handlers over their limiters and the one pool of password checks
    (src/authserver/routes.rs `login`, src/console/mod.rs `login`). */
module LoginFlow {
  import opened Text
  import Decimal
  import opened Limiter

  datatype Surface = Consent | Console

  datatype Outcome = Right | Wrong | Failed

  /** Where a let-through attempt stands. The slot is held up to `Checked`, the permit while a check runs. */
  datatype Phase =
    | Waiting            // slot held, no permit yet
    | Checking           // slot and permit held
    | Checked(o: Outcome) // permit back, slot still held
    | Orphaned           // the request went away while its check ran: slot dropped, permit held
    | Refunded           // slot released
    | Kept               // slot dropped, so the charge stays

  datatype Attempt = Attempt(surface: Surface, slot: Reservation, phase: Phase)

  datatype State = State(perMinute: nat, consent: Windows, console: Windows,
                         attempts: seq<Attempt>, free: nat, clock: Instant)
  {
    function On(surface: Surface): Windows {
      if surface == Consent then consent else console
    }

    function With(surface: Surface, w: Windows): State {
      if surface == Consent then this.(consent := w) else this.(console := w)
    }
  }

  function Init(configured: nat, clock: Instant): State {
    State(if configured == 0 then 1 else configured, Windows(map[], map[]), Windows(map[], map[]), [],
          PASSWORD_WORK_PERMITS, clock)
  }

  datatype Event =
    | Arrive(surface: Surface, slot: Reservation)
    | NoPassword(i: nat)
    | Acquire(i: nat)
    | Finish(i: nat, outcome: Outcome)
    | Settle(i: nat)
    | Drop(i: nat)

  predicate Enabled(s: State, e: Event) {
    match e
    case Arrive(_, slot) => slot.at >= s.clock
    case NoPassword(i) => i < |s.attempts| && s.attempts[i].phase == Waiting
    case Acquire(i) => i < |s.attempts| && s.attempts[i].phase == Waiting
    case Finish(i, _) => i < |s.attempts| && s.attempts[i].phase in {Checking, Orphaned}
    case Settle(i) => i < |s.attempts| && s.attempts[i].phase.Checked?
    case Drop(i) => i < |s.attempts| && (s.attempts[i].phase in {Waiting, Checking} || s.attempts[i].phase.Checked?)
  }

  function Moved(s: State, i: nat, phase: Phase): State
    requires i < |s.attempts|
  {
    s.(attempts := s.attempts[i := s.attempts[i].(phase := phase)])
  }

  function Refund(s: State, i: nat): State
    requires i < |s.attempts|
  {
    var a := s.attempts[i];
    Moved(s.With(a.surface, Released(s.On(a.surface), a.slot)), i, Refunded)
  }

  function Next(s: State, e: Event): State
    requires Enabled(s, e)
  {
    match e
    case Arrive(surface, slot) =>
      var w := s.On(surface);
      var after := s.With(surface, Reserved(w, s.perMinute, slot)).(clock := slot.at);
      if LetThrough(w, s.perMinute, slot)
      then after.(attempts := s.attempts + [Attempt(surface, slot, Waiting)]) else after
    case NoPassword(i) => Refund(s, i)
    case Acquire(i) => if s.free > 0 then Moved(s, i, Checking).(free := s.free - 1) else Refund(s, i)
    case Finish(i, o) =>
      Moved(s, i, if s.attempts[i].phase == Checking then Checked(o) else Kept).(free := s.free + 1)
    case Settle(i) => if s.attempts[i].phase.o == Right then Refund(s, i) else Moved(s, i, Kept)
    case Drop(i) => Moved(s, i, if s.attempts[i].phase == Checking then Orphaned else Kept)
  }

  ghost predicate Possible(s: State, run: seq<Event>)
    decreases |run|
  {
    run == [] || (Enabled(s, run[0]) && Possible(Next(s, run[0]), run[1..]))
  }

  ghost function After(s: State, run: seq<Event>): State
    requires Possible(s, run)
    decreases |run|
  {
    if run == [] then s else After(Next(s, run[0]), run[1..])
  }

  /** Whatever clears the run sees of this surface's map of this axis come no later than `cut`. */
  ghost predicate ClearedBy(s: State, run: seq<Event>, surface: Surface, axis: Axis, cut: Instant)
    requires Possible(s, run)
    decreases |run|
  {
    run == [] ||
    (&& (run[0].Arrive? && run[0].surface == surface && ClearsOn(s.On(surface), axis, run[0].slot) ==>
           run[0].slot.at <= cut)
     && ClearedBy(Next(s, run[0]), run[1..], surface, axis, cut))
  }

  // ---- the pool ----

  predicate HoldsPermit(a: Attempt) {
    a.phase.Checking? || a.phase.Orphaned?
  }

  function Running(attempts: seq<Attempt>): nat {
    if attempts == [] then 0
    else Running(attempts[..|attempts| - 1]) + (if HoldsPermit(attempts[|attempts| - 1]) then 1 else 0)
  }

  lemma {:induction false} RunningAfterMove(attempts: seq<Attempt>, i: nat, a: Attempt)
    requires i < |attempts|
    ensures Running(attempts[i := a]) ==
            Running(attempts) - (if HoldsPermit(attempts[i]) then 1 else 0) + (if HoldsPermit(a) then 1 else 0)
  {
    var front := attempts[..|attempts| - 1];
    if i == |attempts| - 1 {
      assert attempts[i := a][..|attempts| - 1] == front;
    } else {
      assert attempts[i := a][..|attempts| - 1] == front[i := a];
      RunningAfterMove(front, i, a);
    }
  }

  ghost predicate PoolIntact(s: State) {
    s.free + Running(s.attempts) == PASSWORD_WORK_PERMITS
  }

  function Permits(phase: Phase): int {
    if phase.Checking? || phase.Orphaned? then 1 else 0
  }

  /** A move that takes or gives back a permit with the phase that holds it. */
  lemma MoveKeepsPool(s: State, i: nat, phase: Phase, free: nat)
    requires PoolIntact(s) && i < |s.attempts|
    requires free + Permits(phase) == s.free + Permits(s.attempts[i].phase)
    ensures PoolIntact(Moved(s, i, phase).(free := free))
  {
    RunningAfterMove(s.attempts, i, s.attempts[i].(phase := phase));
  }

  lemma ArrivalKeepsPool(s: State, surface: Surface, slot: Reservation)
    requires PoolIntact(s) && slot.at >= s.clock
    ensures PoolIntact(Next(s, Arrive(surface, slot)))
  {
    var grown := s.attempts + [Attempt(surface, slot, Waiting)];
    assert grown[..|grown| - 1] == s.attempts;
  }

  lemma RefundKeepsPool(s: State, i: nat)
    requires PoolIntact(s) && i < |s.attempts| && Permits(s.attempts[i].phase) == 0
    ensures PoolIntact(Refund(s, i))
  {
    RunningAfterMove(s.attempts, i, s.attempts[i].(phase := Refunded));
  }

  lemma PoolStaysIntact(s: State, e: Event)
    requires PoolIntact(s) && Enabled(s, e)
    ensures PoolIntact(Next(s, e))
  {
    match e
    case Arrive(surface, slot) => ArrivalKeepsPool(s, surface, slot);
    case NoPassword(i) => RefundKeepsPool(s, i);
    case Acquire(i) => if s.free > 0 { MoveKeepsPool(s, i, Checking, s.free - 1); } else { RefundKeepsPool(s, i); }
    case Finish(i, o) =>
      MoveKeepsPool(s, i, if s.attempts[i].phase == Checking then Checked(o) else Kept, s.free + 1);
    case Settle(i) =>
      if s.attempts[i].phase.o == Right { RefundKeepsPool(s, i); } else { MoveKeepsPool(s, i, Kept, s.free); }
    case Drop(i) =>
      MoveKeepsPool(s, i, if s.attempts[i].phase == Checking then Orphaned else Kept, s.free);
  }

  /** In no run do more than eight password checks run at once, both surfaces and every caller counted. */
  lemma {:induction false} AtMostEightChecks(s: State, run: seq<Event>)
    requires PoolIntact(s) && Possible(s, run)
    ensures PoolIntact(After(s, run)) && Running(After(s, run).attempts) <= 8
    decreases |run|
  {
    if run != [] {
      PoolStaysIntact(s, run[0]);
      AtMostEightChecks(Next(s, run[0]), run[1..]);
    }
  }

  // ---- the windows, against the attempts that are still charged ----

  predicate Charges(a: Attempt, surface: Surface, axis: Axis, name: string) {
    a.phase != Refunded && a.surface == surface && a.slot.Name(axis) == name
  }

  /** How many unreleased attempts of that name began at that instant. */
  function ChargesAt(attempts: seq<Attempt>, surface: Surface, axis: Axis, name: string, at: Instant): nat {
    if attempts == [] then 0
    else
      var last := attempts[|attempts| - 1];
      ChargesAt(attempts[..|attempts| - 1], surface, axis, name, at)
      + (if Charges(last, surface, axis, name) && last.slot.at == at then 1 else 0)
  }

  lemma {:induction false} ChargesAfterMove(attempts: seq<Attempt>, i: nat, phase: Phase, surface: Surface, axis: Axis,
                                            name: string, at: Instant)
    requires i < |attempts| && attempts[i].phase != Refunded
    ensures var a := attempts[i];
            var mine := if a.surface == surface && a.slot.Name(axis) == name && a.slot.at == at then 1 else 0;
            var left := ChargesAt(attempts[i := a.(phase := phase)], surface, axis, name, at);
            && left == ChargesAt(attempts, surface, axis, name, at) - (if phase == Refunded then mine else 0)
            && ChargesAt(attempts, surface, axis, name, at) >= mine
  {
    var a, front := attempts[i], attempts[..|attempts| - 1];
    var moved := attempts[i := a.(phase := phase)];
    if i == |attempts| - 1 {
      assert moved[..|attempts| - 1] == front;
    } else {
      assert moved[..|attempts| - 1] == front[i := a.(phase := phase)];
      ChargesAfterMove(front, i, phase, surface, axis, name, at);
    }
  }

  /** The stored window holds unreleased charges of that name and nothing else; of those begun after `cut`, it lacks
      only ones at least a minute old. */
  ghost predicate ExactAt(s: State, surface: Surface, axis: Axis, name: string, at: Instant, cut: Instant) {
    var stored := multiset(s.On(surface).Of(axis, name))[at];
    var charged := ChargesAt(s.attempts, surface, axis, name, at);
    stored <= charged && (Young(at, s.clock) && at > cut ==> stored == charged)
  }

  ghost predicate Exact(s: State, surface: Surface, axis: Axis, cut: Instant) {
    forall name: string, at: Instant :: ExactAt(s, surface, axis, name, at, cut)
  }

  /** Nothing in flight began after the clock's last reading. */
  ghost predicate Timely(s: State) {
    forall a | a in s.attempts :: a.slot.at <= s.clock
  }

  ghost predicate Sound(s: State, surface: Surface, axis: Axis, cut: Instant) {
    && Bounded(s.consent, s.perMinute) && Bounded(s.console, s.perMinute)
    && Timely(s)
    && Exact(s, surface, axis, cut)
  }

  lemma InitSound(configured: nat, clock: Instant, surface: Surface, axis: Axis, cut: Instant)
    requires configured < U32
    ensures Sound(Init(configured, clock), surface, axis, cut) && PoolIntact(Init(configured, clock))
  {
  }

  lemma MoveKeepsSound(s: State, i: nat, phase: Phase, free: nat, surface: Surface, axis: Axis, cut: Instant)
    requires Sound(s, surface, axis, cut) && i < |s.attempts| && s.attempts[i].phase != Refunded && phase != Refunded
    ensures Sound(Moved(s, i, phase).(free := free), surface, axis, cut)
  {
    var t := Moved(s, i, phase).(free := free);
    forall name: string, at: Instant ensures ExactAt(t, surface, axis, name, at, cut) {
      assert ExactAt(s, surface, axis, name, at, cut);
      ChargesAfterMove(s.attempts, i, phase, surface, axis, name, at);
    }
  }

  lemma RefundedWindow(s: State, i: nat, surface: Surface)
    requires i < |s.attempts|
    ensures var a := s.attempts[i];
            Refund(s, i).On(surface) ==
            if surface == a.surface then Released(s.On(surface), a.slot) else s.On(surface)
  {
  }

  lemma RefundKeepsExactAt(s: State, i: nat, surface: Surface, axis: Axis, name: string, at: Instant, cut: Instant)
    requires i < |s.attempts| && s.attempts[i].phase != Refunded && ExactAt(s, surface, axis, name, at, cut)
    ensures ExactAt(Refund(s, i), surface, axis, name, at, cut)
  {
    var a := s.attempts[i];
    ChargesAfterMove(s.attempts, i, Refunded, surface, axis, name, at);
    RefundedWindow(s, i, surface);
    if surface == a.surface {
      ReleasedCounts(s.On(surface), a.slot, axis, name);
    }
  }

  lemma RefundKeepsSound(s: State, i: nat, surface: Surface, axis: Axis, cut: Instant)
    requires Sound(s, surface, axis, cut) && i < |s.attempts| && s.attempts[i].phase != Refunded
    ensures Sound(Refund(s, i), surface, axis, cut)
  {
    var a := s.attempts[i];
    ReleasedStaysBounded(s.On(a.surface), s.perMinute, a.slot);
    forall name: string, at: Instant ensures ExactAt(Refund(s, i), surface, axis, name, at, cut) {
      assert ExactAt(s, surface, axis, name, at, cut);
      RefundKeepsExactAt(s, i, surface, axis, name, at, cut);
    }
  }

  lemma {:induction false} ChargesAfterArrival(attempts: seq<Attempt>, a: Attempt, surface: Surface, axis: Axis,
                                            name: string, at: Instant)
    ensures ChargesAt(attempts + [a], surface, axis, name, at) ==
            ChargesAt(attempts, surface, axis, name, at) +
            (if Charges(a, surface, axis, name) && a.slot.at == at then 1 else 0)
  {
    var grown := attempts + [a];
    assert grown[..|grown| - 1] == attempts;
  }

  lemma {:induction false} NothingFromTheFuture(attempts: seq<Attempt>, clock: Instant, surface: Surface, axis: Axis,
                                                name: string, at: Instant)
    requires at > clock && forall a | a in attempts :: a.slot.at <= clock
    ensures ChargesAt(attempts, surface, axis, name, at) == 0
  {
    if attempts != [] {
      NothingFromTheFuture(attempts[..|attempts| - 1], clock, surface, axis, name, at);
    }
  }

  /** The other surface's arrivals touch nothing here. */
  lemma ElsewhereKeepsExactAt(s: State, surface: Surface, slot: Reservation, other: Surface, axis: Axis, name: string,
                              at: Instant, cut: Instant)
    requires slot.at >= s.clock && other != surface && ExactAt(s, other, axis, name, at, cut)
    ensures ExactAt(Next(s, Arrive(surface, slot)), other, axis, name, at, cut)
  {
    ChargesAfterArrival(s.attempts, Attempt(surface, slot, Waiting), other, axis, name, at);
    assert Young(at, slot.at) ==> Young(at, s.clock);
    assert Next(s, Arrive(surface, slot)).On(other) == s.On(other);
  }

  /** An arrival here, clearing the map or not: what a clear forgets began no later than the clear. */
  lemma HereKeepsExactAt(s: State, surface: Surface, slot: Reservation, axis: Axis, name: string,
                         at: Instant, cut: Instant)
    requires slot.at >= s.clock && Timely(s) && ExactAt(s, surface, axis, name, at, cut)
    requires ClearsOn(s.On(surface), axis, slot) ==> slot.at <= cut
    ensures ExactAt(Next(s, Arrive(surface, slot)), surface, axis, name, at, cut)
  {
    var after := Next(s, Arrive(surface, slot));
    ChargesAfterArrival(s.attempts, Attempt(surface, slot, Waiting), surface, axis, name, at);
    assert Young(at, slot.at) ==> Young(at, s.clock);
    ReservedCounts(s.On(surface), s.perMinute, slot, axis, name, at);
    assert after.On(surface) == Reserved(s.On(surface), s.perMinute, slot);
    if ClearsOn(s.On(surface), axis, slot) && at > cut {
      NothingFromTheFuture(s.attempts, slot.at, surface, axis, name, at);
    }
  }

  lemma ArriveKeepsSound(s: State, from: Surface, slot: Reservation, surface: Surface, axis: Axis, cut: Instant)
    requires Sound(s, surface, axis, cut) && slot.at >= s.clock
    requires from == surface && ClearsOn(s.On(surface), axis, slot) ==> slot.at <= cut
    ensures Sound(Next(s, Arrive(from, slot)), surface, axis, cut)
  {
    ReservedStaysBounded(s.On(from), s.perMinute, slot);
    forall name: string, at: Instant ensures ExactAt(Next(s, Arrive(from, slot)), surface, axis, name, at, cut) {
      assert ExactAt(s, surface, axis, name, at, cut);
      if from == surface {
        HereKeepsExactAt(s, surface, slot, axis, name, at, cut);
      } else {
        ElsewhereKeepsExactAt(s, from, slot, surface, axis, name, at, cut);
      }
    }
  }

  lemma LaterStepKeepsSound(s: State, e: Event, surface: Surface, axis: Axis, cut: Instant)
    requires Sound(s, surface, axis, cut) && Enabled(s, e) && !e.Arrive?
    ensures Sound(Next(s, e), surface, axis, cut)
  {
    match e
    case NoPassword(i) => RefundKeepsSound(s, i, surface, axis, cut);
    case Acquire(i) =>
      if s.free > 0 {
        MoveKeepsSound(s, i, Checking, s.free - 1, surface, axis, cut);
      } else {
        RefundKeepsSound(s, i, surface, axis, cut);
      }
    case Finish(i, o) =>
      MoveKeepsSound(s, i, if s.attempts[i].phase == Checking then Checked(o) else Kept, s.free + 1,
                     surface, axis, cut);
    case Settle(i) =>
      if s.attempts[i].phase.o == Right {
        RefundKeepsSound(s, i, surface, axis, cut);
      } else {
        MoveKeepsSound(s, i, Kept, s.free, surface, axis, cut);
      }
    case Drop(i) =>
      MoveKeepsSound(s, i, if s.attempts[i].phase == Checking then Orphaned else Kept, s.free, surface, axis, cut);
  }

  lemma StepKeepsSound(s: State, e: Event, surface: Surface, axis: Axis, cut: Instant)
    requires Sound(s, surface, axis, cut) && Enabled(s, e)
    requires e.Arrive? && e.surface == surface && ClearsOn(s.On(surface), axis, e.slot) ==> e.slot.at <= cut
    ensures Sound(Next(s, e), surface, axis, cut)
  {
    if e.Arrive? {
      ArriveKeepsSound(s, e.surface, e.slot, surface, axis, cut);
    } else {
      LaterStepKeepsSound(s, e, surface, axis, cut);
    }
  }

  /** Along every run, clears and all, a surface's windows of one axis stay exact for what began after that axis's
      clears. */
  lemma {:induction false} RunKeepsSound(s: State, run: seq<Event>, surface: Surface, axis: Axis, cut: Instant)
    requires Sound(s, surface, axis, cut) && Possible(s, run) && ClearedBy(s, run, surface, axis, cut)
    ensures Sound(After(s, run), surface, axis, cut) && After(s, run).perMinute == s.perMinute
    decreases |run|
  {
    if run != [] {
      StepKeepsSound(s, run[0], surface, axis, cut);
      RunKeepsSound(Next(s, run[0]), run[1..], surface, axis, cut);
    }
  }

  // ---- the budget ----

  /** Attempts of that name begun after `since` that were not refunded: still running, ended wrong, or failed. */
  function Busy(attempts: seq<Attempt>, surface: Surface, axis: Axis, name: string, since: Instant): nat {
    if attempts == [] then 0
    else
      var last := attempts[|attempts| - 1];
      Busy(attempts[..|attempts| - 1], surface, axis, name, since)
      + (if Charges(last, surface, axis, name) && last.slot.at > since then 1 else 0)
  }

  /** The instants of those attempts. */
  ghost function BusyInstants(attempts: seq<Attempt>, surface: Surface, axis: Axis, name: string, since: Instant):
    multiset<Instant>
  {
    if attempts == [] then multiset{}
    else
      var last := attempts[|attempts| - 1];
      BusyInstants(attempts[..|attempts| - 1], surface, axis, name, since)
      + (if Charges(last, surface, axis, name) && last.slot.at > since then multiset{last.slot.at} else multiset{})
  }

  lemma {:induction false} BusySize(attempts: seq<Attempt>, surface: Surface, axis: Axis, name: string, since: Instant)
    ensures |BusyInstants(attempts, surface, axis, name, since)| == Busy(attempts, surface, axis, name, since)
  {
    if attempts != [] {
      BusySize(attempts[..|attempts| - 1], surface, axis, name, since);
    }
  }

  lemma {:induction false} BusyAt(attempts: seq<Attempt>, surface: Surface, axis: Axis, name: string, since: Instant,
                                  at: Instant)
    ensures BusyInstants(attempts, surface, axis, name, since)[at] ==
            if at > since then ChargesAt(attempts, surface, axis, name, at) else 0
  {
    if attempts != [] {
      BusyAt(attempts[..|attempts| - 1], surface, axis, name, since, at);
    }
  }

  lemma BusyCounts(attempts: seq<Attempt>, surface: Surface, axis: Axis, name: string, since: Instant)
    ensures |BusyInstants(attempts, surface, axis, name, since)| == Busy(attempts, surface, axis, name, since)
    ensures forall at :: BusyInstants(attempts, surface, axis, name, since)[at] ==
                         if at > since then ChargesAt(attempts, surface, axis, name, at) else 0
  {
    BusySize(attempts, surface, axis, name, since);
    forall at
      ensures BusyInstants(attempts, surface, axis, name, since)[at] ==
              if at > since then ChargesAt(attempts, surface, axis, name, at) else 0
    {
      BusyAt(attempts, surface, axis, name, since, at);
    }
  }

  /** The last minute, as of `now`. */
  function MinuteBefore(now: Instant): Instant {
    now - WINDOW
  }

  lemma SmallerMultiset<T>(small: multiset<T>, large: multiset<T>)
    requires forall x :: small[x] <= large[x]
    ensures |small| <= |large|
  {
    assert large == small + (large - small);
  }

  /** The window holds every attempt busy since the clears and still young. */
  lemma BusyIsStored(s: State, surface: Surface, axis: Axis, name: string, now: Instant, since: Instant, cut: Instant)
    requires Exact(s, surface, axis, cut) && now >= s.clock && since >= cut && since >= MinuteBefore(now)
    ensures Busy(s.attempts, surface, axis, name, since) <= |Pruned(s.On(surface).Of(axis, name), now)|
  {
    var window := s.On(surface).Of(axis, name);
    var pruned, busy := Pruned(window, now), BusyInstants(s.attempts, surface, axis, name, since);
    PrunedCounts(window, now);
    BusyCounts(s.attempts, surface, axis, name, since);
    forall at ensures busy[at] <= multiset(pruned)[at] {
      assert ExactAt(s, surface, axis, name, at, cut);
    }
    SmallerMultiset(busy, multiset(pruned));
    assert |multiset(pruned)| == |pruned|;
  }

  /** A minute after its clears, a window pruned at any reading holds exactly the attempts busy in the minute before. */
  lemma PrunedWindowIsBusy(s: State, surface: Surface, axis: Axis, name: string, now: Instant, cut: Instant)
    requires Exact(s, surface, axis, cut) && now >= s.clock && now >= cut + WINDOW
    ensures |Pruned(s.On(surface).Of(axis, name), now)| == Busy(s.attempts, surface, axis, name, MinuteBefore(now))
  {
    var window, since := s.On(surface).Of(axis, name), MinuteBefore(now);
    var pruned, busy := Pruned(window, now), BusyInstants(s.attempts, surface, axis, name, since);
    BusyIsStored(s, surface, axis, name, now, since, cut);
    PrunedCounts(window, now);
    BusyCounts(s.attempts, surface, axis, name, since);
    forall at ensures multiset(pruned)[at] <= busy[at] {
      assert ExactAt(s, surface, axis, name, at, cut);
    }
    SmallerMultiset(multiset(pruned), busy);
    assert |multiset(pruned)| == |pruned|;
  }

  /** In every run, on either axis by itself: of the attempts begun after that axis's clears and within the last minute,
      at most `per_minute` are busy per key, and four times that per peer. */
  lemma BudgetHolds(s: State, run: seq<Event>, surface: Surface, axis: Axis, name: string, since: Instant, cut: Instant)
    requires Sound(s, surface, axis, cut) && Possible(s, run) && ClearedBy(s, run, surface, axis, cut)
    requires since >= cut && since >= MinuteBefore(After(s, run).clock)
    ensures Busy(After(s, run).attempts, surface, axis, name, since) <= Limit(s.perMinute, axis)
  {
    RunKeepsSound(s, run, surface, axis, cut);
    var t := After(s, run);
    BusyIsStored(t, surface, axis, name, t.clock, since, cut);
    PrunedCounts(t.On(surface).Of(axis, name), t.clock);
  }

  /** From a fresh start, whatever clears there were: a minute after an axis's last clear its budget for the whole last
      minute holds, max(1, configured) a key and four times that a peer; the other axis's clears do not matter. */
  lemma BudgetHoldsFromTheStart(configured: nat, clock: Instant, run: seq<Event>, surface: Surface, axis: Axis,
                                name: string, cut: Instant)
    requires configured < U32
    requires Possible(Init(configured, clock), run) && ClearedBy(Init(configured, clock), run, surface, axis, cut)
    requires After(Init(configured, clock), run).clock >= cut + WINDOW
    ensures var t, budget := After(Init(configured, clock), run), if configured == 0 then 1 else configured;
            && Busy(t.attempts, surface, axis, name, MinuteBefore(t.clock)) <=
                 (if axis == Key then budget else 4 * budget)
            && Running(t.attempts) <= 8
  {
    var s := Init(configured, clock);
    InitSound(configured, clock, surface, axis, cut);
    BudgetHolds(s, run, surface, axis, name, MinuteBefore(After(s, run).clock), cut);
    AtMostEightChecks(s, run);
  }

  /** And nobody is turned away early: a minute after the clears of both maps an attempt is let through exactly when its
      key and its peer have budget left. Before that it is still never let through without. */
  lemma LetThroughExactlyWithBudget(s: State, surface: Surface, slot: Reservation, cutKey: Instant, cutPeer: Instant)
    requires Sound(s, surface, Key, cutKey) && Sound(s, surface, Peer, cutPeer) && slot.at >= s.clock
    ensures var let := LetThrough(s.On(surface), s.perMinute, slot);
            && (forall since | since >= cutKey && since >= MinuteBefore(slot.at) ::
                  let ==> Busy(s.attempts, surface, Key, slot.key, since) < s.perMinute)
            && (forall since | since >= cutPeer && since >= MinuteBefore(slot.at) ::
                  let ==> Busy(s.attempts, surface, Peer, slot.peer, since) < Limit(s.perMinute, Peer))
            && (slot.at >= cutKey + WINDOW && slot.at >= cutPeer + WINDOW ==>
                  (let <==>
                   && Busy(s.attempts, surface, Key, slot.key, MinuteBefore(slot.at)) < s.perMinute
                   && Busy(s.attempts, surface, Peer, slot.peer, MinuteBefore(slot.at)) < Limit(s.perMinute, Peer)))
  {
    LetThroughExactlyWithRoom(s.On(surface), s.perMinute, slot);
    forall since | since >= cutKey && since >= MinuteBefore(slot.at)
      ensures Busy(s.attempts, surface, Key, slot.key, since) <= |Pruned(s.On(surface).Of(Key, slot.key), slot.at)|
    {
      BusyIsStored(s, surface, Key, slot.key, slot.at, since, cutKey);
    }
    forall since | since >= cutPeer && since >= MinuteBefore(slot.at)
      ensures Busy(s.attempts, surface, Peer, slot.peer, since) <= |Pruned(s.On(surface).Of(Peer, slot.peer), slot.at)|
    {
      BusyIsStored(s, surface, Peer, slot.peer, slot.at, since, cutPeer);
    }
    if slot.at >= cutKey + WINDOW && slot.at >= cutPeer + WINDOW {
      PrunedWindowIsBusy(s, surface, Key, slot.key, slot.at, cutKey);
      PrunedWindowIsBusy(s, surface, Peer, slot.peer, slot.at, cutPeer);
    }
  }

  // ---- which attempts are charged for good ----

  /** The check is over or was abandoned, and the password was not right: whatever happens, the slot is not given
      back. */
  predicate ChargedForGood(phase: Phase) {
    phase in {Checked(Wrong), Checked(Failed), Orphaned, Kept}
  }

  lemma {:induction false} WrongAnswersStayCharged(s: State, run: seq<Event>, i: nat)
    requires Possible(s, run) && i < |s.attempts| && ChargedForGood(s.attempts[i].phase)
    ensures var t := After(s, run);
            && i < |t.attempts| && ChargedForGood(t.attempts[i].phase)
            && t.attempts[i].slot == s.attempts[i].slot && t.attempts[i].surface == s.attempts[i].surface
            && Charges(t.attempts[i], s.attempts[i].surface, Key, s.attempts[i].slot.key)
    decreases |run|
  {
    if run != [] {
      WrongAnswersStayCharged(Next(s, run[0]), run[1..], i);
    }
  }

  /** A slot is given back when no password is set, when every check is busy, and when the password was right. Every
      other step but an arrival leaves every window as it is. */
  lemma OnlyThreeStepsRefund(s: State, e: Event, surface: Surface)
    requires Enabled(s, e) && !e.Arrive?
    ensures var refunds := e.NoPassword? || (e.Acquire? && s.free == 0)
                           || (e.Settle? && s.attempts[e.i].phase == Checked(Right));
            Next(s, e).On(surface) ==
            if refunds && s.attempts[e.i].surface == surface
            then Released(s.On(surface), s.attempts[e.i].slot) else s.On(surface)
  {
    RefundedWindow(s, e.i, surface);
  }

  // ---- what a clear costs ----

  /** The limiter holds a charge for every attempt of this axis begun within a minute of `now` and not refunded. */
  ghost predicate Remembers(s: State, surface: Surface, axis: Axis, now: Instant) {
    forall name: string, at: Instant :: Young(at, now) ==> RemembersAt(s, surface, axis, name, at)
  }

  predicate RemembersAt(s: State, surface: Surface, axis: Axis, name: string, at: Instant) {
    multiset(s.On(surface).Of(axis, name))[at] == ChargesAt(s.attempts, surface, axis, name, at)
  }

  /** Some attempt of this axis begun within a minute of `now` is still charged. */
  ghost predicate HasYoung(s: State, surface: Surface, axis: Axis, now: Instant) {
    exists name: string, at: Instant :: Young(at, now) && ChargesAt(s.attempts, surface, axis, name, at) > 0
  }

  lemma ArrivalRemembersAt(s: State, surface: Surface, slot: Reservation, axis: Axis, name: string, at: Instant)
    requires Enabled(s, Arrive(surface, slot)) && Young(at, slot.at)
    ensures RemembersAt(Next(s, Arrive(surface, slot)), surface, axis, name, at) <==>
            multiset(WindowIn(RoomyOn(s.On(surface), axis, slot), name))[at] ==
            ChargesAt(s.attempts, surface, axis, name, at)
  {
    ReservedCounts(s.On(surface), s.perMinute, slot, axis, name, at);
    ChargesAfterArrival(s.attempts, Attempt(surface, slot, Waiting), surface, axis, name, at);
  }

  /** Where a minute has passed since the last clear, an arrival makes the limiter forget a young charge exactly when it
      clears the map and there is one. */
  lemma ArrivalForgetsExactlyWhenItClears(s: State, surface: Surface, slot: Reservation, axis: Axis, cut: Instant)
    requires Exact(s, surface, axis, cut) && Enabled(s, Arrive(surface, slot)) && slot.at >= cut + WINDOW
    ensures !Remembers(Next(s, Arrive(surface, slot)), surface, axis, slot.at) <==>
            ClearsOn(s.On(surface), axis, slot) && HasYoung(s, surface, axis, slot.at)
  {
    var t := Next(s, Arrive(surface, slot));
    forall name: string, at: Instant | Young(at, slot.at)
      ensures RemembersAt(t, surface, axis, name, at) <==>
              !(ClearsOn(s.On(surface), axis, slot) && ChargesAt(s.attempts, surface, axis, name, at) > 0)
    {
      ArrivalRemembersAt(s, surface, slot, axis, name, at);
      assert ExactAt(s, surface, axis, name, at, cut);
    }
  }

  lemma OneMoreEvent(s: State, run: seq<Event>, e: Event)
    requires Possible(s, run) && Enabled(After(s, run), e)
    ensures Possible(s, run + [e]) && After(s, run + [e]) == Next(After(s, run), e)
    decreases |run|
  {
    if run == [] {
      assert [] + [e] == [e] && [e][1..] == [];
    } else {
      assert (run + [e])[1..] == run[1..] + [e];
      OneMoreEvent(Next(s, run[0]), run[1..], e);
    }
  }

  const FIRST_PEER: string := "192.0.2.1"
  const SECOND_PEER: string := "192.0.2.2"

  /** The throttle key of a forwarded address, which is any text of at most 48 characters. */
  predicate Forwarded(key: string) {
    "fwd:" <= key && |key| <= 52
  }

  function Invented(n: nat): string {
    "fwd:" + Decimal.ToString(n)
  }

  lemma OneMoreDigit(n: nat, k: nat)
    requires |Decimal.Digits(n / 10)| <= k
    ensures |Decimal.Digits(n)| <= k + 1
  {
  }

  lemma FourDigits(n: nat)
    requires n < 10_000
    ensures |Decimal.Digits(n)| <= 4
  {
    var a := n / 10;
    var b := a / 10;
    OneMoreDigit(b, 1);
    OneMoreDigit(a, 2);
    OneMoreDigit(n, 3);
  }

  lemma InventedIsForwarded(n: nat)
    requires n <= MAX_KEYS
    ensures Forwarded(Invented(n))
  {
    FourDigits(n);
  }

  lemma InventedIsNew(m: nat, n: nat)
    requires m < n <= MAX_KEYS
    ensures Invented(m) != Invented(n)
  {
    if Invented(m) == Invented(n) {
      assert Invented(m)[4..] == Decimal.ToString(m) && Invented(n)[4..] == Decimal.ToString(n);
      Decimal.ToStringInjective(m, n);
    }
  }

  predicate IsInvented(name: string, n: nat) {
    exists i :: 0 <= i < n && name == Invented(i)
  }

  /** A header changed `n` times behind one peer, all at once. */
  ghost predicate Filled(s: State, n: nat) {
    && s.perMinute == 1 && s.clock == 0
    && |s.consent.byKey| == n && s.consent.byPeer.Keys <= {FIRST_PEER}
    && (forall name | name in s.consent.byKey :: IsInvented(name, n))
    && (if n == 0 then s.consent.byPeer == map[]
        else Busy(s.attempts, Consent, Key, Invented(0), MinuteBefore(0)) >= 1)
  }

  lemma BusyGrows(attempts: seq<Attempt>, a: Attempt, surface: Surface, axis: Axis, name: string, since: Instant)
    ensures Busy(attempts + [a], surface, axis, name, since) ==
            Busy(attempts, surface, axis, name, since)
            + (if Charges(a, surface, axis, name) && a.slot.at > since then 1 else 0)
  {
    assert (attempts + [a])[..|attempts|] == attempts;
  }

  /** Let through or refused on its peer, a new key gets its entry, after the clear when the map is full. */
  lemma NewKeyIsEntered(w: Windows, r: Reservation)
    requires r.key !in w.byKey
    ensures Reserved(w, 1, r).byKey.Keys == Roomy(w.byKey, r.key).Keys + {r.key}
    ensures !Full(w.byKey, r.key) ==> |Reserved(w, 1, r).byKey| == |w.byKey| + 1
  {
    assert Reserved(w, 1, r).byKey.Keys == Roomy(w.byKey, r.key).Keys + {r.key};
  }

  lemma OnePeerStaysOne(w: Windows, r: Reservation)
    requires w.byPeer.Keys <= {r.peer}
    ensures Reserved(w, 1, r).byPeer.Keys <= {r.peer}
  {
  }

  /** A new key on a new peer is let through. */
  lemma NewOnBothGoes(w: Windows, r: Reservation)
    requires r.key !in w.byKey && r.peer !in w.byPeer
    ensures LetThrough(w, 1, r)
  {
  }

  function Rotation(n: nat): Event {
    Arrive(Consent, Reservation(Invented(n), FIRST_PEER, 0))
  }

  lemma NewNameIsNew(names: WindowMap, n: nat)
    requires n <= MAX_KEYS && forall name | name in names :: IsInvented(name, n)
    ensures Invented(n) !in names
  {
    if Invented(n) in names {
      assert IsInvented(Invented(n), n);
      var i :| 0 <= i < n && Invented(n) == Invented(i);
      InventedIsNew(i, n);
    }
  }

  lemma RotationFills(s: State, n: nat)
    requires n < MAX_KEYS && Filled(s, n)
    ensures Filled(Next(s, Rotation(n)), n + 1)
  {
    var t, slot := Next(s, Rotation(n)), Reservation(Invented(n), FIRST_PEER, 0);
    NewNameIsNew(s.consent.byKey, n);
    NewKeyIsEntered(s.consent, slot);
    OnePeerStaysOne(s.consent, slot);
    forall name | name in t.consent.byKey ensures IsInvented(name, n + 1) {
      assert name == Invented(n) || IsInvented(name, n);
    }
    BusyGrows(s.attempts, Attempt(Consent, slot, Waiting), Consent, Key, Invented(0), MinuteBefore(0));
    if n == 0 {
      NewOnBothGoes(s.consent, slot);
    }
  }

  /** Every event of the run is an attempt a handler can make of a header and a socket. */
  predicate FromAHeader(e: Event) {
    e.Arrive? && Forwarded(e.slot.key) && e.slot.peer in {FIRST_PEER, SECOND_PEER}
  }

  lemma HeadersOneMore(run: seq<Event>, e: Event)
    requires (forall d | d in run :: FromAHeader(d)) && FromAHeader(e)
    ensures forall d | d in run + [e] :: FromAHeader(d)
  {
  }

  lemma FillsOneMore(init: State, run: seq<Event>, n: nat) returns (more: seq<Event>)
    requires Possible(init, run) && Filled(After(init, run), n) && n < MAX_KEYS
    requires forall e | e in run :: FromAHeader(e)
    ensures Possible(init, more) && Filled(After(init, more), n + 1)
    ensures forall e | e in more :: FromAHeader(e)
  {
    RotationFills(After(init, run), n);
    InventedIsForwarded(n);
    OneMoreEvent(init, run, Rotation(n));
    HeadersOneMore(run, Rotation(n));
    more := run + [Rotation(n)];
  }

  lemma {:induction false} FillingRun(n: nat) returns (run: seq<Event>)
    requires n <= MAX_KEYS
    ensures Possible(Init(1, 0), run) && Filled(After(Init(1, 0), run), n)
    ensures forall e | e in run :: FromAHeader(e)
  {
    if n == 0 {
      run := [];
    } else {
      run := FillingRun(n - 1);
      run := FillsOneMore(Init(1, 0), run, n - 1);
    }
  }

  lemma NextChangeClears(w: Windows, r: Reservation)
    requires Full(w.byKey, r.key) && w.byPeer.Keys <= {r.peer}
    ensures Reserved(w, 1, r).byKey.Keys == {r.key} && Reserved(w, 1, r).byPeer.Keys <= {r.peer}
  {
    NewKeyIsEntered(w, r);
    OnePeerStaysOne(w, r);
  }

  /** An attempt with a key and a peer the limiter does not hold is one more busy attempt of that key. */
  lemma ForgottenKeyGoes(s: State, slot: Reservation)
    requires s.perMinute == 1 && slot.at > MinuteBefore(0)
    requires slot.key !in s.consent.byKey && slot.peer !in s.consent.byPeer && slot.at >= s.clock
    ensures Busy(Next(s, Arrive(Consent, slot)).attempts, Consent, Key, slot.key, MinuteBefore(0)) ==
            Busy(s.attempts, Consent, Key, slot.key, MinuteBefore(0)) + 1
  {
    NewOnBothGoes(s.consent, slot);
    BusyGrows(s.attempts, Attempt(Consent, slot, Waiting), Consent, Key, slot.key, MinuteBefore(0));
  }

  lemma ArrivalLosesNothingBusy(s: State, slot: Reservation, name: string)
    requires slot.at >= s.clock
    ensures Busy(Next(s, Arrive(Consent, slot)).attempts, Consent, Key, name, MinuteBefore(0)) >=
            Busy(s.attempts, Consent, Key, name, MinuteBefore(0))
  {
    BusyGrows(s.attempts, Attempt(Consent, slot, Waiting), Consent, Key, name, MinuteBefore(0));
  }

  /** One more change of the header clears the keys, and the first key goes again from another peer. */
  lemma ClearLetsTheFirstGoAgain(s: State, n: nat, first: Reservation)
    requires n == MAX_KEYS && Filled(s, n) && first == Reservation(Invented(0), SECOND_PEER, 0)
    ensures var t := Next(s, Rotation(n));
            && t.clock == 0 && t.perMinute == 1
            && Busy(Next(t, Arrive(Consent, first)).attempts, Consent, Key, first.key, MinuteBefore(0)) >= 2
  {
    var clearing, t := Reservation(Invented(n), FIRST_PEER, 0), Next(s, Rotation(n));
    NewNameIsNew(s.consent.byKey, n);
    InventedIsNew(0, n);
    NextChangeClears(s.consent, clearing);
    ArrivalLosesNothingBusy(s, clearing, first.key);
    ForgottenKeyGoes(t, first);
  }

  lemma GoesAgain(init: State, run: seq<Event>, n: nat, first: Reservation) returns (all: seq<Event>)
    requires Possible(init, run) && forall e | e in run :: FromAHeader(e)
    requires n == MAX_KEYS && Filled(After(init, run), n) && first == Reservation(Invented(0), SECOND_PEER, 0)
    ensures Possible(init, all) && forall e | e in all :: FromAHeader(e)
    ensures var t := After(init, all);
            t.clock == 0 && t.perMinute == 1 && Busy(t.attempts, Consent, Key, first.key, MinuteBefore(0)) >= 2
  {
    ClearLetsTheFirstGoAgain(After(init, run), n, first);
    InventedIsForwarded(n);
    OneMoreEvent(init, run, Rotation(n));
    HeadersOneMore(run, Rotation(n));
    all := run + [Rotation(n)];
    InventedIsForwarded(0);
    OneMoreEvent(init, all, Arrive(Consent, first));
    HeadersOneMore(all, Arrive(Consent, first));
    all := all + [Arrive(Consent, first)];
  }

  /** The minute's wait is needed. One peer that changes its forwarded address 4096 times, most of them refused, fills
      the key map; the next change clears it; and from a second peer a key with a budget of one has two attempts busy.
      */
  lemma AClearForgetsTheKeys() returns (run: seq<Event>)
    ensures Possible(Init(1, 0), run) && forall e | e in run :: FromAHeader(e)
    ensures var t := After(Init(1, 0), run);
            Busy(t.attempts, Consent, Key, Invented(0), MinuteBefore(t.clock)) > t.perMinute
  {
    run := FillingRun(MAX_KEYS);
    run := GoesAgain(Init(1, 0), run, MAX_KEYS, Reservation(Invented(0), SECOND_PEER, 0));
  }
}
