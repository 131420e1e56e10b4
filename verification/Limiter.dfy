/** The two sliding windows of the login limiter and the pool of password checks (src/authserver/limiter.rs). */
module Limiter {
  import opened Text

  const WINDOW: int := 60_000_000_000 // nanoseconds
  const PEER_MULTIPLIER: nat := 4
  const MAX_KEYS: nat := 4096
  const PASSWORD_WORK_PERMITS: nat := 8
  const U32: nat := 0x1_0000_0000

  type Instant = int
  type Window = seq<Instant>

  /** `Instant::duration_since` saturates at zero. */
  function Since(now: Instant, at: Instant): int {
    if now < at then 0 else now - at
  }

  predicate Young(at: Instant, now: Instant) {
    Since(now, at) < WINDOW
  }

  function Pruned(w: Window, now: Instant): Window {
    if w == [] then []
    else (if Young(w[0], now) then [w[0]] else []) + Pruned(w[1..], now)
  }

  function WithoutOne(w: Window, at: Instant): Window {
    if w == [] then [] else if w[0] == at then w[1..] else [w[0]] + WithoutOne(w[1..], at)
  }

  lemma {:induction false} PrunedSnoc(w: Window, at: Instant, now: Instant)
    ensures Pruned(w + [at], now) == Pruned(w, now) + (if Young(at, now) then [at] else [])
  {
    var all, last := w + [at], if Young(at, now) then [at] else [];
    if w == [] {
      assert all == [at] && all[1..] == [];
    } else {
      assert all[0] == w[0] && all[1..] == w[1..] + [at];
      PrunedSnoc(w[1..], at, now);
      var head, rest := if Young(w[0], now) then [w[0]] else [], Pruned(w[1..], now);
      assert Pruned(all, now) == head + (rest + last);
      assert head + (rest + last) == (head + rest) + last;
    }
  }

  lemma {:induction false} PrunedCounts(w: Window, now: Instant)
    ensures |Pruned(w, now)| <= |w|
    ensures forall at :: multiset(Pruned(w, now))[at] == if Young(at, now) then multiset(w)[at] else 0
  {
    if w != [] {
      PrunedCounts(w[1..], now);
      assert w == [w[0]] + w[1..];
    }
  }

  /** Exactly one charge is taken back, however many share the instant; none when there is none. */
  lemma {:induction false} WithoutOneCounts(w: Window, at: Instant)
    ensures |WithoutOne(w, at)| <= |w|
    ensures multiset(WithoutOne(w, at)) == multiset(w) - multiset{at}
  {
    if w != [] {
      assert w == [w[0]] + w[1..];
      if w[0] != at {
        WithoutOneCounts(w[1..], at);
      }
    }
  }

  /** A charge counts for one minute, and one from the future counts. */
  lemma YoungForAMinute(at: Instant, now: Instant)
    ensures Young(at, now) <==> now - at < 60_000_000_000
  {
  }

  method Prune(window: Window, now: Instant) returns (kept: Window)
    ensures kept == Pruned(window, now)
    ensures forall at :: multiset(kept)[at] == if now - at < 60_000_000_000 then multiset(window)[at] else 0
  {
    PrunedCounts(window, now);
    kept := [];
    assert window[..0] == [];
    for i := 0 to |window|
      invariant kept == Pruned(window[..i], now)
    {
      assert window[..i + 1] == window[..i] + [window[i]];
      PrunedSnoc(window[..i], window[i], now);
      if Young(window[i], now) {
        kept := kept + [window[i]];
      }
    }
    assert window[..|window|] == window;
  }

  lemma {:induction false} WithoutOneAt(w: Window, at: Instant, i: nat)
    requires i < |w| && w[i] == at && forall k | 0 <= k < i :: w[k] != at
    ensures WithoutOne(w, at) == w[..i] + w[i + 1..]
  {
    if i > 0 {
      WithoutOneAt(w[1..], at, i - 1);
      assert w[..i] + w[i + 1..] == [w[0]] + (w[1..][..i - 1] + w[1..][i..]);
    }
  }

  lemma {:induction false} WithoutAbsent(w: Window, at: Instant)
    requires at !in w
    ensures WithoutOne(w, at) == w
  {
    if w != [] {
      WithoutAbsent(w[1..], at);
    }
  }

  method RemoveOne(window: Window, at: Instant) returns (left: Window)
    ensures left == WithoutOne(window, at)
  {
    for i := 0 to |window|
      invariant forall k | 0 <= k < i :: window[k] != at
    {
      if window[i] == at {
        WithoutOneAt(window, at, i);
        return window[..i] + window[i + 1..];
      }
    }
    WithoutAbsent(window, at);
    left := window;
  }

  // ---- the limiter as a value ----

  datatype Axis = Key | Peer

  datatype Windows = Windows(byKey: WindowMap, byPeer: WindowMap) {
    function Map(axis: Axis): WindowMap {
      if axis == Key then byKey else byPeer
    }

    function Of(axis: Axis, name: string): Window {
      WindowIn(Map(axis), name)
    }
  }

  datatype Reservation = Reservation(key: string, peer: string, at: Instant) {
    function Name(axis: Axis): string {
      if axis == Key then key else peer
    }
  }

  /** `per_minute`, and four times that without leaving 32 bits. */
  function Limit(perMinute: nat, axis: Axis): nat {
    if axis == Key then perMinute
    else if perMinute * PEER_MULTIPLIER < U32 then perMinute * PEER_MULTIPLIER else U32 - 1
  }

  type WindowMap = map<string, Window>

  predicate Full(m: WindowMap, name: string) {
    |m| >= MAX_KEYS && name !in m
  }

  function Roomy(m: WindowMap, name: string): WindowMap {
    if Full(m, name) then map[] else m
  }

  function WindowIn(m: WindowMap, name: string): Window {
    if name in m then m[name] else []
  }

  function PrunedAt(m: WindowMap, name: string, now: Instant): (r: WindowMap)
    ensures name in r
  {
    m[name := Pruned(WindowIn(m, name), now)]
  }

  function ChargedAt(m: WindowMap, name: string, at: Instant): WindowMap {
    m[name := WindowIn(m, name) + [at]]
  }

  function RefundedAt(m: WindowMap, name: string, at: Instant): WindowMap {
    if name in m then m[name := WithoutOne(m[name], at)] else m
  }

  /** Rust reads a window's length as a 32-bit number. */
  predicate Spent(m: WindowMap, name: string, limit: nat) {
    |WindowIn(m, name)| % U32 >= limit
  }

  lemma SpentIsByLength(m: WindowMap, name: string, limit: nat)
    requires |WindowIn(m, name)| < U32
    ensures Spent(m, name, limit) <==> |WindowIn(m, name)| >= limit
  {
  }

  function KeysPruned(w: Windows, r: Reservation): WindowMap {
    PrunedAt(Roomy(w.byKey, r.key), r.key, r.at)
  }

  function PeersPruned(w: Windows, r: Reservation): WindowMap {
    PrunedAt(Roomy(w.byPeer, r.peer), r.peer, r.at)
  }

  /** The key's own budget is read first, so a key that spent it never touches the peer's. */
  predicate KeySpent(w: Windows, perMinute: nat, r: Reservation) {
    Spent(KeysPruned(w, r), r.key, Limit(perMinute, Key))
  }

  predicate LetThrough(w: Windows, perMinute: nat, r: Reservation) {
    !KeySpent(w, perMinute, r) && !Spent(PeersPruned(w, r), r.peer, Limit(perMinute, Peer))
  }

  function KeysReserved(w: Windows, perMinute: nat, r: Reservation): WindowMap {
    if LetThrough(w, perMinute, r) then ChargedAt(KeysPruned(w, r), r.key, r.at) else KeysPruned(w, r)
  }

  function PeersReserved(w: Windows, perMinute: nat, r: Reservation): WindowMap {
    if KeySpent(w, perMinute, r) then Roomy(w.byPeer, r.peer)
    else if LetThrough(w, perMinute, r) then ChargedAt(PeersPruned(w, r), r.peer, r.at)
    else PeersPruned(w, r)
  }

  /** The windows after an attempt. */
  function Reserved(w: Windows, perMinute: nat, r: Reservation): Windows {
    Windows(KeysReserved(w, perMinute, r), PeersReserved(w, perMinute, r))
  }

  function Released(w: Windows, r: Reservation): Windows {
    Windows(RefundedAt(w.byKey, r.key, r.at), RefundedAt(w.byPeer, r.peer, r.at))
  }

  ghost predicate Within(m: WindowMap, limit: nat) {
    && |m| <= MAX_KEYS && limit < U32
    && forall name | name in m :: |m[name]| <= limit
  }

  ghost predicate Bounded(w: Windows, perMinute: nat) {
    1 <= perMinute < U32 && Within(w.byKey, Limit(perMinute, Key)) && Within(w.byPeer, Limit(perMinute, Peer))
  }

  lemma UpdateStaysWithin(m: WindowMap, name: string, w: Window, limit: nat)
    requires Within(m, limit) && !Full(m, name) && |w| <= limit
    ensures Within(m[name := w], limit)
  {
    assert m[name := w].Keys == m.Keys + {name};
    if name in m {
      assert m.Keys + {name} == m.Keys;
    }
  }

  lemma PruneStaysWithin(m: WindowMap, name: string, now: Instant, limit: nat)
    requires Within(m, limit)
    ensures Within(PrunedAt(Roomy(m, name), name, now), limit)
  {
    PrunedCounts(WindowIn(Roomy(m, name), name), now);
    UpdateStaysWithin(Roomy(m, name), name, Pruned(WindowIn(Roomy(m, name), name), now), limit);
  }

  /** No map outgrows its ceiling and no window its budget, so the 32-bit length is the length. */
  lemma ReservedStaysBounded(w: Windows, perMinute: nat, r: Reservation)
    requires Bounded(w, perMinute)
    ensures Bounded(Reserved(w, perMinute, r), perMinute)
  {
    PruneStaysWithin(w.byKey, r.key, r.at, Limit(perMinute, Key));
    PruneStaysWithin(w.byPeer, r.peer, r.at, Limit(perMinute, Peer));
    var keys, peers := KeysPruned(w, r), PeersPruned(w, r);
    if LetThrough(w, perMinute, r) {
      SpentIsByLength(keys, r.key, Limit(perMinute, Key));
      SpentIsByLength(peers, r.peer, Limit(perMinute, Peer));
      UpdateStaysWithin(keys, r.key, WindowIn(keys, r.key) + [r.at], Limit(perMinute, Key));
      UpdateStaysWithin(peers, r.peer, WindowIn(peers, r.peer) + [r.at], Limit(perMinute, Peer));
    }
  }

  lemma RefundStaysWithin(m: WindowMap, name: string, at: Instant, limit: nat)
    requires Within(m, limit)
    ensures Within(RefundedAt(m, name, at), limit)
  {
    if name in m {
      WithoutOneCounts(m[name], at);
      UpdateStaysWithin(m, name, WithoutOne(m[name], at), limit);
    }
  }

  lemma ReleasedStaysBounded(w: Windows, perMinute: nat, r: Reservation)
    requires Bounded(w, perMinute)
    ensures Bounded(Released(w, r), perMinute)
  {
    RefundStaysWithin(w.byKey, r.key, r.at, Limit(perMinute, Key));
    RefundStaysWithin(w.byPeer, r.peer, r.at, Limit(perMinute, Peer));
  }

  lemma RoomyNames(m: WindowMap, name: string)
    ensures Roomy(m, name).Keys == if |m| >= 4096 && name !in m then {} else m.Keys
  {
  }

  lemma EntryNames(m: WindowMap, name: string, at: Instant)
    ensures PrunedAt(m, name, at).Keys == m.Keys + {name}
    ensures ChargedAt(PrunedAt(m, name, at), name, at).Keys == m.Keys + {name}
  {
    assert PrunedAt(m, name, at).Keys == m.Keys + {name};
    assert ChargedAt(PrunedAt(m, name, at), name, at).Keys == PrunedAt(m, name, at).Keys + {name};
  }

  /** An attempt makes an entry for its key, and for its peer when the key had room; a map that held 4096 names and not
      this one is emptied first, and only then. */
  lemma ReservedNames(w: Windows, perMinute: nat, r: Reservation)
    ensures var after := Reserved(w, perMinute, r);
            && after.byKey.Keys == (if |w.byKey| >= 4096 && r.key !in w.byKey then {} else w.byKey.Keys) + {r.key}
            && after.byPeer.Keys ==
               (if |w.byPeer| >= 4096 && r.peer !in w.byPeer then {} else w.byPeer.Keys)
               + (if KeySpent(w, perMinute, r) then {} else {r.peer})
  {
    RoomyNames(w.byKey, r.key);
    RoomyNames(w.byPeer, r.peer);
    EntryNames(Roomy(w.byKey, r.key), r.key, r.at);
    EntryNames(Roomy(w.byPeer, r.peer), r.peer, r.at);
  }

  /** The key's window is full to its own budget when it stops the attempt. */
  lemma KeyStops(w: Windows, perMinute: nat, r: Reservation)
    requires Bounded(w, perMinute)
    ensures KeySpent(w, perMinute, r) <==> |Pruned(w.Of(Key, r.key), r.at)| == perMinute
  {
    PrunedCounts(WindowIn(w.byKey, r.key), r.at);
    SpentIsByLength(KeysPruned(w, r), r.key, perMinute);
  }

  // ---- what one call does to every window, in counts ----

  /** An attempt that finds this axis's map at its ceiling and its own name missing empties the map first. */
  predicate ClearsOn(w: Windows, axis: Axis, r: Reservation) {
    Full(w.Map(axis), r.Name(axis))
  }

  /** The map of this axis once the attempt has made room. */
  function RoomyOn(w: Windows, axis: Axis, r: Reservation): WindowMap {
    Roomy(w.Map(axis), r.Name(axis))
  }

  lemma PrunedAtCounts(m: WindowMap, name: string, now: Instant, other: string, at: Instant)
    ensures var had, has := multiset(WindowIn(m, other))[at], multiset(WindowIn(PrunedAt(m, name, now), other))[at];
            has <= had && (Young(at, now) ==> has == had)
  {
    PrunedCounts(WindowIn(m, name), now);
  }

  lemma ChargedAtCounts(m: WindowMap, name: string, now: Instant, other: string, at: Instant)
    ensures multiset(WindowIn(ChargedAt(m, name, now), other))[at] ==
            multiset(WindowIn(m, other))[at] + if other == name && at == now then 1 else 0
  {
  }

  lemma ReservedKeyCounts(w: Windows, perMinute: nat, r: Reservation, name: string, at: Instant)
    ensures var after, let := Reserved(w, perMinute, r), LetThrough(w, perMinute, r);
            var had, has := multiset(WindowIn(RoomyOn(w, Key, r), name))[at], multiset(after.Of(Key, name))[at];
            var charge := if let && name == r.key && at == r.at then 1 else 0;
            has <= had + charge && (Young(at, r.at) ==> has == had + charge)
  {
    var keys := RoomyOn(w, Key, r);
    PrunedAtCounts(keys, r.key, r.at, name, at);
    ChargedAtCounts(PrunedAt(keys, r.key, r.at), r.key, r.at, name, at);
  }

  lemma ReservedPeerCounts(w: Windows, perMinute: nat, r: Reservation, name: string, at: Instant)
    ensures var after, let := Reserved(w, perMinute, r), LetThrough(w, perMinute, r);
            var had, has := multiset(WindowIn(RoomyOn(w, Peer, r), name))[at], multiset(after.Of(Peer, name))[at];
            var charge := if let && name == r.peer && at == r.at then 1 else 0;
            has <= had + charge && (Young(at, r.at) ==> has == had + charge)
  {
    var peers := RoomyOn(w, Peer, r);
    PrunedAtCounts(peers, r.peer, r.at, name, at);
    ChargedAtCounts(PrunedAt(peers, r.peer, r.at), r.peer, r.at, name, at);
  }

  /** Once room is made, a let-through attempt adds one charge to each of its two windows, a refused one adds none, and
      nothing younger than a minute is lost either way. */
  lemma ReservedCounts(w: Windows, perMinute: nat, r: Reservation, axis: Axis, name: string, at: Instant)
    ensures var after, let := Reserved(w, perMinute, r), LetThrough(w, perMinute, r);
            var had, has := multiset(WindowIn(RoomyOn(w, axis, r), name))[at], multiset(after.Of(axis, name))[at];
            var charge := if let && name == r.Name(axis) && at == r.at then 1 else 0;
            has <= had + charge && (Young(at, r.at) ==> has == had + charge)
  {
    match axis
    case Key => ReservedKeyCounts(w, perMinute, r, name, at);
    case Peer => ReservedPeerCounts(w, perMinute, r, name, at);
  }

  /** An attempt is let through exactly when both of its windows, pruned, are short of their budgets; a clear takes away
      neither of them, for it comes only when the name has no window. */
  lemma LetThroughExactlyWithRoom(w: Windows, perMinute: nat, r: Reservation)
    requires Bounded(w, perMinute)
    ensures LetThrough(w, perMinute, r) <==>
            && |Pruned(w.Of(Key, r.key), r.at)| < perMinute
            && |Pruned(w.Of(Peer, r.peer), r.at)| < if 4 * perMinute < U32 then 4 * perMinute else U32 - 1
  {
    PrunedCounts(WindowIn(w.byKey, r.key), r.at);
    PrunedCounts(WindowIn(w.byPeer, r.peer), r.at);
    SpentIsByLength(KeysPruned(w, r), r.key, perMinute);
    SpentIsByLength(PeersPruned(w, r), r.peer, Limit(perMinute, Peer));
  }

  lemma ReleasedCounts(w: Windows, r: Reservation, axis: Axis, name: string)
    ensures multiset(Released(w, r).Of(axis, name)) ==
            multiset(w.Of(axis, name)) - (if name == r.Name(axis) then multiset{r.at} else multiset{})
  {
    WithoutOneCounts(w.Of(axis, r.Name(axis)), r.at);
  }

  /** Releasing what was just let through leaves every window as the attempt found it once room was made, its old
      charges pruned. */
  lemma ReleaseUndoes(w: Windows, perMinute: nat, r: Reservation, axis: Axis, name: string)
    requires LetThrough(w, perMinute, r)
    ensures var had := WindowIn(RoomyOn(w, axis, r), name);
            multiset(Released(Reserved(w, perMinute, r), r).Of(axis, name)) ==
            multiset(if name == r.Name(axis) then Pruned(had, r.at) else had)
  {
    ReleasedCounts(Reserved(w, perMinute, r), r, axis, name);
  }

  // ---- the limiter as the object the handlers share ----

  /** The entry of `name`, made if it is missing, with its old charges pruned. */
  method Entered(m: WindowMap, name: string, now: Instant) returns (entered: WindowMap)
    ensures entered == PrunedAt(m, name, now)
  {
    var window := Prune(WindowIn(m, name), now);
    entered := m[name := window];
  }

  class LoginLimiter {
    const perMinute: nat
    var byKey: map<string, Window>
    var byPeer: map<string, Window>

    function View(): Windows
      reads this
    {
      Windows(byKey, byPeer)
    }

    ghost predicate Valid()
      reads this
    {
      Bounded(View(), perMinute)
    }

    constructor (configured: nat)
      requires configured < U32
      ensures Valid() && View() == Windows(map[], map[])
      ensures perMinute == if configured == 0 then 1 else configured
    {
      perMinute := if configured == 0 then 1 else configured;
      byKey, byPeer := map[], map[];
    }

    method Reserve(key: string, peer: string, now: Instant) returns (slot: Option<Reservation>)
      requires Valid()
      modifies this
      ensures Valid()
      ensures var r := Reservation(key, peer, now);
              && View() == Reserved(old(View()), perMinute, r)
              && slot == if LetThrough(old(View()), perMinute, r) then Some(r) else None
    {
      ReservedStaysBounded(View(), perMinute, Reservation(key, peer, now));
      slot := Charge(key, peer, now);
    }

    /** The body of `reserve`, under the lock. */
    method Charge(key: string, peer: string, now: Instant) returns (slot: Option<Reservation>)
      modifies this
      ensures var r := Reservation(key, peer, now);
              && View() == Reserved(old(View()), perMinute, r)
              && slot == if LetThrough(old(View()), perMinute, r) then Some(r) else None
    {
      ghost var before, r := View(), Reservation(key, peer, now);
      if Full(byKey, key) {
        byKey := map[];
      }
      if Full(byPeer, peer) {
        byPeer := map[];
      }
      byKey := Entered(byKey, key, now);
      assert byKey == KeysPruned(before, r) && byPeer == Roomy(before.byPeer, peer);
      if |byKey[key]| % U32 >= perMinute {
        assert KeySpent(before, perMinute, r);
        return None;
      }
      byPeer := Entered(byPeer, peer, now);
      assert byPeer == PeersPruned(before, r);
      if |byPeer[peer]| % U32 >= Limit(perMinute, Peer) {
        assert !LetThrough(before, perMinute, r);
        return None;
      }
      assert LetThrough(before, perMinute, r);
      byPeer := byPeer[peer := byPeer[peer] + [now]];
      byKey := byKey[key := WindowIn(byKey, key) + [now]];
      slot := Some(Reservation(key, peer, now));
    }

    method Release(slot: Reservation)
      requires Valid()
      modifies this
      ensures Valid() && View() == Released(old(View()), slot)
    {
      ReleasedStaysBounded(View(), perMinute, slot);
      if slot.key in byKey {
        var left := RemoveOne(byKey[slot.key], slot.at);
        byKey := byKey[slot.key := left];
      }
      if slot.peer in byPeer {
        var left := RemoveOne(byPeer[slot.peer], slot.at);
        byPeer := byPeer[slot.peer := left];
      }
    }
  }
}
