/** The fenced accepted-head store of one chain (internal/head/types.go).

    `State` is the value of a store and the `...Step` functions are its atomic operations;
    `MemoryStore` is the class whose fields the program updates in place under its mutex. */
module HeadStore {
  import opened Wrappers
  import opened Headers

  // "owner:counter"; the counter is never reused, so neither is the token.
  datatype Token = Token(owner: string, fence: nat)

  datatype Lease = Lease(token: Token, expires: nat)

  // The stream ID "<generation>-0" is represented by the generation; 0 is the ID "0-0".
  datatype Event = Event(id: nat, head: Head)

  datatype StoreError = LeadershipLost | ReorgFence | StreamGap

  datatype State = State(heads: map<Commitment, Head>, leader: Option<Lease>, events: seq<Event>, gen: nat)

  const EMPTY := State(map[], None, [], 0)

  datatype Identity = ByHash(hash: Hash) | BySlot(commitment: Commitment, number: nat)

  function IdentityOf(h: Head): Identity {
    if h.hash != "" then ByHash(h.hash) else BySlot(h.commitment, h.number)
  }

  // The same block by its hash, or, where there is none, the same slot.
  predicate SameBlock(a: Head, b: Head) {
    if a.hash != "" then a.hash == b.hash else b.hash == "" && a.commitment == b.commitment && a.number == b.number
  }

  lemma SameBlockByIdentity(a: Head, b: Head)
    ensures IdentityOf(a) == IdentityOf(b) <==> SameBlock(a, b)
  {
  }

  function Lookup(heads: map<Commitment, Head>, c: Commitment): Option<Head> {
    if c in heads then Some(heads[c]) else None
  }

  predicate Holds(s: State, token: Token) {
    s.leader.Some? && s.leader.value.token == token
  }

  // Publish and Renew accept the expiry instant itself, Acquire and BeginReorg do not.
  predicate HoldsThrough(s: State, token: Token, now: nat) {
    Holds(s, token) && now <= s.leader.value.expires
  }

  predicate HoldsBefore(s: State, token: Token, now: nat) {
    Holds(s, token) && now < s.leader.value.expires
  }

  /******* Atomic operations *******/

  function AcquireStep(s: State, owner: string, now: nat, ttl: nat): (State, Option<Token>) {
    if s.leader.Some? && now < s.leader.value.expires then (s, None)
    else
      var token := Token(owner, s.gen + 1);
      (s.(gen := s.gen + 1, leader := Some(Lease(token, now + ttl))), Some(token))
  }

  function RenewStep(s: State, token: Token, now: nat, ttl: nat): (State, bool) {
    if !HoldsThrough(s, token, now) then (s, false)
    else (s.(leader := Some(Lease(token, now + ttl))), true)
  }

  function ReleaseStep(s: State, token: Token): State {
    if Holds(s, token) then s.(leader := None) else s
  }

  predicate IsEvmLatest(h: Head) {
    h.family == Evm && h.commitment == Latest
  }

  function PublishStep(s: State, token: Token, now: nat, h: Head): (State, Result<Head, StoreError>) {
    if !HoldsThrough(s, token, now) then (s, Err(LeadershipLost))
    else
      var previous := Lookup(s.heads, h.commitment);
      var epoch := if previous.Some? then previous.value.reorgEpoch else 0;
      if IsEvmLatest(h) && (h.reorgPending || h.reorgEpoch != epoch) then (s, Err(ReorgFence))
      else if previous.Some? && IdentityOf(previous.value) == IdentityOf(h) then
        var kept := h.(generation := previous.value.generation, changedAt := previous.value.changedAt);
        (s.(heads := s.heads[h.commitment := kept]), Ok(kept))
      else
        var stamped := h.(generation := s.gen + 1, changedAt := if h.changedAt == 0 then h.observedAt else h.changedAt);
        var events := if IsEvmLatest(h) then s.events + [Event(s.gen + 1, stamped)] else s.events;
        (s.(heads := s.heads[h.commitment := stamped], events := events, gen := s.gen + 1), Ok(stamped))
  }

  function BeginReorgStep(s: State, token: Token, now: nat): (State, Result<Head, StoreError>) {
    if !HoldsBefore(s, token, now) then (s, Err(LeadershipLost))
    else
      var current := Lookup(s.heads, Latest);
      if current.None? || current.value.family != Evm || current.value.IsZero() then (s, Err(ReorgFence))
      else if current.value.reorgPending then (s, Ok(current.value))
      else
        var fenced := Fence(current.value);
        (s.(heads := s.heads[Latest := fenced]), Ok(fenced))
  }

  // The head as BeginReorg leaves it.
  function Fence(h: Head): Head {
    h.(reorgEpoch := h.reorgEpoch + 1, reorgPending := true)
  }

  /******* Structural invariant *******/

  predicate Increasing(events: seq<Event>) {
    forall i, j | 0 <= i < j < |events| :: events[i].id < events[j].id
  }

  // Counters bound everything ever issued, and stream IDs rise.
  ghost predicate WellStamped(s: State) {
    && (s.leader.Some? ==> s.leader.value.token.fence <= s.gen)
    && (forall c | c in s.heads :: s.heads[c].generation <= s.gen)
    && Increasing(s.events)
    && (forall e | e in s.events :: 0 < e.id <= s.gen)
  }

  /** A publication keeps the stamps in order, never rewrites the event log and never rewinds the counter. */
  lemma PublishKeepsStamps(s: State, token: Token, now: nat, h: Head)
    requires WellStamped(s)
    ensures var s' := PublishStep(s, token, now, h).0;
            WellStamped(s') && s.events <= s'.events && s.gen <= s'.gen
  {
    var s' := PublishStep(s, token, now, h).0;
    assert forall c | c in s'.heads :: c == h.commitment || (c in s.heads && s'.heads[c] == s.heads[c]);
    if s'.events != s.events {
      var e := s'.events[|s.events|];
      assert s'.events == s.events + [e] && e.id == s.gen + 1;
      assert forall i | 0 <= i < |s.events| :: s.events[i] in s.events;
    }
  }

  /** The other operations do too, and leave the log alone. */
  lemma LeaseStepsKeepStamps(s: State, owner: string, token: Token, now: nat, ttl: nat)
    requires WellStamped(s)
    ensures WellStamped(AcquireStep(s, owner, now, ttl).0)
    ensures WellStamped(RenewStep(s, token, now, ttl).0)
    ensures WellStamped(ReleaseStep(s, token))
    ensures WellStamped(BeginReorgStep(s, token, now).0) && BeginReorgStep(s, token, now).0.events == s.events
  {
  }

  /******* The class *******/

  datatype ReadResult = Events(events: seq<Event>) | Gap | Waiting

  // What one pass of ReadEvents sees: the page after the first event carrying the cursor.
  function PageAfter(log: seq<Event>, cursor: nat, count: nat): ReadResult {
    if cursor != 0 && forall e | e in log :: e.id != cursor then Gap
    else
      var start := StartOf(log, cursor);
      if start >= |log| then Waiting
      else Events(log[start..if count > 0 && |log| - start > count then start + count else |log|])
  }

  function StartOf(log: seq<Event>, cursor: nat): (start: nat)
    ensures start <= |log|
  {
    if log == [] then 0
    else if log[0].id == cursor then 1
    else
      var rest := StartOf(log[1..], cursor);
      if rest == 0 then 0 else rest + 1
  }

  class MemoryStore {
    var heads: map<Commitment, Head>
    var leader: Option<Lease>
    var events: seq<Event>
    var gen: nat

    constructor ()
      ensures Value() == EMPTY
    {
      heads, leader, events, gen := map[], None, [], 0;
    }

    function Value(): State
      reads this
    {
      State(heads, leader, events, gen)
    }

    method Acquire(owner: string, now: nat, ttl: nat) returns (token: Option<Token>)
      modifies this
      ensures (Value(), token) == AcquireStep(old(Value()), owner, now, ttl)
      ensures heads == old(heads) && events == old(events)
      ensures if old(leader).Some? && now < old(leader).value.expires then token.None? && leader == old(leader) && gen == old(gen)
              else && gen == old(gen) + 1 && token == Some(Token(owner, gen))
                   && leader == Some(Lease(Token(owner, gen), now + ttl))
    {
      if leader.Some? && now < leader.value.expires {
        return None;
      }
      gen := gen + 1;
      token := Some(Token(owner, gen));
      leader := Some(Lease(token.value, now + ttl));
    }

    method Renew(token: Token, now: nat, ttl: nat) returns (renewed: bool)
      modifies this
      ensures (Value(), renewed) == RenewStep(old(Value()), token, now, ttl)
      ensures renewed <==> old(leader).Some? && old(leader).value.token == token && now <= old(leader).value.expires
      ensures heads == old(heads) && events == old(events) && gen == old(gen)
      ensures leader == if renewed then Some(Lease(token, now + ttl)) else old(leader)
    {
      if leader.None? || leader.value.token != token || now > leader.value.expires {
        return false;
      }
      leader := Some(leader.value.(expires := now + ttl));
      renewed := true;
    }

    method Release(token: Token)
      modifies this
      ensures Value() == ReleaseStep(old(Value()), token)
      ensures heads == old(heads) && events == old(events) && gen == old(gen)
      ensures leader == if old(leader).Some? && old(leader).value.token == token then None else old(leader)
    {
      if leader.Some? && leader.value.token == token {
        leader := None;
      }
    }

    method Publish(token: Token, now: nat, offered: Head) returns (r: Result<Head, StoreError>)
      modifies this
      ensures (Value(), r) == PublishStep(old(Value()), token, now, offered)
      ensures leader == old(leader)
      ensures r == Err(LeadershipLost) <==>
                !(old(leader).Some? && old(leader).value.token == token && now <= old(leader).value.expires)
      ensures r == Err(ReorgFence) <==>
                && r != Err(LeadershipLost) && offered.family == Evm && offered.commitment == Latest
                && (offered.reorgPending
                    || offered.reorgEpoch != if Latest in old(heads) then old(heads)[Latest].reorgEpoch else 0)
      ensures r.Err? ==> Value() == old(Value())
      ensures r.Ok? ==>
                && heads == old(heads)[offered.commitment := r.value]
                && if offered.commitment in old(heads) && SameBlock(old(heads)[offered.commitment], offered)
                   then var previous := old(heads)[offered.commitment];
                        && r.value == offered.(generation := previous.generation, changedAt := previous.changedAt)
                        && gen == old(gen) && events == old(events)
                   else && gen == old(gen) + 1
                        && r.value == offered.(generation := gen, changedAt :=
                             if offered.changedAt == 0 then offered.observedAt else offered.changedAt)
                        && events == old(events)
                             + if offered.family == Evm && offered.commitment == Latest then [Event(gen, r.value)] else []
    {
      SameBlockByIdentity(if offered.commitment in heads then heads[offered.commitment] else offered, offered);
      var accepted := offered;
      if leader.None? || leader.value.token != token || now > leader.value.expires {
        return Err(LeadershipLost);
      }
      var previous := Lookup(heads, accepted.commitment);
      var epoch := if previous.Some? then previous.value.reorgEpoch else 0;
      if IsEvmLatest(accepted) && (accepted.reorgPending || accepted.reorgEpoch != epoch) {
        return Err(ReorgFence);
      }
      if previous.Some? && IdentityOf(previous.value) == IdentityOf(accepted) {
        accepted := accepted.(generation := previous.value.generation);
        accepted := accepted.(changedAt := previous.value.changedAt);
      } else {
        if accepted.changedAt == 0 {
          accepted := accepted.(changedAt := accepted.observedAt);
        }
        gen := gen + 1;
        accepted := accepted.(generation := gen);
        if IsEvmLatest(accepted) {
          events := events + [Event(gen, accepted)];
        }
      }
      heads := heads[accepted.commitment := accepted];
      r := Ok(accepted);
    }

    method BeginReorg(token: Token, now: nat) returns (r: Result<Head, StoreError>)
      modifies this
      ensures (Value(), r) == BeginReorgStep(old(Value()), token, now)
      ensures leader == old(leader) && events == old(events) && gen == old(gen)
      ensures r == Err(LeadershipLost) <==>
                !(old(leader).Some? && old(leader).value.token == token && now < old(leader).value.expires)
      ensures r == Err(ReorgFence) <==>
                && r != Err(LeadershipLost)
                && (Latest !in old(heads) || old(heads)[Latest].family != Evm
                    || (old(heads)[Latest].number == 0 && old(heads)[Latest].hash == ""))
      ensures r.Err? ==> heads == old(heads)
      ensures r.Ok? ==>
                && heads == old(heads)[Latest := r.value]
                && r.value == old(heads)[Latest].(reorgPending := true, reorgEpoch :=
                                old(heads)[Latest].reorgEpoch + if old(heads)[Latest].reorgPending then 0 else 1)
    {
      if leader.None? || leader.value.token != token || !(now < leader.value.expires) {
        return Err(LeadershipLost);
      }
      if Latest !in heads || heads[Latest].family != Evm || heads[Latest].IsZero() {
        return Err(ReorgFence);
      }
      var current := heads[Latest];
      if !current.reorgPending {
        current := current.(reorgEpoch := current.reorgEpoch + 1);
        current := current.(reorgPending := true);
        heads := heads[Latest := current];
      }
      r := Ok(current);
    }

    // The last event and its cursor, or the ID "0-0" with no head.
    method StreamStart() returns (checkpoint: Event)
      ensures events == [] ==> checkpoint == Event(0, NO_HEAD)
      ensures events != [] ==> checkpoint == events[|events| - 1]
    {
      if |events| == 0 {
        return Event(0, NO_HEAD);
      }
      checkpoint := events[|events| - 1];
    }

    // One pass over the log; on Waiting the caller blocks until the next publication or its timeout.
    method ReadEvents(cursor: nat, count: nat) returns (r: ReadResult)
      ensures r == PageAfter(events, cursor, count)
      ensures r == Gap <==> cursor != 0 && forall e | e in events :: e.id != cursor
    {
      var start := 0;
      var found := cursor == 0;
      var i := 0;
      while i < |events| && events[i].id != cursor
        invariant 0 <= i <= |events|
        invariant forall k | 0 <= k < i :: events[k].id != cursor
      {
        i := i + 1;
      }
      if i < |events| {
        start := i + 1;
        found := true;
      }
      StartOfFirst(events, cursor, i);
      if !found {
        return Gap;
      }
      if start < |events| {
        var end := |events|;
        if count > 0 && end - start > count {
          end := start + count;
        }
        return Events(events[start..end]);
      }
      r := Waiting;
    }
  }

  lemma {:induction false} StartOfFirst(log: seq<Event>, cursor: nat, i: nat)
    requires i <= |log|
    requires forall k | 0 <= k < i :: log[k].id != cursor
    requires i < |log| ==> log[i].id == cursor
    ensures StartOf(log, cursor) == if i < |log| then i + 1 else 0
    decreases log
  {
    if log != [] && i > 0 {
      assert forall k | 0 <= k < i - 1 :: log[1..][k] == log[k + 1];
      StartOfFirst(log[1..], cursor, i - 1);
    }
  }
}
