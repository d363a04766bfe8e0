/** Every run of the Redis scripts is a run of the memory store under suitable clock readings.

    The protocol takes an arbitrary clock reading with every store operation, so nothing is lost by choosing
    one: a lease whose Redis key is still shown is read as held, and one whose key is gone as expired.  Unlike
    the agreement at equal readings, this has no exception at the instant of expiry. */
module RedisRuns {
  import opened Wrappers
  import opened Headers
  import opened HeadStore
  import opened RedisStore

  predicate Shown(x: KeyExpiry, k: Keys, now: nat) {
    Purge(x, k, now).leader.Some?
  }

  // The reading at which the memory store finds its lease as Redis finds the key.
  function Reading(x: KeyExpiry, s: Pair, now: nat): nat {
    if Shown(x, s.redis, now) || s.memory.leader.None? then 0 else s.memory.leader.value.expires + 1
  }

  // The memory store's lease lasts one tick of its own readings.
  function Slack(op: Op): Op {
    match op
    case Acquire(owner, _) => Op.Acquire(owner, 1)
    case Renew(i, _) => Op.Renew(i, 1)
    case _ => op
  }

  // One operation on the scripts at `now`, with the memory store's operation at the matching reading.
  function Beside(x: KeyExpiry, s: Pair, op: Op, now: nat): (Pair, Outcome, Outcome) {
    var memory := Both(AtTheInstant, s, Slack(op), Reading(x, s, now));
    var redis := Both(x, s, op, now);
    var p := s.pairing;
    var p' :=
      match op
      case Acquire(owner, ttl) =>
        var a := AcquireStep(s.memory, owner, Reading(x, s, now), 1).1;
        var b := AcquireScript(x, s.redis, owner, now, ttl).1;
        if a.Some? && b.Some? then p.(tokens := p.tokens + [(a.value, b.value)]) else p
      case Publish(_, _) => Issue(s.memory, s.redis, p, memory.0.memory, redis.0.redis)
      case _ => p;
    (Pair(memory.0.memory, redis.0.redis, p'), memory.1, redis.2)
  }

  // The stores agree but for their clocks.
  predicate Matched(x: KeyExpiry, s: Pair, now: nat) {
    && CountersInv(s.memory, s.redis, s.pairing) && HeadsInv(s.memory, s.redis, s.pairing) && LogInv(s.memory, s.redis)
    && (Shown(x, s.redis, now) ==>
          && s.memory.leader.Some? && s.memory.leader.value.expires >= 1
          && (s.memory.leader.value.token, s.redis.leader.value.token) in s.pairing.tokens)
  }

  // The keys as they would be on the memory store's clock.
  function Image(x: KeyExpiry, s: Pair, now: nat): Keys
    requires Matched(x, s, now)
  {
    s.redis.(leader :=
      if Shown(x, s.redis, now) then Some(Lease(s.redis.leader.value.token, s.memory.leader.value.expires)) else None)
  }

  lemma ImageAgrees(x: KeyExpiry, s: Pair, now: nat)
    requires Matched(x, s, now)
    ensures Agree(AtTheInstant, s.memory, Image(x, s, now), s.pairing, Reading(x, s, now))
  {
    assert CountersInv(s.memory, Image(x, s, now), s.pairing) && LogInv(s.memory, Image(x, s, now));
    assert HeadsInv(s.memory, Image(x, s, now), s.pairing);
    hide CountersInv, HeadsInv, LogInv;
  }

  // The scripts look at the lease only to see whose it is, if anybody's.
  predicate SameButClock(k: Keys, image: Keys, reading: nat) {
    && image.heads == k.heads && image.fence == k.fence && image.generation == k.generation && image.stream == k.stream
    && (image.leader.Some? <==> k.leader.Some?)
    && (k.leader.Some? ==> image.leader.value.token == k.leader.value.token && image.leader.value.expires > reading)
  }

  lemma AcquireIgnoresClock(x: KeyExpiry, k: Keys, now: nat, image: Keys, reading: nat, owner: string, ttl: nat)
    requires SameButClock(Purge(x, k, now), Purge(AtTheInstant, image, reading), reading)
    ensures var (k', a) := AcquireScript(x, k, owner, now, ttl);
            var (image', b) := AcquireScript(AtTheInstant, image, owner, reading, 1);
            a == b && SameButClock(k', image', reading)
  {
  }

  lemma LeaseScriptsIgnoreClock(x: KeyExpiry, k: Keys, now: nat, image: Keys, reading: nat, token: Token, ttl: nat)
    requires SameButClock(Purge(x, k, now), Purge(AtTheInstant, image, reading), reading)
    ensures var (k', a) := RenewScript(x, k, token, now, ttl);
            var (image', b) := RenewScript(AtTheInstant, image, token, reading, 1);
            a == b && SameButClock(k', image', reading)
    ensures SameButClock(ReleaseScript(x, k, token, now), ReleaseScript(AtTheInstant, image, token, reading), reading)
  {
  }

  lemma PublishIgnoresClock(x: KeyExpiry, k: Keys, now: nat, image: Keys, reading: nat, token: Token, h: Head)
    requires SameButClock(Purge(x, k, now), Purge(AtTheInstant, image, reading), reading)
    ensures var (k', a) := PublishScript(x, k, token, now, h);
            var (image', b) := PublishScript(AtTheInstant, image, token, reading, h);
            a == b && SameButClock(k', image', reading)
    ensures var (k', a) := BeginReorgScript(x, k, token, now);
            var (image', b) := BeginReorgScript(AtTheInstant, image, token, reading);
            a == b && SameButClock(k', image', reading)
  {
  }

  lemma ScriptsIgnoreClock(x: KeyExpiry, s: Pair, op: Op, now: nat)
    requires Matched(x, s, now) && (op.Acquire? || op.i < |s.pairing.tokens|)
    ensures var reading := Reading(x, s, now);
            var image := Both(AtTheInstant, Pair(s.memory, Image(x, s, now), s.pairing), Slack(op), reading);
            var (next, a, b) := Beside(x, s, op, now);
            && image.0.memory == next.memory && image.0.pairing == next.pairing && image.1 == a && image.2 == b
            && SameButClock(next.redis, image.0.redis, reading)
  {
    var k, image, reading := s.redis, Image(x, s, now), Reading(x, s, now);
    assert SameButClock(Purge(x, k, now), Purge(AtTheInstant, image, reading), reading);
    hide Matched, Image, Reading, SameButClock, Purge, AcquireScript, RenewScript, ReleaseScript, PublishScript, BeginReorgScript,
      PublishStep, BeginReorgStep, RenewStep, ReleaseStep, AcquireStep;
    match op
    case Acquire(owner, ttl) => AcquireIgnoresClock(x, k, now, image, reading, owner, ttl);
    case Renew(i, ttl) => LeaseScriptsIgnoreClock(x, k, now, image, reading, s.pairing.tokens[i].1, ttl);
    case Release(i) => LeaseScriptsIgnoreClock(x, k, now, image, reading, s.pairing.tokens[i].1, 0);
    case Publish(i, h) =>
      PublishIgnoresClock(x, k, now, image, reading, s.pairing.tokens[i].1, h);
      IssueIgnoresClock(s.memory, k, image, s.pairing, PublishStep(s.memory, s.pairing.tokens[i].0, reading, h).0,
                        PublishScript(x, k, s.pairing.tokens[i].1, now, h).0,
                        PublishScript(AtTheInstant, image, s.pairing.tokens[i].1, reading, h).0, reading);
    case BeginReorg(i) => PublishIgnoresClock(x, k, now, image, reading, s.pairing.tokens[i].1, NO_HEAD);
  }

  lemma IssueIgnoresClock(m: State, k: Keys, image: Keys, p: Pairing, m': State, k': Keys, image': Keys, reading: nat)
    requires SameButClock(k', image', reading)
    ensures Issue(m, k, p, m', k') == Issue(m, image, p, m', image')
  {
  }

  // What follows from agreement on the memory store's clock.
  lemma StaysMatched(x: KeyExpiry, next: Pair, image: Keys, reading: nat, now: nat)
    requires Agree(AtTheInstant, next.memory, image, next.pairing, reading) && SameButClock(next.redis, image, reading)
    ensures Matched(x, next, now)
  {
    assert CountersInv(next.memory, next.redis, next.pairing) && LogInv(next.memory, next.redis);
    assert HeadsInv(next.memory, next.redis, next.pairing);
    hide CountersInv, HeadsInv, LogInv;
  }

  lemma MatchedLater(x: KeyExpiry, s: Pair, now: nat, later: nat)
    requires Matched(x, s, now) && now <= later
    ensures Matched(x, s, later)
  {
    hide CountersInv, HeadsInv, LogInv;
  }

  /** One operation: whatever the clock and the reading of key expiry, the scripts do what the memory store does
      at the matching reading, and the stores stay matched. */
  lemma OperationMatches(x: KeyExpiry, s: Pair, op: Op, now: nat)
    requires Matched(x, s, now) && KindOf(s, op)
    ensures var (next, a, b) := Beside(x, s, op, now);
            SameOutcomes(a, b) && Matched(x, next, now)
  {
    var reading := Reading(x, s, now);
    if op.Acquire? || op.i < |s.pairing.tokens| {
      ImageAgrees(x, s, now);
      var image := Pair(s.memory, Image(x, s, now), s.pairing);
      ScriptsIgnoreClock(x, s, op, now);
      assert !AtExpiry(AtTheInstant, image, Slack(op), reading);
      OperationAgrees(AtTheInstant, image, Slack(op), reading, reading);
      hide Agree, Matched, Beside, Both, SameOutcomes, AtExpiry, KindOf, SameButClock;
      StaysMatched(x, Beside(x, s, op, now).0, Both(AtTheInstant, image, Slack(op), reading).0.redis, reading, now);
    }
  }

  // Every operation of the sequence has the outcome that the memory store gives at the matching reading.
  predicate RunsBeside(x: KeyExpiry, s: Pair, ops: seq<(Op, nat)>)
    decreases |ops|
  {
    ops == [] || !KindOf(s, ops[0].0) ||
    var (next, a, b) := Beside(x, s, ops[0].0, ops[0].1);
    SameOutcomes(a, b) && RunsBeside(x, next, ops[1..])
  }

  /** Every timed run of the scripts is a run of the memory store, expiry instants included, up to the first head
      that is not of its commitment's kind. */
  lemma {:induction false} ScriptRunsAreMemoryRuns(x: KeyExpiry, s: Pair, ops: seq<(Op, nat)>, start: nat)
    requires Matched(x, s, start)
    requires forall i, j | 0 <= i < j < |ops| :: ops[i].1 <= ops[j].1
    requires forall i | 0 <= i < |ops| :: start <= ops[i].1
    ensures RunsBeside(x, s, ops)
    decreases |ops|
  {
    if ops != [] && KindOf(s, ops[0].0) {
      MatchedLater(x, s, start, ops[0].1);
      OperationMatches(x, s, ops[0].0, ops[0].1);
      hide Matched, Beside, KindOf, SameOutcomes;
      ScriptRunsAreMemoryRuns(x, Beside(x, s, ops[0].0, ops[0].1).0, ops[1..], ops[0].1);
    }
  }

  lemma EmptyStoresMatch(x: KeyExpiry)
    ensures Matched(x, NO_PAIR, 0)
  {
  }
}
