/** The Redis implementation of the fenced store (internal/head/redis.go) and its agreement with MemoryStore.

    The Lua scripts are atomic steps over the chain's keys: the leader key with its expiry, the separate
    fence and generation counters, the heads hash and the event stream, whose IDs are represented by the
    ordinal of the event. */
module RedisStore {
  import opened Wrappers
  import opened Headers
  import opened HeadStore

  datatype Keys = Keys(heads: map<Commitment, Head>, leader: Option<Lease>, fence: nat, generation: nat, stream: seq<Event>)

  const NO_KEYS := Keys(map[], None, 0, 0, [])

  // When a server stops showing an expired key: the program does not say, so both readings are modelled.
  datatype KeyExpiry = AtTheInstant | AfterTheInstant

  predicate Expired(x: KeyExpiry, lease: Lease, now: nat) {
    now > lease.expires || (x.AtTheInstant? && now == lease.expires)
  }

  // No command sees an expired key.
  function Purge(x: KeyExpiry, k: Keys, now: nat): Keys {
    if k.leader.Some? && Expired(x, k.leader.value, now) then k.(leader := None) else k
  }

  predicate Owns(k: Keys, token: Token) {
    k.leader.Some? && k.leader.value.token == token
  }

  /******* The scripts *******/

  function AcquireScript(x: KeyExpiry, k0: Keys, owner: string, now: nat, ttl: nat): (Keys, Option<Token>) {
    var k := Purge(x, k0, now);
    if k.leader.Some? then (k, None)
    else
      var token := Token(owner, k.fence + 1);
      (k.(fence := k.fence + 1, leader := Some(Lease(token, now + ttl))), Some(token))
  }

  function RenewScript(x: KeyExpiry, k0: Keys, token: Token, now: nat, ttl: nat): (Keys, bool) {
    var k := Purge(x, k0, now);
    if !Owns(k, token) then (k, false) else (k.(leader := Some(Lease(token, now + ttl))), true)
  }

  function ReleaseScript(x: KeyExpiry, k0: Keys, token: Token, now: nat): Keys {
    var k := Purge(x, k0, now);
    if Owns(k, token) then k.(leader := None) else k
  }

  function PublishScript(x: KeyExpiry, k0: Keys, token: Token, now: nat, h: Head): (Keys, Result<Head, StoreError>) {
    var k := Purge(x, k0, now);
    var incoming := if h.changedAt == 0 then h.(changedAt := h.observedAt) else h;
    if !Owns(k, token) then (k, Err(LeadershipLost))
    else
      var current := Lookup(k.heads, incoming.commitment);
      var epoch := if current.Some? then current.value.reorgEpoch else 0;
      if IsEvmLatest(incoming) && (incoming.reorgPending || incoming.reorgEpoch != epoch) then (k, Err(ReorgFence))
      else
        var same := current.Some? &&
                    if incoming.hash != "" then current.value.hash == incoming.hash else current.value.number == incoming.number;
        if same then
          var refreshed := incoming.(generation := current.value.generation, changedAt := current.value.changedAt);
          (k.(heads := k.heads[incoming.commitment := refreshed]), Ok(refreshed))
        else
          var stored := incoming.(generation := k.generation + 1);
          var stream := if IsEvmLatest(incoming) then k.stream + [Event(|k.stream| + 1, stored)] else k.stream;
          (k.(heads := k.heads[incoming.commitment := stored], generation := k.generation + 1, stream := stream), Ok(stored))
  }

  function BeginReorgScript(x: KeyExpiry, k0: Keys, token: Token, now: nat): (Keys, Result<Head, StoreError>) {
    var k := Purge(x, k0, now);
    if !Owns(k, token) then (k, Err(LeadershipLost))
    else
      var current := Lookup(k.heads, Latest);
      if current.None? || current.value.family != Evm then (k, Err(ReorgFence))
      else if current.value.reorgPending then (k, Ok(current.value))
      else (k.(heads := k.heads[Latest := Fence(current.value)]), Ok(Fence(current.value)))
  }

  /******* Agreement with the memory store *******/

  // Tokens and generations are numbered differently, so sessions are named by the ordinal of their lease
  // and generations are paired as they were issued.
  datatype Pairing = Pairing(tokens: seq<(Token, Token)>, generations: seq<(nat, nat)>)

  predicate SameHead(a: Head, b: Head) {
    a.(generation := 0) == b.(generation := 0)
  }

  predicate PairedHead(p: Pairing, a: Head, b: Head) {
    SameHead(a, b) && (a.generation, b.generation) in p.generations
  }

  // Paired generations are ordered alike.
  predicate Monotone(generations: seq<(nat, nat)>) {
    forall i, j | 0 <= i < j < |generations| :: generations[i].0 < generations[j].0 && generations[i].1 < generations[j].1
  }

  predicate DistinctTokens(tokens: seq<(Token, Token)>) {
    forall i, j | 0 <= i < j < |tokens| :: tokens[i].0 != tokens[j].0 && tokens[i].1 != tokens[j].1
  }

  // EVM heads carry a hash and Solana heads do not; the stored head of a commitment is of its own kind.
  predicate Uniform(heads: map<Commitment, Head>) {
    forall c | c in heads :: heads[c].commitment == c && (heads[c].hash != "" <==> heads[c].family == Evm)
  }

  predicate CountersInv(m: State, k: Keys, p: Pairing) {
    && Monotone(p.generations) && DistinctTokens(p.tokens)
    && (forall g | g in p.generations :: g.0 <= m.gen && g.1 <= k.generation)
    && (forall t | t in p.tokens :: t.0.fence <= m.gen && t.1.fence <= k.fence)
  }

  predicate HeadsInv(m: State, k: Keys, p: Pairing) {
    && m.heads.Keys == k.heads.Keys && Uniform(m.heads)
    && forall c | c in m.heads :: PairedHead(p, m.heads[c], k.heads[c])
  }

  predicate LogInv(m: State, k: Keys) {
    |m.events| == |k.stream| && forall i | 0 <= i < |m.events| :: SameHead(m.events[i].head, k.stream[i].head)
  }

  // At time `now` either both stores have an unexpired lease of the same session and expiry, or neither has one.
  predicate LeaseInv(x: KeyExpiry, m: State, k: Keys, p: Pairing, now: nat) {
    if m.leader.Some? && !Expired(x, m.leader.value, now)
    then k.leader.Some? && k.leader.value.expires == m.leader.value.expires
         && (m.leader.value.token, k.leader.value.token) in p.tokens
    else Purge(x, k, now).leader.None?
  }

  predicate Agree(x: KeyExpiry, m: State, k: Keys, p: Pairing, now: nat) {
    CountersInv(m, k, p) && HeadsInv(m, k, p) && LogInv(m, k) && LeaseInv(x, m, k, p, now)
  }

  lemma LeaseInvLater(x: KeyExpiry, m: State, k: Keys, p: Pairing, now: nat, later: nat)
    requires LeaseInv(x, m, k, p, now) && now <= later
    ensures LeaseInv(x, m, Purge(x, k, later), p, later)
  {
  }

  // The session holds a lease that the Redis reading counts as unexpired.
  predicate Live(x: KeyExpiry, m: State, token: Token, now: nat) {
    Holds(m, token) && !Expired(x, m.leader.value, now)
  }

  // `now` is the very instant at which the session's own lease expires.
  predicate Expiring(m: State, token: Token, now: nat) {
    Holds(m, token) && now == m.leader.value.expires
  }

  lemma SessionOwns(x: KeyExpiry, m: State, k: Keys, p: Pairing, now: nat, i: nat)
    requires Agree(x, m, k, p, now) && i < |p.tokens|
    ensures Live(x, m, p.tokens[i].0, now) <==> Owns(Purge(x, k, now), p.tokens[i].1)
  {
  }

  // Both stores issue their next token.
  lemma TokensExtend(m: State, k: Keys, p: Pairing, m': State, k': Keys, t: (Token, Token))
    requires CountersInv(m, k, p) && m'.gen == m.gen + 1 && k'.fence == k.fence + 1 && k'.generation == k.generation
    requires t.0.fence == m'.gen && t.1.fence == k'.fence
    ensures CountersInv(m', k', p.(tokens := p.tokens + [t])) && t in p.tokens + [t]
  {
    var tokens := p.tokens + [t];
    assert tokens[|p.tokens|] == t;
    assert forall u | u in tokens :: u in p.tokens || u == t;
    forall i, j | 0 <= i < j < |tokens|
      ensures tokens[i].0 != tokens[j].0 && tokens[i].1 != tokens[j].1
    {
      assert tokens[i] in p.tokens;
    }
  }

  /** Acquiring: same verdict, with the new lease paired, unless the old one expires at this very instant and
      Redis still shows its key. */
  lemma AcquireAgrees(x: KeyExpiry, m: State, k: Keys, p: Pairing, owner: string, now: nat, ttl: nat)
    requires Agree(x, m, k, p, now)
    ensures var (m', a) := AcquireStep(m, owner, now, ttl); var (k', b) := AcquireScript(x, k, owner, now, ttl);
            && ((a.Some? <==> b.Some?) <==> !(x.AfterTheInstant? && m.leader.Some? && now == m.leader.value.expires))
            && ((a.Some? <==> b.Some?) ==>
                Agree(x, m', k', if a.Some? then p.(tokens := p.tokens + [(a.value, b.value)]) else p, now))
  {
    var (m', a) := AcquireStep(m, owner, now, ttl); var (k', b) := AcquireScript(x, k, owner, now, ttl);
    if a.Some? && b.Some? {
      TokensExtend(m, k, p, m', k', (a.value, b.value));
      hide CountersInv;
    }
  }

  /** Renewing agrees unless the lease expires at this very instant and Redis has dropped its key. */
  lemma RenewAgrees(x: KeyExpiry, m: State, k: Keys, p: Pairing, i: nat, now: nat, ttl: nat)
    requires Agree(x, m, k, p, now) && i < |p.tokens|
    ensures var (m', a) := RenewStep(m, p.tokens[i].0, now, ttl); var (k', b) := RenewScript(x, k, p.tokens[i].1, now, ttl);
            && (a == b <==> !(x.AtTheInstant? && Expiring(m, p.tokens[i].0, now)))
            && (a == b ==> Agree(x, m', k', p, now))
  {
  }

  lemma ReleaseAgrees(x: KeyExpiry, m: State, k: Keys, p: Pairing, i: nat, now: nat)
    requires Agree(x, m, k, p, now) && i < |p.tokens|
    ensures Agree(x, ReleaseStep(m, p.tokens[i].0), ReleaseScript(x, k, p.tokens[i].1, now), p, now)
  {
    SessionOwns(x, m, k, p, now, i);
  }

  predicate SameOutcome(a: Result<Head, StoreError>, b: Result<Head, StoreError>) {
    match (a, b)
    case (Ok(x), Ok(y)) => SameHead(x, y)
    case (Err(x), Err(y)) => x == y
    case _ => false
  }

  lemma SameIdentity(p: Pairing, previous: Head, current: Head, h: Head)
    requires PairedHead(p, previous, current) && previous.commitment == h.commitment
    requires previous.hash != "" <==> h.hash != ""
    ensures IdentityOf(previous) == IdentityOf(h)
       <==> if h.hash != "" then current.hash == h.hash else current.number == h.number
  {
  }

  // How a publication extends the pairing of generations.
  function Issue(m: State, k: Keys, p: Pairing, m': State, k': Keys): Pairing {
    if m'.gen == m.gen then p else p.(generations := p.generations + [(m'.gen, k'.generation)])
  }

  /** Publishing: same verdict, epoch, flag, stored head and event, unless the lease expires at this very
      instant and Redis has dropped its key. */
  lemma PublishAgrees(x: KeyExpiry, m: State, k: Keys, p: Pairing, i: nat, now: nat, h: Head)
    requires Agree(x, m, k, p, now) && i < |p.tokens|
    requires h.hash != "" <==> h.family == Evm
    requires h.commitment in m.heads ==> m.heads[h.commitment].family == h.family
    ensures var (m', a) := PublishStep(m, p.tokens[i].0, now, h); var (k', b) := PublishScript(x, k, p.tokens[i].1, now, h);
            && (SameOutcome(a, b) <==> !(x.AtTheInstant? && Expiring(m, p.tokens[i].0, now)))
            && (SameOutcome(a, b) ==> Agree(x, m', k', Issue(m, k, p, m', k'), now))
  {
    SessionOwns(x, m, k, p, now, i);
    var (m', a) := PublishStep(m, p.tokens[i].0, now, h); var (k', b) := PublishScript(x, k, p.tokens[i].1, now, h);
    if h.commitment in m.heads {
      SameIdentity(p, m.heads[h.commitment], k.heads[h.commitment], h);
    }
    if Live(x, m, p.tokens[i].0, now) && a.Ok? {
      PublishKeepsAgreement(x, m, k, p, i, now, h);
    }
  }

  // Both stores write a paired head under the same commitment.
  lemma WriteKeepsHeads(m: State, k: Keys, p: Pairing, p': Pairing, m': State, k': Keys, a: Head, b: Head)
    requires HeadsInv(m, k, p) && PairedHead(p', a, b) && (a.hash != "" <==> a.family == Evm)
    requires forall g | g in p.generations :: g in p'.generations
    requires m'.heads == m.heads[a.commitment := a] && k'.heads == k.heads[a.commitment := b]
    ensures HeadsInv(m', k', p')
  {
  }

  // The premises both branches of an accepted publication start from.
  predicate Publishing(x: KeyExpiry, m: State, k: Keys, p: Pairing, i: nat, now: nat, h: Head) {
    && Agree(x, m, k, p, now) && i < |p.tokens|
    && (h.hash != "" <==> h.family == Evm)
    && (h.commitment in m.heads ==> m.heads[h.commitment].family == h.family)
    && Live(x, m, p.tokens[i].0, now) && PublishStep(m, p.tokens[i].0, now, h).1.Ok?
  }

  // Corresponding writes: both refresh, or both issue a generation and append the same event.
  predicate Wrote(x: KeyExpiry, m: State, k: Keys, p: Pairing, now: nat, m': State, k': Keys, a: Head, b: Head) {
    && SameHead(a, b) && (a.hash != "" <==> a.family == Evm)
    && m'.heads == m.heads[a.commitment := a] && k'.heads == k.heads[a.commitment := b]
    && m'.leader == m.leader && k'.leader == Purge(x, k, now).leader && k'.fence == k.fence
    && if m'.gen == m.gen
       then PairedHead(p, a, b) && k'.generation == k.generation && m'.events == m.events && k'.stream == k.stream
       else && m'.gen == m.gen + 1 && k'.generation == k.generation + 1
            && (a.generation, b.generation) == (m'.gen, k'.generation)
            && if IsEvmLatest(a)
               then m'.events == m.events + [Event(m'.gen, a)] && k'.stream == k.stream + [Event(|k.stream| + 1, b)]
               else m'.events == m.events && k'.stream == k.stream
  }

  lemma SameWrite(x: KeyExpiry, m: State, k: Keys, p: Pairing, i: nat, now: nat, h: Head)
    requires Publishing(x, m, k, p, i, now, h)
    ensures var (m', a) := PublishStep(m, p.tokens[i].0, now, h); var (k', b) := PublishScript(x, k, p.tokens[i].1, now, h);
            a.Ok? && b.Ok? && Wrote(x, m, k, p, now, m', k', a.value, b.value)
  {
    SessionOwns(x, m, k, p, now, i);
    assert h.commitment in m.heads <==> h.commitment in k.heads;
    if h.commitment in m.heads {
      SameIdentity(p, m.heads[h.commitment], k.heads[h.commitment], h);
      hide CountersInv, LogInv, HeadsInv, LeaseInv;
      WriteOver(x, m, k, p, p.tokens[i].0, p.tokens[i].1, now, h);
    } else {
      hide CountersInv, LogInv, HeadsInv, LeaseInv;
    }
  }

  // The write over an existing head, once both stores agree on whether it is the same block.
  lemma WriteOver(x: KeyExpiry, m: State, k: Keys, p: Pairing, tm: Token, tk: Token, now: nat, h: Head)
    requires Live(x, m, tm, now) && Owns(Purge(x, k, now), tk) && (h.hash != "" <==> h.family == Evm)
    requires h.commitment in m.heads && h.commitment in k.heads && PairedHead(p, m.heads[h.commitment], k.heads[h.commitment])
    requires IdentityOf(m.heads[h.commitment]) == IdentityOf(h)
        <==> if h.hash != "" then k.heads[h.commitment].hash == h.hash else k.heads[h.commitment].number == h.number
    ensures var (m', a) := PublishStep(m, tm, now, h); var (k', b) := PublishScript(x, k, tk, now, h);
            && (a.Ok? <==> b.Ok?)
            && (a.Ok? ==> Wrote(x, m, k, p, now, m', k', a.value, b.value))
  {
    if IdentityOf(m.heads[h.commitment]) == IdentityOf(h) {
      assert PublishStep(m, tm, now, h).0.gen == m.gen;
    }
  }

  lemma WriteKeepsCounters(x: KeyExpiry, m: State, k: Keys, p: Pairing, now: nat, m': State, k': Keys, a: Head, b: Head)
    requires CountersInv(m, k, p) && Wrote(x, m, k, p, now, m', k', a, b)
    ensures var p' := Issue(m, k, p, m', k');
            CountersInv(m', k', p') && PairedHead(p', a, b) && p'.tokens == p.tokens
                && forall g | g in p.generations :: g in p'.generations
  {
  }

  lemma WriteKeepsLog(x: KeyExpiry, m: State, k: Keys, p: Pairing, now: nat, m': State, k': Keys, a: Head, b: Head)
    requires LogInv(m, k) && Wrote(x, m, k, p, now, m', k', a, b)
    ensures LogInv(m', k')
  {
  }

  lemma PublishKeepsAgreement(x: KeyExpiry, m: State, k: Keys, p: Pairing, i: nat, now: nat, h: Head)
    requires Publishing(x, m, k, p, i, now, h)
    ensures var (m', a) := PublishStep(m, p.tokens[i].0, now, h); var (k', b) := PublishScript(x, k, p.tokens[i].1, now, h);
            SameOutcome(a, b) && Agree(x, m', k', Issue(m, k, p, m', k'), now)
  {
    var (m', a) := PublishStep(m, p.tokens[i].0, now, h);
    var (k', b) := PublishScript(x, k, p.tokens[i].1, now, h);
    SameWrite(x, m, k, p, i, now, h);
    hide PublishStep, PublishScript, CountersInv, LogInv, HeadsInv;
    WriteKeepsCounters(x, m, k, p, now, m', k', a.value, b.value);
    WriteKeepsLog(x, m, k, p, now, m', k', a.value, b.value);
    WriteKeepsHeads(m, k, p, Issue(m, k, p, m', k'), m', k', a.value, b.value);
  }

  // Only the heads changed, if anything: both stores fenced the current head, or neither did.
  predicate Fenced(x: KeyExpiry, m: State, k: Keys, now: nat, m': State, k': Keys) {
    && m'.gen == m.gen && m'.leader == m.leader && m'.events == m.events
    && k'.fence == k.fence && k'.generation == k.generation && k'.stream == k.stream && k'.leader == Purge(x, k, now).leader
    && (|| (m'.heads == m.heads && k'.heads == k.heads)
        || (&& Latest in m.heads && Latest in k.heads
            && m'.heads == m.heads[Latest := Fence(m.heads[Latest])] && k'.heads == k.heads[Latest := Fence(k.heads[Latest])]))
  }

  lemma FenceKeepsHeads(x: KeyExpiry, m: State, k: Keys, p: Pairing, now: nat, m': State, k': Keys)
    requires HeadsInv(m, k, p) && Fenced(x, m, k, now, m', k')
    ensures HeadsInv(m', k', p)
  {
    if m'.heads != m.heads {
      var a, b := m.heads[Latest], k.heads[Latest];
      assert PairedHead(p, a, b);
      WriteKeepsHeads(m, k, p, p, m', k', Fence(a), Fence(b));
    }
  }

  lemma FenceKeepsLease(x: KeyExpiry, m: State, k: Keys, p: Pairing, now: nat, m': State, k': Keys)
    requires LeaseInv(x, m, k, p, now) && Fenced(x, m, k, now, m', k')
    ensures LeaseInv(x, m', k', p, now)
  {
  }

  lemma FenceKeepsAgreement(x: KeyExpiry, m: State, k: Keys, p: Pairing, now: nat, m': State, k': Keys)
    requires Agree(x, m, k, p, now) && Fenced(x, m, k, now, m', k')
    ensures Agree(x, m', k', p, now)
  {
    hide HeadsInv, Monotone, DistinctTokens, SameHead;
    FenceKeepsHeads(x, m, k, p, now, m', k');
    FenceKeepsLease(x, m, k, p, now, m', k');
    hide LeaseInv;
  }

  lemma SameFence(x: KeyExpiry, m: State, k: Keys, p: Pairing, tm: Token, tk: Token, now: nat)
    requires HeadsInv(m, k, p) && (Live(x, m, tm, now) <==> Owns(Purge(x, k, now), tk))
    ensures var (m', a) := BeginReorgStep(m, tm, now); var (k', b) := BeginReorgScript(x, k, tk, now);
            && (SameOutcome(a, b) <==> !(x.AfterTheInstant? && Expiring(m, tm, now)))
            && (SameOutcome(a, b) ==> Fenced(x, m, k, now, m', k'))
  {
    if Latest in m.heads {
      assert PairedHead(p, m.heads[Latest], k.heads[Latest]);
    }
    hide HeadsInv;
  }

  /** Fencing: same verdict and head, unless the lease expires at this very instant and Redis still shows its key. */
  lemma BeginReorgAgrees(x: KeyExpiry, m: State, k: Keys, p: Pairing, i: nat, now: nat)
    requires Agree(x, m, k, p, now) && i < |p.tokens|
    ensures var (m', a) := BeginReorgStep(m, p.tokens[i].0, now); var (k', b) := BeginReorgScript(x, k, p.tokens[i].1, now);
            && (SameOutcome(a, b) <==> !(x.AfterTheInstant? && Expiring(m, p.tokens[i].0, now)))
            && (SameOutcome(a, b) ==> Agree(x, m', k', p, now))
  {
    SessionOwns(x, m, k, p, now, i);
    SameFence(x, m, k, p, p.tokens[i].0, p.tokens[i].1, now);
    hide BeginReorgStep, BeginReorgScript, SameOutcome;
    var (m', a) := BeginReorgStep(m, p.tokens[i].0, now); var (k', b) := BeginReorgScript(x, k, p.tokens[i].1, now);
    if SameOutcome(a, b) {
      FenceKeepsAgreement(x, m, k, p, now, m', k');
    }
  }

  /******* Operation sequences *******/

  // Sessions are named by the ordinal of their lease.
  datatype Op =
    | Acquire(owner: string, ttl: nat)
    | Renew(i: nat, ttl: nat)
    | Release(i: nat)
    | Publish(i: nat, h: Head)
    | BeginReorg(i: nat)

  datatype Outcome = Leased(ok: bool) | Answered(result: Result<Head, StoreError>) | Done

  datatype Pair = Pair(memory: State, redis: Keys, pairing: Pairing)

  // One operation on both stores, with both outcomes.
  function Both(x: KeyExpiry, s: Pair, op: Op, now: nat): (Pair, Outcome, Outcome) {
    var p := s.pairing;
    if !op.Acquire? && op.i >= |p.tokens| then (s, Done, Done)
    else
      match op
      case Acquire(owner, ttl) =>
        var (m, a) := AcquireStep(s.memory, owner, now, ttl);
        var (k, b) := AcquireScript(x, s.redis, owner, now, ttl);
        (Pair(m, k, if a.Some? && b.Some? then p.(tokens := p.tokens + [(a.value, b.value)]) else p), Leased(a.Some?),
            Leased(b.Some?))
      case Renew(i, ttl) =>
        var (m, a) := RenewStep(s.memory, p.tokens[i].0, now, ttl);
        var (k, b) := RenewScript(x, s.redis, p.tokens[i].1, now, ttl);
        (Pair(m, k, p), Leased(a), Leased(b))
      case Release(i) =>
        (Pair(ReleaseStep(s.memory, p.tokens[i].0), ReleaseScript(x, s.redis, p.tokens[i].1, now), p), Done, Done)
      case Publish(i, h) =>
        var (m, a) := PublishStep(s.memory, p.tokens[i].0, now, h);
        var (k, b) := PublishScript(x, s.redis, p.tokens[i].1, now, h);
        (Pair(m, k, Issue(s.memory, s.redis, p, m, k)), Answered(a), Answered(b))
      case BeginReorg(i) =>
        var (m, a) := BeginReorgStep(s.memory, p.tokens[i].0, now);
        var (k, b) := BeginReorgScript(x, s.redis, p.tokens[i].1, now);
        (Pair(m, k, p), Answered(a), Answered(b))
  }

  predicate SameOutcomes(a: Outcome, b: Outcome) {
    match (a, b)
    case (Leased(x), Leased(y)) => x == y
    case (Answered(x), Answered(y)) => SameOutcome(x, y)
    case (Done, Done) => true
    case _ => false
  }

  // The operation falls on the very instant at which the lease expires, and it is one for which the memory
  // store and this reading of Redis treat that instant differently.
  predicate AtExpiry(x: KeyExpiry, s: Pair, op: Op, now: nat) {
    && s.memory.leader.Some? && now == s.memory.leader.value.expires
    && match op
       case Acquire(_, _) => x.AfterTheInstant?
       case Renew(i, _) => x.AtTheInstant? && i < |s.pairing.tokens| && Holds(s.memory, s.pairing.tokens[i].0)
       case Release(_) => false
       case Publish(i, _) => x.AtTheInstant? && i < |s.pairing.tokens| && Holds(s.memory, s.pairing.tokens[i].0)
       case BeginReorg(i) => x.AfterTheInstant? && i < |s.pairing.tokens| && Holds(s.memory, s.pairing.tokens[i].0)
  }

  // Offered heads are of their commitment's kind, as the coordinators of one chain offer them.
  predicate KindOf(s: Pair, op: Op) {
    op.Publish? ==>
      && (op.h.hash != "" <==> op.h.family == Evm)
      && (op.h.commitment in s.memory.heads ==> s.memory.heads[op.h.commitment].family == op.h.family)
  }

  /** One operation from agreeing stores: the outcomes agree if and only if it does not fall on the expiry
      instant as a renewal or publication by the holder (where the key is gone then) or as an acquisition or
      a fence of the holder (where it is still there), and then the stores still agree. */
  lemma OperationAgrees(x: KeyExpiry, s: Pair, op: Op, then0: nat, now: nat)
    requires Agree(x, s.memory, s.redis, s.pairing, then0) && then0 <= now && KindOf(s, op)
    ensures var (s', a, b) := Both(x, s, op, now);
            && (SameOutcomes(a, b) <==> !AtExpiry(x, s, op, now))
            && (SameOutcomes(a, b) ==> Agree(x, s'.memory, s'.redis, s'.pairing, now))
  {
    var m, k, p := s.memory, s.redis, s.pairing;
    LeaseInvLater(x, m, k, p, then0, now);
    assert Agree(x, m, k, p, now);
    hide Agree, LeaseInv, Purge, AcquireScript, RenewScript, ReleaseScript, PublishScript, BeginReorgScript,
      AcquireStep, RenewStep, ReleaseStep, PublishStep, BeginReorgStep, SameOutcome, Issue;
    if op.Acquire? || op.i < |p.tokens| {
      match op
      case Acquire(owner, ttl) => AcquireAgrees(x, m, k, p, owner, now, ttl);
      case Renew(i, ttl) => RenewAgrees(x, m, k, p, i, now, ttl);
      case Release(i) => ReleaseAgrees(x, m, k, p, i, now);
      case Publish(i, h) => PublishAgrees(x, m, k, p, i, now, h);
      case BeginReorg(i) => BeginReorgAgrees(x, m, k, p, i, now);
    }
  }

  // Every outcome agrees until an operation falls on an expiry instant or offers a head of the wrong kind.
  predicate Lockstep(x: KeyExpiry, s: Pair, ops: seq<(Op, nat)>)
    decreases |ops|
  {
    ops == [] || !KindOf(s, ops[0].0) || AtExpiry(x, s, ops[0].0, ops[0].1) ||
    var (s', a, b) := Both(x, s, ops[0].0, ops[0].1);
    SameOutcomes(a, b) && Lockstep(x, s', ops[1..])
  }

  /** The two stores give the same verdicts, heads, epochs, flags and events on every timed sequence of
      operations, up to the first one that falls on an expiry instant or offers a head of the wrong kind. */
  lemma {:induction false} StoresRunInLockstep(x: KeyExpiry, s: Pair, ops: seq<(Op, nat)>, start: nat)
    requires Agree(x, s.memory, s.redis, s.pairing, start)
    requires forall i, j | 0 <= i < j < |ops| :: ops[i].1 <= ops[j].1
    requires forall i | 0 <= i < |ops| :: start <= ops[i].1
    ensures Lockstep(x, s, ops)
    decreases |ops|
  {
    if ops != [] && KindOf(s, ops[0].0) && !AtExpiry(x, s, ops[0].0, ops[0].1) {
      OperationAgrees(x, s, ops[0].0, start, ops[0].1);
      hide Agree;
      StoresRunInLockstep(x, Both(x, s, ops[0].0, ops[0].1).0, ops[1..], ops[0].1);
    }
  }

  lemma EmptyStoresAgree(x: KeyExpiry)
    ensures Agree(x, EMPTY, NO_KEYS, Pairing([], []), 0)
  {
  }

  const NO_PAIR := Pair(EMPTY, NO_KEYS, Pairing([], []))

  /** Where Redis drops the key at the expiry instant, a memory lease publishes then and a Redis one is lost. */
  lemma DroppedKeyDisagrees(h: Head)
    requires h.family == Solana && h.hash == ""
    ensures var x := AtTheInstant;
            var s := Both(x, NO_PAIR, Op.Acquire("a", 10), 0).0;
            var (_, a, b) := Both(x, s, Op.Publish(0, h), 10);
            a.Answered? && a.result.Ok? && b == Answered(Err(LeadershipLost))
  {
  }

  /** Where Redis still shows the key at the expiry instant, memory hands the lease over then and Redis does
      not, and a fence can be raised in Redis and not in memory. */
  lemma LingeringKeyDisagrees(h: Head)
    requires IsEvmLatest(h) && h.hash != "" && h.reorgEpoch == 0 && !h.reorgPending
    ensures var x := AfterTheInstant;
            var s := Both(x, NO_PAIR, Op.Acquire("a", 10), 0).0;
            var (_, a, b) := Both(x, s, Op.Acquire("b", 10), 10);
            var published := Both(x, s, Op.Publish(0, h), 5).0;
            var (_, c, d) := Both(x, published, Op.BeginReorg(0), 10);
            && a == Leased(true) && b == Leased(false)
            && c == Answered(Err(LeadershipLost)) && d.Answered? && d.result.Ok?
  {
  }
}
