/** The reorg-fence protocol: any number of coordinators sharing one head store.

    A run interleaves the atomic store operations of all coordinators (internal/coordinator/coordinator.go:80-423)
    with lease changes.  Header walks and provider queries touch no shared state, so what they
    established appears as the enabling condition of the store operation that follows them; `Coordinator`
    proves that the program's walks establish exactly these conditions.  Gateways only read the store:
    a snapshot is the store of some world of the run. */
module Protocol {
  import opened Wrappers
  import opened Headers
  import opened HeadStore

  datatype Config = Config(tree: HeaderTree, family: Family, depth: nat)

  // Where the sequential `consider` of one leadership token stands between two store operations.
  datatype Phase =
    | Idle
    | Considering(candidate: Head, current: Option<Head>)  // after its Snapshot
    | Fenced(candidate: Head, head: Head)                  // after its own BeginReorg returned `head`

  // `accepted` is the history of the EVM latest head: every value it ever had, oldest first.
  datatype World = World(store: State, sessions: map<Token, Phase>, accepted: seq<Head>)

  const INITIAL := World(EMPTY, map[], [])

  datatype Action =
    | Acquire(owner: string, ttl: nat)
    | Renew(token: Token, ttl: nat)
    | Release(token: Token)
    | Read(token: Token, candidate: Head)
    | Diverge(token: Token)
    | Publish(token: Token, reorg: bool, replies: seq<Reply>, refreshed: nat)
    | Abort(token: Token)

  // What a coordinator of this chain may be handed by its provider polls and subscriptions.
  predicate Observed(cfg: Config, c: Head) {
    && c.family == cfg.family
    && (c.family == Evm ==> c.commitment == Latest && Parsed(cfg.tree, c))
    && (c.family == Solana ==>
          && c.commitment in {Processed, Confirmed, Finalized} && c.hash == ""
          && c.reorgEpoch == 0 && !c.reorgPending)
  }

  /******* Fork choice *******/

  // One of the two blocks is on the other's branch: no fork.
  predicate Linear(cfg: Config, current: Head, candidate: Head) {
    OnBranch(cfg.tree, candidate, current) || OnBranch(cfg.tree, current, candidate)
  }

  // The branches share a block at height n, within the reorg depth of the current head.
  predicate CommonAncestor(cfg: Config, current: Head, candidate: Head, n: nat) {
    && current.number <= n + cfg.depth
    && HashAt(cfg.tree, current.hash, n).Some?
    && HashAt(cfg.tree, current.hash, n) == HashAt(cfg.tree, candidate.hash, n)
  }

  // Neither block is on the other's branch, and the branches meet inside the window.
  ghost predicate Forked(cfg: Config, current: Head, candidate: Head) {
    && !Linear(cfg, current, candidate)
    && candidate.number <= current.number + cfg.depth
    && exists n: nat :: CommonAncestor(cfg, current, candidate, n)
  }

  datatype Evidence = Unproved | Displaced | Seen(allCurrent: bool)

  predicate Answers(r: Reply, current: Head) {
    r.Block? && r.head.number == current.number
  }

  predicate Confirms(r: Reply, current: Head) {
    Answers(r, current) && r.head.hash == current.hash
  }

  // What the providers' blocks at the current height say about the current head.
  function EvidenceOf(current: Head, replies: seq<Reply>): Evidence {
    if exists r | r in replies :: Confirms(r, current) then Seen(forall r | r in replies :: Confirms(r, current))
    else if replies != [] && forall r | r in replies :: Answers(r, current) then Displaced
    else Unproved
  }

  function Acknowledge(h: Head, current: Head): Head {
    h.(reorgEpoch := current.reorgEpoch, reorgPending := false)
  }

  // The head an EVM coordinator offers once its candidate is classified, if any.
  function ForkChoice(current: Head, candidate: Head, reorg: bool, evidence: Evidence, refreshed: nat): Option<Head> {
    if candidate.hash == current.hash then
      if current.reorgPending && evidence != Seen(true) then None else Some(Acknowledge(candidate, current))
    else if candidate.number > current.number then Some(Acknowledge(candidate, current))
    else if !reorg then None
    else
      match evidence
      case Unproved => None
      case Displaced => Some(Acknowledge(candidate, current))
      case Seen(allCurrent) => if allCurrent then Some(Acknowledge(current.(observedAt := refreshed), current)) else None
  }

  predicate HasParent(tree: HeaderTree, c: Head) {
    c.number > 0 ==> Linked(tree, c.hash, c.parentHash)
  }

  ghost function Offered(cfg: Config, phase: Phase, reorg: bool, replies: seq<Reply>, refreshed: nat): Option<Head> {
    match phase
    case Idle => None
    case Considering(c, None) => if cfg.family == Evm && !HasParent(cfg.tree, c) then None else Some(c)
    case Considering(c, Some(current)) =>
      if cfg.family == Solana then if c.number < current.number then None else Some(c)
      else if c.hash != current.hash
              && if reorg then !current.reorgPending || !Forked(cfg, current, c) else !Linear(cfg, current, c) then None
      else ForkChoice(current, c, reorg, EvidenceOf(current, replies), refreshed)
    case Fenced(c, current) =>
      if !reorg || !Forked(cfg, current, c) then None
      else ForkChoice(current, c, reorg, EvidenceOf(current, replies), refreshed)
  }

  /******* Steps *******/

  ghost predicate Enabled(cfg: Config, w: World, a: Action) {
    match a
    case Acquire(_, _) => true
    case Renew(_, _) => true
    case Release(_) => true
    case Read(t, c) => t in w.sessions && w.sessions[t].Idle? && Observed(cfg, c)
    case Diverge(t) =>
      && cfg.family == Evm && t in w.sessions && w.sessions[t].Considering? && w.sessions[t].current.Some?
      && w.sessions[t].candidate.hash != w.sessions[t].current.value.hash
      && !w.sessions[t].current.value.reorgPending
    case Publish(t, reorg, replies, refreshed) =>
      t in w.sessions && Offered(cfg, w.sessions[t], reorg, replies, refreshed).Some?
    case Abort(t) => t in w.sessions
  }

  // The clock reading `now` is arbitrary: clocks need not agree or advance.
  ghost function Next(cfg: Config, w: World, a: Action, now: nat): World
    requires Enabled(cfg, w, a)
  {
    match a
    case Acquire(owner, ttl) =>
      var (s, token) := AcquireStep(w.store, owner, now, ttl);
      World(s, if token.Some? then w.sessions[token.value := Idle] else w.sessions, w.accepted)
    case Renew(t, ttl) => w.(store := RenewStep(w.store, t, now, ttl).0)
    case Release(t) => w.(store := ReleaseStep(w.store, t))
    case Read(t, c) => w.(sessions := w.sessions[t := Considering(c, Lookup(w.store.heads, c.commitment))])
    case Diverge(t) =>
      var (s, r) := BeginReorgStep(w.store, t, now);
      if r.Err? then w.(store := s)
      else World(s, w.sessions[t := Fenced(w.sessions[t].candidate, r.value)], Record(w.accepted, s))
    case Publish(t, reorg, replies, refreshed) =>
      var h := Offered(cfg, w.sessions[t], reorg, replies, refreshed).value;
      var (s, r) := PublishStep(w.store, t, now, h);
      World(s, w.sessions[t := Idle], if r.Ok? && IsEvmLatest(h) then Record(w.accepted, s) else w.accepted)
    case Abort(t) => w.(sessions := w.sessions[t := Idle])
  }

  function Record(accepted: seq<Head>, s: State): seq<Head> {
    if Latest in s.heads then accepted + [s.heads[Latest]] else accepted
  }

  ghost predicate Step(cfg: Config, w: World, w': World) {
    exists a: Action, now: nat :: Enabled(cfg, w, a) && Next(cfg, w, a, now) == w'
  }

  ghost predicate IsRun(cfg: Config, ws: seq<World>) {
    |ws| > 0 && ws[0] == INITIAL && forall i | 0 <= i < |ws| - 1 :: Step(cfg, ws[i], ws[i + 1])
  }

  /******* Invariant *******/

  // How two values of the accepted head relate when `a` was accepted no later than `b`.
  predicate Ordered(tree: HeaderTree, a: Head, b: Head) {
    && a.reorgEpoch <= b.reorgEpoch
    && a.generation <= b.generation
    && (a.reorgEpoch == b.reorgEpoch && b.reorgPending ==> a.reorgPending)
    && (a.reorgEpoch == b.reorgEpoch && !a.reorgPending ==> OnBranch(tree, b, a))
  }

  ghost predicate Chronicle(tree: HeaderTree, accepted: seq<Head>) {
    forall i, j | 0 <= i <= j < |accepted| :: Ordered(tree, accepted[i], accepted[j])
  }

  predicate Accepted(cfg: Config, s: State, h: Head) {
    Truthful(cfg.tree, h) && IsEvmLatest(h) && h.generation <= s.gen
  }

  ghost predicate TokensInv(w: World) {
    && WellStamped(w.store)
    && (forall t | t in w.sessions :: t.fence <= w.store.gen)
    && (w.store.leader.Some? ==> w.store.leader.value.token in w.sessions)
  }

  ghost predicate HistoryInv(cfg: Config, w: World) {
    && (forall c | c in w.store.heads ::
          && w.store.heads[c].commitment == c && w.store.heads[c].family == cfg.family
          && (cfg.family == Evm ==> c == Latest))
    && (forall h | h in w.accepted :: Accepted(cfg, w.store, h))
    && (Latest in w.store.heads <==> w.accepted != [])
    && (w.accepted != [] ==> w.store.heads[Latest] == w.accepted[|w.accepted| - 1])
    && Chronicle(cfg.tree, w.accepted)
  }

  // While a token holds the lease, nobody else has moved the head its session read.
  predicate SessionInv(cfg: Config, s: State, t: Token, p: Phase) {
    match p
    case Idle => true
    case Considering(c, current) =>
      && Observed(cfg, c)
      && (cfg.family == Evm && current.Some? ==> Truthful(cfg.tree, current.value) && IsEvmLatest(current.value))
      && (Holds(s, t) ==> Lookup(s.heads, c.commitment) == current)
    case Fenced(c, current) =>
      && Observed(cfg, c) && cfg.family == Evm
      && Truthful(cfg.tree, current) && IsEvmLatest(current) && current.reorgPending
      && (Holds(s, t) ==> Lookup(s.heads, Latest) == Some(current))
  }

  ghost predicate Inv(cfg: Config, w: World) {
    && TokensInv(w) && HistoryInv(cfg, w)
    && forall t | t in w.sessions :: SessionInv(cfg, w.store, t, w.sessions[t])
  }

  /******* Preservation *******/

  // A head may follow `last` by fencing it, by recovering from its fence, or by extending its branch.
  predicate Follows(tree: HeaderTree, last: Head, h: Head) {
    && last.generation <= h.generation
    && (|| (h == Fence(last).(generation := h.generation) && !last.reorgPending)
        || (!h.reorgPending && h.reorgEpoch == last.reorgEpoch && (last.reorgPending || OnBranch(tree, h, last))))
  }

  lemma ChronicleExtends(cfg: Config, s: State, accepted: seq<Head>, h: Head)
    requires Chronicle(cfg.tree, accepted)
    requires forall x | x in accepted :: Truthful(cfg.tree, x)
    requires Truthful(cfg.tree, h)
    requires accepted != [] ==> Follows(cfg.tree, accepted[|accepted| - 1], h)
    ensures Chronicle(cfg.tree, accepted + [h])
  {
    var n := |accepted|;
    forall i, j | 0 <= i <= j <= n
      ensures Ordered(cfg.tree, (accepted + [h])[i], (accepted + [h])[j])
    {
      if i < n && j == n {
        var x, last := accepted[i], accepted[n - 1];
        assert Ordered(cfg.tree, x, last);
        if x.reorgEpoch == h.reorgEpoch && !x.reorgPending {
          OnBranchTransitive(cfg.tree, h, last, x);
        }
      }
    }
  }

  // What the store does to an offered head.
  lemma PublishedHead(cfg: Config, w: World, t: Token, now: nat, h: Head)
    requires Inv(cfg, w)
    ensures var (s, r) := PublishStep(w.store, t, now, h);
            && (r.Ok? ==> Holds(w.store, t) && Lookup(s.heads, h.commitment) == Some(r.value)
                          && r.value == h.(generation := r.value.generation, changedAt := r.value.changedAt)
                          && r.value.generation <= s.gen
                          && (h.commitment in w.store.heads ==> w.store.heads[h.commitment].generation <= r.value.generation))
            && (r.Err? ==> s == w.store)
  {
  }

  lemma OfferedFollows(cfg: Config, current: Head, c: Head, reorg: bool, evidence: Evidence, refreshed: nat)
    requires Truthful(cfg.tree, current) && Truthful(cfg.tree, c) && IsEvmLatest(current) && IsEvmLatest(c)
    requires c.hash == current.hash || (if reorg then current.reorgPending else Linear(cfg, current, c))
    requires ForkChoice(current, c, reorg, evidence, refreshed).Some?
    ensures var h := ForkChoice(current, c, reorg, evidence, refreshed).value;
            && Truthful(cfg.tree, h) && IsEvmLatest(h) && !h.reorgPending && h.reorgEpoch == current.reorgEpoch
            && (current.reorgPending || OnBranch(cfg.tree, h, current))
  {
  }

  // What an offer has to be, given the head it would replace.
  predicate Acceptable(cfg: Config, previous: Option<Head>, h: Head) {
    && h.family == cfg.family
    && (cfg.family == Solana ==> h.commitment != Latest && (previous.Some? ==> previous.value.number <= h.number))
    && (cfg.family == Evm ==>
          && Truthful(cfg.tree, h) && IsEvmLatest(h) && !h.reorgPending
          && h.reorgEpoch == (if previous.Some? then previous.value.reorgEpoch else 0)
          && (previous.Some? ==> previous.value.reorgPending || OnBranch(cfg.tree, h, previous.value)))
  }

  lemma OfferIsSafe(cfg: Config, w: World, t: Token, reorg: bool, replies: seq<Reply>, refreshed: nat)
    requires Inv(cfg, w) && t in w.sessions
    requires Offered(cfg, w.sessions[t], reorg, replies, refreshed).Some?
    ensures var h := Offered(cfg, w.sessions[t], reorg, replies, refreshed).value;
            var previous := Lookup(w.store.heads, h.commitment);
            && h.family == cfg.family && (cfg.family == Evm ==> IsEvmLatest(h))
            && (Holds(w.store, t) ==> Acceptable(cfg, previous, h))
  {
    assert SessionInv(cfg, w.store, t, w.sessions[t]);
    match w.sessions[t]
    case Considering(c, Some(current)) =>
      if cfg.family == Evm {
        OfferedFollows(cfg, current, c, reorg, EvidenceOf(current, replies), refreshed);
      }
    case Considering(c, None) =>
    case Fenced(c, current) =>
      OfferedFollows(cfg, current, c, reorg, EvidenceOf(current, replies), refreshed);
  }

  lemma PublishKeepsHistory(cfg: Config, w: World, t: Token, now: nat, h: Head, sessions: map<Token, Phase>)
    requires Inv(cfg, w) && Acceptable(cfg, Lookup(w.store.heads, h.commitment), h)
    ensures var (s, r) := PublishStep(w.store, t, now, h);
            r.Ok? ==> HistoryInv(cfg, World(s, sessions, if cfg.family == Evm then w.accepted + [r.value] else w.accepted))
  {
    var (s, r) := PublishStep(w.store, t, now, h);
    hide SessionInv, IdentityOf, HashAt;
    if r.Ok? {
      PublishedHead(cfg, w, t, now, h);
      PublishKeepsStamps(w.store, t, now, h);
      assert s.heads == w.store.heads[h.commitment := r.value];
      if cfg.family == Evm {
        var accepted := w.accepted + [r.value];
        ChronicleExtends(cfg, s, w.accepted, r.value);
        assert forall x | x in accepted :: x in w.accepted || x == r.value;
      }
    }
  }

  lemma PublishKeepsSessions(cfg: Config, w: World, t: Token, reorg: bool, replies: seq<Reply>, refreshed: nat, now: nat)
    requires Inv(cfg, w) && Enabled(cfg, w, Action.Publish(t, reorg, replies, refreshed))
    ensures var w' := Next(cfg, w, Action.Publish(t, reorg, replies, refreshed), now);
            forall u | u in w'.sessions :: SessionInv(cfg, w'.store, u, w'.sessions[u])
  {
  }

  lemma HistoryIgnoresSessions(cfg: Config, w: World, sessions: map<Token, Phase>)
    requires HistoryInv(cfg, w)
    ensures HistoryInv(cfg, w.(sessions := sessions))
  {
  }

  lemma PublishKeepsTokens(cfg: Config, w: World, t: Token, reorg: bool, replies: seq<Reply>, refreshed: nat, now: nat)
    requires Inv(cfg, w) && Enabled(cfg, w, Action.Publish(t, reorg, replies, refreshed))
    ensures TokensInv(Next(cfg, w, Action.Publish(t, reorg, replies, refreshed), now))
  {
    hide HistoryInv, SessionInv, Offered;
    PublishKeepsStamps(w.store, t, now, Offered(cfg, w.sessions[t], reorg, replies, refreshed).value);
  }

  lemma PublishKeepsInv(cfg: Config, w: World, t: Token, reorg: bool, replies: seq<Reply>, refreshed: nat, now: nat)
    requires Inv(cfg, w) && Enabled(cfg, w, Action.Publish(t, reorg, replies, refreshed))
    ensures Inv(cfg, Next(cfg, w, Action.Publish(t, reorg, replies, refreshed), now))
  {
    var h := Offered(cfg, w.sessions[t], reorg, replies, refreshed).value;
    PublishKeepsTokens(cfg, w, t, reorg, replies, refreshed, now);
    PublishKeepsSessions(cfg, w, t, reorg, replies, refreshed, now);
    OfferIsSafe(cfg, w, t, reorg, replies, refreshed);
    PublishedHead(cfg, w, t, now, h);
    var (s, r) := PublishStep(w.store, t, now, h);
    if r.Ok? {
      PublishKeepsHistory(cfg, w, t, now, h, w.sessions[t := Idle]);
    }
    HistoryIgnoresSessions(cfg, w, w.sessions[t := Idle]);
    hide PublishStep, Offered, TokensInv, HistoryInv, SessionInv, OnBranch, Truthful;
    assert r.Ok? ==> (IsEvmLatest(h) <==> cfg.family == Evm);
  }

  lemma DivergeKeepsInv(cfg: Config, w: World, t: Token, now: nat)
    requires Inv(cfg, w) && Enabled(cfg, w, Diverge(t))
    ensures Inv(cfg, Next(cfg, w, Diverge(t), now))
  {
    var w' := Next(cfg, w, Diverge(t), now);
    var (s, r) := BeginReorgStep(w.store, t, now);
    LeaseStepsKeepStamps(w.store, "", t, now, 0);
    assert SessionInv(cfg, w.store, t, w.sessions[t]);
    if r.Ok? {
      ChronicleExtends(cfg, s, w.accepted, r.value);
      assert HistoryInv(cfg, w');
    }
    forall u | u in w'.sessions
      ensures SessionInv(cfg, s, u, w'.sessions[u])
    {
      assert SessionInv(cfg, w.store, u, w.sessions[u]);
    }
  }

  lemma LeaseKeepsTokens(cfg: Config, w: World, a: Action, now: nat)
    requires Inv(cfg, w) && Enabled(cfg, w, a) && !a.Publish? && !a.Diverge?
    ensures TokensInv(Next(cfg, w, a, now))
  {
  }

  lemma LeaseKeepsHistory(cfg: Config, w: World, a: Action, now: nat)
    requires Inv(cfg, w) && Enabled(cfg, w, a) && !a.Publish? && !a.Diverge?
    ensures HistoryInv(cfg, Next(cfg, w, a, now))
  {
  }

  lemma LeaseKeepsInv(cfg: Config, w: World, a: Action, now: nat)
    requires Inv(cfg, w) && Enabled(cfg, w, a) && !a.Publish? && !a.Diverge?
    ensures Inv(cfg, Next(cfg, w, a, now))
  {
    var w' := Next(cfg, w, a, now);
    LeaseKeepsTokens(cfg, w, a, now);
    LeaseKeepsHistory(cfg, w, a, now);
    hide WellStamped, Chronicle, OnBranch;
    forall u | u in w'.sessions
      ensures SessionInv(cfg, w'.store, u, w'.sessions[u])
    {
      if u in w.sessions {
        assert SessionInv(cfg, w.store, u, w.sessions[u]);
      }
      if a.Read? && u == a.token && Latest in w.store.heads {
        assert w.store.heads[Latest] in w.accepted;
      }
    }
  }

  /** Exactly which accepted EVM publications keep one branch per epoch: those that end a fence, and those of a
      block whose branch holds the current head. */
  lemma BranchKeptExactly(cfg: Config, w: World, t: Token, now: nat, h: Head)
    requires Inv(cfg, w) && w.accepted != [] && Truthful(cfg.tree, h) && IsEvmLatest(h)
    requires PublishStep(w.store, t, now, h).1.Ok?
    ensures var current := w.store.heads[Latest];
            var published := PublishStep(w.store, t, now, h).1.value;
            Chronicle(cfg.tree, w.accepted + [published]) <==> current.reorgPending || OnBranch(cfg.tree, h, current)
  {
    var current, published := w.store.heads[Latest], PublishStep(w.store, t, now, h).1.value;
    var longer := w.accepted + [published];
    PublishedHead(cfg, w, t, now, h);
    assert longer[|w.accepted| - 1] == current && longer[|w.accepted|] == published;
    if Chronicle(cfg.tree, longer) {
      assert Ordered(cfg.tree, current, published);
    }
    if current.reorgPending || OnBranch(cfg.tree, h, current) {
      ChronicleExtends(cfg, w.store, w.accepted, published);
    }
  }

  /** The store alone enforces neither: any two blocks, of different branches for instance, are accepted one after
      the other under one epoch by whoever holds the lease. */
  lemma StoreAcceptsForks(a: Head, b: Head)
    requires IsEvmLatest(a) && IsEvmLatest(b) && a.hash != "" && b.hash != a.hash
    requires a.reorgEpoch == b.reorgEpoch == 0 && !a.reorgPending && !b.reorgPending
    ensures var s := AcquireStep(EMPTY, "owner", 0, 10);
            && s.1.Some?
            && var first := PublishStep(s.0, s.1.value, 0, a);
               var second := PublishStep(first.0, s.1.value, 0, b);
               && first.1.Ok? && second.1.Ok? && Lookup(second.0.heads, Latest) == Some(second.1.value)
               && second.1.value == b.(generation := 3, changedAt := second.1.value.changedAt)
               && first.1.value == a.(generation := 2, changedAt := first.1.value.changedAt)
  {
  }

  /** Every step of the protocol keeps the invariant. */
  lemma StepKeepsInv(cfg: Config, w: World, w': World)
    requires Inv(cfg, w) && Step(cfg, w, w')
    ensures Inv(cfg, w')
  {
    var a: Action, now: nat :| Enabled(cfg, w, a) && Next(cfg, w, a, now) == w';
    match a
    case Publish(t, reorg, replies, refreshed) => PublishKeepsInv(cfg, w, t, reorg, replies, refreshed, now);
    case Diverge(t) => DivergeKeepsInv(cfg, w, t, now);
    case _ => LeaseKeepsInv(cfg, w, a, now);
  }
}
