/** The shared head store together with the run of the protocol that produced its contents.

    The store is shared: between any two operations of one participant, the others may take any number
    of protocol steps.  `Interfere` is that gap; callers learn from it only what every run guarantees. */
module Cluster {
  import opened Wrappers
  import opened Headers
  import opened HeadStore
  import opened Protocol
  import opened Safety

  // The last step of the run replaced exactly the head that the session of `token` believed in.
  ghost predicate ReplacedWhatItRead(run: seq<World>, token: Token, c: Commitment) {
    && |run| >= 2 && token in run[|run| - 2].sessions
    && Lookup(run[|run| - 2].store.heads, c) == Believed(run[|run| - 2].sessions[token])
  }

  // The session believes the accepted EVM head to be fenced.
  predicate BelievesFenced(p: Phase) {
    Believed(p).Some? && Believed(p).value.reorgPending && Believed(p).value.commitment == Latest
  }

  // If the session had found or put up a fence before the last step and still holds the lease, the fence is still up.
  ghost predicate FenceStillUp(run: seq<World>, token: Token) {
    && |run| >= 2 && token in run[|run| - 2].sessions
    && var w := run[|run| - 2];
       && (w.sessions[token].Fenced? ==> BelievesFenced(w.sessions[token]))
       && (BelievesFenced(w.sessions[token]) && Holds(w.store, token) ==>
             Current(run[|run| - 1]) == Believed(w.sessions[token]))
  }

  // The session believed in a fence before the last step of the run.
  ghost predicate BelievedFenced(run: seq<World>, token: Token) {
    |run| >= 2 && token in run[|run| - 2].sessions && BelievesFenced(run[|run| - 2].sessions[token])
  }

  lemma BelievedFenceIsUp(cfg: Config, w: World, token: Token)
    requires Inv(cfg, w) && token in w.sessions
    ensures w.sessions[token].Fenced? ==> BelievesFenced(w.sessions[token])
    ensures BelievesFenced(w.sessions[token]) && Holds(w.store, token) ==> Current(w) == Believed(w.sessions[token])
  {
    assert SessionInv(cfg, w.store, token, w.sessions[token]);
  }

  class SharedStore {
    const cfg: Config
    const store: MemoryStore
    ghost var run: seq<World>

    ghost predicate Valid()
      reads this, store
    {
      IsRun(cfg, run) && run[|run| - 1].store == store.Value()
    }

    ghost function Last(): World
      requires run != []
      reads this
    {
      run[|run| - 1]
    }

    ghost function PhaseOf(token: Token): Phase
      requires run != []
      reads this
    {
      if token in Last().sessions then Last().sessions[token] else Idle
    }

    constructor (cfg: Config)
      ensures Valid() && fresh(store) && this.cfg == cfg && run == [INITIAL]
    {
      this.cfg := cfg;
      store := new MemoryStore();
      run := [INITIAL];
    }

    // Adds the step that the store operation just performed.
    ghost method Record(a: Action, now: nat)
      requires IsRun(cfg, run) && Enabled(cfg, run[|run| - 1], a)
      requires store.Value() == Next(cfg, run[|run| - 1], a, now).store
      modifies this`run
      ensures Valid() && run == old(run) + [Next(cfg, old(Last()), a, now)]
    {
      var w := Next(cfg, Last(), a, now);
      assert Step(cfg, Last(), w);
      RunExtends(cfg, run, w);
      run := run + [w];
    }

    // Every other participant may run here; the session of `mine` waits.  The body takes none of their
    // steps: the contract is what any number of them guarantees, and all that a caller may rely on.
    method Interfere(ghost mine: Token)
      requires Valid()
      modifies this, store
      ensures Valid() && old(run) <= run
      ensures mine in old(Last().sessions) ==> mine in Last().sessions && PhaseOf(mine) == old(PhaseOf(mine))
    {
    }

    method Acquire(owner: string, now: nat, ttl: nat) returns (token: Option<Token>)
      requires Valid()
      modifies this, store
      ensures Valid() && old(run) <= run
      ensures token.Some? ==> token.value !in old(Last()).sessions && token.value in Last().sessions
      ensures token.Some? ==> PhaseOf(token.value) == Idle
      ensures token.Some? <==> !(old(store.leader).Some? && now < old(store.leader).value.expires)
      ensures token.Some? ==> HoldsThrough(store.Value(), token.value, now + ttl)
      ensures token.None? ==> store.Value() == old(store.Value())
    {
      RunKeepsInv(cfg, run, |run| - 1);
      token := store.Acquire(owner, now, ttl);
      Record(Action.Acquire(owner, ttl), now);
    }

    // The Snapshot that opens `consider`.
    method Read(token: Token, candidate: Head) returns (current: Option<Head>)
      requires Valid() && token in Last().sessions && PhaseOf(token) == Idle && Observed(cfg, candidate)
      modifies this
      ensures Valid() && old(run) <= run && token in Last().sessions
      ensures PhaseOf(token) == Considering(candidate, current)
      ensures current == Lookup(store.heads, candidate.commitment) == Lookup(Last().store.heads, candidate.commitment)
      ensures cfg.family == Evm && current.Some? ==> Truthful(cfg.tree, current.value) && IsEvmLatest(current.value)
    {
      current := Lookup(store.heads, candidate.commitment);
      Record(Action.Read(token, candidate), 0);
      RunKeepsInv(cfg, run, |run| - 1);
      assert SessionInv(cfg, Last().store, token, PhaseOf(token));
    }

    // BeginReorg on behalf of a session that found its candidate diverging from the head it read.
    method BeginReorg(token: Token, now: nat) returns (r: Result<Head, StoreError>)
      requires Valid() && token in Last().sessions && Enabled(cfg, Last(), Diverge(token))
      modifies this, store
      ensures Valid() && old(run) <= run && token in Last().sessions
      ensures r.Ok? <==> HoldsBefore(old(Last()).store, token, now)
      ensures match r
              case Ok(h) =>
                && h == Fence(old(PhaseOf(token)).current.value) && Current(old(Last())) == old(PhaseOf(token)).current
                && PhaseOf(token) == Fenced(old(PhaseOf(token)).candidate, h) && Current(Last()) == Some(h)
              case Err(e) => e == LeadershipLost && PhaseOf(token) == old(PhaseOf(token)) && Last().store == old(Last().store)
    {
      DivergeFencesWhatWasRead(cfg, run, |run| - 1, token, now);
      r := store.BeginReorg(token, now);
      Record(Diverge(token), now);
    }

    // Publish on behalf of a session; `reorg` and `replies` are what its walk and its queries returned.
    method Publish(token: Token, now: nat, h: Head, ghost reorg: bool, ghost replies: seq<Reply>, ghost refreshed: nat)
      returns (r: Result<Head, StoreError>)
      requires Valid() && token in Last().sessions
      requires Offered(cfg, PhaseOf(token), reorg, replies, refreshed) == Some(h)
      modifies this, store
      ensures Valid() && old(run) <= run && token in Last().sessions && PhaseOf(token) == Idle
      ensures |run| >= 2 && run[|run| - 2] == old(Last())
      ensures r.Ok? <==> HoldsThrough(old(Last()).store, token, now)
      ensures match r
              case Ok(published) =>
                && ReplacedWhatItRead(run, token, h.commitment)
                && Lookup(store.heads, h.commitment) == Lookup(Last().store.heads, h.commitment) == Some(published)
                && published == h.(generation := published.generation, changedAt := published.changedAt)
              case Err(e) => e == LeadershipLost && FenceStillUp(run, token)
    {
      hide Offered, PublishStep, TokensInv, HistoryInv, Truthful, OnBranch;
      RunKeepsInv(cfg, run, |run| - 1);
      BelievedFenceIsUp(cfg, Last(), token);
      PublishedHead(cfg, Last(), token, now, h);
      PublishVerdict(Last().store, token, now, h);
      PublishReplacesWhatWasRead(cfg, run, |run| - 1, token, reorg, replies, refreshed, now);
      r := store.Publish(token, now, h);
      Record(Action.Publish(token, reorg, replies, refreshed), now);
    }

    // A session that ends without publishing.  While its lease stands, a fence it put up is still up.
    method Abort(token: Token)
      requires Valid() && token in Last().sessions
      modifies this, store
      ensures Valid() && old(run) <= run && token in Last().sessions && PhaseOf(token) == Idle
      ensures FenceStillUp(run, token) && run[|run| - 2].sessions[token] == old(PhaseOf(token))
    {
      Interfere(token);
      RunKeepsInv(cfg, run, |run| - 1);
      BelievedFenceIsUp(cfg, Last(), token);
      Record(Action.Abort(token), 0);
    }
  }

  lemma PublishVerdict(s: State, token: Token, now: nat, h: Head)
    ensures PublishStep(s, token, now, h).1 == Err(LeadershipLost) <==> !HoldsThrough(s, token, now)
  {
  }

  lemma RunExtends(cfg: Config, run: seq<World>, w: World)
    requires IsRun(cfg, run) && Step(cfg, run[|run| - 1], w)
    ensures IsRun(cfg, run + [w])
  {
  }
}
