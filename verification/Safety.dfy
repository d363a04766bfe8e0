/** What holds over every run of the reorg-fence protocol. */
module Safety {
  import opened Wrappers
  import opened Headers
  import opened HeadStore
  import opened Protocol

  function Current(w: World): Option<Head> {
    Lookup(w.store.heads, Latest)
  }

  /** The invariant holds in every reachable world. */
  lemma {:induction false} RunKeepsInv(cfg: Config, ws: seq<World>, i: nat)
    requires IsRun(cfg, ws) && i < |ws|
    ensures Inv(cfg, ws[i])
  {
    if i > 0 {
      RunKeepsInv(cfg, ws, i - 1);
      assert Step(cfg, ws[i - 1], ws[i - 1 + 1]);
      StepKeepsInv(cfg, ws[i - 1], ws[i]);
    }
  }

  /** The history of the accepted head only grows. */
  lemma {:induction false} HistoryGrows(cfg: Config, ws: seq<World>, i: nat, j: nat)
    requires IsRun(cfg, ws) && i <= j < |ws|
    ensures ws[i].accepted <= ws[j].accepted
    decreases j
  {
    if i < j {
      HistoryGrows(cfg, ws, i, j - 1);
      assert Step(cfg, ws[j - 1], ws[j - 1 + 1]);
    }
  }

  lemma LogStepOfRun(cfg: Config, ws: seq<World>, j: nat)
    requires IsRun(cfg, ws) && j + 1 < |ws|
    ensures ws[j].store.events <= ws[j + 1].store.events
  {
  }

  /** The event log is append-only over every run. */
  lemma {:induction false} LogGrows(cfg: Config, ws: seq<World>, i: nat, j: nat)
    requires IsRun(cfg, ws) && i <= j < |ws|
    ensures ws[i].store.events <= ws[j].store.events
    decreases j
  {
    hide IsRun;
    if i < j {
      LogGrows(cfg, ws, i, j - 1);
      LogStepOfRun(cfg, ws, j - 1);
    }
  }

  // The newest event is of the block that is accepted now, and every event is of a block that was.
  ghost predicate LogTracksHead(tree: HeaderTree, w: World) {
    && (forall e | e in w.store.events :: Truthful(tree, e.head))
    && (Current(w).Some? ==>
          w.store.events != [] && w.store.events[|w.store.events| - 1].head.hash == Current(w).value.hash)
  }

  lemma PublishTracksHead(cfg: Config, w: World, t: Token, now: nat, h: Head)
    requires LogTracksHead(cfg.tree, w) && Truthful(cfg.tree, h) && IsEvmLatest(h)
    ensures LogTracksHead(cfg.tree, w.(store := PublishStep(w.store, t, now, h).0))
  {
  }

  lemma LogTracksHeadStep(cfg: Config, w: World, w': World)
    requires Inv(cfg, w) && Step(cfg, w, w') && cfg.family == Evm && LogTracksHead(cfg.tree, w)
    ensures LogTracksHead(cfg.tree, w')
  {
    hide Inv, Offered, Observed, Linear, Truthful;
    var a: Action, now: nat :| Enabled(cfg, w, a) && Next(cfg, w, a, now) == w';
    if a.Publish? {
      var h := Offered(cfg, w.sessions[a.token], a.reorg, a.replies, a.refreshed).value;
      OfferIsSafe(cfg, w, a.token, a.reorg, a.replies, a.refreshed);
      PublishedHead(cfg, w, a.token, now, h);
      if Holds(w.store, a.token) {
        PublishTracksHead(cfg, w, a.token, now, h);
      }
    }
  }

  /** Every accepted EVM head is announced: its block is the newest event of the log of its world. */
  lemma {:induction false} AcceptedHeadsAreLogged(cfg: Config, ws: seq<World>, i: nat)
    requires IsRun(cfg, ws) && i < |ws| && cfg.family == Evm
    ensures LogTracksHead(cfg.tree, ws[i])
  {
    if i > 0 {
      AcceptedHeadsAreLogged(cfg, ws, i - 1);
      RunKeepsInv(cfg, ws, i - 1);
      assert Step(cfg, ws[i - 1], ws[i - 1 + 1]);
      LogTracksHeadStep(cfg, ws[i - 1], ws[i]);
    }
  }

  // The current head of an EVM world is an entry of the history of every later world.
  lemma CurrentIsRecorded(cfg: Config, ws: seq<World>, i: nat, j: nat) returns (at: nat)
    requires IsRun(cfg, ws) && i <= j < |ws| && Current(ws[i]).Some?
    ensures at == |ws[i].accepted| - 1 < |ws[j].accepted|
    ensures ws[j].accepted[at] == Current(ws[i]).value
  {
    RunKeepsInv(cfg, ws, i);
    HistoryGrows(cfg, ws, i, j);
    at := |ws[i].accepted| - 1;
  }

  /** One branch per epoch: the epoch and the generation never decrease, a head is pending only before
      the first usable head of its epoch, and usable heads of one epoch succeed each other on one branch. */
  lemma OneBranchPerEpoch(cfg: Config, ws: seq<World>, i: nat, j: nat)
    requires IsRun(cfg, ws) && i <= j < |ws| && Current(ws[i]).Some?
    ensures Current(ws[j]).Some?
    ensures var a, b := Current(ws[i]).value, Current(ws[j]).value;
            && a.reorgEpoch <= b.reorgEpoch && a.generation <= b.generation
            && (a.reorgEpoch == b.reorgEpoch && !a.reorgPending ==>
                  && !b.reorgPending && OnBranch(cfg.tree, b, a) && a.number <= b.number
                  && (a.number == b.number ==> a.hash == b.hash))
  {
    var x := CurrentIsRecorded(cfg, ws, i, j);
    RunKeepsInv(cfg, ws, j);
    var y := CurrentIsRecorded(cfg, ws, j, j);
    HistoryGrows(cfg, ws, i, j);
    var a, b := Current(ws[i]).value, Current(ws[j]).value;
    assert Ordered(cfg.tree, ws[j].accepted[x], ws[j].accepted[y]);
    assert b in ws[j].accepted;
    if a.reorgEpoch == b.reorgEpoch && !a.reorgPending {
      OnBranchHeight(cfg.tree, b, a);
    }
  }

  /** Equal epochs at both ends of an interval mean that no fence was up inside it, even on A -> B -> A. */
  lemma NoFenceBetween(cfg: Config, ws: seq<World>, i: nat, k: nat, j: nat)
    requires IsRun(cfg, ws) && i <= k <= j < |ws|
    requires Current(ws[i]).Some? && Current(ws[j]).Some?
    requires !Current(ws[i]).value.reorgPending
    requires Current(ws[i]).value.reorgEpoch == Current(ws[j]).value.reorgEpoch
    ensures Current(ws[k]).Some? && !Current(ws[k]).value.reorgPending
    ensures Current(ws[k]).value.reorgEpoch == Current(ws[i]).value.reorgEpoch
    ensures OnBranch(cfg.tree, Current(ws[j]).value, Current(ws[k]).value)
  {
    OneBranchPerEpoch(cfg, ws, i, k);
    OneBranchPerEpoch(cfg, ws, k, j);
  }

  /******* The lease *******/

  lemma LostTokenStep(cfg: Config, w: World, w': World, t: Token)
    requires Inv(cfg, w) && Step(cfg, w, w')
    requires t in w.sessions && !Holds(w.store, t)
    ensures t in w'.sessions && !Holds(w'.store, t)
  {
    hide HistoryInv, SessionInv, Offered, Observed, Linear;
    var a: Action, now: nat :| Enabled(cfg, w, a) && Next(cfg, w, a, now) == w';
  }

  lemma LostTokenStepOfRun(cfg: Config, ws: seq<World>, j: nat, t: Token)
    requires IsRun(cfg, ws) && j + 1 < |ws|
    requires t in ws[j].sessions && !Holds(ws[j].store, t)
    ensures t in ws[j + 1].sessions && !Holds(ws[j + 1].store, t)
  {
    RunKeepsInv(cfg, ws, j);
    assert Step(cfg, ws[j], ws[j + 1]);
    LostTokenStep(cfg, ws[j], ws[j + 1], t);
  }

  /** A token that lost the lease never holds it again. */
  lemma {:induction false} LostTokenStaysLost(cfg: Config, ws: seq<World>, i: nat, j: nat, t: Token)
    requires IsRun(cfg, ws) && i <= j < |ws|
    requires t in ws[i].sessions && !Holds(ws[i].store, t)
    ensures t in ws[j].sessions && !Holds(ws[j].store, t)
    decreases j
  {
    hide IsRun, Holds;
    if i < j {
      LostTokenStaysLost(cfg, ws, i, j - 1, t);
      LostTokenStepOfRun(cfg, ws, j - 1, t);
    }
  }

  // The head a session believes to be the accepted one.
  function Believed(p: Phase): Option<Head> {
    match p
    case Idle => None
    case Considering(_, current) => current
    case Fenced(_, h) => Some(h)
  }

  /** Read, validate and publish behave as one atomic step: a successful publication replaces exactly the
      head the session read or was handed by its own BeginReorg, and the store never refuses it for its epoch. */
  lemma PublishReplacesWhatWasRead(cfg: Config, ws: seq<World>, i: nat, t: Token, reorg: bool, replies: seq<Reply>,
        refreshed: nat, now: nat)
    requires IsRun(cfg, ws) && i < |ws| && t in ws[i].sessions
    requires Offered(cfg, ws[i].sessions[t], reorg, replies, refreshed).Some?
    ensures var h := Offered(cfg, ws[i].sessions[t], reorg, replies, refreshed).value;
            match PublishStep(ws[i].store, t, now, h).1
            case Ok(_) => Holds(ws[i].store, t) && Lookup(ws[i].store.heads, h.commitment) == Believed(ws[i].sessions[t])
            case Err(e) => e == LeadershipLost
  {
    RunKeepsInv(cfg, ws, i);
    OfferIsSafe(cfg, ws[i], t, reorg, replies, refreshed);
    assert SessionInv(cfg, ws[i].store, t, ws[i].sessions[t]);
  }

  /** So does BeginReorg: it fences exactly the head that was read, or reports the lost lease. */
  lemma DivergeFencesWhatWasRead(cfg: Config, ws: seq<World>, i: nat, t: Token, now: nat)
    requires IsRun(cfg, ws) && i < |ws| && Enabled(cfg, ws[i], Diverge(t))
    ensures match BeginReorgStep(ws[i].store, t, now).1
            case Ok(h) => Current(ws[i]) == Believed(ws[i].sessions[t]) && h == Fence(Believed(ws[i].sessions[t]).value)
            case Err(e) => e == LeadershipLost
  {
    RunKeepsInv(cfg, ws, i);
    assert SessionInv(cfg, ws[i].store, t, ws[i].sessions[t]);
  }

  /******* How the accepted EVM head may change *******/

  // Every queried provider answered at the current height.
  predicate AllAnswered(current: Head, replies: seq<Reply>) {
    replies != [] && forall r | r in replies :: Answers(r, current)
  }

  // One reason per way a publication may turn the accepted head `a` into `b`.
  ghost predicate Justified(cfg: Config, a: Head, b: Head, replies: seq<Reply>) {
    // the same block: under a fence only when every queried provider reported it
    || (b.hash == a.hash && (a.reorgPending ==> replies != [] && forall r | r in replies :: Confirms(r, a)))
    // a verified descendant
    || (b.number > a.number && OnBranch(cfg.tree, b, a))
    // a verified fork under a fence: longer, or with the old head displaced at every queried provider
    || (&& a.reorgPending && Forked(cfg, a, b)
        && (b.number > a.number || (AllAnswered(a, replies) && forall r | r in replies :: !Confirms(r, a))))
  }

  /** Rollback and unfencing safety: the accepted head changes only by being fenced or by a justified
      publication that clears the fence of its own epoch; every other step, in particular every failure
      after BeginReorg, leaves it as it is. */
  lemma HeadChangesAreJustified(cfg: Config, ws: seq<World>, i: nat, a: Action, now: nat)
    requires IsRun(cfg, ws) && i < |ws| && Enabled(cfg, ws[i], a)
    requires cfg.family == Evm && Current(ws[i]).Some?
    ensures var before, after := Current(ws[i]).value, Current(Next(cfg, ws[i], a, now));
            after.Some? && after.value != before ==>
              || (a.Diverge? && !before.reorgPending && after.value == Fence(before))
              || (&& a.Publish? && Justified(cfg, before, after.value, a.replies)
                  && !after.value.reorgPending && after.value.reorgEpoch == before.reorgEpoch)
  {
    var w := ws[i];
    RunKeepsInv(cfg, ws, i);
    match a {
      case Publish(t, reorg, replies, refreshed) =>
        PublishReplacesWhatWasRead(cfg, ws, i, t, reorg, replies, refreshed, now);
        OfferIsSafe(cfg, w, t, reorg, replies, refreshed);
        assert SessionInv(cfg, w.store, t, w.sessions[t]);
        var h := Offered(cfg, w.sessions[t], reorg, replies, refreshed).value;
        PublishedHead(cfg, w, t, now, h);
        if PublishStep(w.store, t, now, h).1.Ok? {
          var after := Current(Next(cfg, w, a, now)).value;
          OfferIsJustified(cfg, Current(w).value, w.sessions[t].candidate, reorg, replies, refreshed, after);
        }
      case Diverge(t) => DivergeFencesWhatWasRead(cfg, ws, i, t, now);
      case _ =>
    }
  }

  lemma OfferIsJustified(cfg: Config, current: Head, c: Head, reorg: bool, replies: seq<Reply>, refreshed: nat, b: Head)
    requires Truthful(cfg.tree, current) && Truthful(cfg.tree, c)
    requires ForkChoice(current, c, reorg, EvidenceOf(current, replies), refreshed).Some?
    requires c.hash == current.hash
              || (if reorg then current.reorgPending && Forked(cfg, current, c) else Linear(cfg, current, c))
    requires var h := ForkChoice(current, c, reorg, EvidenceOf(current, replies), refreshed).value;
             b.hash == h.hash && b.number == h.number
    ensures Justified(cfg, current, b, replies)
  {
    if c.hash != current.hash && b.hash == c.hash && reorg {
      var n: nat :| CommonAncestor(cfg, current, c, n);
      assert CommonAncestor(cfg, current, b, n);
      assert Forked(cfg, current, b);
    }
  }

  /******* Solana floors *******/

  lemma FloorStep(cfg: Config, w: World, w': World, c: Commitment)
    requires Inv(cfg, w) && Step(cfg, w, w')
    requires cfg.family == Solana && c in w.store.heads
    ensures c in w'.store.heads && w.store.heads[c].number <= w'.store.heads[c].number
  {
    hide Inv, Offered, Linear, OnBranch, Truthful;
    var a: Action, now: nat :| Enabled(cfg, w, a) && Next(cfg, w, a, now) == w';
    if a.Publish? {
      var h := Offered(cfg, w.sessions[a.token], a.reorg, a.replies, a.refreshed).value;
      OfferIsSafe(cfg, w, a.token, a.reorg, a.replies, a.refreshed);
      PublishedHead(cfg, w, a.token, now, h);
    }
  }

  lemma FloorStepOfRun(cfg: Config, ws: seq<World>, j: nat, c: Commitment)
    requires IsRun(cfg, ws) && j + 1 < |ws|
    requires cfg.family == Solana && c in ws[j].store.heads
    ensures c in ws[j + 1].store.heads && ws[j].store.heads[c].number <= ws[j + 1].store.heads[c].number
  {
    RunKeepsInv(cfg, ws, j);
    assert Step(cfg, ws[j], ws[j + 1]);
    FloorStep(cfg, ws[j], ws[j + 1], c);
  }

  /** The accepted slot of a commitment never decreases, whoever leads and however late observations arrive. */
  lemma {:induction false} SolanaFloor(cfg: Config, ws: seq<World>, i: nat, j: nat, c: Commitment)
    requires IsRun(cfg, ws) && i <= j < |ws|
    requires cfg.family == Solana && c in ws[i].store.heads
    ensures c in ws[j].store.heads && ws[i].store.heads[c].number <= ws[j].store.heads[c].number
    decreases j
  {
    hide IsRun;
    if i < j {
      SolanaFloor(cfg, ws, i, j - 1, c);
      FloorStepOfRun(cfg, ws, j - 1, c);
    }
  }
}
