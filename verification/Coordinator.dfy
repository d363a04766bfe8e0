/** The per-chain head coordinator (internal/coordinator/coordinator.go). */
module Coordinator {
  import opened Wrappers
  import opened Headers
  import opened HeadStore
  import opened Protocol
  import opened Safety
  import opened Cluster
  import opened Runtime

  datatype Refusal =
    | Store(error: StoreError)
    | BadDepth
    | Unavailable          // a header could not be fetched
    | InvalidLinkage       // a fetched parent is not one below its child
    | GapTooLong
    | NoCommonAncestor
    | DisplacementUnproved

  datatype Outcome = Published(head: Head) | Kept | Failed(error: Refusal)

  // The counters of getCanonicalEvidence after the loop.
  method GetCanonicalEvidence(source: BlockSource, current: Head) returns (evidence: Evidence, replies: seq<Reply>)
    requires source.Honest()
    modifies source
    ensures evidence == EvidenceOf(current, replies) && replies == source.byNumber(old(source.calls), current.number)
    ensures evidence.Seen? <==>
              exists r | r in replies :: r.Block? && r.head.number == current.number && r.head.hash == current.hash
    ensures evidence == Seen(true) <==> Agreed(current, replies)
    ensures evidence == Displaced <==> Gone(current, replies)
    ensures source.calls == old(source.calls) + 1
  {
    replies := source.BlocksByNumber(current.number);
    var uncertain := false;
    var checked := 0;
    var matching := 0;
    for i := 0 to |replies|
      invariant 0 <= matching <= checked <= i
      invariant uncertain <==> exists k | 0 <= k < i :: !Answers(replies[k], current)
      invariant matching > 0 <==> exists k | 0 <= k < i :: Confirms(replies[k], current)
      invariant matching == checked <==> forall k | 0 <= k < i && Answers(replies[k], current) :: Confirms(replies[k], current)
      invariant checked == 0 <==> forall k | 0 <= k < i :: !Answers(replies[k], current)
    {
      if !replies[i].Block? || replies[i].head.number != current.number {
        uncertain := true;
        continue;
      }
      checked := checked + 1;
      if replies[i].head.hash == current.hash {
        matching := matching + 1;
      }
    }
    EvidenceFromCounters(current, replies, uncertain, checked, matching);
    if matching > 0 {
      return Seen(!uncertain && matching == checked), replies;
    }
    if uncertain || checked == 0 {
      return Unproved, replies;
    }
    evidence := Displaced;
  }

  // Every provider was asked and named this very block at its height.
  predicate Agreed(current: Head, replies: seq<Reply>) {
    replies != [] && forall r | r in replies :: r.Block? && r.head.number == current.number && r.head.hash == current.hash
  }

  // Every provider was asked and named another block at that height.
  predicate Gone(current: Head, replies: seq<Reply>) {
    replies != [] && forall r | r in replies :: r.Block? && r.head.number == current.number && r.head.hash != current.hash
  }

  lemma EvidenceFromCounters(current: Head, replies: seq<Reply>, uncertain: bool, checked: nat, matching: nat)
    requires uncertain <==> exists k | 0 <= k < |replies| :: !Answers(replies[k], current)
    requires matching > 0 <==> exists k | 0 <= k < |replies| :: Confirms(replies[k], current)
    requires matching == checked <==>
              forall k | 0 <= k < |replies| && Answers(replies[k], current) :: Confirms(replies[k], current)
    requires checked == 0 <==> forall k | 0 <= k < |replies| :: !Answers(replies[k], current)
    ensures EvidenceOf(current, replies) ==
            if matching > 0 then Seen(!uncertain && matching == checked)
            else if uncertain || checked == 0 then Unproved
            else Displaced
  {
    assert (exists r | r in replies :: Confirms(r, current)) <==> exists k | 0 <= k < |replies| :: Confirms(replies[k], current);
    assert (forall r | r in replies :: Confirms(r, current)) <==> forall k | 0 <= k < |replies| :: Confirms(replies[k], current);
    assert (forall r | r in replies :: Answers(r, current)) <==> forall k | 0 <= k < |replies| :: Answers(replies[k], current);
    if replies != [] {
      assert Answers(replies[0], current) || uncertain;
    }
  }

  /******* The three walks of validateEVMTransition *******/

  // Down from the candidate to the current height, at most `depth` steps.
  method DescendToHeight(source: BlockSource, candidate: Head, height: nat, depth: nat) returns (r: Result<Head, Refusal>)
    requires source.Honest() && Truthful(source.tree, candidate)
    modifies source
    ensures source.calls >= old(source.calls)
    ensures match r
            case Ok(c) =>
              && Truthful(source.tree, c) && OnBranch(source.tree, candidate, c)
              && c.number == (if candidate.number > height then height else candidate.number)
              && candidate.number <= height + depth
            case Err(e) =>
              && candidate.number > height
              && (|| (e == GapTooLong && candidate.number > height + depth)
                  || (e == Unavailable
                      && MissingWithin(source, Span(old(source.calls), source.calls), candidate.hash, height, candidate.number))
                  || (e == InvalidLinkage && BrokenWithin(source.tree, candidate.hash, height, candidate.number)))
  {
    var cursor := candidate;
    var step := 0;
    while cursor.number > height
      invariant Truthful(source.tree, cursor) && OnBranch(source.tree, candidate, cursor)
      invariant cursor.number + step == candidate.number
      invariant step > 0 ==> cursor.number >= height
      invariant step <= depth && source.calls >= old(source.calls)
      decreases cursor.number
    {
      if step >= depth {
        return Err(GapTooLong);
      }
      ghost var asked := source.calls;
      var parent := source.EVMBlockByHash(cursor.parentHash, candidate.commitment);
      if parent.None? {
        WalkStops(source, Span(asked, source.calls), Span(old(source.calls), source.calls), candidate.hash, cursor,
            height, candidate.number);
        return Err(Unavailable);
      }
      if parent.value.number >= cursor.number || parent.value.number + 1 != cursor.number {
        assert BrokenAt(source.tree, candidate.hash, cursor.number);
        return Err(InvalidLinkage);
      }
      WalkStep(source.tree, candidate.hash, cursor, parent.value);
      cursor := parent.value;
      step := step + 1;
    }
    r := Ok(cursor);
  }

  // `ancestors` holds exactly the blocks of `read`'s branch from height `low` up to `read`.
  ghost predicate AncestorMap(tree: HeaderTree, read: Head, ancestors: map<Hash, nat>, low: nat) {
    && low <= read.number
    && (forall h | h in ancestors ::
          && low <= ancestors[h] <= read.number && HashAt(tree, read.hash, ancestors[h]) == Some(h)
          && h in tree && tree[h].number == ancestors[h])
    && (forall n: nat | low <= n <= read.number ::
          && HashAt(tree, read.hash, n).Some?
          && HashAt(tree, read.hash, n).value in ancestors && ancestors[HashAt(tree, read.hash, n).value] == n)
  }

  lemma AncestorMapGrows(tree: HeaderTree, read: Head, ancestors: map<Hash, nat>, c: Head, p: Head)
    requires AncestorMap(tree, read, ancestors, c.number)
    requires Truthful(tree, p) && p.number + 1 == c.number && HashAt(tree, read.hash, p.number) == Some(p.hash)
    ensures AncestorMap(tree, read, ancestors[p.hash := p.number], p.number)
  {
  }

  // Records the current head's ancestors, at most `depth` of them and as far as headers can be fetched;
  // None if the candidate turns out to be one of them.
  method CollectAncestors(source: BlockSource, read: Head, candidate: Head, depth: nat)
    returns (r: Result<Option<map<Hash, nat>>, Refusal>, ghost low: nat)
    requires source.Honest() && Truthful(source.tree, read) && Truthful(source.tree, candidate) && candidate.hash != read.hash
    modifies source
    ensures source.calls >= old(source.calls)
    ensures match r
            case Ok(None) => OnBranch(source.tree, read, candidate)
            case Ok(Some(ancestors)) =>
              && AncestorMap(source.tree, read, ancestors, low) && read.number <= low + depth
              && (low <= candidate.number ==> !OnBranch(source.tree, read, candidate))
              && (|| low == 0 || low + depth == read.number
                  || MissingWithin(source, Span(old(source.calls), source.calls), read.hash, low - 1, low))
            case Err(e) => e == InvalidLinkage && BrokenWithin(source.tree, read.hash, read.number - depth, read.number)
  {
    var ancestors: map<Hash, nat> := map[read.hash := read.number];
    var cursor := read;
    var step := 0;
    low := read.number;
    while step < depth && cursor.number > 0 && cursor.parentHash != ""
      invariant Truthful(source.tree, cursor) && OnBranch(source.tree, read, cursor)
      invariant cursor.number + step == read.number && step <= depth && low == cursor.number
      invariant AncestorMap(source.tree, read, ancestors, low)
      invariant low <= candidate.number ==> !OnBranch(source.tree, read, candidate)
      invariant source.calls >= old(source.calls)
    {
      ghost var asked := source.calls;
      var parent := source.EVMBlockByHash(cursor.parentHash, read.commitment);
      if parent.None? {
        WalkStops(source, Span(asked, source.calls), Span(old(source.calls), source.calls), read.hash, cursor, low - 1, low);
        break;
      }
      if parent.value.number + 1 != cursor.number {
        assert BrokenAt(source.tree, read.hash, cursor.number);
        return Err(InvalidLinkage), low;
      }
      WalkStep(source.tree, read.hash, cursor, parent.value);
      AncestorMapGrows(source.tree, read, ancestors, cursor, parent.value);
      ancestors := ancestors[parent.value.hash := parent.value.number];
      if parent.value.number == candidate.number && parent.value.hash == candidate.hash {
        return Ok(None), low;
      }
      cursor := parent.value;
      low := cursor.number;
      step := step + 1;
    }
    r := Ok(Some(ancestors));
  }

  function GetAncestorNumber(ancestors: map<Hash, nat>, hash: Hash): Option<nat> {
    if hash in ancestors then Some(ancestors[hash]) else None
  }

  // Down the candidate's branch to the first recorded ancestor of the current head.
  method FindCommonAncestor(source: BlockSource, candidate: Head, start: Head, read: Head, ancestors: map<Hash, nat>,
        depth: nat, ghost low: nat)
    returns (r: Result<nat, Refusal>)
    requires source.Honest() && Truthful(source.tree, start) && OnBranch(source.tree, candidate, start)
    requires AncestorMap(source.tree, read, ancestors, low)
    modifies source
    ensures source.calls >= old(source.calls)
    ensures match r
            case Ok(n) => low <= n <= start.number && HashAt(source.tree, candidate.hash, n).Some?
                          && HashAt(source.tree, candidate.hash, n) == HashAt(source.tree, read.hash, n)
            case Err(NoCommonAncestor) =>
              forall n: nat | low <= n <= read.number && start.number <= n + depth && n <= start.number ::
                HashAt(source.tree, candidate.hash, n) != HashAt(source.tree, read.hash, n)
            case Err(e) =>
              || (e == Unavailable
                  && MissingWithin(source, Span(old(source.calls), source.calls), candidate.hash,
                      start.number - depth, start.number))
              || (e == InvalidLinkage && BrokenWithin(source.tree, candidate.hash, start.number - depth, start.number))
  {
    var cursor := start;
    var step := 0;
    while step <= depth
      invariant Truthful(source.tree, cursor) && OnBranch(source.tree, candidate, cursor)
      invariant cursor.number + step == start.number && source.calls >= old(source.calls)
      invariant step <= depth
      invariant forall n: nat | low <= n <= read.number && cursor.number < n <= start.number ::
                  HashAt(source.tree, candidate.hash, n) != HashAt(source.tree, read.hash, n)
      decreases depth - step
    {
      var number := GetAncestorNumber(ancestors, cursor.hash);
      if number.Some? && number.value == cursor.number {
        return Ok(cursor.number);
      }
      if cursor.number == 0 || cursor.parentHash == "" || step == depth {
        break;
      }
      ghost var asked := source.calls;
      var parent := source.EVMBlockByHash(cursor.parentHash, candidate.commitment);
      if parent.None? {
        WalkStops(source, Span(asked, source.calls), Span(old(source.calls), source.calls), candidate.hash, cursor,
            start.number - depth, start.number);
        return Err(Unavailable);
      }
      if parent.value.number + 1 != cursor.number {
        assert BrokenAt(source.tree, candidate.hash, cursor.number);
        return Err(InvalidLinkage);
      }
      WalkStep(source.tree, candidate.hash, cursor, parent.value);
      cursor := parent.value;
      step := step + 1;
    }
    r := Err(NoCommonAncestor);
  }

  // In some world since position `from` of the run the token could not have raised a fence at clock `now`.
  ghost predicate LapsedSince(run: seq<World>, from: int, token: Token, now: nat) {
    exists i: nat :: from <= i < |run| && LapsedAt(run[i], token, now)
  }

  predicate LapsedAt(w: World, token: Token, now: nat) {
    !HoldsBefore(w.store, token, now)
  }

  lemma LapsedEarlier(run: seq<World>, longer: seq<World>, from: int, later: int, token: Token, now: nat)
    requires run <= longer && from <= later && LapsedSince(run, later, token, now)
    ensures LapsedSince(longer, from, token, now)
  {
    var i: nat :| later <= i < |run| && LapsedAt(run[i], token, now);
    assert LapsedAt(longer[i], token, now);
  }

  function Least(a: nat, b: nat): nat {
    if a < b then a else b
  }

  // The candidate cannot be told to be on the current head's branch or to extend it: it is not, or it is too far
  // below, or a header between the two was missing.
  ghost predicate Divergent(cfg: Config, source: BlockSource, span: Span, candidate: Head, read: Head) {
    || !Linear(cfg, read, candidate)
    || candidate.number + cfg.depth < read.number
    || MissingWithin(source, span, read.hash, candidate.number, read.number)
  }

  // Every refusal of the validation has a cause, given the header queries it made; `lapsed` says that a fence had
  // to be raised when the lease was no longer held.
  ghost predicate Explained(cfg: Config, source: BlockSource, span: Span, e: Refusal, candidate: Head, read: Head, lapsed: bool) {
    var floor := Least(candidate.number, read.number) - cfg.depth;
    match e
    case Store(error) => error == LeadershipLost && !read.reorgPending && lapsed && Divergent(cfg, source, span, candidate, read)
    case BadDepth => cfg.depth < 1
    case Unavailable => MissingWithin(source, span, candidate.hash, floor, candidate.number)
    case InvalidLinkage =>
      || BrokenWithin(cfg.tree, candidate.hash, floor, candidate.number)
      || BrokenWithin(cfg.tree, read.hash, read.number - cfg.depth, read.number)
    case GapTooLong => candidate.number > read.number + cfg.depth
    case NoCommonAncestor =>
      || (forall n: nat :: !CommonAncestor(cfg, read, candidate, n))
      || MissingWithin(source, span, read.hash, read.number - cfg.depth, read.number)
    case DisplacementUnproved => false
  }

  // The walks ended before the candidate could be told to diverge: on its way down to the current height, or, for
  // a candidate below it, on the current head's own branch.
  ghost predicate TooEarly(cfg: Config, source: BlockSource, span: Span, e: Refusal, candidate: Head, read: Head) {
    match e
    case Store(_) => true
    case GapTooLong => candidate.number > read.number + 1 && candidate.number > read.number + cfg.depth
    case Unavailable =>
      candidate.number > read.number + 1 && MissingWithin(source, span, candidate.hash, read.number, candidate.number)
    case InvalidLinkage =>
      if candidate.number < read.number then BrokenWithin(cfg.tree, read.hash, read.number - cfg.depth, read.number)
      else candidate.number > read.number + 1 && BrokenWithin(cfg.tree, candidate.hash, read.number, candidate.number)
    case _ => false
  }

  // All that may end a validation without a fence: the lost lease or, when the heights alone do not show the
  // divergence, a missing depth, the candidate's parent (the first block asked for) or a walk that ended too early.
  ghost predicate Unfenced(cfg: Config, source: BlockSource, span: Span, e: Refusal, candidate: Head, read: Head) {
    || e.Store?
    || (&& candidate.number != read.number && candidate.number != read.number + 1
        && (|| (e == BadDepth && cfg.depth < 1)
            || (e == Unavailable && Missing(source, Span(span.from, span.from + 1), candidate.parentHash))
            || (e == InvalidLinkage && BrokenAt(cfg.tree, candidate.hash, candidate.number))
            || TooEarly(cfg, source, span, e, candidate, read)))
  }

  // No query of the stretch for a header of d's branch, at a height above `floor` and up to `top`, was in vain.
  ghost predicate Available(source: BlockSource, span: Span, d: Hash, floor: int, top: nat) {
    forall k: nat | floor < k <= top :: !MissingAt(source, span, d, k)
  }

  /** With the window's headers available and well linked, a common ancestor in the window, a gap no longer than
      the window and a standing lease, no refusal is explained: the validation then finds the ancestor. */
  lemma AvailableTransitionIsAnswered(cfg: Config, source: BlockSource, span: Span, e: Refusal, candidate: Head,
        read: Head, n: nat)
    requires cfg.depth >= 1 && candidate.number <= read.number + cfg.depth && CommonAncestor(cfg, read, candidate, n)
    requires var floor := Least(candidate.number, read.number) - cfg.depth;
             && Available(source, span, candidate.hash, floor, candidate.number)
             && !BrokenWithin(cfg.tree, candidate.hash, floor, candidate.number)
    requires Available(source, span, read.hash, read.number - cfg.depth, read.number)
    requires !BrokenWithin(cfg.tree, read.hash, read.number - cfg.depth, read.number)
    ensures !Explained(cfg, source, span, e, candidate, read, false)
  {
  }

  // The cause of a refusal stays one when more queries are counted in and the run is looked at from further back.
  lemma ExplainedWidens(cfg: Config, source: BlockSource, inner: Span, outer: Span, e: Refusal, candidate: Head, read: Head,
                        run: seq<World>, from: int, later: int, token: Token, now: nat)
    requires Explained(cfg, source, inner, e, candidate, read, LapsedSince(run, later, token, now))
    requires Within(inner, outer) && from <= later
    ensures Explained(cfg, source, outer, e, candidate, read, LapsedSince(run, from, token, now))
  {
    var floor := Least(candidate.number, read.number) - cfg.depth;
    if MissingWithin(source, inner, candidate.hash, floor, candidate.number) {
      MissingWidens(source, inner, outer, candidate.hash, floor, floor, candidate.number, candidate.number);
    }
    if MissingWithin(source, inner, read.hash, read.number - cfg.depth, read.number) {
      MissingWidens(source, inner, outer, read.hash, read.number - cfg.depth, read.number - cfg.depth, read.number, read.number);
    }
    DivergentWidens(cfg, source, inner, outer, candidate, read);
    if LapsedSince(run, later, token, now) {
      LapsedEarlier(run, run, from, later, token, now);
    }
  }

  lemma DivergentWidens(cfg: Config, source: BlockSource, inner: Span, outer: Span, candidate: Head, read: Head)
    requires Within(inner, outer)
    ensures Divergent(cfg, source, inner, candidate, read) ==> Divergent(cfg, source, outer, candidate, read)
  {
    if MissingWithin(source, inner, read.hash, candidate.number, read.number) {
      MissingWidens(source, inner, outer, read.hash, candidate.number, candidate.number, read.number, read.number);
    }
  }

  // What may be published for a candidate over the head that was read, stamps aside.  A head that has nothing to
  // replace, and a slot, are published as they are, an EVM block only with a verified parent.  Over an accepted
  // block, an EVM block acknowledges the epoch: a new one if it diverges from a head that was not fenced, which takes
  // a shared ancestor in the window.  It is the candidate if that is the accepted block again, which ends a fence
  // only if every provider confirms it, or is above it; else the candidate if every provider denies the accepted
  // block, and the accepted block, observed now, if every provider confirms it.
  ghost predicate Settles(cfg: Config, candidate: Head, read: Option<Head>, replies: seq<Reply>, refreshed: nat, h: Head) {
    if read.None? || candidate.family == Solana then
      && h == candidate.(generation := h.generation, changedAt := h.changedAt)
      && (candidate.family == Evm && candidate.number > 0 ==> Linked(cfg.tree, candidate.hash, candidate.parentHash))
    else
      var current := read.value;
      var diverges := !OnBranch(cfg.tree, candidate, current) && !OnBranch(cfg.tree, current, candidate);
      var asCandidate := h == candidate.(reorgEpoch := h.reorgEpoch, reorgPending := false,
                                         generation := h.generation, changedAt := h.changedAt);
      && (diverges ==> candidate.number <= current.number + cfg.depth && MeetsInWindow(cfg, current, candidate))
      && h.reorgEpoch == (if diverges && !current.reorgPending then current.reorgEpoch + 1 else current.reorgEpoch)
      && if candidate.hash == current.hash then asCandidate && (current.reorgPending ==> Agreed(current, replies))
         else if candidate.number > current.number then asCandidate
         else
           && diverges
           && (|| (Gone(current, replies) && asCandidate)
               || (Agreed(current, replies)
                   && h == current.(reorgEpoch := h.reorgEpoch, reorgPending := false, observedAt := refreshed,
                                    generation := h.generation, changedAt := h.changedAt)))
  }

  // Some block within the reorg depth of the current one is on both branches.
  ghost predicate MeetsInWindow(cfg: Config, current: Head, candidate: Head) {
    exists n: nat ::
      && n <= current.number <= n + cfg.depth && HashAt(cfg.tree, current.hash, n).Some?
      && HashAt(cfg.tree, candidate.hash, n) == HashAt(cfg.tree, current.hash, n)
  }

  // An offer acknowledged under the head that the validation left behind settles the candidate.
  lemma OfferSettles(cfg: Config, candidate: Head, read: Head, current: Head, reorg: bool, replies: seq<Reply>,
        refreshed: nat, offer: Head)
    requires Truthful(cfg.tree, candidate) && Truthful(cfg.tree, read) && candidate.family == Evm
    requires current == if reorg && !read.reorgPending then Fence(read) else read
    requires reorg <==> candidate.hash != read.hash && !Linear(cfg, read, candidate)
    requires reorg ==> Forked(cfg, read, candidate)
    requires if candidate.hash == read.hash then offer == candidate && (read.reorgPending ==> Agreed(current, replies))
             else if candidate.number > read.number then offer == candidate
             else reorg && ((Gone(current, replies) && offer == candidate)
                            || (Agreed(current, replies) && offer == current.(observedAt := refreshed)))
    ensures Settles(cfg, candidate, Some(read), replies, refreshed, Acknowledge(offer, current))
  {
    assert candidate.hash == read.hash ==> OnBranch(cfg.tree, candidate, read);
    if reorg {
      var n: nat :| CommonAncestor(cfg, read, candidate, n);
      assert n <= read.number;
    }
  }

  // Why an observation leaves the accepted head alone without an error.
  ghost predicate StaysPut(cfg: Config, source: BlockSource, span: Span, read: Option<Head>, candidate: Head,
        replies: seq<Reply>) {
    && read.Some?
    && if candidate.family == Solana then candidate.number < read.value.number
       else if candidate.hash == read.value.hash then
         && read.value.reorgPending && AskedIn(source, span, read.value.number, replies)
         && EvidenceOf(read.value, replies) in {Displaced, Seen(false)}
       else
         && candidate.number <= read.value.number
         && (|| Linear(cfg, read.value, candidate)
             || (&& Forked(cfg, read.value, candidate) && AskedIn(source, span, read.value.number, replies)
                 && EvidenceOf(read.value, replies) == Seen(false)))
  }

  // Why an observation ends with an error before anything is offered.
  ghost predicate Refused(cfg: Config, source: BlockSource, span: Span, e: Refusal, read: Option<Head>, candidate: Head,
                          replies: seq<Reply>, lapsed: bool) {
    if read.Some? then
      match e
      case DisplacementUnproved =>
        && AskedIn(source, span, read.value.number, replies) && EvidenceOf(read.value, replies) == Unproved
        && if candidate.hash == read.value.hash then read.value.reorgPending
           else candidate.number <= read.value.number && Forked(cfg, read.value, candidate)
      case _ =>
        && cfg.family == Evm && candidate.hash != read.value.hash
        && Explained(cfg, source, span, e, candidate, read.value, lapsed)
    else
      && candidate.number > 0
      && match e
         case Unavailable => MissingWithin(source, span, candidate.hash, candidate.number - 1, candidate.number)
         case InvalidLinkage => BrokenWithin(cfg.tree, candidate.hash, candidate.number - 1, candidate.number)
         case _ => false
  }

  // The replies are what the providers said about height n when asked in this stretch.
  ghost predicate AskedIn(source: BlockSource, span: Span, n: nat, replies: seq<Reply>) {
    exists k: nat :: span.from <= k < span.to && replies == source.byNumber(k, n)
  }

  // The same, if they were asked at all.
  ghost predicate Asked(source: BlockSource, span: Span, n: nat, replies: seq<Reply>) {
    replies == [] || AskedIn(source, span, n, replies)
  }

  lemma FencedEvidence(read: Head, current: Head, replies: seq<Reply>)
    requires current == read || current == Fence(read)
    ensures EvidenceOf(current, replies) == EvidenceOf(read, replies)
  {
  }

  // The session read the accepted head in some world since position `from` of the run.
  ghost predicate ReadSince(run: seq<World>, from: nat, token: Token, candidate: Head, read: Option<Head>) {
    exists i :: from <= i < |run| && ReadAt(run[i], token, candidate, read)
  }

  ghost predicate ReadAt(w: World, token: Token, candidate: Head, read: Option<Head>) {
    && token in w.sessions && w.sessions[token] == Considering(candidate, read)
    && Lookup(w.store.heads, candidate.commitment) == read
  }

  lemma ReadStays(run: seq<World>, longer: seq<World>, from: nat, token: Token, candidate: Head, read: Option<Head>)
    requires from < |run| && run <= longer && ReadAt(run[|run| - 1], token, candidate, read)
    ensures ReadSince(longer, from, token, candidate, read)
  {
    assert ReadAt(longer[|run| - 1], token, candidate, read);
  }

  // What the protocol lets the session of `token` offer before the last step of the run.
  ghost function LastOffer(cfg: Config, run: seq<World>, token: Token, reorg: bool, replies: seq<Reply>,
        refreshed: nat): Option<Head> {
    if |run| >= 2 && token in run[|run| - 2].sessions then Offered(cfg, run[|run| - 2].sessions[token], reorg, replies, refreshed)
    else None
  }

  // One queued head, with the clock readings of its consideration.
  datatype Observation = Observation(head: Head, fenceAt: nat, publishAt: nat, refreshed: nat)

  // What one consideration read, established and did.
  datatype Report = Report(outcome: Outcome, read: Option<Head>, reorg: bool, replies: seq<Reply>)

  // The consideration that took the run from position `from` to its end: a publication is what the protocol
  // offers and replaces the head the session believed in; keeping the head and every error have their reason;
  // and a fence put up before giving up is still up while the lease stands.
  ghost predicate Concluded(cfg: Config, source: BlockSource, span: Span, run: seq<World>, from: nat, token: Token,
        o: Observation, r: Report) {
    && from < |run| && |run| >= 2 && ReadSince(run, from, token, o.head, r.read)
    && (r.read.Some? ==> Asked(source, span, r.read.value.number, r.replies))
    && match r.outcome
       case Published(h) =>
         PublishedOffer(cfg, run, token, o, r.reorg, r.replies, h) && Settles(cfg, o.head, r.read, r.replies, o.refreshed, h)
       case Kept =>
         && StaysPut(cfg, source, span, r.read, o.head, r.replies) && FenceStillUp(run, token)
         && (o.head.family == Evm ==> Linear(cfg, r.read.value, o.head) || BelievedFenced(run, token))
       case Failed(e) =>
         && FenceStillUp(run, token)
         && (|| (&& Refused(cfg, source, span, e, r.read, o.head, r.replies, LapsedSince(run, from, token, o.fenceAt))
                 && (r.read.Some? ==> Unfenced(cfg, source, span, e, o.head, r.read.value) || BelievedFenced(run, token)))
             || (e == Store(LeadershipLost) && OfferLapsed(cfg, run, token, o, r.reorg, r.replies)))
  }

  /** A divergence that a consideration leaves unresolved is fenced: the accepted head is pending at its end, unless
      the lease is lost.  That covers a candidate without a common ancestor, or whose branch could not be searched,
      and providers that disagree about the accepted block or do not answer. */
  lemma UnresolvedDivergenceIsFenced(cfg: Config, source: BlockSource, span: Span, run: seq<World>, from: nat, token: Token,
        o: Observation, r: Report)
    requires Concluded(cfg, source, span, run, from, token, o, r) && o.head.family == Evm && r.read.Some?
    requires Holds(run[|run| - 2].store, token)
    requires match r.outcome
             case Published(_) => false
             case Kept => !Linear(cfg, r.read.value, o.head)
             case Failed(e) => !Unfenced(cfg, source, span, e, o.head, r.read.value)
    ensures Current(run[|run| - 1]).Some? && Current(run[|run| - 1]).value.reorgPending
  {
  }

  // The last step of the run published what the protocol offered, over the head the session believed in.
  ghost predicate PublishedOffer(cfg: Config, run: seq<World>, token: Token, o: Observation, reorg: bool,
        replies: seq<Reply>, h: Head) {
    && |run| >= 2 && HoldsThrough(run[|run| - 2].store, token, o.publishAt)
    && h.commitment == o.head.commitment && (o.head.family == Evm ==> !h.reorgPending)
    && IsAccepted(run[|run| - 1], h) && ReplacedWhatItRead(run, token, o.head.commitment)
    && var offer := LastOffer(cfg, run, token, reorg, replies, o.refreshed);
       offer.Some? && h == offer.value.(generation := h.generation, changedAt := h.changedAt)
  }

  // There was an offer, but no lease to publish it with.
  ghost predicate OfferLapsed(cfg: Config, run: seq<World>, token: Token, o: Observation, reorg: bool, replies: seq<Reply>) {
    && LastOffer(cfg, run, token, reorg, replies, o.refreshed).Some?
    && !HoldsThrough(run[|run| - 2].store, token, o.publishAt)
  }

  predicate IsAccepted(w: World, h: Head) {
    Lookup(w.store.heads, h.commitment) == Some(h)
  }

  // The heads published by a sequence of considerations.
  function PublishedHeads(outcomes: seq<Outcome>): seq<Head> {
    if outcomes == [] then []
    else
      var earlier, last := PublishedHeads(outcomes[..|outcomes| - 1]), outcomes[|outcomes| - 1];
      if last.Published? then earlier + [last.head] else earlier
  }

  lemma {:induction false} PublishedHeadsExact(outcomes: seq<Outcome>, h: Head)
    ensures h in PublishedHeads(outcomes) <==> Published(h) in outcomes
  {
    if outcomes != [] {
      var earlier, last := outcomes[..|outcomes| - 1], outcomes[|outcomes| - 1];
      PublishedHeadsExact(earlier, h);
      assert outcomes == earlier + [last];
    }
  }

  // One consideration after the other: the k-th took the run from ends[k] to ends[k + 1].
  ghost predicate Sequence(cfg: Config, source: BlockSource, run: seq<World>, token: Token, observations: seq<Observation>,
                           reports: seq<Report>, ends: seq<nat>, marks: seq<nat>) {
    && |reports| <= |observations| && |ends| == |marks| == |reports| + 1
    && forall k | 0 <= k < |reports| :: Stage(cfg, source, run, token, observations[k], reports[k], ends[k],
        ends[k + 1], marks[k], marks[k + 1])
  }

  ghost predicate Stage(cfg: Config, source: BlockSource, run: seq<World>, token: Token, o: Observation, r: Report,
                        from: nat, end: nat, before: nat, after: nat) {
    from < end <= |run| && before <= after && Concluded(cfg, source, Span(before, after), run[..end], from, token, o, r)
  }

  lemma SequenceExtends(cfg: Config, source: BlockSource, run: seq<World>, longer: seq<World>, token: Token,
        observations: seq<Observation>,
                        reports: seq<Report>, ends: seq<nat>, marks: seq<nat>, r: Report, mark: nat)
    requires Sequence(cfg, source, run, token, observations, reports, ends, marks) && run <= longer && |reports| < |observations|
    requires Stage(cfg, source, longer, token, observations[|reports|], r, ends[|reports|], |longer|, marks[|reports|], mark)
    ensures Sequence(cfg, source, longer, token, observations, reports + [r], ends + [|longer|], marks + [mark])
  {
    hide Concluded;
    forall k | 0 <= k < |reports|
      ensures Stage(cfg, source, longer, token, observations[k], reports[k], ends[k], ends[k + 1], marks[k], marks[k + 1])
    {
      assert Stage(cfg, source, run, token, observations[k], reports[k], ends[k], ends[k + 1], marks[k], marks[k + 1]);
      assert longer[..ends[k + 1]] == run[..ends[k + 1]];
    }
  }

  // The cause of a refusal stays one when the run goes on.
  lemma RefusedLater(cfg: Config, source: BlockSource, span: Span, e: Refusal, read: Option<Head>, candidate: Head,
        replies: seq<Reply>,
                     run: seq<World>, longer: seq<World>, from: int, later: int, token: Token, now: nat)
    requires run <= longer && from <= later
    requires Refused(cfg, source, span, e, read, candidate, replies, LapsedSince(run, later, token, now))
    ensures Refused(cfg, source, span, e, read, candidate, replies, LapsedSince(longer, from, token, now))
  {
    if LapsedSince(run, later, token, now) {
      LapsedEarlier(run, longer, from, later, token, now);
    }
  }

  // The window searched below `cursor` covers every height a common ancestor may have.
  lemma NoneInWindow(cfg: Config, candidate: Head, cursor: Head, read: Head, low: nat)
    requires Truthful(cfg.tree, candidate) && Truthful(cfg.tree, read)
    requires cursor.number == (if candidate.number > read.number then read.number else candidate.number)
    requires low == 0 || low + cfg.depth == read.number
    requires forall n: nat | low <= n <= read.number && cursor.number <= n + cfg.depth && n <= cursor.number ::
               HashAt(cfg.tree, candidate.hash, n) != HashAt(cfg.tree, read.hash, n)
    ensures forall n: nat :: !CommonAncestor(cfg, read, candidate, n)
  {
  }

  // One of the two headers names the other as its parent, one below it.
  predicate Adjacent(read: Head, candidate: Head) {
    || (candidate.number == read.number + 1 && candidate.parentHash == read.hash)
    || (read.number == candidate.number + 1 && read.parentHash == candidate.hash)
  }

  // Parent and child are on one branch.
  lemma LinearCases(cfg: Config, read: Head, candidate: Head)
    requires Truthful(cfg.tree, read) && Truthful(cfg.tree, candidate)
    ensures candidate.number == read.number + 1 && candidate.parentHash == read.hash ==> Linear(cfg, read, candidate)
    ensures read.number == candidate.number + 1 && read.parentHash == candidate.hash ==> Linear(cfg, read, candidate)
    ensures candidate.number == read.number && candidate.hash != read.hash ==> !Linear(cfg, read, candidate)
    ensures candidate.number == read.number + 1 && candidate.parentHash != read.hash ==> !Linear(cfg, read, candidate)
  {
  }

  lemma SameBlockOnBranch(tree: HeaderTree, d: Head, a: Head, b: Head)
    requires Truthful(tree, d) && OnBranch(tree, d, a) && a.hash == b.hash && a.number == b.number
    ensures OnBranch(tree, d, b)
    ensures b.number == d.number ==> b.hash == d.hash
    ensures b.number + 1 == d.number ==> b.hash == d.parentHash
  {
  }

  // A candidate at or above the current height whose block at that height is another one.
  lemma ApartIsNotLinear(cfg: Config, candidate: Head, cursor: Head, read: Head)
    requires Truthful(cfg.tree, candidate) && Truthful(cfg.tree, read) && candidate.hash != read.hash
    requires OnBranch(cfg.tree, candidate, cursor)
    ensures candidate.number >= read.number && cursor.number == read.number && cursor.hash != read.hash ==>
              !Linear(cfg, read, candidate)
  {
  }

  // A candidate below the current height that was not found among the recorded ancestors.
  lemma NotFoundIsDivergent(cfg: Config, source: BlockSource, span: Span, candidate: Head, read: Head, low: nat)
    requires Truthful(cfg.tree, candidate) && Truthful(cfg.tree, read) && candidate.hash != read.hash && low <= read.number
    requires low <= candidate.number ==> !OnBranch(cfg.tree, read, candidate)
    requires low == 0 || low + cfg.depth == read.number || MissingWithin(source, span, read.hash, low - 1, low)
    ensures candidate.number < read.number ==> Divergent(cfg, source, span, candidate, read)
  {
    if candidate.number < low && MissingWithin(source, span, read.hash, low - 1, low) {
      MissingWidens(source, span, span, read.hash, low - 1, candidate.number, low, read.number);
    }
  }

  lemma CollectExplained(cfg: Config, source: BlockSource, span: Span, candidate: Head, read: Head, lapsed: bool)
    requires BrokenWithin(cfg.tree, read.hash, read.number - cfg.depth, read.number)
    ensures Explained(cfg, source, span, InvalidLinkage, candidate, read, lapsed)
  {
  }

  lemma LapseExplained(cfg: Config, source: BlockSource, span: Span, candidate: Head, read: Head)
    requires Divergent(cfg, source, span, candidate, read) && !read.reorgPending
    ensures Explained(cfg, source, span, Store(LeadershipLost), candidate, read, true)
    ensures Unfenced(cfg, source, span, Store(LeadershipLost), candidate, read)
  {
  }

  // The validation stopped at the candidate's parent, or before, for want of a window.
  lemma EarlyRefusal(cfg: Config, source: BlockSource, span: Span, e: Refusal, candidate: Head, read: Head, lapsed: bool)
    requires source.tree == cfg.tree && Truthful(cfg.tree, candidate)
    requires match e
             case BadDepth => cfg.depth < 1
             case Unavailable =>
               && cfg.depth >= 1 && MissingWithin(source, span, candidate.hash, candidate.number - 1, candidate.number)
               && Missing(source, Span(span.from, span.from + 1), candidate.parentHash)
             case InvalidLinkage =>
               && cfg.depth >= 1 && BrokenAt(cfg.tree, candidate.hash, candidate.number)
               && BrokenWithin(cfg.tree, candidate.hash, candidate.number - 1, candidate.number)
             case _ => false
    ensures Explained(cfg, source, span, e, candidate, read, lapsed)
    ensures candidate.number != read.number && candidate.number != read.number + 1 ==>
              Unfenced(cfg, source, span, e, candidate, read)
  {
    if e == Unavailable {
      MissingWidens(source, span, span, candidate.hash, candidate.number - 1,
                    Least(candidate.number, read.number) - cfg.depth, candidate.number, candidate.number);
    }
  }

  // The walk down from a higher candidate failed.
  lemma DescentRefused(cfg: Config, source: BlockSource, span: Span, e: Refusal, candidate: Head, read: Head, lapsed: bool)
    requires source.tree == cfg.tree && candidate.number > read.number
    requires match e
             case GapTooLong => candidate.number > read.number + cfg.depth
             case Unavailable => MissingWithin(source, span, candidate.hash, read.number, candidate.number)
             case InvalidLinkage => BrokenWithin(cfg.tree, candidate.hash, read.number, candidate.number)
             case _ => false
    ensures Explained(cfg, source, span, e, candidate, read, lapsed)
    ensures candidate.number != read.number + 1 ==> TooEarly(cfg, source, span, e, candidate, read)
  {
    if e == Unavailable {
      MissingWidens(source, span, span, candidate.hash, read.number, Least(candidate.number, read.number) - cfg.depth,
                    candidate.number, candidate.number);
    }
  }

  lemma WalkUnfenced(cfg: Config, source: BlockSource, inner: Span, outer: Span, e: Refusal, candidate: Head, read: Head)
    requires TooEarly(cfg, source, inner, e, candidate, read) && Within(inner, outer)
    ensures Unfenced(cfg, source, outer, e, candidate, read) && e != NoCommonAncestor
  {
    if e == Unavailable {
      MissingWidens(source, inner, outer, candidate.hash, read.number, read.number, candidate.number, candidate.number);
    }
  }

  lemma NearIsDivergent(cfg: Config, source: BlockSource, span: Span, candidate: Head, read: Head)
    requires !Linear(cfg, read, candidate)
    ensures forall later: nat | span.to <= later :: Divergent(cfg, source, Span(span.from, later), candidate, read)
  {
  }

  lemma FoundIsBelow(tree: HeaderTree, read: Head, candidate: Head)
    requires Truthful(tree, read) && OnBranch(tree, read, candidate) && candidate.hash != read.hash
    ensures candidate.number < read.number
  {
  }

  // Why the search along the candidate's branch failed.
  lemma SearchExplained(cfg: Config, source: BlockSource, collected: Span, searched: Span, all: Span, e: Refusal,
                        candidate: Head, cursor: Head, read: Head, low: nat, lapsed: bool)
    requires Truthful(cfg.tree, candidate) && Truthful(cfg.tree, read) && source.tree == cfg.tree
    requires Within(collected, all) && Within(searched, all) && low <= read.number
    requires cursor.number == (if candidate.number > read.number then read.number else candidate.number)
    requires low == 0 || low + cfg.depth == read.number
             || (read.number < low + cfg.depth && MissingWithin(source, collected, read.hash, low - 1, low))
    requires match e
             case NoCommonAncestor =>
               forall n: nat | low <= n <= read.number && cursor.number <= n + cfg.depth && n <= cursor.number ::
                 HashAt(cfg.tree, candidate.hash, n) != HashAt(cfg.tree, read.hash, n)
             case Unavailable => MissingWithin(source, searched, candidate.hash, cursor.number - cfg.depth, cursor.number)
             case InvalidLinkage => BrokenWithin(cfg.tree, candidate.hash, cursor.number - cfg.depth, cursor.number)
             case _ => false
    ensures Explained(cfg, source, all, e, candidate, read, lapsed)
  {
    match e
    case NoCommonAncestor =>
      if low == 0 || low + cfg.depth == read.number {
        NoneInWindow(cfg, candidate, cursor, read, low);
      } else {
        MissingWidens(source, collected, all, read.hash, low - 1, read.number - cfg.depth, low, read.number);
      }
    case Unavailable =>
      MissingWidens(source, searched, all, candidate.hash, cursor.number - cfg.depth, cursor.number - cfg.depth,
          cursor.number, candidate.number);
    case InvalidLinkage =>
  }

  // Meeting the recorded ancestors strictly below both heads is a fork.
  lemma ForkConfirmed(cfg: Config, candidate: Head, cursor: Head, read: Head, low: nat, n: nat)
    requires Truthful(cfg.tree, candidate) && Truthful(cfg.tree, read) && candidate.hash != read.hash
    requires cursor.number == (if candidate.number > read.number then read.number else candidate.number)
    requires OnBranch(cfg.tree, candidate, cursor)
    requires candidate.number >= read.number ==> cursor.hash != read.hash
    requires candidate.number <= read.number + cfg.depth && read.number <= low + cfg.depth
    requires low <= n <= cursor.number && HashAt(cfg.tree, candidate.hash, n).Some?
    requires HashAt(cfg.tree, candidate.hash, n) == HashAt(cfg.tree, read.hash, n)
    requires low <= candidate.number ==> !OnBranch(cfg.tree, read, candidate)
    ensures Forked(cfg, read, candidate)
  {
    assert CommonAncestor(cfg, read, candidate, n);
  }

  // Fencing a head changes neither its block nor its branch.
  lemma FencedForkCarries(cfg: Config, read: Head, current: Head, candidate: Head)
    requires Forked(cfg, read, candidate)
    requires current == read || current == Fence(read)
    ensures Forked(cfg, current, candidate)
  {
    var n: nat :| CommonAncestor(cfg, read, candidate, n);
    assert CommonAncestor(cfg, current, candidate, n);
  }

  /** The part of a coordinator that lives as long as one leadership token; its loop calls Consider for one
      observation at a time.  `current` is the variable that consider shares with its divergence callback. */
  class Coordinator {
    const cluster: SharedStore
    const source: BlockSource
    const token: Token
    var current: Head

    constructor (cluster: SharedStore, source: BlockSource, token: Token)
      ensures this.cluster == cluster && this.source == source && this.token == token
    {
      this.cluster, this.source, this.token := cluster, source, token;
      current := NO_HEAD;
    }

    ghost predicate Ready()
      reads cluster, cluster.store
    {
      && cluster.Valid() && token in cluster.Last().sessions
      && source.Honest() && source.tree == cluster.cfg.tree
    }

    // Where the session is after validating `candidate` against `read`: the first reported divergence
    // fences a head that was not fenced yet, and nothing else touches the store.
    ghost predicate Walked(candidate: Head, read: Head, reported: bool)
      reads this, cluster, cluster.store
    {
      && Ready()
      && if reported && !read.reorgPending
         then cluster.PhaseOf(token) == Fenced(candidate, current) && current == Fence(read)
         else cluster.PhaseOf(token) == Considering(candidate, Some(read)) && current == read
    }

    ghost predicate Comparable(candidate: Head, read: Head) {
      && cluster.cfg.family == Evm && candidate.hash != read.hash
      && Truthful(cluster.cfg.tree, candidate) && Truthful(cluster.cfg.tree, read)
    }

    // reportDivergence and the onDivergence callback: at most one BeginReorg, none under an existing fence.
    method ReportDivergence(candidate: Head, ghost read: Head, reported: bool, now: nat) returns (refusal: Option<Refusal>)
      requires Walked(candidate, read, reported) && Comparable(candidate, read)
      modifies `current, cluster, cluster.store
      ensures old(cluster.run) <= cluster.run && Ready()
      ensures reported ==> refusal.None? && cluster.run == old(cluster.run)
      ensures refusal.None? ==> Walked(candidate, read, true)
      ensures refusal.Some? ==> refusal.value == Store(LeadershipLost) && !read.reorgPending
      ensures refusal.Some? ==> LapsedSince(cluster.run, |old(cluster.run)| - 1, token, now)
      ensures refusal.Some? ==> cluster.PhaseOf(token) == old(cluster.PhaseOf(token))
    {
      if reported || current.reorgPending {
        return None;
      }
      cluster.Interfere(token);
      ghost var w := cluster.Last();
      var guarded := cluster.BeginReorg(token, now);
      if guarded.Err? {
        assert LapsedAt(w, token, now);
        return Some(Store(guarded.error));
      }
      current := guarded.value;
      refusal := None;
    }

    /** Classifies a candidate against the head that was read.  An answer is exact: `false` if one block is
        on the other's branch, `true` if the branches fork inside the window.  Divergence is never reported
        for `false` and always for `true`.  A refusal has its stated reason; in particular, with every
        header available and well linked and a gap inside the window, NoCommonAncestor means there is none. */
    method ValidateEVMTransition(candidate: Head, read: Head, now: nat) returns (r: Result<bool, Refusal>)
      requires Walked(candidate, read, false) && Comparable(candidate, read)
      modifies `current, cluster, cluster.store, source
      ensures old(cluster.run) <= cluster.run && Ready() && source.calls >= old(source.calls)
      ensures r.Ok? ==> Walked(candidate, read, r.value)
      ensures r.Ok? ==> (r.value <==> !Linear(cluster.cfg, read, candidate))
      ensures r.Ok? && r.value ==> Forked(cluster.cfg, read, candidate)
      ensures r == Ok(false) ==> cluster.run == old(cluster.run)
      ensures candidate.number == read.number + 1 && candidate.parentHash == read.hash ==> r == Ok(false)
      ensures read.number == candidate.number + 1 && read.parentHash == candidate.hash ==> r == Ok(false)
      ensures r.Ok? && !Adjacent(read, candidate) ==> candidate.number <= read.number + cluster.cfg.depth
      ensures r.Ok? && !Adjacent(read, candidate) && candidate.number > 0 ==>
                Linked(cluster.cfg.tree, candidate.hash, candidate.parentHash)
      ensures cluster.cfg.depth < 1 && !Adjacent(read, candidate) ==>
                r == Err(BadDepth) || (r.Err? && r.error.Store?)
      ensures r == Err(BadDepth) && candidate.number != read.number && candidate.number != read.number + 1 ==>
                cluster.run == old(cluster.run)
      ensures r == Err(NoCommonAncestor) ==> Walked(candidate, read, true)
      ensures r.Err? ==> Walked(candidate, read, true)
                         || Unfenced(cluster.cfg, source, Span(old(source.calls), source.calls), r.error, candidate, read)
      ensures r.Err? ==> Explained(cluster.cfg, source, Span(old(source.calls), source.calls), r.error, candidate, read,
                                      LapsedSince(cluster.run, |old(cluster.run)| - 1, token, now))
      ensures cluster.PhaseOf(token).Fenced? ==>
                Divergent(cluster.cfg, source, Span(old(source.calls), source.calls), candidate, read)
    {
      hide IsRun, Next, Enabled, CommonAncestor, Observed, BlockSource.Honest, Lookup, IsEvmLatest, Truthful, OnBranch, Forked,
          Explained, Unfenced, TooEarly, Divergent, BrokenAt;
      LinearCases(cluster.cfg, read, candidate);
      var tree := cluster.cfg.tree;
      var depth := cluster.cfg.depth;
      if candidate.number == read.number + 1 && candidate.parentHash == read.hash {
        return Ok(false);
      }
      if read.number == candidate.number + 1 && read.parentHash == candidate.hash {
        return Ok(false);
      }
      var reported := false;
      if candidate.number == read.number || candidate.number == read.number + 1 {
        NearIsDivergent(cluster.cfg, source, Span(old(source.calls), source.calls), candidate, read);
        var refusal := ReportDivergence(candidate, read, reported, now);
        if refusal.Some? {
          LapseExplained(cluster.cfg, source, Span(old(source.calls), source.calls), candidate, read);
          return Err(refusal.value);
        }
        reported := true;
      }
      if depth < 1 {
        EarlyRefusal(cluster.cfg, source, Span(old(source.calls), source.calls), BadDepth, candidate, read,
                     LapsedSince(cluster.run, |old(cluster.run)| - 1, token, now));
        return Err(BadDepth);
      }
      if candidate.number > 0 {
        var refusal := VerifyParent(candidate);
        if refusal.Some? {
          EarlyRefusal(cluster.cfg, source, Span(old(source.calls), source.calls), refusal.value, candidate, read,
                       LapsedSince(cluster.run, |old(cluster.run)| - 1, token, now));
          return Err(refusal.value);
        }
      }

      ghost var asked, ran := source.calls, cluster.run;
      r := WalkBranches(candidate, read, reported, now);
      DivergentWidens(cluster.cfg, source, Span(asked, source.calls), Span(old(source.calls), source.calls), candidate, read);
      if r.Err? {
        ExplainedWidens(cluster.cfg, source, Span(asked, source.calls), Span(old(source.calls), source.calls),
            r.error, candidate, read,
                        cluster.run, |old(cluster.run)| - 1, |ran| - 1, token, now);
        if !Walked(candidate, read, true) {
          WalkUnfenced(cluster.cfg, source, Span(asked, source.calls), Span(old(source.calls), source.calls),
              r.error, candidate, read);
        }
      }
    }

    // The part of the validation that walks headers, once neither block is the other's parent.
    method WalkBranches(candidate: Head, read: Head, reported0: bool, now: nat) returns (r: Result<bool, Refusal>)
      requires Walked(candidate, read, reported0) && Comparable(candidate, read)
      requires reported0 <==> candidate.number == read.number || candidate.number == read.number + 1
      requires candidate.number == read.number + 1 ==> candidate.parentHash != read.hash
      requires reported0 ==> !Linear(cluster.cfg, read, candidate)
      modifies `current, cluster, cluster.store, source
      ensures old(cluster.run) <= cluster.run && Ready() && source.calls >= old(source.calls)
      ensures r.Ok? ==> Walked(candidate, read, r.value)
      ensures r.Ok? ==> (r.value <==> !Linear(cluster.cfg, read, candidate))
      ensures r.Ok? && r.value ==> Forked(cluster.cfg, read, candidate)
      ensures r == Ok(false) ==> !reported0 && cluster.run == old(cluster.run)
      ensures r.Ok? ==> candidate.number <= read.number + cluster.cfg.depth
      ensures r.Err? ==> Walked(candidate, read, true)
                         || TooEarly(cluster.cfg, source, Span(old(source.calls), source.calls), r.error, candidate, read)
      ensures r.Err? ==> Explained(cluster.cfg, source, Span(old(source.calls), source.calls), r.error, candidate, read,
                                      LapsedSince(cluster.run, |old(cluster.run)| - 1, token, now))
      ensures cluster.PhaseOf(token).Fenced? ==>
                Divergent(cluster.cfg, source, Span(old(source.calls), source.calls), candidate, read)
    {
      hide IsRun, Next, Enabled, CommonAncestor, Observed, BlockSource.Honest, Lookup, IsEvmLatest, Truthful, OnBranch, Forked,
          Explained, Divergent, MissingWithin, BrokenWithin;
      if reported0 {
        NearIsDivergent(cluster.cfg, source, Span(source.calls, source.calls), candidate, read);
      }
      var reported := reported0;
      var walked := DescendToHeight(source, candidate, read.number, cluster.cfg.depth);
      if walked.Err? {
        DescentRefused(cluster.cfg, source, Span(old(source.calls), source.calls), walked.error, candidate, read,
                       LapsedSince(cluster.run, |old(cluster.run)| - 1, token, now));
        return Err(walked.error);
      }
      var candidateCursor := walked.value;
      if candidateCursor.number == read.number && candidateCursor.hash == read.hash {
        SameBlockOnBranch(source.tree, candidate, candidateCursor, read);
        return Ok(false);
      }
      ApartIsNotLinear(cluster.cfg, candidate, candidateCursor, read);
      if candidateCursor.number == read.number {
        NearIsDivergent(cluster.cfg, source, Span(old(source.calls), source.calls), candidate, read);
        var refusal := ReportDivergence(candidate, read, reported, now);
        if refusal.Some? {
          LapseExplained(cluster.cfg, source, Span(old(source.calls), source.calls), candidate, read);
          return Err(refusal.value);
        }
        reported := true;
      }

      ghost var asked, ran := source.calls, cluster.run;
      r := ResolveFork(candidate, candidateCursor, read, reported, now);
      DivergentWidens(cluster.cfg, source, Span(asked, source.calls), Span(old(source.calls), source.calls), candidate, read);
      if r.Err? {
        ExplainedWidens(cluster.cfg, source, Span(asked, source.calls), Span(old(source.calls), source.calls),
            r.error, candidate, read,
                        cluster.run, |old(cluster.run)| - 1, |ran| - 1, token, now);
      }
    }

    // The part of the validation that walks both branches: `cursor` is the candidate's block at the lower
    // of the two heights, and it is not the current head.
    method ResolveFork(candidate: Head, cursor: Head, read: Head, reported: bool, now: nat) returns (r: Result<bool, Refusal>)
      requires Walked(candidate, read, reported) && Comparable(candidate, read)
      requires Truthful(source.tree, cursor) && OnBranch(source.tree, candidate, cursor)
      requires cursor.number == (if candidate.number > read.number then read.number else candidate.number)
      requires candidate.number <= read.number + cluster.cfg.depth
      requires candidate.number >= read.number <==> reported
      requires candidate.number >= read.number ==> cursor.hash != read.hash
      modifies `current, cluster, cluster.store, source
      ensures old(cluster.run) <= cluster.run && Ready()
      ensures r.Ok? ==> Walked(candidate, read, r.value)
      ensures r.Ok? ==> (r.value <==> !Linear(cluster.cfg, read, candidate))
      ensures r.Ok? && r.value ==> Forked(cluster.cfg, read, candidate)
      ensures r == Ok(false) ==> candidate.number < read.number && cluster.run == old(cluster.run)
      ensures source.calls >= old(source.calls)
      ensures r.Err? ==>
                || Walked(candidate, read, true) || r.error.Store?
                || (r.error == InvalidLinkage && candidate.number < read.number
                    && BrokenWithin(source.tree, read.hash, read.number - cluster.cfg.depth, read.number))
      ensures r.Err? ==> Explained(cluster.cfg, source, Span(old(source.calls), source.calls), r.error, candidate, read,
                                      LapsedSince(cluster.run, |old(cluster.run)| - 1, token, now))
      ensures cluster.PhaseOf(token).Fenced? ==>
                Divergent(cluster.cfg, source, Span(old(source.calls), source.calls), candidate, read)
    {
      hide IsRun, Next, Enabled, CommonAncestor, Observed, BlockSource.Honest, Lookup, IsEvmLatest, Forked,
          MissingWithin, BrokenWithin, OnBranch, Truthful, Explained;
      var tree, depth := cluster.cfg.tree, cluster.cfg.depth;
      var ancestors, low := CollectAncestors(source, read, candidate, depth);
      ghost var collected := Span(old(source.calls), source.calls);
      ApartIsNotLinear(cluster.cfg, candidate, cursor, read);
      if ancestors.Err? {
        CollectExplained(cluster.cfg, source, collected, candidate, read,
                         LapsedSince(cluster.run, |old(cluster.run)| - 1, token, now));
        return Err(ancestors.error);
      }
      if ancestors.value.None? {
        OnBranchHeight(tree, read, candidate);
        FoundIsBelow(tree, read, candidate);
        return Ok(false);
      }
      NotFoundIsDivergent(cluster.cfg, source, collected, candidate, read, low);
      hide Divergent;
      var refusal := ReportDivergence(candidate, read, reported, now);
      if refusal.Some? {
        LapseExplained(cluster.cfg, source, collected, candidate, read);
        return Err(refusal.value);
      }
      ghost var asked := source.calls;
      var met := FindCommonAncestor(source, candidate, cursor, read, ancestors.value.value, depth, low);
      ghost var all := Span(old(source.calls), source.calls);
      DivergentWidens(cluster.cfg, source, collected, all, candidate, read);
      if met.Err? {
        SearchExplained(cluster.cfg, source, collected, Span(asked, source.calls), all, met.error, candidate, cursor, read, low,
                        LapsedSince(cluster.run, |old(cluster.run)| - 1, token, now));
        return Err(met.error);
      }
      ForkConfirmed(cluster.cfg, candidate, cursor, read, low, met.value);
      r := Ok(true);
    }

    /** Fork choice for an EVM candidate: what to publish over the head that was read, if anything.  The
        offer is exactly the one the protocol allows for the established verdict and replies. */
    method ChooseFork(candidate: Head, read: Head, now: nat, refreshed: nat)
      returns (r: Result<Option<Head>, Refusal>, reorg: bool, replies: seq<Reply>)
      requires Ready() && cluster.PhaseOf(token) == Considering(candidate, Some(read)) && current == read
      requires Observed(cluster.cfg, candidate) && cluster.cfg.family == Evm
      requires Truthful(cluster.cfg.tree, read) && IsEvmLatest(read)
      modifies `current, cluster, cluster.store, source
      ensures Ready() && old(cluster.run) <= cluster.run && source.calls >= old(source.calls)
      ensures r.Ok? ==> Offered(cluster.cfg, cluster.PhaseOf(token), reorg, replies, refreshed) == r.value
      ensures r.Ok? && r.value.Some? ==>
                && IsEvmLatest(r.value.value) && !r.value.value.reorgPending
                && Settles(cluster.cfg, candidate, Some(read), replies, refreshed, r.value.value)
      ensures r == Ok(None) ==> Linear(cluster.cfg, read, candidate) || BelievesFenced(cluster.PhaseOf(token))
      ensures r.Err? ==> BelievesFenced(cluster.PhaseOf(token))
                         || Unfenced(cluster.cfg, source, Span(old(source.calls), source.calls), r.error, candidate, read)
      ensures r == Ok(None) ==> StaysPut(cluster.cfg, source, Span(old(source.calls), source.calls), Some(read),
                candidate, replies)
      ensures r.Err? ==> Refused(cluster.cfg, source, Span(old(source.calls), source.calls), r.error, Some(read),
                candidate, replies,
                                    LapsedSince(cluster.run, |old(cluster.run)| - 1, token, now))
      ensures Asked(source, Span(old(source.calls), source.calls), read.number, replies)
    {
      hide IsRun, Next, Enabled, Settles, Unfenced, OnBranch, CommonAncestor, Agreed, Gone, Confirms, Answers;
      reorg, replies := false, [];
      var offer := candidate;
      if candidate.hash == current.hash {
        if current.reorgPending {
          var evidence;
          evidence, replies := GetCanonicalEvidence(source, current);
          if evidence == Unproved {
            return Err(DisplacementUnproved), reorg, replies;
          }
          if evidence != Seen(true) {
            return Ok(None), reorg, replies;
          }
        }
      } else {
        var verdict := ValidateEVMTransition(candidate, read, now);
        if verdict.Err? {
          return Err(verdict.error), reorg, replies;
        }
        reorg := verdict.value;
        if candidate.number <= current.number {
          if !reorg {
            return Ok(None), reorg, replies;
          }
          var evidence;
          evidence, replies := GetCanonicalEvidence(source, current);
          FencedEvidence(read, current, replies);
          FencedForkCarries(cluster.cfg, read, current, candidate);
          if evidence == Unproved {
            return Err(DisplacementUnproved), reorg, replies;
          }
          if evidence.Seen? {
            if !evidence.allCurrent {
              return Ok(None), reorg, replies;
            }
            offer := current;
            offer := offer.(observedAt := refreshed);
          }
        }
      }
      OfferSettles(cluster.cfg, candidate, read, current, reorg, replies, refreshed, offer);
      offer := offer.(reorgEpoch := current.reorgEpoch);
      offer := offer.(reorgPending := false);
      if reorg {
        FencedForkCarries(cluster.cfg, read, current, candidate);
      }
      r := Ok(Some(offer));
    }

    // Everything between the opening Snapshot and the Publish: what to offer, if anything.
    method Prepare(candidate: Head, snapshot: Option<Head>, now: nat, refreshed: nat)
      returns (choice: Result<Option<Head>, Refusal>, reorg: bool, replies: seq<Reply>)
      requires Ready() && Observed(cluster.cfg, candidate) && cluster.PhaseOf(token) == Considering(candidate, snapshot)
      requires cluster.cfg.family == Evm && snapshot.Some? ==>
                Truthful(cluster.cfg.tree, snapshot.value) && IsEvmLatest(snapshot.value)
      modifies `current, cluster, cluster.store, source
      ensures Ready() && old(cluster.run) <= cluster.run && source.calls >= old(source.calls)
      ensures choice.Ok? ==> Offered(cluster.cfg, cluster.PhaseOf(token), reorg, replies, refreshed) == choice.value
      ensures choice.Ok? && choice.value.Some? ==>
                && choice.value.value.commitment == candidate.commitment
                && (candidate.family == Evm ==> !choice.value.value.reorgPending)
                && Settles(cluster.cfg, candidate, snapshot, replies, refreshed, choice.value.value)
      ensures choice == Ok(None) && candidate.family == Evm ==>
                && snapshot.Some?
                && (Linear(cluster.cfg, snapshot.value, candidate) || BelievesFenced(cluster.PhaseOf(token)))
      ensures choice.Err? && snapshot.Some? ==>
                BelievesFenced(cluster.PhaseOf(token))
                || Unfenced(cluster.cfg, source, Span(old(source.calls), source.calls), choice.error, candidate, snapshot.value)
      ensures choice == Ok(None) ==>
                StaysPut(cluster.cfg, source, Span(old(source.calls), source.calls), snapshot, candidate, replies)
      ensures choice.Err? ==> Refused(cluster.cfg, source, Span(old(source.calls), source.calls), choice.error,
                snapshot, candidate, replies,
                                         LapsedSince(cluster.run, |old(cluster.run)| - 1, token, now))
      ensures snapshot.Some? ==> Asked(source, Span(old(source.calls), source.calls), snapshot.value.number, replies)
    {
      hide IsRun, Next, Enabled;
      reorg, replies := false, [];
      if candidate.family == Evm && snapshot.None? && candidate.number > 0 {
        var refusal := VerifyParent(candidate);
        if refusal.Some? {
          return Err(refusal.value), reorg, replies;
        }
      }
      if candidate.family == Solana && snapshot.Some? && candidate.number < snapshot.value.number {
        return Ok(None), reorg, replies;
      }
      if candidate.family == Evm && snapshot.Some? {
        current := snapshot.value;
        choice, reorg, replies := ChooseFork(candidate, snapshot.value, now, refreshed);
        return;
      }
      choice := Ok(Some(candidate));
    }

    // The Publish that closes a consideration.
    method PublishOffer(o: Observation, offer: Head, ghost read: Option<Head>, ghost reorg: bool, ghost replies: seq<Reply>)
      returns (outcome: Outcome)
      requires Ready() && Offered(cluster.cfg, cluster.PhaseOf(token), reorg, replies, o.refreshed) == Some(offer)
      requires offer.commitment == o.head.commitment && (o.head.family == Evm ==> !offer.reorgPending)
      requires Settles(cluster.cfg, o.head, read, replies, o.refreshed, offer)
      modifies cluster, cluster.store
      ensures Ready() && cluster.PhaseOf(token) == Idle && old(cluster.run) <= cluster.run && |cluster.run| >= 2
      ensures match outcome
              case Published(h) =>
                && PublishedOffer(cluster.cfg, cluster.run, token, o, reorg, replies, h)
                && Settles(cluster.cfg, o.head, read, replies, o.refreshed, h)
              case Kept => false
              case Failed(e) =>
                e == Store(LeadershipLost) && FenceStillUp(cluster.run, token)
                    && OfferLapsed(cluster.cfg, cluster.run, token, o, reorg, replies)
    {
      hide IsRun, Next, Enabled, Offered, FenceStillUp, ReplacedWhatItRead, BlockSource.Honest;
      cluster.Interfere(token);
      var published := cluster.Publish(token, o.publishAt, offer, reorg, replies, o.refreshed);
      outcome := if published.Err? then Failed(Store(published.error)) else Published(published.value);
    }

    /** One observation, start to finish, with the other participants running between its store operations.
        Whatever they do, the call is a stretch of a run of the protocol that is `Concluded`. */
    method Consider(o: Observation) returns (outcome: Outcome, ghost report: Report)
      requires Ready() && cluster.PhaseOf(token) == Idle && Observed(cluster.cfg, o.head)
      modifies this, cluster, cluster.store, source
      ensures Ready() && cluster.PhaseOf(token) == Idle && old(cluster.run) <= cluster.run
      ensures |old(cluster.run)| < |cluster.run| && source.calls >= old(source.calls) && report.outcome == outcome
      ensures Concluded(cluster.cfg, source, Span(old(source.calls), source.calls), cluster.run, |old(cluster.run)|,
                token, o, report)
    {
      hide IsRun, Next, Enabled, Offered, FenceStillUp, PublishedOffer, OfferLapsed, StaysPut, Asked, ReadSince,
          LapsedSince, Truthful, Observed, Settles, Linear, Unfenced, BelievesFenced,
        SharedStore.Valid, BlockSource.Honest, Lookup, Explained, Refused;
      var candidate := o.head;
      cluster.Interfere(token);
      var snapshot := cluster.Read(token, candidate);
      assert ReadAt(cluster.Last(), token, candidate, snapshot);
      ghost var asRead := cluster.run;
      var choice, reorg, replies := Prepare(candidate, snapshot, o.fenceAt, o.refreshed);
      ghost var prepared := cluster.run;
      if choice.Ok? && choice.value.Some? {
        outcome := PublishOffer(o, choice.value.value, snapshot, reorg, replies);
      } else {
        cluster.Abort(token);
        outcome := if choice.Err? then Failed(choice.error) else Kept;
        if choice.Err? {
          RefusedLater(cluster.cfg, source, Span(old(source.calls), source.calls), choice.error, snapshot, candidate,
              replies, prepared, cluster.run, |old(cluster.run)|, |asRead| - 1, token, o.fenceAt);
        }
      }
      ReadStays(asRead, cluster.run, |old(cluster.run)|, token, candidate, snapshot);
      report := Report(outcome, snapshot, reorg, replies);
    }

    /** One leadership: the queued observations are considered one after the other, until the lease turns
        out to be lost.  Every other error only skips its observation. */
    method RunLeader(observations: seq<Observation>)
      returns (outcomes: seq<Outcome>, published: seq<Head>, lost: bool, ghost reports: seq<Report>,
          ghost ends: seq<nat>, ghost marks: seq<nat>)
      requires Ready() && cluster.PhaseOf(token) == Idle
      requires forall o | o in observations :: Observed(cluster.cfg, o.head)
      modifies this, cluster, cluster.store, source
      ensures Ready() && cluster.PhaseOf(token) == Idle && old(cluster.run) <= cluster.run
      ensures Sequence(cluster.cfg, source, cluster.run, token, observations, reports, ends, marks)
      ensures ends[0] == |old(cluster.run)| && ends[|reports|] == |cluster.run|
      ensures marks[0] == old(source.calls) && marks[|reports|] == source.calls
      ensures |outcomes| == |reports| && forall k | 0 <= k < |outcomes| :: reports[k].outcome == outcomes[k]
      ensures published == PublishedHeads(outcomes)
      ensures lost <==> outcomes != [] && outcomes[|outcomes| - 1] == Failed(Store(LeadershipLost))
      ensures forall k | 0 <= k < |outcomes| - 1 :: outcomes[k] != Failed(Store(LeadershipLost))
      ensures !lost ==> |outcomes| == |observations|
    {
      hide Step, Concluded, Observed, BlockSource.Honest;
      outcomes, published, lost := [], [], false;
      reports, ends, marks := [], [|cluster.run|], [source.calls];
      for i := 0 to |observations|
        invariant Ready() && cluster.PhaseOf(token) == Idle && old(cluster.run) <= cluster.run
        invariant Sequence(cluster.cfg, source, cluster.run, token, observations, reports, ends, marks)
        invariant ends[0] == |old(cluster.run)| && ends[|reports|] == |cluster.run|
        invariant marks[0] == old(source.calls) && marks[|reports|] == source.calls
        invariant |outcomes| == |reports| == i
                  && forall k | 0 <= k < |outcomes| :: reports[k].outcome == outcomes[k] != Failed(Store(LeadershipLost))
        invariant published == PublishedHeads(outcomes) && !lost
      {
        ghost var before := cluster.run;
        var outcome, report := Consider(observations[i]);
        assert cluster.run[..|cluster.run|] == cluster.run;
        SequenceExtends(cluster.cfg, source, before, cluster.run, token, observations, reports, ends, marks, report,
            source.calls);
        reports, ends, marks := reports + [report], ends + [|cluster.run|], marks + [source.calls];
        assert (outcomes + [outcome])[..|outcomes|] == outcomes;
        outcomes := outcomes + [outcome];
        match outcome {
          case Published(head) => published := published + [head];
          case Kept =>
          case Failed(e) =>
            if e == Store(LeadershipLost) {
              lost := true;
              return;
            }
        }
      }
    }

    // The block's parent can be fetched and is one below it.
    method VerifyParent(candidate: Head) returns (refusal: Option<Refusal>)
      requires source.Honest() && Truthful(source.tree, candidate)
      modifies source
      ensures match refusal
              case Some(Unavailable) =>
                && MissingWithin(source, Span(old(source.calls), source.calls), candidate.hash, candidate.number - 1,
                    candidate.number)
                && Missing(source, Span(old(source.calls), old(source.calls) + 1), candidate.parentHash)
              case Some(e) => e == InvalidLinkage && BrokenAt(source.tree, candidate.hash, candidate.number)
                  && BrokenWithin(source.tree, candidate.hash, candidate.number - 1, candidate.number)
              case None => Linked(source.tree, candidate.hash, candidate.parentHash)
      ensures source.calls >= old(source.calls)
    {
      var parent := source.EVMBlockByHash(candidate.parentHash, candidate.commitment);
      if parent.None? {
        var asked := Span(old(source.calls), source.calls);
        WalkStops(source, asked, asked, candidate.hash, candidate, candidate.number - 1, candidate.number);
        return Some(Unavailable);
      }
      if parent.value.number >= candidate.number || candidate.number - parent.value.number != 1 {
        assert BrokenAt(source.tree, candidate.hash, candidate.number);
        return Some(InvalidLinkage);
      }
      refusal := None;
    }
  }
}
