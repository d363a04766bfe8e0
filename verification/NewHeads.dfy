/** A newHeads session on the shared store: the pump of a WebSocket session fed by the accepted-head stream
    while the whole protocol goes on (internal/gateway/websocket.go:199-259, internal/head/types.go:245-294). */
module NewHeads {
  import opened Wrappers
  import opened Headers
  import opened HeadStore
  import opened Protocol
  import opened Safety
  import opened Cluster
  import opened Runtime
  import opened WebSocket
  import Stream

  // The accepted head may be relied on: not pending, and not older than the limit, if there is one.
  predicate Fit(accepted: Option<Head>, now: nat, maxHeadAge: nat) {
    && (accepted.Some? ==> !accepted.value.reorgPending)
    && (maxHeadAge > 0 ==> accepted.Some? && accepted.value.observedAt != 0 && now <= accepted.value.observedAt + maxHeadAge)
  }

  lemma FitExactly(accepted: Option<Head>, now: nat, maxHeadAge: nat)
    ensures !Fit(accepted, now, maxHeadAge) <==>
              || (accepted.Some? && accepted.value.reorgPending)
              || (maxHeadAge > 0
                  && (accepted.None? || accepted.value.observedAt == 0 || now > accepted.value.observedAt + maxHeadAge))
  {
  }

  // The session began behind `base` and its pump has processed every event received since.
  ghost predicate Serving(cluster: SharedStore, pump: Pump, base: seq<Event>, received: seq<Event>)
    reads cluster, cluster.store, pump
  {
    && cluster.Valid() && cluster.cfg.family == Evm && pump.Valid() && pump.source.Honest()
    && base <= cluster.store.events && Stream.Session(base, cluster.store.events, 0, |base|, received, pump.cursor)
    && (base != [] ==> Covered(pump.known, base[|base| - 1].head.hash))
    && EventsCovered(pump.known, received, |received|)
    && pump.source.tree == cluster.cfg.tree && Real(cluster.cfg.tree, pump.known)
  }

  // Every head accepted since the session began, as far as `position` entries of the log.
  ghost predicate AcceptedCovered(run: seq<World>, known: seq<Head>, base: nat, position: nat) {
    forall m | 0 <= m < |run| && base <= |run[m].store.events| <= position && Current(run[m]).Some? ::
      Covered(known, Current(run[m]).value.hash)
  }

  // The subscription that starts a session.
  method Open(cluster: SharedStore, source: BlockSource, depth: nat) returns (pump: Pump)
    requires cluster.Valid() && cluster.cfg.family == Evm && source.Honest() && source.tree == cluster.cfg.tree
    ensures fresh(pump) && pump.source == source && pump.closing.None?
    ensures Serving(cluster, pump, cluster.store.events, [])
  {
    var checkpoint := Stream.Subscribe(cluster);
    pump := new Pump(source, depth, checkpoint);
    EventsAreReal(cluster);
    if cluster.store.events != [] {
      assert checkpoint in cluster.store.events;
      assert pump.known[0].hash == checkpoint.head.hash;
    }
  }

  lemma EventsAreReal(cluster: SharedStore)
    requires cluster.Valid() && cluster.cfg.family == Evm
    ensures RealEvents(cluster.cfg.tree, cluster.store.events)
    ensures forall e | e in cluster.store.events :: !e.head.IsZero()
  {
    AcceptedHeadsAreLogged(cluster.cfg, cluster.run, |cluster.run| - 1);
  }

  // The newest event of every world up to `position` is of a processed block.
  lemma ProcessedCoverAccepted(cluster: SharedStore, known: seq<Head>, base: seq<Event>, received: seq<Event>)
    requires cluster.Valid() && cluster.cfg.family == Evm && base <= cluster.store.events
    requires Stream.Stretch(cluster.store.events, |base|, received) && EventsCovered(known, received, |received|)
    requires base != [] ==> Covered(known, base[|base| - 1].head.hash)
    ensures AcceptedCovered(cluster.run, known, |base|, |base| + |received|)
  {
    var run := cluster.run;
    forall m | 0 <= m < |run| && |base| <= |run[m].store.events| <= |base| + |received| && Current(run[m]).Some?
      ensures Covered(known, Current(run[m]).value.hash)
    {
      LogGrows(cluster.cfg, run, m, |run| - 1);
      AcceptedHeadsAreLogged(cluster.cfg, run, m);
      var last := |run[m].store.events| - 1;
      assert run[m].store.events[last] == cluster.store.events[last];
      if last >= |base| {
        assert received[last - |base|] == cluster.store.events[last];
      }
    }
  }

  lemma SnapshotIsLast(cluster: SharedStore)
    requires cluster.Valid()
    ensures Lookup(cluster.store.heads, Latest) == Current(cluster.Last())
  {
  }

  lemma PageIsReal(cluster: SharedStore, base: seq<Event>, received: seq<Event>, page: seq<Event>, cursor: nat)
    requires cluster.Valid() && cluster.cfg.family == Evm
    requires Stream.Session(base, cluster.store.events, 0, |base|, received + page, cursor)
    ensures RealEvents(cluster.cfg.tree, page) && forall e | e in page :: !e.head.IsZero()
    ensures Stream.Stretch(cluster.store.events, |base|, received + page)
  {
    EventsAreReal(cluster);
    forall e | e in page
      ensures e in cluster.store.events
    {
      assert e in received + page;
    }
  }

  lemma CoverMore(known: seq<Head>, longer: seq<Head>, received: seq<Event>, page: seq<Event>)
    requires known <= longer && EventsCovered(known, received, |received|) && EventsCovered(longer, page, |page|)
    ensures EventsCovered(longer, received + page, |received + page|)
  {
    EventsCoveredExtends(known, longer, received, |received|);
    forall m | 0 <= m < |received + page|
      ensures Covered(longer, (received + page)[m].head.hash)
    {
      if m < |received| {
        assert (received + page)[m] == received[m];
      } else {
        assert (received + page)[m] == page[m - |received|];
      }
    }
  }

  // One iteration of the pump's loop on the shared store.
  method Turn(cluster: SharedStore, pump: Pump, now: nat, maxHeadAge: nat, count: nat, wakeups: nat,
        ghost base: seq<Event>, ghost received: seq<Event>)
    returns (page: seq<Event>, ghost length: nat)
    requires Serving(cluster, pump, base, received) && pump.closing.None?
    modifies cluster, cluster.store, pump, pump.source
    ensures cluster.Valid() && pump.Valid() && old(cluster.run) <= cluster.run
              && old(cluster.store.events) <= cluster.store.events
    ensures old(pump.known) <= pump.known && old(pump.notified) <= pump.notified
    ensures |old(cluster.store.events)| <= length && |base| + |received| <= length
    ensures |base| + |received + page| == Stream.NextPosition(|base| + |received|, length, count)
    ensures Stream.Stretch(cluster.store.events, |base|, received + page)
    ensures pump.closing.None? ==> Serving(cluster, pump, base, received + page)
    ensures Real(cluster.cfg.tree, pump.known) && pump.source.calls >= old(pump.source.calls)
    ensures pump.closing.Some? ==>
              pump.ClosedOn(Poll.Poll(Some(page), Fit(Current(cluster.Last()), now, maxHeadAge)),
                            Span(old(pump.source.calls), pump.source.calls))
    ensures var accepted := Current(cluster.Last());
            && (pump.closing == Some(PollFailed) <==>
                  || (accepted.Some? && accepted.value.reorgPending)
                  || (maxHeadAge > 0
                      && (accepted.None? || accepted.value.observedAt == 0
                          || now > accepted.value.observedAt + maxHeadAge)))
  {
    hide SharedStore.Valid, Pump.Valid, Stream.Session, Stream.NextPosition, Covered, EventsCovered,
        BlockSource.Honest, Fit, Real, RealEvents;
    ghost var cursor, known := pump.cursor, pump.known;
    page, cursor := Stream.Poll(cluster, pump.cursor, count, wakeups, base, received);
    length := |cluster.store.events|;
    ghost var log := cluster.store.events;
    Stream.Wait(cluster);
    Stream.SessionContinues(base, log, 0, cluster.store.events, 0, |base|, received + page, cursor);
    PageIsReal(cluster, base, received, page, cursor);
    SnapshotIsLast(cluster);
    var accepted := Lookup(cluster.store.heads, Latest);
    FitExactly(accepted, now, maxHeadAge);
    pump.Iterate(Poll.Poll(Some(page), Fit(accepted, now, maxHeadAge)));
    if base != [] {
      CoveredExtends(known, pump.known, base[|base| - 1].head.hash);
    }
    if pump.closing.None? {
      CoverMore(known, pump.known, received, page);
    }
  }

  lemma CoveredExtends(known: seq<Head>, longer: seq<Head>, hash: Hash)
    requires known <= longer && Covered(known, hash)
    ensures Covered(longer, hash)
  {
    var j :| 0 <= j < |known| && known[j].hash == hash;
    assert longer[j].hash == hash;
  }

  /** While a session stays open it processes every head accepted since it began: n polls cover everything
      accepted before them as far as n pages reach.  Every processed block is real, and they follow the tree's
      links.  The session closes only on the next poll, because the accepted head of that moment was unfit, a
      gap could not be filled, or the deduplication window was full. */
  method Serve(cluster: SharedStore, pump: Pump, clock: seq<nat>, maxHeadAge: nat, count: nat, wakeups: nat,
               ghost base: seq<Event>, ghost received0: seq<Event>)
    returns (completed: nat, ghost received: seq<Event>, ghost refused: seq<Event>)
    requires Serving(cluster, pump, base, received0) && pump.closing.None?
    modifies cluster, cluster.store, pump, pump.source
    ensures cluster.Valid() && pump.Valid() && old(cluster.run) <= cluster.run
    ensures old(pump.known) <= pump.known && old(pump.notified) <= pump.notified
    ensures completed <= |clock| && (pump.closing.None? <==> completed == |clock|)
    ensures received0 <= received && (pump.closing.None? ==> Serving(cluster, pump, base, received))
    ensures |base| + |received0| <= |old(cluster.store.events)|
    ensures |base| + |received| >= Stream.Reach(|base| + |received0|, |old(cluster.store.events)|, completed, count)
    ensures AcceptedCovered(cluster.run, pump.known, |base|, |base| + |received|)
    ensures pump.closing.Some? ==>
              && Stream.Stretch(cluster.store.events, |base|, received + refused)
              && pump.ClosedOn(Poll.Poll(Some(refused), Fit(Current(cluster.Last()), clock[completed], maxHeadAge)),
                               Span(old(pump.source.calls), pump.source.calls))
    ensures FollowsTree(cluster.cfg.tree, pump.known)
    ensures pump.closing.Some? ==>
              var accepted := Current(cluster.Last());
              && (pump.closing == Some(PollFailed) <==>
                    || (accepted.Some? && accepted.value.reorgPending)
                    || (maxHeadAge > 0
                        && (accepted.None? || accepted.value.observedAt == 0
                            || clock[completed] > accepted.value.observedAt + maxHeadAge)))
  {
    hide SharedStore.Valid, Pump.Valid, Stream.Session, Stream.NextPosition, Real, FollowsTree;
    completed, received, refused := 0, received0, [];
    Stream.SessionLength(base, cluster.store.events, received, pump.cursor);
    while completed < |clock|
      invariant completed <= |clock| && old(cluster.run) <= cluster.run && old(cluster.store.events) <= cluster.store.events
      invariant Serving(cluster, pump, base, received) && pump.closing.None? && received0 <= received
      invariant old(pump.known) <= pump.known && old(pump.notified) <= pump.notified
      invariant pump.source.calls >= old(pump.source.calls)
      invariant |base| + |received| >= Stream.Reach(|base| + |received0|, |old(cluster.store.events)|, completed, count)
    {
      ghost var start, known := |base| + |received|, pump.known;
      var page;
      ghost var length;
      page, length := Turn(cluster, pump, clock[completed], maxHeadAge, count, wakeups, base, received);
      if pump.closing.Some? {
        refused := page;
        ServedBefore(cluster, pump.known, known, base, received, refused);
        KnownFollowsTree(cluster, pump);
        return;
      }
      Stream.ReachStep(|base| + |received0|, |old(cluster.store.events)|, completed, count, start, length);
      completed := completed + 1;
      received := received + page;
    }
    Stream.SessionLength(base, cluster.store.events, received, pump.cursor);
    ProcessedCoverAccepted(cluster, pump.known, base, received);
    KnownFollowsTree(cluster, pump);
  }

  lemma KnownFollowsTree(cluster: SharedStore, pump: Pump)
    requires pump.Valid() && Real(cluster.cfg.tree, pump.known)
    ensures FollowsTree(cluster.cfg.tree, pump.known)
  {
    RealHeadsFollowTree(cluster.cfg.tree, pump.known);
  }

  // What was processed before the poll that closed the session.
  lemma ServedBefore(cluster: SharedStore, known: seq<Head>, before: seq<Head>, base: seq<Event>,
        received: seq<Event>, refused: seq<Event>)
    requires cluster.Valid() && cluster.cfg.family == Evm && base <= cluster.store.events && before <= known
    requires Stream.Stretch(cluster.store.events, |base|, received + refused) && EventsCovered(before, received, |received|)
    requires base != [] ==> Covered(before, base[|base| - 1].head.hash)
    ensures AcceptedCovered(cluster.run, known, |base|, |base| + |received|)
  {
    assert received == (received + refused)[..|received|];
    EventsCoveredExtends(before, known, received, |received|);
    if base != [] {
      CoveredExtends(before, known, base[|base| - 1].head.hash);
    }
    ProcessedCoverAccepted(cluster, known, base, received);
  }
}
