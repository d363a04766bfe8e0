/** Pinned reads and their final fence (internal/gateway/reorg.go, internal/gateway/router.go). */
module Gateway {
  import opened Wrappers
  import opened Headers
  import opened EvmUtils
  import opened HeadStore
  import opened Protocol
  import opened Safety
  import opened Cluster
  import opened Runtime

  datatype FailureClass = CheckUnavailable | DeadlinePassed | PendingReorg | ChangedReorg | StaleHead

  datatype RpcReply = Success(payload: string) | FencedOff(failure: FailureClass) | Rejected

  // One processed batch item; only items with a target take part in the fence.
  datatype Item = Item(id: nat, target: Option<Head>, reply: RpcReply)

  // The final shared-store read: the store, the request deadline and the clock as the fence finds them.
  datatype FinalRead = FinalRead(reachable: bool, expired: bool, now: nat, maxHeadAge: nat)

  /******* The fence *******/

  function FenceFailure(initial: Option<Head>, latest: Option<Head>, read: FinalRead): Option<FailureClass> {
    if !read.reachable then Some(CheckUnavailable)
    else if read.expired then Some(DeadlinePassed)
    else if !UsableHead(initial) || !UsableHead(latest) then Some(CheckUnavailable)
    else if initial.value.reorgPending || latest.value.reorgPending then Some(PendingReorg)
    else if initial.value.reorgEpoch != latest.value.reorgEpoch
        || latest.value.generation < initial.value.generation then Some(ChangedReorg)
    else if latest.value.number <= initial.value.number && latest.value.hash != initial.value.hash then Some(ChangedReorg)
    else if Stale(latest.value, read) then Some(StaleHead)
    else None
  }

  // The read was made in time, and both heads are there.
  predicate BothRead(initial: Option<Head>, latest: Option<Head>, read: FinalRead) {
    && read.reachable && !read.expired
    && initial.Some? && !initial.value.IsZero() && latest.Some? && !latest.value.IsZero()
  }

  // When each failure is reported: the first of these conditions that is met.
  predicate Reported(initial: Option<Head>, latest: Option<Head>, read: FinalRead, failure: FailureClass) {
    match failure
    case CheckUnavailable => !read.reachable || (!read.expired && !BothRead(initial, latest, read))
    case DeadlinePassed => read.reachable && read.expired
    case PendingReorg =>
      BothRead(initial, latest, read) && (initial.value.reorgPending || latest.value.reorgPending)
    case ChangedReorg =>
      && BothRead(initial, latest, read) && !initial.value.reorgPending && !latest.value.reorgPending
      && (|| initial.value.reorgEpoch != latest.value.reorgEpoch || latest.value.generation < initial.value.generation
          || (latest.value.number <= initial.value.number && latest.value.hash != initial.value.hash))
    case StaleHead =>
      && BothRead(initial, latest, read) && !initial.value.reorgPending && !latest.value.reorgPending
      && initial.value.reorgEpoch == latest.value.reorgEpoch && initial.value.generation <= latest.value.generation
      && (latest.value.number > initial.value.number || latest.value.hash == initial.value.hash)
      && read.maxHeadAge > 0
      && (latest.value.observedAt == 0 || read.now > latest.value.observedAt + read.maxHeadAge)
  }

  // The fence passes on exactly these conditions, and otherwise reports the first one that failed.
  lemma FenceVerdict(initial: Option<Head>, latest: Option<Head>, read: FinalRead)
    ensures FenceFailure(initial, latest, read).None? <==>
              && read.reachable && !read.expired && initial.Some? && latest.Some?
              && var was, now := initial.value, latest.value;
                 && !was.IsZero() && !now.IsZero() && !was.reorgPending && !now.reorgPending
                 && was.reorgEpoch == now.reorgEpoch && was.generation <= now.generation
                 && (now.number > was.number || now.hash == was.hash)
                 && (read.maxHeadAge == 0 || (now.observedAt != 0 && read.now <= now.observedAt + read.maxHeadAge))
    ensures forall f :: FenceFailure(initial, latest, read) == Some(f) <==> Reported(initial, latest, read, f)
  {
  }

  // What the fence makes of a batch: all items with a target, or none.
  function FencedBatch(items: seq<Item>, family: Family, failure: Option<FailureClass>): (r: seq<Item>)
    ensures |r| == |items|
  {
    if family != Evm || failure.None? then items
    else
      seq(|items|, i requires 0 <= i < |items| =>
        if items[i].target.None? then items[i] else Item(items[i].id, None, FencedOff(failure.value)))
  }

  method FenceEVMResponses(shared: SharedStore, initial: Option<Head>, responses: array<Item>, read: FinalRead)
    modifies responses
    ensures responses[..] == FencedBatch(old(responses[..]), shared.cfg.family,
              FenceFailure(initial, Lookup(shared.store.heads, Latest), read))
    ensures forall k | 0 <= k < responses.Length && (shared.cfg.family != Evm || old(responses[k]).target.None?) ::
              responses[k] == old(responses[k])
    ensures forall k | 0 <= k < responses.Length && shared.cfg.family == Evm && old(responses[k]).target.Some? ::
              responses[k] == old(responses[k]) <==>
                && read.reachable && !read.expired && initial.Some? && Latest in shared.store.heads
                && var was, now := initial.value, shared.store.heads[Latest];
                   && !was.IsZero() && !now.IsZero() && !was.reorgPending && !now.reorgPending
                   && was.reorgEpoch == now.reorgEpoch && was.generation <= now.generation
                   && (now.number > was.number || now.hash == was.hash)
                   && (read.maxHeadAge == 0 || (now.observedAt != 0 && read.now <= now.observedAt + read.maxHeadAge))
    ensures forall k | 0 <= k < responses.Length && responses[k] != old(responses[k]) ::
              && responses[k].id == old(responses[k]).id && responses[k].target.None? && responses[k].reply.FencedOff?
              && Reported(initial, Lookup(shared.store.heads, Latest), read, responses[k].reply.failure)
  {
    FenceVerdict(initial, Lookup(shared.store.heads, Latest), read);
    hide FenceFailure, Reported;
    if shared.cfg.family != Evm {
      return;
    }
    var needsFence := false;
    var i := 0;
    while i < responses.Length && !needsFence
      invariant 0 <= i <= responses.Length
      invariant needsFence || forall k | 0 <= k < i :: responses[k].target.None?
    {
      needsFence := responses[i].target.Some?;
      i := i + 1;
    }
    var failure := FenceFailure(initial, Lookup(shared.store.heads, Latest), read);
    if !needsFence || failure.None? {
      return;
    }
    for index := 0 to responses.Length
      invariant forall k | 0 <= k < index :: responses[k] == FencedBatch(old(responses[..]), Evm, failure)[k]
      invariant forall k | index <= k < responses.Length :: responses[k] == old(responses[k])
    {
      if responses[index].target.Some? {
        // The result and its target are dropped together.
        responses[index] := Item(responses[index].id, None, FencedOff(failure.value));
      }
    }
  }

  /** Once the epochs agree, the fence's comparisons of generation, height and hash cannot fail: over a
      run, ChangedReorg means exactly that a reorg epoch was opened. */
  lemma ChangedMeansNewEpoch(cfg: Config, ws: seq<World>, i: nat, j: nat, read: FinalRead)
    requires IsRun(cfg, ws) && i <= j < |ws|
    requires UsableHead(Current(ws[i])) && UsableHead(Current(ws[j]))
    requires !Current(ws[i]).value.reorgPending && !Current(ws[j]).value.reorgPending
    requires read.reachable && !read.expired
    ensures FenceFailure(Current(ws[i]), Current(ws[j]), read) == Some(ChangedReorg)
       <==> Current(ws[i]).value.reorgEpoch < Current(ws[j]).value.reorgEpoch
  {
    OneBranchPerEpoch(cfg, ws, i, j);
  }

  /** Fence safety: if the fence passes between two snapshots of a run, no fence was up and no epoch was
      opened anywhere between them, and every block on the pinned head's branch, the pinned head first, is
      on the branch of the head accepted at the final check. */
  lemma FencePassIsSafe(cfg: Config, ws: seq<World>, i: nat, j: nat, read: FinalRead)
    requires IsRun(cfg, ws) && i <= j < |ws|
    requires FenceFailure(Current(ws[i]), Current(ws[j]), read).None?
    ensures forall k | i <= k <= j ::
              && Current(ws[k]).Some? && !Current(ws[k]).value.reorgPending
              && Current(ws[k]).value.reorgEpoch == Current(ws[i]).value.reorgEpoch
    ensures OnBranch(cfg.tree, Current(ws[j]).value, Current(ws[i]).value)
    ensures forall target: Head | OnBranch(cfg.tree, Current(ws[i]).value, target) ::
              OnBranch(cfg.tree, Current(ws[j]).value, target)
  {
    forall k | i <= k <= j
      ensures Current(ws[k]).Some? && !Current(ws[k]).value.reorgPending
      ensures Current(ws[k]).value.reorgEpoch == Current(ws[i]).value.reorgEpoch
    {
      NoFenceBetween(cfg, ws, i, k, j);
    }
    NoFenceBetween(cfg, ws, i, i, j);
    RunKeepsInv(cfg, ws, i);
    var pinned := Current(ws[i]).value;
    assert pinned in ws[i].accepted;
    forall target: Head | OnBranch(cfg.tree, pinned, target)
      ensures OnBranch(cfg.tree, Current(ws[j]).value, target)
    {
      OnBranchTransitive(cfg.tree, Current(ws[j]).value, pinned, target);
    }
  }

  /******* A batch from snapshot to reply *******/

  datatype Selector = Static | LatestTag | Numeric(quantity: string) | ExplicitHash(hash: Hash)

  predicate Stale(h: Head, read: FinalRead) {
    read.maxHeadAge > 0 && (h.observedAt == 0 || read.now > h.observedAt + read.maxHeadAge)
  }

  // The target is what its selector names.
  predicate Names(selector: Selector, pinned: Head, target: Head) {
    match selector
    case Static => false
    case LatestTag => target == pinned
    case Numeric(quantity) => ParseEVMQuantity(quantity) == Ok(target.number) && target.commitment == Explicit
    case ExplicitHash(hash) => target.hash == hash && target.commitment == Explicit
  }

  // Why an item is turned away, given the header queries made for it.
  ghost predicate Refusable(source: BlockSource, span: Span, selector: Selector, pinned: Option<Head>, depth: nat,
        read: FinalRead) {
    || !UsableHead(pinned) || pinned.value.reorgPending
    || match selector
       case Static => false
       case LatestTag => Stale(pinned.value, read)
       case ExplicitHash(hash) => !IsEVMHash(hash)
       case Numeric(quantity) =>
         var number := ParseEVMQuantity(quantity);
         number.Err? || Unavailable(source, span, pinned, number.value, depth)
  }

  // Selection of one item's target against the pinned snapshot, and the admission checks before loading.
  method Admit(source: BlockSource, pinned: Option<Head>, selector: Selector, depth: nat, read: FinalRead)
    returns (target: Result<Option<Head>, RpcReply>)
    requires source.Honest() && (pinned.Some? ==> Truthful(source.tree, pinned.value))
    modifies source
    ensures target.Ok? && target.value.Some? ==>
              UsableHead(pinned) && !pinned.value.reorgPending && Names(selector, pinned.value, target.value.value)
    ensures source.calls >= old(source.calls)
    ensures target.Ok? && target.value.Some? && !selector.ExplicitHash? ==>
              OnBranch(source.tree, pinned.value, target.value.value)
    ensures target == Ok(None) <==> selector.Static?
    ensures target.Ok? && !selector.Static? ==>
              target.value.Some? && pinned.Some? && !pinned.value.IsZero() && !pinned.value.reorgPending
    ensures selector.LatestTag? && target.Ok? ==> target.value == pinned
    ensures selector.LatestTag? && (pinned.Some? ==> pinned.value.commitment == Latest) ==>
              (target.Ok? <==>
                    && pinned.Some? && !pinned.value.IsZero() && !pinned.value.reorgPending
                    && (|| read.maxHeadAge == 0
                        || (pinned.value.observedAt != 0 && read.now <= pinned.value.observedAt + read.maxHeadAge)))
    ensures selector.ExplicitHash? ==>
              && (target.Ok? ==> target.value.value.hash == selector.hash && target.value.value.commitment == Explicit)
              && (target.Ok? <==>
                    IsEVMHash(selector.hash) && pinned.Some? && !pinned.value.IsZero() && !pinned.value.reorgPending)
    ensures selector.Numeric? && target.Ok? ==>
              && ParseEVMQuantity(selector.quantity) == Ok(target.value.value.number)
              && target.value.value.number <= pinned.value.number <= target.value.value.number + depth
              && target.value.value.commitment == Explicit
    ensures target.Err? ==>
              && target.error == Rejected
              && Refusable(source, Span(old(source.calls), source.calls), selector, pinned, depth, read)
  {
    var selected: Head;
    match selector {
      case Static => return Ok(None);
      case LatestTag =>
        if !UsableHead(pinned) {
          return Err(Rejected);
        }
        selected := pinned.value;
      case Numeric(quantity) =>
        var found := GetEVMBlockByQuantity(source, pinned, quantity, depth);
        if found.Err? {
          assert found.error.InvalidReference? || found.error.BlockUnavailable?;
          return Err(Rejected);
        }
        selected := found.value;
      case ExplicitHash(hash) =>
        if !IsEVMHash(hash) {
          return Err(Rejected);
        }
        selected := NO_HEAD.(commitment := Explicit, hash := hash, observedAt := read.now);
    }
    if !UsableHead(pinned) || pinned.value.reorgPending {
      return Err(Rejected);
    }
    if selected.commitment != Explicit && Stale(selected, read) {
      return Err(Rejected);
    }
    target := Ok(Some(selected));
  }

  // The outcome of admission for one item.
  ghost predicate Admitted(source: BlockSource, span: Span, selector: Selector, pinned: Option<Head>, target: Option<Head>,
                           depth: nat, read: FinalRead) {
    match target
    case Some(t) =>
      && UsableHead(pinned) && !pinned.value.reorgPending && Names(selector, pinned.value, t)
      && (!selector.ExplicitHash? ==> OnBranch(source.tree, pinned.value, t))
    case None => selector.Static? || Refusable(source, span, selector, pinned, depth, read)
  }

  // One item's reply: static items always, items with a target unless the fence failed.
  function Answer(id: nat, selector: Selector, target: Option<Head>, payload: string, failure: Option<FailureClass>): Item {
    if selector.Static? then Item(id, None, Success(payload))
    else if target.None? then Item(id, None, Rejected)
    else if failure.Some? then Item(id, None, FencedOff(failure.value))
    else Item(id, target, Success(payload))
  }

  method LoadItem(source: BlockSource, pinned: Option<Head>, id: nat, selector: Selector, payload: string, depth: nat,
        read: FinalRead)
    returns (item: Item, ghost target: Option<Head>)
    requires source.Honest() && (pinned.Some? ==> Truthful(source.tree, pinned.value))
    modifies source
    ensures source.calls >= old(source.calls)
    ensures Admitted(source, Span(old(source.calls), source.calls), selector, pinned, target, depth, read)
    ensures item == Answer(id, selector, target, payload, None)
  {
    var admitted := Admit(source, pinned, selector, depth, read);
    target := if admitted.Ok? then admitted.value else None;
    item := if admitted.Ok? then Item(id, admitted.value, Success(payload)) else Item(id, None, admitted.error);
  }

  // Admission and loading of every item against one snapshot; `payloads` is what the loads return.
  method LoadBatch(source: BlockSource, pinned: Option<Head>, selectors: seq<Selector>, payloads: seq<string>,
        depth: nat, read: FinalRead)
    returns (responses: array<Item>, ghost targets: seq<Option<Head>>, ghost marks: seq<nat>)
    requires source.Honest() && (pinned.Some? ==> Truthful(source.tree, pinned.value)) && |payloads| == |selectors|
    modifies source
    ensures fresh(responses) && responses.Length == |selectors| == |targets|
    ensures |marks| == |selectors| + 1 && marks[0] == old(source.calls) && marks[|selectors|] == source.calls
    ensures forall k | 0 <= k < |selectors| ::
              && marks[k] <= marks[k + 1]
              && Admitted(source, Span(marks[k], marks[k + 1]), selectors[k], pinned, targets[k], depth, read)
              && responses[k] == Answer(k, selectors[k], targets[k], payloads[k], None)
  {
    hide Admitted, Answer, BlockSource.Honest, Truthful;
    responses := new Item[|selectors|](_ => Item(0, None, Rejected));
    targets, marks := [], [source.calls];
    for k := 0 to |selectors|
      invariant |targets| == k && |marks| == k + 1 && marks[0] == old(source.calls) && marks[k] == source.calls
      invariant forall m | 0 <= m < k ::
                  && marks[m] <= marks[m + 1]
                  && Admitted(source, Span(marks[m], marks[m + 1]), selectors[m], pinned, targets[m], depth, read)
                  && responses[m] == Answer(m, selectors[m], targets[m], payloads[m], None)
    {
      var item, target := LoadItem(source, pinned, k, selectors[k], payloads[k], depth, read);
      responses[k] := item;
      targets := targets + [target];
      marks := marks + [source.calls];
    }
  }

  /** End to end: whatever the coordinators did while the batch was loading, an item that is answered with
      a payload for `latest` or for a number was pinned to a block that is on the branch of the head
      accepted when the reply leaves, and no fence was up in between.  Every item is answered as its
      admission and the one final check say, all pinned items alike. */
  method ServeBatch(shared: SharedStore, source: BlockSource, selectors: seq<Selector>, payloads: seq<string>,
        admission: FinalRead, final: FinalRead)
    returns (responses: array<Item>, ghost targets: seq<Option<Head>>, ghost marks: seq<nat>, ghost pin: nat)
    requires shared.Valid() && shared.cfg.family == Evm
    requires source.Honest() && source.tree == shared.cfg.tree && |payloads| == |selectors|
    modifies shared, shared.store, source
    ensures shared.Valid() && old(shared.run) <= shared.run
    ensures fresh(responses) && responses.Length == |selectors| == |targets|
    ensures pin == |old(shared.run)| - 1
    ensures |marks| == |selectors| + 1 && marks[0] == old(source.calls) && marks[|selectors|] == source.calls
    ensures forall k | 0 <= k < |selectors| ::
              && marks[k] <= marks[k + 1]
              && Admitted(source, Span(marks[k], marks[k + 1]), selectors[k], Current(shared.run[pin]), targets[k],
                  shared.cfg.depth, admission)
              && responses[k] == Answer(k, selectors[k], targets[k], payloads[k],
                  FenceFailure(Current(shared.run[pin]), Current(shared.Last()), final))
    ensures forall k | 0 <= k < |selectors| && selectors[k].Static? :: responses[k] == Item(k, None, Success(payloads[k]))
    ensures forall k | 0 <= k < |selectors| && !selectors[k].Static? && targets[k].None? ::
              responses[k] == Item(k, None, Rejected)
    ensures forall k | 0 <= k < |selectors| && !selectors[k].Static? && targets[k].Some? ::
              responses[k] == Item(k, targets[k], Success(payloads[k])) <==>
                && final.reachable && !final.expired
                && Current(shared.run[pin]).Some? && Current(shared.Last()).Some?
                && var was, now := Current(shared.run[pin]).value, Current(shared.Last()).value;
                   && !was.IsZero() && !now.IsZero() && !was.reorgPending && !now.reorgPending
                   && was.reorgEpoch == now.reorgEpoch && was.generation <= now.generation
                   && (now.number > was.number || now.hash == was.hash)
                   && (final.maxHeadAge == 0 || (now.observedAt != 0 && final.now <= now.observedAt + final.maxHeadAge))
    ensures forall k | 0 <= k < |selectors| && !selectors[k].Static? && targets[k].Some? && !responses[k].reply.Success? ::
              && responses[k].reply.FencedOff? && responses[k] == Item(k, None, responses[k].reply)
              && Reported(Current(shared.run[pin]), Current(shared.Last()), final, responses[k].reply.failure)
    ensures forall k | 0 <= k < |selectors| && responses[k].reply.Success? && !selectors[k].Static? ::
              targets[k].Some? && SafelyPinned(shared.cfg, shared.run, pin, selectors[k], targets[k].value)
  {
    var pinned := Lookup(shared.store.heads, Latest);
    pin := |shared.run| - 1;
    PinIsTruthful(shared.cfg, shared.run, pin);
    responses, targets, marks := LoadBatch(source, pinned, selectors, payloads, shared.cfg.depth, admission);
    shared.Interfere(Token("", 0));
    assert shared.run[pin] == old(shared.run)[pin];
    ghost var before := responses[..];
    FenceEVMResponses(shared, pinned, responses, final);
    ghost var failure := FenceFailure(pinned, Lookup(shared.store.heads, Latest), final);
    assert responses[..] == FencedBatch(before, Evm, failure);
    FenceVerdict(pinned, Current(shared.Last()), final);
    hide FenceFailure, Reported, IsRun, OnBranch, Refusable, Names;
    forall k | 0 <= k < |selectors|
      ensures responses[k] == Answer(k, selectors[k], targets[k], payloads[k], failure)
      ensures responses[k].reply.Success? && !selectors[k].Static? ==>
                targets[k].Some? && SafelyPinned(shared.cfg, shared.run, pin, selectors[k], targets[k].value)
    {
      FencedAnswer(before, k, selectors[k], targets[k], payloads[k], failure);
      assert responses[k] == responses[..][k];
      if targets[k].Some? && failure.None? {
        assert Admitted(source, Span(marks[k], marks[k + 1]), selectors[k], pinned, targets[k], shared.cfg.depth, admission);
        PassedTargetIsSafe(shared.cfg, shared.run, pin, selectors[k], targets[k].value, final);
      }
    }
  }

  // From the pin to the end of the run no fence was up, and a `latest` or numeric target is on the final branch.
  ghost predicate SafelyPinned(cfg: Config, run: seq<World>, pin: nat, selector: Selector, target: Head) {
    && (forall m | pin <= m < |run| :: Current(run[m]).Some? && !Current(run[m]).value.reorgPending)
    && (!selector.ExplicitHash? ==>
        run != [] && Current(run[|run| - 1]).Some? && OnBranch(cfg.tree, Current(run[|run| - 1]).value, target))
  }

  lemma PassedTargetIsSafe(cfg: Config, run: seq<World>, pin: nat, selector: Selector, target: Head, final: FinalRead)
    requires IsRun(cfg, run) && pin < |run|
    requires FenceFailure(Current(run[pin]), Current(run[|run| - 1]), final).None?
    requires !selector.ExplicitHash? ==> Current(run[pin]).Some? && OnBranch(cfg.tree, Current(run[pin]).value, target)
    ensures SafelyPinned(cfg, run, pin, selector, target)
  {
    FencePassIsSafe(cfg, run, pin, |run| - 1, final);
  }

  lemma FencedAnswer(before: seq<Item>, k: nat, selector: Selector, target: Option<Head>, payload: string,
        failure: Option<FailureClass>)
    requires k < |before| && before[k] == Answer(k, selector, target, payload, None)
    ensures FencedBatch(before, Evm, failure)[k] == Answer(k, selector, target, payload, failure)
  {
  }

  lemma PinIsTruthful(cfg: Config, ws: seq<World>, i: nat)
    requires IsRun(cfg, ws) && i < |ws|
    ensures Current(ws[i]).Some? ==> cfg.family == Evm ==> Truthful(cfg.tree, Current(ws[i]).value)
  {
    RunKeepsInv(cfg, ws, i);
    if Current(ws[i]).Some? {
      assert Current(ws[i]).value in ws[i].accepted;
    }
  }
}
