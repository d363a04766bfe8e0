/** Retained receipts (internal/gateway/cache.go:25-97).

    A non-null receipt is retained under its transaction and the reorg epoch once its block is proved to
    be on the branch of the head its loader was pinned to.  Later requests of the same epoch, pinned to
    older or newer heads, are served from that entry. */
module ReceiptCache {
  import opened Wrappers
  import opened Headers
  import opened EvmUtils
  import opened HeadStore
  import opened Protocol
  import opened Safety
  import opened Cluster
  import opened Receipts
  import opened Runtime
  import opened Router
  import Gateway

  datatype Key = Key(epoch: nat, tx: Hash)

  datatype Status = Hit | Miss | Bypass

  datatype Response = Response(status: Status, receipt: Option<Receipt>)

  // The receipt's block is on the branch of the usable head of world i, and that head is of the key's epoch.
  ghost predicate ProvenAt(cfg: Config, run: seq<World>, key: Key, receipt: Receipt, i: nat) {
    && i < |run| && Current(run[i]).Some?
    && !Current(run[i]).value.reorgPending && Current(run[i]).value.reorgEpoch == key.epoch
    && GetEVMReceiptBlock(receipt, key.tx).Some?
    && OnBranch(cfg.tree, Current(run[i]).value, GetEVMReceiptBlock(receipt, key.tx).value)
  }

  ghost predicate Proven(cfg: Config, run: seq<World>, key: Key, receipt: Receipt) {
    exists i: nat :: ProvenAt(cfg, run, key, receipt, i)
  }

  lemma ProofsPersist(cfg: Config, run: seq<World>, later: seq<World>, key: Key, receipt: Receipt)
    requires run <= later && Proven(cfg, run, key, receipt)
    ensures Proven(cfg, later, key, receipt)
  {
    var i: nat :| ProvenAt(cfg, run, key, receipt, i);
    assert ProvenAt(cfg, later, key, receipt, i);
  }

  /** Retained-receipt safety: a proof against any usable head of an epoch, older or newer, is a proof
      against every other usable head of that epoch that is high enough. */
  lemma ProofServesTheEpoch(cfg: Config, run: seq<World>, key: Key, receipt: Receipt, pin: nat)
    requires IsRun(cfg, run) && pin < |run| && Current(run[pin]).Some? && cfg.family == Evm
    requires !Current(run[pin]).value.reorgPending && Current(run[pin]).value.reorgEpoch == key.epoch
    requires Proven(cfg, run, key, receipt)
    requires GetEVMReceiptBlock(receipt, key.tx).value.number <= Current(run[pin]).value.number
    ensures OnBranch(cfg.tree, Current(run[pin]).value, GetEVMReceiptBlock(receipt, key.tx).value)
  {
    var i: nat :| ProvenAt(cfg, run, key, receipt, i);
    var proved, pinned, block := Current(run[i]).value, Current(run[pin]).value, GetEVMReceiptBlock(receipt, key.tx).value;
    PinnedIsTruthful(cfg, run, i);
    PinnedIsTruthful(cfg, run, pin);
    if i <= pin {
      OneBranchPerEpoch(cfg, run, i, pin);
      OnBranchTransitive(cfg.tree, pinned, proved, block);
    } else {
      OneBranchPerEpoch(cfg, run, pin, i);
      OnBranchTotal(cfg.tree, proved, pinned, block);
    }
  }

  lemma PinnedIsTruthful(cfg: Config, run: seq<World>, i: nat)
    requires IsRun(cfg, run) && i < |run| && Current(run[i]).Some?
    ensures Truthful(cfg.tree, Current(run[i]).value)
  {
    RunKeepsInv(cfg, run, i);
    assert Current(run[i]).value in run[i].accepted;
  }

  // The router's answer to a receipt request fits what the cache assumes of it.
  predicate Fits(tx: Hash, pinned: Option<Head>, routed: Result<Option<Receipt>, RouteError>) {
    routed.Ok? && routed.value.Some? ==>
      && pinned.Some? && GetEVMReceiptBlock(routed.value.value, tx).Some?
      && GetEVMReceiptBlock(routed.value.value, tx).value.number <= pinned.value.number
  }

  // Some course of the request through these rounds ends this way.
  ghost predicate Routed(tx: Hash, pinned: Head, rounds: seq<seq<Candidate>>, routed: Result<Option<Receipt>, RouteError>) {
    exists r, asked, declined, attempted, tries ::
      && Ends(Router.Request(Some(tx), Some(pinned), false, false), rounds, r, asked, declined, attempted, tries)
      && if r.Err? then routed == Err(r.error)
         else routed == Ok(if r.value.0.Found? then Some(r.value.0.receipt) else None)
  }

  ghost predicate Ends(request: Router.Request, rounds: seq<seq<Candidate>>, r: Result<(Payload, string), RouteError>,
        asked: seq<Candidate>, declined: seq<Candidate>, attempted: set<string>, tries: seq<set<string>>) {
    && Accounted(request, attempted, asked, declined) && Router.Offered(rounds, asked)
    && Settled(request, rounds, r, asked, attempted) && Retried(request, rounds, tries, asked, attempted, r)
  }

  /** Routing a receipt request under its pinned head: what comes back is a receipt of the transaction at or
      below that head, null on the quorum, or an error, as the rounds end. */
  method RouteReceipt(tx: Hash, pinned: Head, rounds: seq<seq<Candidate>>)
    returns (routed: Result<Option<Receipt>, RouteError>, asked: seq<Candidate>)
    ensures Fits(tx, Some(pinned), routed) && routed != Err(HeadUnavailable)
    ensures Routed(tx, pinned, rounds, routed)
    ensures routed == Ok(None) <==> AgreedInvisible(asked, Router.Request(Some(tx), Some(pinned), false, false))
    ensures forall c | c in asked :: exists n :: 0 <= n < |rounds| && c in rounds[n]
  {
    var request := Router.Request(Some(tx), Some(pinned), false, false);
    var r, declined, attempted;
    ghost var tries;
    r, asked, declined, attempted, tries := Route(request, rounds);
    routed := match r
              case Err(e) => Err(e)
              case Ok((Found(receipt), _)) => Ok(Some(receipt))
              case Ok(_) => Ok(None);
    assert Ends(request, rounds, r, asked, declined, attempted, tries);
  }

  /** A receipt request end to end: snapshot, cache or load, final fence.  A receipt served from the cache past
      the fence is on the branch of the head accepted when the reply leaves, and no fence was up since the
      snapshot. */
  method ServeReceipt(cache: Service, tx: Hash, now: nat, rounds: seq<seq<Candidate>>, final: Gateway.FinalRead)
    returns (reply: Result<Response, RouteError>, failure: Option<Gateway.FailureClass>, ghost pin: nat,
        ghost routed: Result<Option<Receipt>, RouteError>)
    requires cache.Valid()
    modifies cache, cache.shared, cache.shared.store, cache.inclusion, cache.inclusion.source
    ensures cache.Valid() && old(cache.shared.run) <= cache.shared.run && pin == |old(cache.shared.run)| - 1
    ensures failure == Gateway.FenceFailure(Current(cache.shared.run[pin]), Current(cache.shared.Last()), final)
    ensures reply == Err(HeadUnavailable) <==>
              var head := Current(cache.shared.run[pin]);
              head.None? || head.value.IsZero() || head.value.reorgPending
    ensures reply != Err(HeadUnavailable) ==> Routed(tx, Current(cache.shared.run[pin]).value, rounds, routed)
    ensures reply.Err? ==> routed == Err(reply.error)
    ensures reply.Ok? && reply.value.status != Hit ==> routed == Ok(reply.value.receipt)
    ensures failure.None? && reply.Ok? && reply.value.status == Hit && reply.value.receipt.Some? ==>
              && Current(cache.shared.Last()).Some? && GetEVMReceiptBlock(reply.value.receipt.value, tx).Some?
              && OnBranch(cache.shared.cfg.tree, Current(cache.shared.Last()).value,
                  GetEVMReceiptBlock(reply.value.receipt.value, tx).value)
    ensures failure.None? ==>
              forall m | pin <= m < |cache.shared.run| :: Current(cache.shared.run[m]).Some?
                  && !Current(cache.shared.run[m]).value.reorgPending
  {
    hide Proven, OnBranch, Gateway.FenceFailure, Routed;
    var shared := cache.shared;
    var pinned := Lookup(shared.store.heads, Latest);
    pin := |shared.run| - 1;
    if !UsableHead(pinned) || pinned.value.reorgPending {
      reply, routed := Err(HeadUnavailable), Err(HeadUnavailable);
    } else {
      var answer, asked := RouteReceipt(tx, pinned.value, rounds);
      reply := cache.GetResponse(tx, pin, pinned, now, answer);
      routed := answer;
    }
    cache.Interfere();
    assert shared.run[pin] == old(shared.run)[pin];
    failure := Gateway.FenceFailure(pinned, Lookup(shared.store.heads, Latest), final);
    if failure.None? {
      Gateway.FencePassIsSafe(shared.cfg, shared.run, pin, |shared.run| - 1, final);
    }
  }

  class Service {
    const shared: SharedStore
    const inclusion: Receipts.Service
    const enabled: bool
    const maxHeadAge: nat
    var entries: map<Key, Receipt>

    constructor (shared: SharedStore, inclusion: Receipts.Service, enabled: bool, maxHeadAge: nat)
      ensures this.shared == shared && this.inclusion == inclusion && this.enabled == enabled
      ensures this.maxHeadAge == maxHeadAge && entries == map[]
    {
      this.shared, this.inclusion, this.enabled, this.maxHeadAge := shared, inclusion, enabled, maxHeadAge;
      entries := map[];
    }

    ghost predicate Valid()
      reads this, shared, shared.store, inclusion
    {
      && shared.Valid() && shared.cfg.family == Evm
      && inclusion.Valid() && inclusion.source.tree == shared.cfg.tree
      && forall k | k in entries :: Proven(shared.cfg, shared.run, k, entries[k])
    }

    // Coordinators publish and other requests hit, load, retain and evict.
    method Interfere()
      requires Valid()
      modifies this, shared, shared.store, inclusion
      ensures Valid() && old(shared.run) <= shared.run
    {
      shared.Interfere(Token("", 0));
      forall k | k in entries
        ensures Proven(shared.cfg, shared.run, k, entries[k])
      {
        ProofsPersist(shared.cfg, old(shared.run), shared.run, k, entries[k]);
      }
    }

    // Why an included block was not proved: its hash is none, or a header on the way down to it was missing.
    ghost predicate Unprovable(span: Span, pinned: Head, block: Head) {
      !IsEVMHash(block.hash) || MissingWithin(inclusion.source, span, pinned.hash, block.number + 1, pinned.number)
    }

    predicate IsCacheable(pinned: Option<Head>, now: nat) {
      && enabled && pinned.Some? && !pinned.value.IsZero() && !pinned.value.reorgPending
      && pinned.value.observedAt != 0 && now <= pinned.value.observedAt + maxHeadAge
    }

    /** One receipt request pinned to the head of world `pin`.  `routed` is the router's answer should the
        request come to load.  A receipt served from the cache is included in the pinned head's own
        branch; no receipt above the pinned height is ever returned; null, errors and unproved receipts
        are not retained, and a hit never alters the entry. */
    method GetResponse(tx: Hash, ghost pin: nat, pinned: Option<Head>, now: nat, routed: Result<Option<Receipt>, RouteError>)
      returns (r: Result<Response, RouteError>)
      requires Valid() && pin < |shared.run| && Current(shared.run[pin]) == pinned
      requires Fits(tx, pinned, routed)
      modifies this, shared, shared.store, inclusion, inclusion.source
      ensures Valid() && old(shared.run) <= shared.run
      ensures r.Ok? && r.value.receipt.Some? ==>
                && pinned.Some? && GetEVMReceiptBlock(r.value.receipt.value, tx).Some?
                && var block := GetEVMReceiptBlock(r.value.receipt.value, tx).value;
                   block.number <= pinned.value.number
                       && (r.value.status == Hit ==> OnBranch(shared.cfg.tree, pinned.value, block))
      ensures r.Ok? && r.value.status == Hit ==> pinned.Some? && !pinned.value.reorgPending
      ensures r.Ok? && r.value.status != Hit ==> routed.Ok? && r.value.receipt == routed.value
      ensures r.Err? ==> routed == Err(r.error)
      ensures !IsCacheable(pinned, now) ==> entries == old(entries) && (r.Ok? ==> r.value.status == Bypass)
      ensures IsCacheable(pinned, now) && r.Ok? ==> r.value.status != Bypass
      ensures r.Ok? && r.value.status == Miss && r.value.receipt.Some? ==>
                KeptIfProvable(Span(old(inclusion.source.calls), inclusion.source.calls), Key(pinned.value.reorgEpoch, tx),
                               pinned.value, r.value.receipt.value)
      ensures IsCacheable(pinned, now) && Key(pinned.value.reorgEpoch, tx) in old(entries) ==>
                entries == old(entries) && r.Ok? && r.value.status == Hit
      ensures r.Ok? && r.value.status == Hit ==>
                && pinned.Some? && Key(pinned.value.reorgEpoch, tx) in entries
                && var kept := entries[Key(pinned.value.reorgEpoch, tx)];
                   && GetEVMReceiptBlock(kept, tx).Some?
                   && r.value.receipt ==
                        if GetEVMReceiptBlock(kept, tx).value.number <= pinned.value.number then Some(kept) else None
      ensures r.Ok? ==>
                (r.value.status != Bypass <==>
                   && enabled && pinned.Some? && !pinned.value.IsZero() && !pinned.value.reorgPending
                   && pinned.value.observedAt != 0 && now <= pinned.value.observedAt + maxHeadAge)
    {
      hide IsRun, Proven;
      if !IsCacheable(pinned, now) {
        if routed.Err? {
          return Err(routed.error);
        }
        return Ok(Response(Bypass, routed.value));
      }
      var key := Key(pinned.value.reorgEpoch, tx);
      if key in entries {
        var served := Serve(tx, pin, pinned.value, entries[key]);
        return Ok(Response(Hit, served));
      }
      r := Load(key, tx, pin, pinned.value, routed);
    }

    // A receipt whose block is in the window and on the pinned branch is retained now, unless it could not be proved.
    ghost predicate KeptIfProvable(span: Span, key: Key, pinned: Head, receipt: Receipt)
      requires GetEVMReceiptBlock(receipt, key.tx).Some?
      reads this
    {
      var block := GetEVMReceiptBlock(receipt, key.tx).value;
      InWindow(block, pinned, inclusion.maxDepth) && OnBranch(shared.cfg.tree, pinned, block) ==>
        (key in entries && entries[key] == receipt) || Unprovable(span, pinned, block)
    }

    // The request's flight: another load of the same key may have finished before it is joined.
    method Load(key: Key, tx: Hash, ghost pin: nat, pinned: Head, routed: Result<Option<Receipt>, RouteError>)
      returns (r: Result<Response, RouteError>)
      requires Valid() && pin < |shared.run| && Current(shared.run[pin]) == Some(pinned) && !pinned.reorgPending
      requires key == Key(pinned.reorgEpoch, tx)
      requires Fits(tx, Some(pinned), routed)
      modifies this, shared, shared.store, inclusion, inclusion.source
      ensures Valid() && old(shared.run) <= shared.run
      ensures r.Ok? ==> r.value.status != Bypass
      ensures r.Ok? && r.value.receipt.Some? && r.value.status == Hit ==>
                && GetEVMReceiptBlock(r.value.receipt.value, tx).Some?
                && var block := GetEVMReceiptBlock(r.value.receipt.value, tx).value;
                   block.number <= pinned.number && OnBranch(shared.cfg.tree, pinned, block)
      ensures r.Ok? && r.value.status == Hit ==>
                && key in entries && GetEVMReceiptBlock(entries[key], tx).Some?
                && r.value.receipt ==
                     if GetEVMReceiptBlock(entries[key], tx).value.number <= pinned.number then Some(entries[key]) else None
      ensures r.Ok? && r.value.status != Hit ==> routed.Ok? && r.value.receipt == routed.value
      ensures r.Ok? && r.value.status != Hit && r.value.receipt.Some? ==>
                KeptIfProvable(Span(old(inclusion.source.calls), inclusion.source.calls), key, pinned, r.value.receipt.value)
      ensures r.Err? ==> routed == Err(r.error)
    {
      hide IsRun, Proven, MissingWithin;
      Interfere();
      assert shared.run[pin] == old(shared.run)[pin];
      if key in entries {
        var served := Serve(tx, pin, pinned, entries[key]);
        return Ok(Response(Hit, served));
      }
      Interfere();
      assert shared.run[pin] == old(shared.run)[pin];
      if routed.Err? {
        return Err(routed.error);
      }
      if routed.value.Some? {
        var retained := Retain(key, pin, pinned, routed.value.value);
      }
      return Ok(Response(Miss, routed.value));
    }

    // The caller's ceiling applies to a hit, too.
    method Serve(tx: Hash, ghost pin: nat, pinned: Head, receipt: Receipt) returns (served: Option<Receipt>)
      requires Valid() && pin < |shared.run| && Current(shared.run[pin]) == Some(pinned) && !pinned.reorgPending
      requires Proven(shared.cfg, shared.run, Key(pinned.reorgEpoch, tx), receipt)
      ensures GetEVMReceiptBlock(receipt, tx).Some?
      ensures served == if GetEVMReceiptBlock(receipt, tx).value.number <= pinned.number then Some(receipt) else None
      ensures served.Some? ==> OnBranch(shared.cfg.tree, pinned, GetEVMReceiptBlock(receipt, tx).value)
    {
      var block := GetEVMReceiptBlock(receipt, tx);
      if block.value.number > pinned.number {
        return None;
      }
      ProofServesTheEpoch(shared.cfg, shared.run, Key(pinned.reorgEpoch, tx), receipt, pin);
      served := Some(receipt);
    }

    // SkipCache unless the inclusion proof succeeds against the loader's own pinned head.
    method Retain(key: Key, ghost pin: nat, pinned: Head, receipt: Receipt) returns (retained: bool)
      requires Valid() && pin < |shared.run| && Current(shared.run[pin]) == Some(pinned) && !pinned.reorgPending
      requires key.epoch == pinned.reorgEpoch && GetEVMReceiptBlock(receipt, key.tx).Some?
      modifies this, inclusion, inclusion.source
      ensures Valid() && shared.run == old(shared.run)
      ensures entries == if retained then old(entries)[key := receipt] else old(entries)
      ensures var block := GetEVMReceiptBlock(receipt, key.tx).value;
              var included := InWindow(block, pinned, inclusion.maxDepth) && OnBranch(shared.cfg.tree, pinned, block);
              && (retained ==> included)
              && (!retained && included ==>
                    Unprovable(Span(old(inclusion.source.calls), inclusion.source.calls), pinned, block))
      ensures old(inclusion.source.calls) <= inclusion.source.calls
    {
      PinnedIsTruthful(shared.cfg, shared.run, pin);
      var block := GetEVMReceiptBlock(receipt, key.tx).value;
      var verified := inclusion.ContainsBlock(block, pinned);
      retained := verified == Ok(true);
      if retained {
        assert ProvenAt(shared.cfg, shared.run, key, receipt, pin);
        entries := entries[key := receipt];
      }
    }
  }
}
