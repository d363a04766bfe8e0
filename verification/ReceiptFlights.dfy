/** Receipt requests as an instance of the coalescing cache: retained receipts serve every pin of their
    epoch, and flights carry the pinned hash (internal/gateway/cache.go:61-80). */
module ReceiptFlights {
  import opened Wrappers
  import opened Headers
  import opened EvmUtils
  import opened Protocol
  import opened Safety
  import opened Router
  import opened ReceiptCache
  import Flights

  // A load's result: the receipt, if visible, and whether its inclusion was proved.
  datatype Loaded = Loaded(receipt: Option<Receipt>, verified: bool)

  // The pinned hash names a usable accepted head of the epoch.
  ghost predicate UsablePin(run: seq<World>, epoch: nat, pin: Hash) {
    exists i: nat :: PinnedAt(run, epoch, pin, i)
  }

  predicate PinnedAt(run: seq<World>, epoch: nat, pin: Hash, i: nat) {
    && i < |run| && Current(run[i]).Some? && Current(run[i]).value.hash == pin
    && !Current(run[i]).value.reorgPending && Current(run[i]).value.reorgEpoch == epoch
  }

  // What a receipt load may return: nothing above the pin, and proofs only of what is on the pinned branch.
  ghost predicate MayLoad(cfg: Config, run: seq<World>, key: Key, pin: Hash, v: Loaded) {
    v.receipt.Some? ==>
      var block := GetEVMReceiptBlock(v.receipt.value, key.tx);
      && block.Some? && (v.verified ==> Proven(cfg, run, key, v.receipt.value))
      && (UsablePin(run, key.epoch, pin) && pin in cfg.tree ==>
            && block.value.number <= cfg.tree[pin].number
            && (v.verified ==> HashAt(cfg.tree, pin, block.value.number) == Some(block.value.hash)))
  }

  /** What a load returns is what it may: a routed receipt at or below the pin, verified exactly when it was
      retained against the pinned head. */
  lemma RetainedReceiptMayLoad(cfg: Config, run: seq<World>, key: Key, receipt: Receipt, pin: nat, pinned: Head, retained: bool)
    requires IsRun(cfg, run) && cfg.family == Evm && pin < |run| && Current(run[pin]) == Some(pinned)
    requires !pinned.reorgPending && key.epoch == pinned.reorgEpoch
    requires GetEVMReceiptBlock(receipt, key.tx).Some? && GetEVMReceiptBlock(receipt, key.tx).value.number <= pinned.number
    requires retained ==> OnBranch(cfg.tree, pinned, GetEVMReceiptBlock(receipt, key.tx).value)
    ensures MayLoad(cfg, run, key, pinned.hash, Loaded(Some(receipt), retained))
  {
    PinnedIsTruthful(cfg, run, pin);
    assert retained ==> ProvenAt(cfg, run, key, receipt, pin);
  }

  // The caller's height ceiling.
  function AtPin(tree: HeaderTree, pin: Hash, v: Loaded): Loaded {
    if v.receipt.None? then v
    else
      var block := GetEVMReceiptBlock(v.receipt.value, v.receipt.value.transactionHash);
      if block.Some? && pin in tree && block.value.number > tree[pin].number then Loaded(None, false) else v
  }

  /** A caller sees every receipt of the transaction at or below its pin, as it is, and none above it. */
  lemma CeilingIsExact(tree: HeaderTree, pin: Hash, tx: Hash, v: Loaded)
    requires pin in tree && v.receipt.Some? && GetEVMReceiptBlock(v.receipt.value, tx).Some?
    ensures AtPin(tree, pin, v) ==
            if GetEVMReceiptBlock(v.receipt.value, tx).value.number <= tree[pin].number then v else Loaded(None, false)
  {
  }

  ghost function ReceiptSemantics(cfg: Config, run: seq<World>): Flights.Semantics<Key, Hash, Loaded> {
    Flights.Semantics(
      (key, pin, v) => MayLoad(cfg, run, key, pin, v),
      (v: Loaded) => v.receipt.Some? && v.verified,
      (pin, v) => AtPin(cfg.tree, pin, v),
      (key: Key) => true)
  }

  lemma RetainedForPin(cfg: Config, run: seq<World>, key: Key, p: Hash, q: Hash, v: Loaded)
    requires IsRun(cfg, run) && cfg.family == Evm
    requires MayLoad(cfg, run, key, p, v) && v.receipt.Some? && v.verified
    ensures MayLoad(cfg, run, key, q, AtPin(cfg.tree, q, v))
  {
    if UsablePin(run, key.epoch, q) && AtPin(cfg.tree, q, v) == v {
      var j: nat :| PinnedAt(run, key.epoch, q, j);
      PinnedIsTruthful(cfg, run, j);
      ProofServesTheEpoch(cfg, run, key, v.receipt.value, j);
    }
  }

  /** Receipt loads meet the conditions of cache transparency over every run of the protocol. */
  lemma ReceiptFlightsAreSound(cfg: Config, run: seq<World>)
    requires IsRun(cfg, run) && cfg.family == Evm
    ensures Flights.Sound(ReceiptSemantics(cfg, run))
  {
    hide IsRun;
    var sem := ReceiptSemantics(cfg, run);
    forall key, p, v | sem.could(key, p, v) && sem.keep(v)
      ensures Flights.Retained(sem, key, v)
    {
      forall q
        ensures sem.could(key, q, sem.view(q, v))
      {
        RetainedForPin(cfg, run, key, p, q, v);
      }
    }
  }

  /** So in any interleaving of receipt requests, hits, shared flights and evictions included, a proved
      receipt handed to a caller is on that caller's pinned branch, and none exceeds its height. */
  lemma AnsweredReceiptsAreSafe(cfg: Config, run: seq<World>, ss: seq<Flights.State<Key, Hash, Loaded>>, i: nat,
                                request: Flights.Request<Key, Hash>, v: Loaded)
    requires IsRun(cfg, run) && cfg.family == Evm
    requires Flights.IsRun(ReceiptSemantics(cfg, run), ss) && i < |ss| && (request, v) in ss[i].answers
    requires UsablePin(run, request.key.epoch, request.pin) && v.receipt.Some?
    ensures var block := GetEVMReceiptBlock(v.receipt.value, request.key.tx);
            && block.Some? && request.pin in cfg.tree && block.value.number <= cfg.tree[request.pin].number
            && (v.verified ==> HashAt(cfg.tree, request.pin, block.value.number) == Some(block.value.hash))
  {
    ReceiptFlightsAreSound(cfg, run);
    Flights.AnswersAreTransparent(ReceiptSemantics(cfg, run), ss, i);
    var j: nat :| PinnedAt(run, request.key.epoch, request.pin, j);
    PinnedIsTruthful(cfg, run, j);
  }
}
