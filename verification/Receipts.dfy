/** Bounded inclusion proof by parent links (internal/services/receipts/receipts.go). */
module Receipts {
  import opened Wrappers
  import opened Headers
  import opened EvmUtils
  import opened Runtime

  datatype InclusionError = InvalidHash | AncestorUnavailable | Discontinuous

  // The block lies within the admissible distance below a head that may be used.
  predicate InWindow(block: Head, accepted: Head, maxDepth: nat) {
    !accepted.reorgPending && block.number <= accepted.number <= block.number + maxDepth
  }

  /** Numeric selection and inclusion agree: a block selected by number is contained, on whatever headers can
      be fetched; only an unavailable header keeps the answer from being given. */
  method SelectAndContain(service: Service, accepted: Head, quantity: string)
    returns (target: Result<Head, QuantityTargetError>, included: Result<bool, InclusionError>)
    requires service.Valid() && Truthful(service.source.tree, accepted)
    modifies service, service.source
    ensures service.Valid()
    ensures target.Ok? ==>
              || included == Ok(true)
              || (included == Err(AncestorUnavailable)
                  && MissingWithin(service.source, Span(old(service.source.calls), service.source.calls), accepted.hash,
                                   target.value.number + 1, accepted.number))
  {
    included := Ok(false);
    target := GetEVMBlockByQuantity(service.source, Some(accepted), quantity, service.maxDepth);
    if target.Ok? {
      ghost var asked := service.source.calls;
      included := service.ContainsBlock(target.value, accepted);
      if included == Err(AncestorUnavailable) {
        MissingWidens(service.source, Span(asked, service.source.calls), Span(old(service.source.calls), service.source.calls),
                      accepted.hash, target.value.number + 1, target.value.number + 1, accepted.number, accepted.number);
      }
    }
  }

  /** `headers` stands for the shared response cache of immutable headers: whatever it currently retains,
      each entry is the header its key names. */
  class Service {
    const source: BlockSource
    const maxDepth: nat
    const caching: bool
    var headers: map<Hash, Head>

    constructor (source: BlockSource, maxDepth: nat, caching: bool)
      ensures this.source == source && this.maxDepth == maxDepth && this.caching == caching && headers == map[]
    {
      this.source, this.maxDepth, this.caching := source, maxDepth, caching;
      headers := map[];
    }

    ghost predicate Valid()
      reads this
    {
      source.Honest() && forall h | h in headers :: headers[h].hash == h && Parsed(source.tree, headers[h])
    }

    method GetParent(child: Head) returns (parent: Option<Head>)
      requires Valid() && Truthful(source.tree, child)
      modifies this, source
      ensures Valid()
      ensures parent.Some? ==> parent.value.hash == child.parentHash && Parsed(source.tree, parent.value)
      ensures parent.None? ==> Missing(source, Span(old(source.calls), source.calls), child.parentHash)
      ensures old(source.calls) <= source.calls <= old(source.calls) + 1
      ensures !caching ==> source.calls == old(source.calls) + 1
      ensures caching && child.parentHash in old(headers) ==>
                source.calls == old(source.calls) && parent == Some(old(headers)[child.parentHash])
      ensures headers == if caching && parent.Some? then old(headers)[child.parentHash := parent.value] else old(headers)
    {
      if !caching {
        parent := source.EVMBlockByHash(child.parentHash, Explicit);
        return;
      }
      if child.parentHash in headers {
        return Some(headers[child.parentHash]);
      }
      parent := source.EVMBlockByHash(child.parentHash, Explicit);
      if parent.Some? {
        headers := headers[child.parentHash := parent.value];
      }
    }

    /** An answer is exact: true if and only if the block is in the window and on the accepted head's own
        branch.  The direct parent is proved by the accepted header itself, so a block d below costs d - 1
        headers at most, and exactly that many without a cache. */
    method ContainsBlock(block: Head, accepted: Head) returns (r: Result<bool, InclusionError>)
      requires Valid() && Truthful(source.tree, accepted)
      modifies this, source
      ensures Valid()
      ensures match r
              case Ok(included) =>
                included <==> && !accepted.reorgPending && block.number <= accepted.number <= block.number + maxDepth
                              && OnBranch(source.tree, accepted, block)
              case Err(InvalidHash) => !IsEVMHash(block.hash)
              case Err(AncestorUnavailable) =>
                && InWindow(block, accepted, maxDepth)
                && MissingWithin(source, Span(old(source.calls), source.calls), accepted.hash, block.number + 1, accepted.number)
              case Err(Discontinuous) => HashAt(source.tree, accepted.hash, block.number).None?
      ensures var fetches := source.calls - old(source.calls);
              && 0 <= fetches <= (if block.number < accepted.number then accepted.number - block.number - 1 else 0)
              && (!caching && r.Ok? && InWindow(block, accepted, maxDepth) && block.number < accepted.number ==>
                    fetches == accepted.number - block.number - 1)
    {
      if !IsEVMHash(block.hash) || !IsEVMHash(accepted.hash) {
        return Err(InvalidHash);
      }
      if accepted.reorgPending || block.number > accepted.number || accepted.number - block.number > maxDepth {
        return Ok(false);
      }
      var cursor := accepted;
      while cursor.number > block.number
        invariant block.number <= cursor.number <= accepted.number && (cursor.number == block.number ==> cursor == accepted)
        invariant Valid() && Truthful(source.tree, cursor)
        invariant OnBranch(source.tree, accepted, cursor)
        invariant HashAt(source.tree, accepted.hash, block.number) == HashAt(source.tree, cursor.hash, block.number)
        invariant 0 <= source.calls - old(source.calls) <= accepted.number - cursor.number
        invariant !caching ==> source.calls - old(source.calls) == accepted.number - cursor.number
        decreases cursor.number
      {
        if cursor.number - 1 == block.number {
          return Ok(cursor.parentHash == block.hash);
        }
        ghost var asked := source.calls;
        var parent := GetParent(cursor);
        if parent.None? {
          WalkStops(source, Span(asked, source.calls), Span(old(source.calls), source.calls), accepted.hash, cursor,
              block.number + 1, accepted.number);
          return Err(AncestorUnavailable);
        }
        if parent.value.number != cursor.number - 1 || parent.value.hash != cursor.parentHash {
          return Err(Discontinuous);
        }
        WalkStep(source.tree, accepted.hash, cursor, parent.value);
        cursor := parent.value;
      }
      r := Ok(cursor.hash == block.hash);
    }
  }
}
