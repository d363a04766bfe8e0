/** Header queries of one chain (internal/chain/runtime.go). */
module Runtime {
  import opened Wrappers
  import opened Headers
  import opened EvmUtils

  datatype QuantityTargetError = InvalidReference | BlockUnavailable

  /** The providers of a chain.  Which of them answer, and with which block, may differ from call to call;
      what a block hash stands for does not. */
  class BlockSource {
    const tree: HeaderTree
    const byHash: (nat, Hash) -> seq<Reply>   // replies to the n-th query, in provider order
    const byNumber: (nat, nat) -> seq<Reply>
    var calls: nat

    // Providers never misstate the contents of a block they name.
    ghost predicate Honest() {
      && (forall n, h, r | r in byHash(n, h) && r.Block? :: Parsed(tree, r.head))
      && (forall n, m, r | r in byNumber(n, m) && r.Block? :: Parsed(tree, r.head))
    }

    // No provider named the block when it was asked for with the n-th query.
    predicate Withheld(n: nat, hash: Hash) {
      forall r | r in byHash(n, hash) :: !(r.Block? && r.head.hash == hash)
    }

    // The first provider that names the requested block wins; unusable replies are skipped.
    method EVMBlockByHash(hash: Hash, commitment: Commitment) returns (block: Option<Head>)
      requires Honest()
      modifies this
      ensures block.Some? ==> block.value.hash == hash && block.value.commitment == commitment && Parsed(tree, block.value)
      ensures block.Some? <==> IsEVMHash(hash) && !Withheld(old(calls), hash)
      ensures block.None? <==> Missing(this, Span(old(calls), calls), hash)
      ensures calls == old(calls) + if IsEVMHash(hash) then 1 else 0
    {
      if !IsEVMHash(hash) {
        return None;
      }
      var replies := byHash(calls, hash);
      calls := calls + 1;
      for i := 0 to |replies|
        invariant forall k | 0 <= k < i :: !(replies[k].Block? && replies[k].head.hash == hash)
      {
        if replies[i].Block? && replies[i].head.hash == hash {
          assert replies[i] in byHash(old(calls), hash);
          return Some(replies[i].head.(commitment := commitment));
        }
      }
      block := None;
    }

    // One eth_getBlockByNumber to every candidate.
    method BlocksByNumber(number: nat) returns (replies: seq<Reply>)
      requires Honest()
      modifies this
      ensures replies == byNumber(old(calls), number)
      ensures forall r | r in replies && r.Block? :: Parsed(tree, r.head)
      ensures calls == old(calls) + 1
    {
      replies := byNumber(calls, number);
      calls := calls + 1;
    }
  }

  // Extending a walk that ended in block c by c's verified parent p.
  lemma WalkStep(tree: HeaderTree, d: Hash, c: Head, p: Head)
    requires Truthful(tree, c) && Truthful(tree, p) && p.hash == c.parentHash && p.number + 1 == c.number
    requires HashAt(tree, d, c.number) == Some(c.hash)
    ensures HashAt(tree, d, p.number) == Some(p.hash)
  {
    BelowBranch(tree, d, c.hash, p.number);
  }

  // A stretch of a source's queries: those numbered from `from` up to, but not including, `to`.
  datatype Span = Span(from: nat, to: nat)

  predicate Within(inner: Span, outer: Span) {
    outer.from <= inner.from && inner.to <= outer.to
  }

  // A block was asked for in this stretch and no provider named it, or its hash is none that can be asked for.
  ghost predicate Missing(source: BlockSource, span: Span, hash: Hash) {
    !IsEVMHash(hash) || exists n: nat :: span.from <= n < span.to && source.Withheld(n, hash)
  }

  // The parent of d's ancestor at height k was asked for in this stretch, in vain.
  ghost predicate MissingAt(source: BlockSource, span: Span, d: Hash, k: nat) {
    && HashAt(source.tree, d, k).Some?
    && var h := HashAt(source.tree, d, k).value;
       h in source.tree && source.tree[h].number == k && Missing(source, span, source.tree[h].parentHash)
  }

  // The same for some height above `floor` and up to `top`.
  ghost predicate MissingWithin(source: BlockSource, span: Span, d: Hash, floor: int, top: nat) {
    exists k: nat :: floor < k <= top && MissingAt(source, span, d, k)
  }

  lemma MissingWidens(source: BlockSource, inner: Span, outer: Span, d: Hash, floor: int, lower: int, top: nat, upper: nat)
    requires MissingWithin(source, inner, d, floor, top) && Within(inner, outer) && lower <= floor && top <= upper
    ensures MissingWithin(source, outer, d, lower, upper)
  {
    var k: nat :| floor < k <= top && MissingAt(source, inner, d, k);
    var hash := source.tree[HashAt(source.tree, d, k).value].parentHash;
    assert Missing(source, outer, hash);
    assert MissingAt(source, outer, d, k);
  }

  // A walk down d's branch stopped at block c, whose parent was missing.
  lemma WalkStops(source: BlockSource, inner: Span, outer: Span, d: Hash, c: Head, floor: int, top: nat)
    requires Truthful(source.tree, c) && HashAt(source.tree, d, c.number) == Some(c.hash)
    requires Missing(source, inner, c.parentHash) && Within(inner, outer) && floor < c.number <= top
    ensures MissingWithin(source, outer, d, floor, top)
  {
    assert Missing(source, outer, c.parentHash);
    assert MissingAt(source, outer, d, c.number);
  }

  // A parent link on d's branch that does not step by one, at a height above `floor` and up to `top`.
  ghost predicate BrokenWithin(tree: HeaderTree, d: Hash, floor: int, top: nat) {
    exists n: nat :: floor < n <= top && BrokenAt(tree, d, n)
  }

  predicate BrokenAt(tree: HeaderTree, d: Hash, n: nat) {
    && HashAt(tree, d, n).Some?
    && var h := HashAt(tree, d, n).value;
       h in tree && tree[h].number == n && tree[h].parentHash in tree && tree[tree[h].parentHash].number + 1 != n
  }

  predicate UsableHead(latest: Option<Head>) {
    latest.Some? && !latest.value.IsZero()
  }

  // Why no block at this height can be had from the accepted head's branch.
  ghost predicate Unavailable(source: BlockSource, span: Span, latest: Option<Head>, number: nat, depth: nat) {
    || !UsableHead(latest) || latest.value.reorgPending
    || latest.value.number < number || latest.value.number > number + depth
    || MissingWithin(source, span, latest.value.hash, number, latest.value.number)
    || BrokenWithin(source.tree, latest.value.hash, number, latest.value.number)
  }

  /** Numeric selection: the block at the requested height on the accepted head's own branch, reached by
      one header fetch per step; every refusal has its stated reason. */
  method GetEVMBlockByQuantity(source: BlockSource, latest: Option<Head>, quantity: string, depth: nat)
    returns (target: Result<Head, QuantityTargetError>)
    requires source.Honest()
    requires latest.Some? ==> Truthful(source.tree, latest.value)
    modifies source
    ensures target.Ok? ==>
              && ParseEVMQuantity(quantity) == Ok(target.value.number)
              && latest.Some? && !latest.value.reorgPending
              && target.value.number <= latest.value.number <= target.value.number + depth
              && Truthful(source.tree, target.value) && target.value.commitment == Explicit
              && OnBranch(source.tree, latest.value, target.value)
              && source.calls == old(source.calls) + (latest.value.number - target.value.number)
    ensures source.calls >= old(source.calls)
    ensures target == Err(InvalidReference) <==> ParseEVMQuantity(quantity).Err?
    ensures target == Err(BlockUnavailable) ==>
              Unavailable(source, Span(old(source.calls), source.calls), latest, ParseEVMQuantity(quantity).value, depth)
  {
    var number := ParseEVMQuantity(quantity);
    if number.Err? {
      return Err(InvalidReference);
    }
    if latest.None? || latest.value.IsZero() {
      return Err(BlockUnavailable);
    }
    var accepted := latest.value;
    if accepted.reorgPending || number.value > accepted.number {
      return Err(BlockUnavailable);
    }
    if accepted.number - number.value > depth {
      return Err(BlockUnavailable);
    }
    var cursor := accepted;
    while cursor.number > number.value
      invariant number.value <= cursor.number <= accepted.number
      invariant Truthful(source.tree, cursor) && OnBranch(source.tree, accepted, cursor)
      invariant source.calls == old(source.calls) + (accepted.number - cursor.number)
      decreases cursor.number
    {
      ghost var asked := source.calls;
      var parent := source.EVMBlockByHash(cursor.parentHash, Explicit);
      if parent.None? {
        WalkStops(source, Span(asked, source.calls), Span(old(source.calls), source.calls), accepted.hash, cursor,
            number.value, accepted.number);
        return Err(BlockUnavailable);
      }
      if parent.value.number != cursor.number - 1 {
        assert BrokenAt(source.tree, accepted.hash, cursor.number);
        return Err(BlockUnavailable);
      }
      WalkStep(source.tree, accepted.hash, cursor, parent.value);
      cursor := parent.value;
    }
    cursor := cursor.(commitment := Explicit);
    target := Ok(cursor);
  }
}
