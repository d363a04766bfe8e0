/** Block headers, heads and ancestry by parent links.

    Hashes are strings in lower-case normal form, so `==` is the case-insensitive comparison of the
    program.  A `HeaderTree` holds the contents of every block any provider may serve: contents never
    change, while availability is up to each call.  The tree itself is not assumed to be well linked:
    the program checks every height step and so do the definitions here. */
module Headers {
  import opened Wrappers
  import opened EvmUtils

  type Hash = string

  datatype Header = Header(number: nat, parentHash: Hash)

  type HeaderTree = map<Hash, Header>

  datatype Family = Evm | Solana

  datatype Commitment = Latest | Processed | Confirmed | Finalized | Explicit

  // One verified EVM block or Solana slot (internal/head/types.go:29-45).  Times are clock readings;
  // 0 is the zero time.
  datatype Head = Head(
    family: Family, commitment: Commitment, number: nat, hash: Hash, parentHash: Hash,
    generation: nat, reorgEpoch: nat, reorgPending: bool, observedAt: nat, changedAt: nat, origin: string)
  {
    predicate IsZero() {
      number == 0 && hash == "" && family != Solana
    }
  }

  // A provider's reply to a header request.
  datatype Reply = NoAnswer | Absent | Block(head: Head)

  const NO_HEAD := Head(Evm, Latest, 0, "", "", 0, 0, false, 0, 0, "")

  // A head carries the contents its hash stands for.
  predicate Truthful(tree: HeaderTree, h: Head) {
    && IsEVMHash(h.hash) && IsEVMHash(h.parentHash)
    && h.hash in tree && tree[h.hash] == Header(h.number, h.parentHash)
  }

  // A header as it comes out of ParseEVMHead: not yet part of any accepted history.
  predicate Parsed(tree: HeaderTree, h: Head) {
    Truthful(tree, h) && h.family == Evm && h.generation == 0 && h.reorgEpoch == 0 && !h.reorgPending && h.changedAt == 0
  }

  /******* Ancestry *******/

  // The hash at height n on the branch that ends in `hash`: None when n is above it, or when a header
  // on the way is missing or steps by anything but one.
  function HashAt(tree: HeaderTree, hash: Hash, n: nat): Option<Hash>
    decreases if hash in tree then tree[hash].number else 0
  {
    if hash !in tree || tree[hash].number < n then None
    else if tree[hash].number == n then Some(hash)
    else
      var parent := tree[hash].parentHash;
      if tree[hash].number - 1 == n then Some(parent)
      else if parent in tree && tree[parent].number + 1 == tree[hash].number then HashAt(tree, parent, n)
      else None
  }

  // Block `a` lies on the branch ending in `d`, or is its end.
  predicate OnBranch(tree: HeaderTree, d: Head, a: Head) {
    HashAt(tree, d.hash, a.number) == Some(a.hash)
  }

  // The hashes from a block down to an ancestor: each names the next one as its parent, and every block on the
  // way to the last is one above its own parent.
  ghost predicate IsPath(tree: HeaderTree, path: seq<Hash>) {
    && path != []
    && (forall i | 0 <= i < |path| - 1 :: path[i] in tree && tree[path[i]].parentHash == path[i + 1])
    && (forall i | 0 <= i < |path| - 2 :: tree[path[i]].number == tree[path[i + 1]].number + 1)
  }

  // A path of the right length between two blocks.
  ghost predicate PathTo(tree: HeaderTree, hash: Hash, n: nat, ancestor: Hash, path: seq<Hash>) {
    && hash in tree && n <= tree[hash].number && |path| == tree[hash].number - n + 1
    && IsPath(tree, path) && path[0] == hash && path[|path| - 1] == ancestor
  }

  /** The block found at a height is the one that a path of parent links of that length leads to. */
  lemma {:induction false} HashAtEndsPath(tree: HeaderTree, hash: Hash, n: nat, ancestor: Hash)
    ensures HashAt(tree, hash, n) == Some(ancestor) <==> exists path :: PathTo(tree, hash, n, ancestor, path)
    decreases if hash in tree then tree[hash].number else 0
  {
    if HashAt(tree, hash, n) == Some(ancestor) {
      var path := DownTo(tree, hash, n);
      assert PathTo(tree, hash, n, ancestor, path);
    }
    if path :| PathTo(tree, hash, n, ancestor, path) {
      PathDecides(tree, hash, n, ancestor, path);
    }
  }

  lemma {:induction false} DownTo(tree: HeaderTree, hash: Hash, n: nat) returns (path: seq<Hash>)
    requires HashAt(tree, hash, n).Some?
    ensures PathTo(tree, hash, n, HashAt(tree, hash, n).value, path)
    decreases if hash in tree then tree[hash].number else 0
  {
    if tree[hash].number == n {
      path := [hash];
    } else if tree[hash].number - 1 == n {
      path := [hash, tree[hash].parentHash];
    } else {
      var below := DownTo(tree, tree[hash].parentHash, n);
      path := [hash] + below;
    }
  }

  lemma {:induction false} PathDecides(tree: HeaderTree, hash: Hash, n: nat, ancestor: Hash, path: seq<Hash>)
    requires PathTo(tree, hash, n, ancestor, path)
    ensures HashAt(tree, hash, n) == Some(ancestor)
    decreases |path|
  {
    if |path| > 2 {
      var parent, below := path[1], path[1..];
      assert below[0] == parent && below[|below| - 1] == ancestor;
      assert tree[path[0]].number == tree[path[1]].number + 1;
      PathDecides(tree, parent, n, ancestor, below);
    }
  }

  // One verified parent step.
  predicate Linked(tree: HeaderTree, child: Hash, parent: Hash) {
    && child in tree && parent in tree
    && tree[child].parentHash == parent && tree[parent].number + 1 == tree[child].number
  }

  /** Below a block of a branch, the branch is that block's own branch: ancestors are unique per height. */
  lemma {:induction false} BelowBranch(tree: HeaderTree, d: Hash, b: Hash, n: nat)
    requires b in tree && HashAt(tree, d, tree[b].number) == Some(b)
    requires n <= tree[b].number
    ensures HashAt(tree, d, n) == HashAt(tree, b, n)
    decreases if d in tree then tree[d].number else 0
  {
    if tree[d].number - 1 > tree[b].number {
      BelowBranch(tree, tree[d].parentHash, b, n);
    }
  }

  /** Ancestry is transitive. */
  lemma OnBranchTransitive(tree: HeaderTree, c: Head, b: Head, a: Head)
    requires Truthful(tree, b)
    requires OnBranch(tree, c, b) && OnBranch(tree, b, a)
    ensures OnBranch(tree, c, a)
  {
    BelowBranch(tree, c.hash, b.hash, a.number);
  }

  /** Two blocks of one branch are ordered by ancestry, by height. */
  lemma OnBranchTotal(tree: HeaderTree, d: Head, b: Head, a: Head)
    requires Truthful(tree, b)
    requires OnBranch(tree, d, b) && OnBranch(tree, d, a) && a.number <= b.number
    ensures OnBranch(tree, b, a)
  {
    BelowBranch(tree, d.hash, b.hash, a.number);
  }

  // Nothing above a block is on its branch, and at its own height only the block is.
  lemma OnBranchHeight(tree: HeaderTree, d: Head, a: Head)
    requires Truthful(tree, d) && OnBranch(tree, d, a)
    ensures a.number <= d.number
    ensures a.number == d.number ==> a.hash == d.hash
  {
  }
}
