/** The newHeads pump of one WebSocket session (internal/gateway/websocket.go:199-321). */
module WebSocket {
  import opened Wrappers
  import opened Headers
  import opened EvmUtils
  import opened HeadStore
  import opened Runtime

  datatype GapError = ParentUnavailable | BadHeight | NoCommonAncestor

  function Reversed<T>(s: seq<T>): (r: seq<T>)
    ensures |r| == |s| && forall i | 0 <= i < |s| :: r[i] == s[|s| - 1 - i]
  {
    seq(|s|, i requires 0 <= i < |s| => s[|s| - 1 - i])
  }

  method ReverseHeads(heads: array<Head>)
    modifies heads
    ensures heads[..] == Reversed(old(heads[..]))
  {
    var left, right := 0, heads.Length - 1;
    while left < right
      invariant 0 <= left <= heads.Length && right == heads.Length - 1 - left && left <= right + 1
      invariant forall i | 0 <= i < left ::
                  && heads[i] == old(heads[heads.Length - 1 - i])
                  && heads[heads.Length - 1 - i] == old(heads[i])
      invariant forall i | left <= i <= right :: heads[i] == old(heads[i])
      decreases right - left
    {
      heads[left], heads[right] := heads[right], heads[left];
      left, right := left + 1, right - 1;
    }
  }

  // Each block is the parent of the next one, one below it.
  predicate Chained(path: seq<Head>) {
    forall i | 0 <= i < |path| - 1 :: path[i + 1].parentHash == path[i].hash && path[i + 1].number == path[i].number + 1
  }

  // The same, newest block first, as the walk collects it.
  predicate Descending(path: seq<Head>) {
    forall i | 0 <= i < |path| - 1 :: path[i].parentHash == path[i + 1].hash && path[i].number == path[i + 1].number + 1
  }

  // The block sits one above the last processed head or above a head of the history.
  predicate Attached(h: Head, last: Head, history: map<Hash, Head>) {
    || (h.parentHash == last.hash && h.number == last.number + 1)
    || (h.parentHash in history && h.number == history[h.parentHash].number + 1)
  }

  // A one-block reorg: a sibling of the last processed head.
  predicate Sibling(h: Head, last: Head) {
    h.number == last.number && h.parentHash == last.parentHash
  }

  // The walk ends below this block: its parent is known to the session.
  predicate Meets(h: Head, last: Head, history: map<Hash, Head>) {
    h.parentHash == last.hash || h.parentHash in history
  }

  // The blocks walked from `next` downwards, all of them real but possibly `next`, and none of whose parents was
  // known but possibly the lowest one's.
  predicate Walked(tree: HeaderTree, walk: seq<Head>, next: Head, last: Head, history: map<Hash, Head>) {
    && walk != [] && walk[0] == next && Descending(walk)
    && (forall i | 0 < i < |walk| :: Parsed(tree, walk[i]))
    && forall i | 0 <= i < |walk| - 1 :: !Meets(walk[i], last, history)
  }

  lemma WalkGrows(tree: HeaderTree, walk: seq<Head>, next: Head, last: Head, history: map<Hash, Head>, parent: Head)
    requires Walked(tree, walk, next, last, history) && Parsed(tree, parent)
    requires var lowest := walk[|walk| - 1];
             !Meets(lowest, last, history) && lowest.parentHash == parent.hash && lowest.number == parent.number + 1
    ensures Walked(tree, walk + [parent], next, last, history) && Descending(walk + [parent])
  {
    hide Parsed, Meets;
  }

  lemma WalkStarts(tree: HeaderTree, next: Head, last: Head, history: map<Hash, Head>)
    ensures Descending([next]) && Chained([next]) && Chained([]) && Walked(tree, [next], next, last, history)
  {
  }

  lemma ParsedInTree(tree: HeaderTree, parent: Head)
    requires Parsed(tree, parent)
    ensures parent.hash in tree && tree[parent.hash].number == parent.number && !parent.IsZero()
  {
  }

  // Why a gap could not be filled, given the walk and the queries made for it.
  ghost predicate Unfillable(source: BlockSource, span: Span, e: GapError, walk: seq<Head>, last: Head,
        history: map<Hash, Head>, depth: nat)
    requires walk != []
  {
    var tree := source.tree;
    var lowest := walk[|walk| - 1];
    match e
    case NoCommonAncestor => |walk| == depth + 1
    case ParentUnavailable => |walk| <= depth && !Meets(lowest, last, history) && Missing(source, span, lowest.parentHash)
    case BadHeight =>
      && |walk| <= depth
      && if lowest.parentHash == last.hash then lowest.number != last.number + 1
         else if lowest.parentHash in history then lowest.number != history[lowest.parentHash].number + 1
         else lowest.parentHash in tree && tree[lowest.parentHash].number + 1 != lowest.number
  }

  /** The heads to deliver for the next stream event, oldest first.  A non-empty path ends in the event's
      head, is chained block by block, and starts at the first head ever seen, at a sibling of the last
      head, or exactly one above a head already known; it is the shortest such path, and every block filled in is
      real.  Every refusal is explained by the blocks walked. */
  method ExpandPath(source: BlockSource, last: Head, next: Head, history: map<Hash, Head>, depth: nat)
    returns (r: Result<seq<Head>, GapError>, ghost walk: seq<Head>)
    requires source.Honest()
    modifies source
    ensures r.Ok? ==>
              && Chained(r.value)
              && (r.value == [] <==> next.hash == last.hash && !last.IsZero())
              && (r.value != [] ==>
                    && r.value[|r.value| - 1] == next
                    && (last.IsZero() || Attached(r.value[0], last, history) || (Sibling(next, last) && r.value == [next])))
    ensures r.Ok? ==> |r.value| <= depth + 1
    ensures last.IsZero() ==> r == Ok([next])
    ensures !last.IsZero() && next.hash != last.hash && next.number == last.number && next.parentHash == last.parentHash ==>
              r == Ok([next]) && source.calls == old(source.calls)
    ensures r.Ok? ==> forall i | 0 <= i < |r.value| - 1 :: Parsed(source.tree, r.value[i])
    ensures source.calls >= old(source.calls)
    ensures r.Ok? && !next.IsZero() ==> forall i | 0 <= i < |r.value| :: !r.value[i].IsZero()
    ensures r.Ok? && |r.value| > 1 ==> Walked(source.tree, walk, next, last, history) && r.value == Reversed(walk)
    ensures r.Err? ==>
              && !last.IsZero() && !Sibling(next, last) && Walked(source.tree, walk, next, last, history)
              && Unfillable(source, Span(old(source.calls), source.calls), r.error, walk, last, history, depth)
  {
    hide Descending, Chained, Reversed, Parsed, Walked;
    walk := [next];
    WalkStarts(source.tree, next, last, history);
    if last.IsZero() {
      return Ok([next]), walk;
    }
    if next.hash == last.hash {
      return Ok([]), walk;
    }
    if Sibling(next, last) {
      return Ok([next]), walk;
    }
    if next.number > last.number && next.number - last.number == 1 && next.parentHash == last.hash {
      return Ok([next]), walk;
    }
    var path := [next];
    var cursor := next;
    for step := 0 to depth
      invariant |path| == step + 1 && path[0] == next && path[step] == cursor && Descending(path)
      invariant forall i | 0 < i < |path| :: !path[i].IsZero()
      invariant source.calls >= old(source.calls)
      invariant walk == path && Walked(source.tree, walk, next, last, history)
    {
      if cursor.parentHash == last.hash {
        if cursor.number <= last.number || cursor.number - last.number != 1 {
          return Err(BadHeight), walk;
        }
        path := Reverse(path);
        FilledIsReal(source.tree, walk, next, last, history);
        return Ok(path), walk;
      }
      if cursor.parentHash in history {
        var ancestor := history[cursor.parentHash];
        if cursor.number <= ancestor.number || cursor.number - ancestor.number != 1 {
          return Err(BadHeight), walk;
        }
        path := Reverse(path);
        FilledIsReal(source.tree, walk, next, last, history);
        return Ok(path), walk;
      }
      var parent := source.EVMBlockByHash(cursor.parentHash, Latest);
      if parent.None? {
        return Err(ParentUnavailable), walk;
      }
      ParsedInTree(source.tree, parent.value);
      if parent.value.number >= cursor.number || cursor.number - parent.value.number != 1 {
        return Err(BadHeight), walk;
      }
      WalkGrows(source.tree, path, next, last, history, parent.value);
      path := path + [parent.value];
      walk := path;
      cursor := parent.value;
    }
    r := Err(NoCommonAncestor);
  }

  lemma FilledIsReal(tree: HeaderTree, walk: seq<Head>, next: Head, last: Head, history: map<Hash, Head>)
    requires Walked(tree, walk, next, last, history)
    ensures forall i | 0 <= i < |walk| - 1 :: Parsed(tree, Reversed(walk)[i])
  {
  }

  method Reverse(path: seq<Head>) returns (reversed: seq<Head>)
    requires path != [] && Descending(path)
    ensures reversed == Reversed(path) && Chained(reversed)
    ensures reversed[0] == path[|path| - 1] && reversed[|path| - 1] == path[0]
  {
    var heads := new Head[|path|](i requires 0 <= i < |path| => path[i]);
    assert heads[..] == path;
    ReverseHeads(heads);
    reversed := heads[..];
    forall i | 0 <= i < |reversed| - 1
      ensures reversed[i + 1].parentHash == reversed[i].hash && reversed[i + 1].number == reversed[i].number + 1
    {
      var k := |path| - 2 - i;
      assert path[k].parentHash == path[k + 1].hash && path[k].number == path[k + 1].number + 1;
    }
  }

  // The ancestor of `next` at height n is a block the session remembers.
  predicate KnownBelow(tree: HeaderTree, next: Head, n: nat, last: Head, history: map<Hash, Head>) {
    && HashAt(tree, next.hash, n).Some?
    && var p := HashAt(tree, next.hash, n).value;
       (p == last.hash || p in history) && p in tree && tree[p].number == n
  }

  // No remembered block is within `depth` of `next` on its branch, but behind a header that was asked for in vain.
  ghost predicate Unreachable(source: BlockSource, span: Span, next: Head, last: Head, history: map<Hash, Head>, depth: nat) {
    forall n: nat | n < next.number <= n + depth && KnownBelow(source.tree, next, n, last, history) ::
      MissingWithin(source, span, next.hash, n + 1, next.number)
  }

  lemma {:induction false} WalkIsBranch(tree: HeaderTree, walk: seq<Head>, next: Head, last: Head, history: map<Hash, Head>,
        i: nat)
    requires Walked(tree, walk, next, last, history) && Truthful(tree, next) && i < |walk|
    ensures Truthful(tree, walk[i]) && HashAt(tree, next.hash, walk[i].number) == Some(walk[i].hash)
    ensures walk[i].number + i == next.number
  {
    if i > 0 {
      WalkIsBranch(tree, walk, next, last, history, i - 1);
      assert walk[i - 1].parentHash == walk[i].hash && walk[i - 1].number == walk[i].number + 1;
      WalkStep(tree, next.hash, walk[i - 1], walk[i]);
    }
  }

  // Heads of the session carry the contents of the tree.
  predicate TruthfulMemory(tree: HeaderTree, last: Head, history: map<Hash, Head>) {
    Truthful(tree, last) && forall k | k in history :: history[k].hash == k && Truthful(tree, history[k])
  }

  /** A refused gap is one that could not be filled: a remembered block inside the depth would have been met. */
  lemma ReachableIsFilled(source: BlockSource, span: Span, e: GapError, walk: seq<Head>, next: Head, last: Head,
        history: map<Hash, Head>, depth: nat)
    requires Walked(source.tree, walk, next, last, history) && Unfillable(source, span, e, walk, last, history, depth)
    requires Truthful(source.tree, next) && TruthfulMemory(source.tree, last, history)
    ensures Unreachable(source, span, next, last, history, depth)
  {
    var tree, m := source.tree, |walk| - 1;
    WalkIsBranch(tree, walk, next, last, history, m);
    forall n: nat | n < next.number <= n + depth && KnownBelow(tree, next, n, last, history)
      ensures MissingWithin(source, span, next.hash, n + 1, next.number)
    {
      var i := if walk[m].number <= n then next.number - n - 1 else m;
      WalkIsBranch(tree, walk, next, last, history, i);
      BelowBranch(tree, next.hash, walk[i].hash, n);
      assert walk[i].number > n + 1 ==> MissingAt(source, span, next.hash, walk[i].number);
    }
  }

  /******* The session *******/

  const DEDUPLICATION_WINDOW: nat := 65536

  // Why a session ends.
  datatype Closing = PollFailed | Unfilled(error: GapError) | WindowExhausted

  // What one iteration of the loop reads: a page of events or an error, and the accepted head's fitness.
  datatype Poll = Poll(page: Option<seq<Event>>, usable: bool)

  // The first n polls brought a page, with a fit head.
  predicate AllGood(polls: seq<Poll>, n: nat)
    requires n <= |polls|
  {
    forall p | 0 <= p < n :: polls[p].page.Some? && polls[p].usable
  }

  lemma AllGoodExtends(polls: seq<Poll>, n: nat)
    requires n < |polls| && AllGood(polls, n) && polls[n].page.Some? && polls[n].usable
    ensures AllGood(polls, n + 1)
  {
  }

  // Every head carries the contents its hash stands for.
  ghost predicate Real(tree: HeaderTree, heads: seq<Head>) {
    forall i | 0 <= i < |heads| :: Truthful(tree, heads[i])
  }

  ghost predicate RealEvents(tree: HeaderTree, events: seq<Event>) {
    forall e | e in events :: Truthful(tree, e.head)
  }

  // What is processed of a filled path is real when the event's head is.
  lemma FilledStaysReal(tree: HeaderTree, heads: seq<Head>, path: seq<Head>, next: Head, known: seq<Head>)
    requires path != [] && path[|path| - 1] == next && forall i | 0 <= i < |path| - 1 :: Parsed(tree, path[i])
    requires known <= heads + path
    ensures Real(tree, heads) && Truthful(tree, next) ==> Real(tree, known)
  {
  }

  // The known heads follow the links of the tree: each but the first is a child of an earlier one there, or has
  // the height and parent of the first.
  ghost predicate FollowsTree(tree: HeaderTree, known: seq<Head>) {
    forall i | 0 < i < |known| :: Descends(tree, known, i)
  }

  ghost predicate Descends(tree: HeaderTree, known: seq<Head>, i: nat)
    requires 0 < i < |known|
  {
    || (&& known[0].hash in tree && known[i].hash in tree && tree[known[i].hash] == tree[known[0].hash])
    || exists j | 0 <= j < i :: Linked(tree, known[i].hash, known[j].hash)
  }

  /** Connected heads that are real follow the links of the tree. */
  lemma RealHeadsFollowTree(tree: HeaderTree, known: seq<Head>)
    requires Connected(known) && Real(tree, known)
    ensures FollowsTree(tree, known)
  {
    forall i | 0 < i < |known|
      ensures Descends(tree, known, i)
    {
      assert Rooted(known[..i], known[i]);
      if !Sibling(known[i], known[0]) {
        var j :| 0 <= j < i && Above(known[i], known[..i][j]);
        assert Linked(tree, known[i].hash, known[j].hash);
      }
    }
  }

  ghost predicate RealPolls(tree: HeaderTree, polls: seq<Poll>) {
    forall p | 0 <= p < |polls| && polls[p].page.Some? :: RealEvents(tree, polls[p].page.value)
  }

  predicate NonZero(poll: Poll) {
    poll.page.Some? ==> forall e | e in poll.page.value :: !e.head.IsZero()
  }

  // Every known head but the first sits one above an earlier one, or is a sibling of the first.
  ghost predicate Connected(known: seq<Head>) {
    forall i | 0 < i < |known| :: Rooted(known[..i], known[i])
  }

  ghost predicate Rooted(known: seq<Head>, h: Head) {
    known == [] || Sibling(h, known[0]) || exists j | 0 <= j < |known| :: Above(h, known[j])
  }

  predicate Above(h: Head, parent: Head) {
    h.parentHash == parent.hash && h.number == parent.number + 1
  }

  // The hashes to notify for a run of processed heads: each at its first occurrence.
  function Deliveries(processed: seq<Head>): (hashes: seq<Hash>) {
    if processed == [] then [] else
      var earlier := Deliveries(processed[..|processed| - 1]);
      var hash := processed[|processed| - 1].hash;
      if hash in earlier then earlier else earlier + [hash]
  }

  /** Subscribers hear of every processed block, of nothing else, and of none twice. */
  lemma {:induction false} DeliveriesAreExact(processed: seq<Head>)
    ensures NoDuplicates(Deliveries(processed))
    ensures forall h | h in Deliveries(processed) :: exists i | 0 <= i < |processed| :: processed[i].hash == h
    ensures forall i | 0 <= i < |processed| :: processed[i].hash in Deliveries(processed)
  {
    if processed != [] {
      var front := processed[..|processed| - 1];
      DeliveriesAreExact(front);
      forall h | h in Deliveries(processed)
        ensures exists i | 0 <= i < |processed| :: processed[i].hash == h
      {
        if h in Deliveries(front) {
          var i :| 0 <= i < |front| && front[i].hash == h;
          assert processed[i].hash == h;
        } else {
          assert processed[|processed| - 1].hash == h;
        }
      }
      forall i | 0 <= i < |processed|
        ensures processed[i].hash in Deliveries(processed)
      {
        if i < |front| {
          assert front[i].hash in Deliveries(front);
        }
      }
    }
  }

  lemma DeliveriesStep(known: seq<Head>, start: nat, h: Head)
    requires start <= |known|
    ensures var earlier := Deliveries(known[start..]);
            Deliveries((known + [h])[start..]) == earlier + if h.hash in earlier then [] else [h.hash]
  {
    var processed := known[start..];
    assert (known + [h])[start..] == processed + [h];
    assert (processed + [h])[..|processed|] == processed;
  }

  predicate NoDuplicates<T(==)>(s: seq<T>) {
    forall i, j | 0 <= i < j < |s| :: s[i] != s[j]
  }

  predicate SameElements<T(==)>(a: set<T>, b: seq<T>) {
    (forall x | x in a :: x in b) && (forall x | x in b :: x in a)
  }

  lemma Seen<T>(a: set<T>, b: seq<T>, x: T)
    requires SameElements(a, b)
    ensures x in a <==> x in b
  {
  }

  lemma SameElementsExtend<T>(a: set<T>, b: seq<T>, x: T)
    requires SameElements(a, b)
    ensures SameElements(a + {x}, b + [x])
  {
  }

  lemma ConnectedExtends(known: seq<Head>, h: Head)
    requires Connected(known) && Rooted(known, h)
    ensures Connected(known + [h])
  {
    var longer := known + [h];
    forall i | 0 < i < |longer|
      ensures Rooted(longer[..i], longer[i])
    {
      if i < |known| {
        assert longer[..i] == known[..i];
      } else {
        assert longer[..i] == known;
      }
    }
  }

  // A head that ExpandPath lets a path start with.
  lemma PathStartIsRooted(known: seq<Head>, order: seq<Hash>, history: map<Hash, Head>, limit: nat, h: Head)
    requires Connected(known) && known != [] && Windowed(order, history, known, limit)
    requires var last := known[|known| - 1]; Attached(h, last, history) || Sibling(h, last)
    ensures Rooted(known, h)
  {
  }

  // The history holds the listed blocks, all of them known, and no more than its limit.
  ghost predicate Windowed(order: seq<Hash>, history: map<Hash, Head>, known: seq<Head>, limit: nat) {
    && NoDuplicates(order) && |order| <= limit
    && (forall k | k in order :: k in history) && (forall k | k in history :: k in order)
    && (forall k | k in history :: history[k].hash == k && history[k] in known)
  }

  lemma WindowStays(order: seq<Hash>, history: map<Hash, Head>, known: seq<Head>, h: Head, limit: nat)
    requires Windowed(order, history, known, limit)
    ensures Windowed(order, history, known + [h], limit)
  {
  }

  lemma WindowMoves(order: seq<Hash>, history: map<Hash, Head>, known: seq<Head>, limit: nat)
    requires |order| == limit + 1 && Windowed(order, history, known, limit + 1)
    ensures Windowed(order[1..], history - {order[0]}, known, limit)
    ensures order[limit] in history - {order[0]} <==> limit > 0
  {
  }

  lemma WindowEnters(order: seq<Hash>, history: map<Hash, Head>, known: seq<Head>, h: Head, limit: nat)
    requires Windowed(order, history, known, limit) && limit > 0
    ensures var longer := if h.hash in history then order else order + [h.hash];
            var forgotten := if |longer| > limit then {longer[0]} else {};
            && (h.hash in history <==> h.hash in order)
            && Windowed(if |longer| > limit then longer[1..] else longer, history[h.hash := h] - forgotten, known + [h], limit)
            && h.hash !in forgotten
  {
    var longer := if h.hash in history then order else order + [h.hash];
    assert Windowed(longer, history[h.hash := h], known + [h], limit + 1);
    if |longer| > limit {
      WindowMoves(longer, history[h.hash := h], known + [h], limit);
    }
  }

  function Newest<T>(s: seq<T>, n: nat): seq<T> {
    if |s| <= n then s else s[|s| - n..]
  }

  // The hashes that ever entered the history, oldest first: the checkpoint's, then every notified one but a
  // checkpoint still among the newest `limit`.
  function Entered(checkpoint: seq<Head>, notified: seq<Hash>, limit: nat): (entered: seq<Hash>) {
    if notified == [] then seq(|checkpoint|, i requires 0 <= i < |checkpoint| => checkpoint[i].hash)
    else
      var earlier := Entered(checkpoint, notified[..|notified| - 1], limit);
      var hash := notified[|notified| - 1];
      if hash in Newest(earlier, limit) then earlier else earlier + [hash]
  }

  // The history lists the newest `limit` hashes that entered it, or all of them if there are fewer.
  predicate Remembers(checkpoint: seq<Head>, notified: seq<Hash>, order: seq<Hash>, limit: nat) {
    order == Newest(Entered(checkpoint, notified, limit), limit)
  }

  lemma RemembersMore(checkpoint: seq<Head>, notified: seq<Hash>, order: seq<Hash>, limit: nat, hash: Hash)
    requires Remembers(checkpoint, notified, order, limit) && limit > 0
    ensures var longer := if hash in order then order else order + [hash];
            Remembers(checkpoint, notified + [hash], if |longer| > limit then longer[1..] else longer, limit)
  {
    assert (notified + [hash])[..|notified|] == notified;
  }

  predicate InCheckpoint(checkpoint: seq<Head>, hash: Hash) {
    exists i | 0 <= i < |checkpoint| :: checkpoint[i].hash == hash
  }

  /** None of the last `limit` blocks notified is forgotten, unless it is the checkpoint's, and the checkpoint is
      not while it and the blocks notified fit. */
  lemma {:induction false} RecentIsRemembered(checkpoint: seq<Head>, notified: seq<Hash>, order: seq<Hash>, limit: nat)
    requires Remembers(checkpoint, notified, order, limit) && NoDuplicates(notified)
    ensures forall k | 0 <= k < |notified| && |notified| - limit <= k ::
              notified[k] in order || InCheckpoint(checkpoint, notified[k])
    ensures |checkpoint| + |notified| <= limit ==> forall i | 0 <= i < |checkpoint| :: checkpoint[i].hash in order
  {
    EnteredInOrder(checkpoint, notified, limit);
    var entered := Entered(checkpoint, notified, limit);
    forall k | 0 <= k < |notified| && |notified| - limit <= k && !InCheckpoint(checkpoint, notified[k])
      ensures notified[k] in order
    {
      var j := EntryOf(checkpoint, notified, limit, k);
      assert entered[j] == notified[k] && |entered| - limit <= j;
    }
    if |checkpoint| + |notified| <= limit {
      assert order == entered;
    }
  }

  // Entries are the checkpoint's or notified, the checkpoint's first, and at most one for each block notified.
  lemma {:induction false} EnteredInOrder(checkpoint: seq<Head>, notified: seq<Hash>, limit: nat)
    ensures var entered := Entered(checkpoint, notified, limit);
            && |checkpoint| <= |entered| <= |checkpoint| + |notified|
            && (forall i | 0 <= i < |checkpoint| :: entered[i] == checkpoint[i].hash)
            && forall x | x in entered :: InCheckpoint(checkpoint, x) || x in notified
  {
    if notified != [] {
      EnteredInOrder(checkpoint, notified[..|notified| - 1], limit);
      assert forall x | x in notified[..|notified| - 1] :: x in notified;
    }
  }

  // Where a notified block entered: with at most one entry behind it for each block notified since.
  lemma {:induction false} EntryOf(checkpoint: seq<Head>, notified: seq<Hash>, limit: nat, k: nat) returns (j: nat)
    requires NoDuplicates(notified) && k < |notified| && !InCheckpoint(checkpoint, notified[k])
    ensures var entered := Entered(checkpoint, notified, limit);
            j < |entered| && entered[j] == notified[k] && |entered| - j <= |notified| - k
  {
    var front := notified[..|notified| - 1];
    if k == |front| {
      EnteredInOrder(checkpoint, front, limit);
      j := |Entered(checkpoint, front, limit)|;
    } else {
      j := EntryOf(checkpoint, front, limit, k);
    }
  }

  // What the session knows and what it has notified agree.
  ghost predicate Consistent(checkpoint: seq<Head>, known: seq<Head>, notified: seq<Hash>, seen: set<Hash>) {
    && checkpoint <= known && Connected(known)
    && notified == Deliveries(known[|checkpoint|..])
    && SameElements(seen, notified)
  }

  lemma ConsistentExtends(checkpoint: seq<Head>, known: seq<Head>, notified: seq<Hash>, seen: set<Hash>, h: Head)
    requires Consistent(checkpoint, known, notified, seen) && Rooted(known, h)
    ensures h.hash in notified <==> h.hash in seen
    ensures h.hash in notified ==> Consistent(checkpoint, known + [h], notified, seen)
    ensures h.hash !in notified ==> Consistent(checkpoint, known + [h], notified + [h.hash], seen + {h.hash})
  {
    hide Connected, Rooted, Deliveries, SameElements;
    ConnectedExtends(known, h);
    DeliveriesStep(known, |checkpoint|, h);
    Seen(seen, notified, h.hash);
    SameElementsExtend(seen, notified, h.hash);
  }

  ghost predicate Covered(known: seq<Head>, hash: Hash) {
    exists j | 0 <= j < |known| :: known[j].hash == hash
  }

  // Every block of the first n events of a page, or of the first n polls.
  ghost predicate EventsCovered(known: seq<Head>, events: seq<Event>, n: nat)
    requires n <= |events|
  {
    forall m | 0 <= m < n :: Covered(known, events[m].head.hash)
  }

  ghost predicate PollsCovered(known: seq<Head>, polls: seq<Poll>, n: nat)
    requires n <= |polls|
  {
    forall p | 0 <= p < n && polls[p].page.Some? :: EventsCovered(known, polls[p].page.value, |polls[p].page.value|)
  }

  lemma NoPollsYet(known: seq<Head>, polls: seq<Poll>)
    ensures PollsCovered(known, polls, 0) && AllGood(polls, 0)
  {
  }

  lemma PollsCoveredExtends(known: seq<Head>, longer: seq<Head>, polls: seq<Poll>, n: nat)
    requires n < |polls| && known <= longer && PollsCovered(known, polls, n)
    requires polls[n].page.Some? ==> EventsCovered(longer, polls[n].page.value, |polls[n].page.value|)
    ensures PollsCovered(longer, polls, n + 1)
  {
  }

  lemma PollsCoveredLater(known: seq<Head>, longer: seq<Head>, polls: seq<Poll>, n: nat)
    requires n <= |polls| && known <= longer && PollsCovered(known, polls, n)
    ensures PollsCovered(longer, polls, n)
  {
    forall p | 0 <= p < n && polls[p].page.Some?
      ensures EventsCovered(longer, polls[p].page.value, |polls[p].page.value|)
    {
      EventsCoveredExtends(known, longer, polls[p].page.value, |polls[p].page.value|);
    }
  }

  lemma EventsCoveredExtends(known: seq<Head>, longer: seq<Head>, events: seq<Event>, n: nat)
    requires n <= |events| && known <= longer && EventsCovered(known, events, n)
    ensures EventsCovered(longer, events, n)
  {
  }

  /** The variables of eventLoop.  `known` is ghost: the checkpoint's head, if it has one, followed by every
      head processed since, in order. */
  class Pump {
    const source: BlockSource
    const depth: nat
    var cursor: nat
    var last: Head
    var seen: set<Hash>
    var history: map<Hash, Head>
    var historyOrder: seq<Hash>
    var notified: seq<Hash>
    var closing: Option<Closing>
    ghost const checkpoint: seq<Head>
    ghost var walk: seq<Head>
    ghost var asked: Span
    ghost var known: seq<Head>

    constructor (source: BlockSource, depth: nat, start: Event)
      ensures Valid() && this.source == source && this.depth == depth && closing.None?
      ensures known == checkpoint == if start.head.IsZero() then [] else [start.head]
      ensures cursor == start.id && notified == []
    {
      this.source, this.depth := source, depth;
      cursor := start.id;
      seen, notified, closing, walk, asked := {}, [], None, [], Span(0, 0);
      last := start.head;
      history := if start.head.IsZero() then map[] else map[start.head.hash := start.head];
      historyOrder := if start.head.IsZero() then [] else [start.head.hash];
      known := if start.head.IsZero() then [] else [start.head];
      checkpoint := if start.head.IsZero() then [] else [start.head];
    }

    function Limit(): nat {
      if depth * 2 > 16 then depth * 2 else 16
    }

    ghost predicate Valid()
      reads this
    {
      && Consistent(checkpoint, known, notified, seen) && |seen| <= DEDUPLICATION_WINDOW
      && Windowed(historyOrder, history, known, Limit()) && Remembers(checkpoint, notified, historyOrder, Limit())
      && (closing.None? ==> (known == [] <==> last.IsZero()) && (known != [] ==> last == known[|known| - 1]))
    }

    predicate Full()
      reads this
    {
      closing == Some(WindowExhausted) && |seen| == DEDUPLICATION_WINDOW
    }

    // The gap between the last known head and `next` could not be filled, for the reason given when closing; if the
    // heads are real, nothing remembered was in reach.
    ghost predicate Stuck(next: Head)
      reads this
    {
      && closing.Some? && closing.value.Unfilled? && known != [] && last == known[|known| - 1]
      && !Sibling(next, last) && Walked(source.tree, walk, next, last, history)
      && Unfillable(source, asked, closing.value.error, walk, last, history, depth)
      && (Real(source.tree, known) && Truthful(source.tree, next) ==>
            Unreachable(source, asked, next, last, history, depth))
    }

    lemma RefusalIsUnreachable(next: Head)
      requires Valid() && closing.Some? && closing.value.Unfilled? && known != [] && last == known[|known| - 1]
      requires Walked(source.tree, walk, next, last, history)
      requires Unfillable(source, asked, closing.value.error, walk, last, history, depth)
      ensures Real(source.tree, known) && Truthful(source.tree, next) ==>
                Unreachable(source, asked, next, last, history, depth)
    {
      if Real(source.tree, known) && Truthful(source.tree, next) {
        ReachableIsFilled(source, asked, closing.value.error, walk, next, last, history, depth);
      }
    }

    ghost predicate StuckOn(events: seq<Event>, span: Span)
      reads this
    {
      Within(asked, span) && exists e | e in events :: Stuck(e.head)
    }

    /** One head of an expanded path: it is processed and, when its hash is new, notified; only an exhausted
        deduplication window refuses it, and then nothing is notified. */
    method ProcessHead(h: Head)
      requires Valid() && closing.None? && Rooted(known, h) && !h.IsZero()
      modifies this
      ensures Valid() && cursor == old(cursor)
      ensures closing.Some? <==> h.hash !in old(notified) && |old(seen)| == 65536
      ensures closing.Some? ==> known == old(known) && notified == old(notified) && Full()
      ensures closing.None? ==> known == old(known) + [h] && last == h
      ensures closing.None? ==> notified == if h.hash in old(notified) then old(notified) else old(notified) + [h.hash]
    {
      hide Rooted, Windowed, Consistent, Remembers;
      ConsistentExtends(checkpoint, known, notified, seen, h);
      if h.hash in seen {
        Suppress(h);
        return;
      }
      if |seen| >= DEDUPLICATION_WINDOW {
        last := h;
        closing := Some(WindowExhausted);
        return;
      }
      Deliver(h);
    }

    // A block already notified.
    method Suppress(h: Head)
      requires Valid() && closing.None? && Rooted(known, h) && !h.IsZero() && h.hash in notified
      modifies `last, `known
      ensures Valid()
      ensures last == h && known == old(known) + [h]
    {
      hide Rooted, Windowed, Consistent, Remembers;
      ConsistentExtends(checkpoint, known, notified, seen, h);
      WindowStays(historyOrder, history, known, h, Limit());
      last := h;
      known := known + [h];
    }

    // A new block.
    method Deliver(h: Head)
      requires Valid() && closing.None? && Rooted(known, h) && !h.IsZero() && h.hash !in seen && |seen| < DEDUPLICATION_WINDOW
      modifies `last, `known, `seen, `notified, `history, `historyOrder
      ensures Valid()
      ensures last == h && known == old(known) + [h] && notified == old(notified) + [h.hash]
    {
      hide Rooted, Windowed, Consistent, Remembers;
      ConsistentExtends(checkpoint, known, notified, seen, h);
      assert (known + [h])[..|known|] == known;
      last := h;
      known := known + [h];
      seen := seen + {h.hash};
      Remember(h);
      notified := notified + [h.hash];
    }

    // The bounded history: the new block enters, the oldest one leaves when the limit is passed.
    method Remember(h: Head)
      requires |known| > 0 && Windowed(historyOrder, history, known[..|known| - 1], Limit()) && h == known[|known| - 1]
      requires Remembers(checkpoint, notified, historyOrder, Limit())
      modifies `history, `historyOrder
      ensures Windowed(historyOrder, history, known, Limit())
      ensures Remembers(checkpoint, notified + [h.hash], historyOrder, Limit())
      ensures var longer := if h.hash in old(history) then old(historyOrder) else old(historyOrder) + [h.hash];
              var full := |longer| > 16 && |longer| > 2 * depth;
              && historyOrder == (if full then longer[1..] else longer)
              && history == old(history)[h.hash := h] - if full then {longer[0]} else {}
      ensures h.hash in history && history[h.hash] == h
    {
      hide Windowed, Remembers;
      WindowEnters(historyOrder, history, known[..|known| - 1], h, Limit());
      RemembersMore(checkpoint, notified, historyOrder, Limit(), h.hash);
      assert known[..|known| - 1] + [h] == known;
      if h.hash !in history {
        historyOrder := historyOrder + [h.hash];
      }
      history := history[h.hash := h];
      if |historyOrder| > Limit() {
        history := history - {historyOrder[0]};
        historyOrder := historyOrder[1..];
      } else {
        assert history - {} == history;
      }
    }

    /** One stream event: its gap is filled and every block of the path processed, or the session closes, with
        the blocks walked as the reason. */
    method ProcessEvent(e: Event)
      requires Valid() && closing.None? && source.Honest() && !e.head.IsZero()
      modifies this, source
      ensures Valid() && old(known) <= known && old(notified) <= notified
      ensures closing.None? ==> cursor == e.id && Covered(known, e.head.hash)
      ensures source.calls >= old(source.calls)
      ensures closing.Some? ==> Full() || (Stuck(e.head) && asked == Span(old(source.calls), source.calls))
      ensures Real(source.tree, old(known)) && Truthful(source.tree, e.head) ==> Real(source.tree, known)
    {
      hide Connected, Deliveries, NoDuplicates, SameElements, Chained, Attached, Sibling, Real, Truthful, Parsed,
          Walked, Unfillable, Unreachable, Remembers,
        Windowed, Reversed, BlockSource.Honest, Full;
      cursor := e.id;
      var expanded, walked := ExpandPath(source, last, e.head, history, depth);
      if expanded.Err? {
        walk, asked := walked, Span(old(source.calls), source.calls);
        closing := Some(Unfilled(expanded.error));
        RefusalIsUnreachable(e.head);
        return;
      }
      var path := expanded.value;
      if path == [] {
        return;
      }
      if known != [] {
        PathStartIsRooted(known, historyOrder, history, Limit(), path[0]);
      }
      ghost var before := known;
      ProcessPath(path);
      FilledStaysReal(source.tree, before, path, e.head, known);
    }

    method ProcessPath(path: seq<Head>)
      requires Valid() && closing.None? && path != [] && Chained(path) && Rooted(known, path[0])
      requires forall i | 0 <= i < |path| :: !path[i].IsZero()
      modifies this
      ensures Valid() && cursor == old(cursor) && old(known) <= known && old(notified) <= notified
      ensures closing.None? ==> known == old(known) + path
      ensures known <= old(known) + path
      ensures closing.Some? ==> Full()
    {
      hide Valid, Connected, Deliveries;
      var i := 0;
      ghost var n: nat := 0;
      while i < |path| && closing.None?
        invariant 0 <= i <= |path| && Valid() && cursor == old(cursor)
        invariant old(known) <= known && old(notified) <= notified
        invariant n <= |path| && known == old(known) + path[..n] && (closing.None? ==> n == i)
        invariant closing.None? && i < |path| ==> Rooted(known, path[i])
        invariant closing.Some? ==> Full()
      {
        ProcessHead(path[i]);
        if closing.None? && i + 1 < |path| {
          assert Above(path[i + 1], known[|known| - 1]);
        }
        i := i + 1;
        n := if closing.None? then i else n;
      }
    }

    /** A whole session, one poll per iteration.  Whatever the stream and the providers deliver, the known
        heads stay connected by parent links, no block is notified twice, exactly the processed blocks are
        notified, every block of every event of the `completed` polls has been processed, and the session closes
        only on the next poll, because it failed, its gap could not be filled or the window was full. */
    method Run(polls: seq<Poll>) returns (completed: nat)
      requires Valid() && closing.None? && source.Honest()
      requires forall p | 0 <= p < |polls| :: NonZero(polls[p])
      modifies this, source
      ensures Valid() && old(known) <= known && old(notified) <= notified
      ensures completed <= |polls| && PollsCovered(known, polls, completed)
      ensures AllGood(polls, completed)
      ensures closing.None? <==> completed == |polls|
      ensures closing.Some? ==> ClosedOn(polls[completed], Span(old(source.calls), source.calls))
      ensures Real(source.tree, old(known)) && RealPolls(source.tree, polls) ==> Real(source.tree, known)
    {
      hide Valid, PollsCovered, EventsCovered, BlockSource.Honest, NonZero, AllGood, Real, RealEvents, Stuck, Full;
      completed := 0;
      NoPollsYet(known, polls);
      while completed < |polls|
        invariant completed <= |polls| && Valid() && closing.None? && old(known) <= known && old(notified) <= notified
        invariant PollsCovered(known, polls, completed) && source.calls >= old(source.calls)
        invariant Real(source.tree, old(known)) && RealPolls(source.tree, polls) ==> Real(source.tree, known)
        invariant AllGood(polls, completed)
      {
        ghost var before := known;
        Iterate(polls[completed]);
        if closing.Some? {
          assert PollsCovered(known, polls, completed) by {
            PollsCoveredLater(before, known, polls, completed);
          }
          return;
        }
        PollsCoveredExtends(before, known, polls, completed);
        AllGoodExtends(polls, completed);
        completed := completed + 1;
      }
    }

    // Why the session closed on a poll.
    ghost predicate ClosedOn(poll: Poll, span: Span)
      reads this
    {
      || (closing == Some(PollFailed) && (poll.page.None? || !poll.usable))
      || (poll.page.Some? && poll.usable && (Full() || StuckOn(poll.page.value, span)))
    }

    // One iteration of the loop.
    method Iterate(poll: Poll)
      requires Valid() && closing.None? && source.Honest()
      requires NonZero(poll)
      modifies this, source
      ensures Valid() && old(known) <= known && old(notified) <= notified
      ensures closing.None? ==>
                && poll.page.Some? && poll.usable && EventsCovered(known, poll.page.value, |poll.page.value|)
                && cursor == (if poll.page.value == [] then old(cursor) else poll.page.value[|poll.page.value| - 1].id)
      ensures closing.Some? ==> ClosedOn(poll, Span(old(source.calls), source.calls))
      ensures closing == Some(PollFailed) <==> poll.page.None? || !poll.usable
      ensures source.calls >= old(source.calls)
      ensures Real(source.tree, old(known)) && (poll.page.Some? ==> RealEvents(source.tree, poll.page.value)) ==>
                Real(source.tree, known)
    {
      if poll.page.None? || !poll.usable {
        closing := Some(PollFailed);
        return;
      }
      ProcessPage(poll.page.value);
    }

    method ProcessPage(events: seq<Event>)
      requires Valid() && closing.None? && source.Honest()
      requires forall e | e in events :: !e.head.IsZero()
      modifies this, source
      ensures Valid() && old(known) <= known && old(notified) <= notified
      ensures closing.None? ==>
                && EventsCovered(known, events, |events|)
                && cursor == if events == [] then old(cursor) else events[|events| - 1].id
      ensures closing.Some? ==> Full() || StuckOn(events, Span(old(source.calls), source.calls))
      ensures source.calls >= old(source.calls)
      ensures Real(source.tree, old(known)) && RealEvents(source.tree, events) ==> Real(source.tree, known)
    {
      hide Valid, Covered, Full, Stuck, BlockSource.Honest, Real;
      for n := 0 to |events|
        invariant Valid() && closing.None? && old(known) <= known && old(notified) <= notified
        invariant EventsCovered(known, events, n) && source.calls >= old(source.calls)
        invariant Real(source.tree, old(known)) && RealEvents(source.tree, events) ==> Real(source.tree, known)
        invariant cursor == if n == 0 then old(cursor) else events[n - 1].id
      {
        ghost var before := known;
        ProcessEvent(events[n]);
        if closing.Some? {
          return;
        }
        EventsCoveredExtends(before, known, events, n);
      }
    }
  }
}
