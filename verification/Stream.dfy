/** Accepted-head streams: paging, retention and a consumer's whole session
    (internal/head/redis.go:258-306, internal/head/types.go:244-294). */
module Stream {
  import opened Wrappers
  import opened Headers
  import opened HeadStore
  import opened Protocol
  import opened Safety
  import opened Cluster

  // Where a page that starts at `position` ends; count 0 is no limit.
  function NextPosition(position: nat, length: nat, count: nat): (next: nat)
    requires position <= length
    ensures position <= next <= length
  {
    if count > 0 && length - position > count then position + count else length
  }

  // How far n pages lead in a log of the given length.
  function Reach(position: nat, length: nat, n: nat, count: nat): (reached: nat)
    requires position <= length
    ensures position <= reached <= length
  {
    if n == 0 then position else NextPosition(Reach(position, length, n - 1, count), length, count)
  }

  /** Enough pages reach the end: their number times their size, or a single unlimited one. */
  lemma {:induction false} ReachIsExact(position: nat, length: nat, n: nat, count: nat)
    requires position <= length
    ensures Reach(position, length, n, count) ==
            if n == 0 then position else if count == 0 || position + n * count >= length then length else position + n * count
  {
    if n > 0 {
      ReachIsExact(position, length, n - 1, count);
      assert n * count == (n - 1) * count + count;
    }
  }

  /** Memory paging: from the position of an event, a page is exactly what follows it. */
  lemma PageAfterIsExact(log: seq<Event>, k: nat, count: nat)
    requires Increasing(log) && k < |log| && log[k].id > 0
    ensures PageAfter(log, log[k].id, count) ==
            if k + 1 == |log| then Waiting
            else Events(log[k + 1..NextPosition(k + 1, |log|, count)])
  {
    assert log[k] in log;
    StartOfFirst(log, log[k].id, k);
  }

  /** From the ID "0-0", a page starts at the first event ever published. */
  lemma PageFromOrigin(log: seq<Event>, count: nat)
    requires forall e | e in log :: e.id > 0
    ensures PageAfter(log, 0, count) ==
            if log == [] then Waiting else Events(log[0..NextPosition(0, |log|, count)])
  {
    StartOfFirst(log, 0, |log|);
  }

  // The first entry at or after `from` that lies behind the cursor.
  function FirstAfter(log: seq<Event>, cursor: nat, from: nat): (i: nat)
    requires from <= |log|
    ensures from <= i <= |log|
    ensures forall j | from <= j < i :: log[j].id <= cursor
    ensures i < |log| ==> cursor < log[i].id
    decreases |log| - from
  {
    if from == |log| || cursor < log[from].id then from else FirstAfter(log, cursor, from + 1)
  }

  lemma {:induction false} FirstAfterEntry(log: seq<Event>, from: nat, k: nat)
    requires Increasing(log) && from <= k < |log|
    ensures FirstAfter(log, log[k].id, from) == k + 1
    decreases k - from
  {
    if from < k {
      FirstAfterEntry(log, from + 1, k);
    }
  }

  // An ID names one entry.
  lemma SameEntry(before: seq<Event>, log: seq<Event>, k: nat, i: nat)
    requires Increasing(log) && before <= log && k < |before| && i < |log| && log[i].id == before[k].id
    ensures i == k
  {
  }

  lemma FirstAfterOrigin(log: seq<Event>, from: nat)
    requires from <= |log| && forall e | e in log :: e.id > 0
    ensures FirstAfter(log, 0, from) == from
  {
  }

  /** The Redis stream: everything ever added, of which the oldest `trimmed` entries are gone. */
  class RedisStream {
    const maxLength: nat
    var log: seq<Event>
    var trimmed: nat

    constructor (maxLength: nat)
      requires maxLength > 0
      ensures Valid() && log == [] && trimmed == 0 && this.maxLength == maxLength
    {
      this.maxLength := maxLength;
      log, trimmed := [], 0;
    }

    // Trimming is oldest first and always leaves the newest entry.
    ghost predicate Valid()
      reads this
    {
      && maxLength > 0 && Increasing(log) && (forall e | e in log :: e.id > 0)
      && trimmed <= |log| && (log != [] ==> trimmed < |log|) && |log| - trimmed <= maxLength
    }

    // XADD with MAXLEN.
    method Add(id: nat, h: Head)
      requires Valid() && id > 0 && (log != [] ==> log[|log| - 1].id < id)
      modifies this
      ensures Valid() && log == old(log) + [Event(id, h)]
      ensures trimmed == if |log| - old(trimmed) > maxLength then |log| - maxLength else old(trimmed)
    {
      log := log + [Event(id, h)];
      if |log| - trimmed > maxLength {
        trimmed := |log| - maxLength;
      }
    }

    // Publications by others, with the trimming they cause.
    method Interfere()
      requires Valid()
      modifies this
      ensures Valid() && old(log) <= log && old(trimmed) <= trimmed
    {
      var more: nat :| true;
      for i := 0 to more
        invariant Valid() && old(log) <= log && old(trimmed) <= trimmed
      {
        var id: nat, h: Head :| true;
        if id > 0 && (|log| > 0 ==> log[|log| - 1].id < id) {
          Add(id, h);
        }
      }
    }

    // XREAD COUNT count STREAMS events cursor.
    method XRead(cursor: nat, count: nat) returns (page: seq<Event>, ghost first: nat)
      requires Valid()
      ensures first == FirstAfter(log, cursor, trimmed)
      ensures page == log[first..NextPosition(first, |log|, count)]
    {
      first := FirstAfter(log, cursor, trimmed);
      var start := FirstAfter(log, cursor, trimmed);
      page := log[start..NextPosition(start, |log|, count)];
    }

    // XRANGE cursor cursor COUNT 1: is the checkpoint still retained?
    method Retains(cursor: nat) returns (retained: bool)
      requires Valid()
      ensures retained <==> exists i | trimmed <= i < |log| :: log[i].id == cursor
    {
      var i := trimmed;
      while i < |log| && log[i].id != cursor
        invariant trimmed <= i <= |log|
        invariant forall j | trimmed <= j < i :: log[j].id != cursor
      {
        i := i + 1;
      }
      retained := i < |log|;
    }

    // StreamStart: the newest entry, or the ID "0-0".
    method StreamStart() returns (checkpoint: Event)
      requires Valid()
      ensures checkpoint == if log == [] then Event(0, NO_HEAD) else log[|log| - 1]
      ensures checkpoint.id > 0 <==> log != []
      ensures Session(log, log, trimmed, |log|, [], checkpoint.id)
    {
      if |log| == trimmed {
        return Event(0, NO_HEAD);
      }
      checkpoint := log[|log| - 1];
    }

    /** ReadEvents is two commands with a gap between them.  From the ID of entry k it returns exactly the
        entries that follow k, or reports the gap because k has been trimmed; nothing is ever skipped
        silently.  From "0-0" it returns the oldest retained entries, which are the first ones if and only
        if nothing had been trimmed when it read. */
    method ReadEvents(cursor: nat, count: nat, ghost k: nat) returns (r: ReadResult, ghost first: nat)
      requires Valid()
      requires cursor > 0 ==> k < |log| && log[k].id == cursor
      modifies this
      ensures Valid() && old(log) <= log && old(trimmed) <= trimmed
      ensures first == (if cursor > 0 then k + 1 else old(trimmed)) <= |old(log)|
      ensures match r
              case Events(page) =>
                && page == old(log)[first..NextPosition(first, |old(log)|, count)] && page != []
                && Stretch(log, first, page) && page[|page| - 1].id > 0
              case Waiting => first == |old(log)|
              case Gap => cursor > 0 && k < trimmed
    {
      hide Increasing, FirstAfter, Stretch;
      var page, start := XRead(cursor, count);
      ghost var before, lost := log, trimmed;
      first := if cursor > 0 then k + 1 else trimmed;
      if cursor == 0 {
        FirstAfterOrigin(before, lost);
      } else if lost <= k {
        FirstAfterEntry(before, lost, k);
      }
      Interfere();
      if cursor != 0 {
        var retained := Retains(cursor);
        if !retained {
          return Gap, first;
        }
        var i :| trimmed <= i < |log| && log[i].id == cursor;
        SameEntry(before, log, k, i);
      }
      PageIsStretch(before, log, first, NextPosition(first, |before|, count), page);
      if page == [] {
        return Waiting, first;
      }
      var events := Decode(page);
      assert log[first + |page| - 1] in log;
      r := Events(events);
    }

    // The loop that turns messages into events.
    method Decode(page: seq<Event>) returns (events: seq<Event>)
      ensures events == page
    {
      events := [];
      for i := 0 to |page|
        invariant events == page[..i]
      {
        events := events + [page[i]];
      }
    }

    /** A consumer's session from any of its states, resuming from the last received ID.  Whatever is published
        and trimmed meanwhile, what it has received stays one gap-free stretch of the stream, every entry once
        and in order, and each poll delivers up to `count` of what was behind the cursor: after n polls
        everything logged before them has been received as far as n pages reach, or the consumer was told of
        the gap.  A consumer that starts at "0-0" misses exactly the `lost` entries that had been trimmed when
        it first received something: those trimmed before the call, if anything was logged by then. */
    method Consume(received0: seq<Event>, cursor0: nat, polls: nat, count: nat, ghost base: seq<Event>, ghost first0: nat)
      returns (received: seq<Event>, cursor: nat, gap: bool, ghost first: nat, ghost lost: nat)
      requires Valid() && Session(base, log, trimmed, first0, received0, cursor0)
      modifies this
      ensures Valid() && old(log) <= log && old(trimmed) <= trimmed
      ensures Session(base, log, trimmed, first, received, cursor) && received0 <= received
      ensures gap ==> cursor > 0 && first + |received| <= trimmed
      ensures !gap ==> Position(first, received, cursor, trimmed) >=
                       Reach(Position(first0, received0, cursor0, old(trimmed)), |old(log)|, polls, count)
      ensures cursor0 > 0 ==> first == first0
      ensures cursor0 == 0 && cursor > 0 ==> first == lost && old(trimmed) <= lost <= trimmed
      ensures cursor0 == 0 && old(log) != [] && polls > 0 ==> cursor > 0 && lost == old(trimmed)
    {
      hide Valid, Session, NextPosition;
      received, cursor, gap, first, lost := received0, cursor0, false, first0, trimmed;
      StartPosition(base, first, received, cursor);
      for i := 0 to polls
        invariant Valid() && old(log) <= log && old(trimmed) <= trimmed && !gap
        invariant Session(base, log, trimmed, first, received, cursor) && received0 <= received
        invariant Position(first, received, cursor, trimmed) >=
                  Reach(Position(first0, received0, cursor0, old(trimmed)), |old(log)|, i, count)
        invariant cursor0 > 0 ==> cursor > 0 && first == first0
        invariant cursor0 == 0 && cursor > 0 ==> first == lost && old(trimmed) <= lost <= trimmed
        invariant cursor0 == 0 && old(log) != [] && i > 0 ==> cursor > 0 && lost == old(trimmed)
        invariant i == 0 ==> log == old(log) && trimmed == old(trimmed) && cursor == cursor0
      {
        ghost var length, missing, position, starting := |log|, trimmed, Position(first, received, cursor, trimmed), cursor == 0;
        StartPosition(base, first, received, cursor);
        received, cursor, gap, first := Poll(received, cursor, count, base, first);
        if gap {
          return;
        }
        if starting && cursor > 0 {
          lost := missing;
        }
        ReachStep(Position(first0, received0, cursor0, old(trimmed)), |old(log)|, i, count, position, length);
      }
    }

    // Where a session stands is inside the log.
    lemma StartPosition(base: seq<Event>, first: nat, received: seq<Event>, cursor: nat)
      requires Valid() && Session(base, log, trimmed, first, received, cursor)
      ensures Position(first, received, cursor, trimmed) <= |log| && trimmed <= |log|
    {
    }

    // One poll: the next page of what is behind the position when it begins, or the gap.
    method Poll(received0: seq<Event>, cursor0: nat, count: nat, ghost base: seq<Event>, ghost first0: nat)
      returns (received: seq<Event>, cursor: nat, gap: bool, ghost first: nat)
      requires Valid() && Session(base, log, trimmed, first0, received0, cursor0)
      modifies this
      ensures Valid() && old(log) <= log && old(trimmed) <= trimmed && received0 <= received
      ensures Session(base, log, trimmed, first, received, cursor)
      ensures gap ==> cursor > 0 && first == first0 && received == received0 && cursor == cursor0 && first + |received| <= trimmed
      ensures cursor > 0 <==> cursor0 > 0 || old(log) != []
      ensures cursor > 0 ==> first == if cursor0 > 0 then first0 else old(trimmed)
      ensures Position(first0, received0, cursor0, old(trimmed)) <= |old(log)|
      ensures !gap ==> Position(first, received, cursor, trimmed) >=
                       NextPosition(Position(first0, received0, cursor0, old(trimmed)), |old(log)|, count)
      ensures !gap && cursor > 0 ==>
                first + |received| == NextPosition(Position(first0, received0, cursor0, old(trimmed)), |old(log)|,
                count)
    {
      hide Stretch, Session, Increasing;
      SessionPosition(base, log, trimmed, first0, received0, cursor0);
      received, cursor, gap, first := received0, cursor0, false, first0;
      var page, start := ReadEvents(cursor0, count, if cursor0 > 0 then first0 + |received0| - 1 else 0);
      SessionContinues(base, old(log), old(trimmed), log, trimmed, first, received, cursor);
      match page {
        case Gap => gap := true;
        case Waiting =>
        case Events(events) =>
          SessionReceives(base, log, trimmed, first, received, cursor, start, events);
          if cursor == 0 {
            first := start;
          }
          received := received + events;
          cursor := events[|events| - 1].id;
      }
    }
  }

  /** The input for a missed entry: subscribe to an empty stream that keeps one entry, let two be published, read. */
  method TrimmedStartMissesAnEntry(a: Head, b: Head) returns (start: Event, r: ReadResult, stream: RedisStream)
    ensures start.id == 0 && [Event(1, a), Event(2, b)] <= stream.log
    ensures r == Events([Event(2, b)])
  {
    stream := new RedisStream(1);
    start := stream.StreamStart();
    stream.Add(1, a);
    stream.Add(2, b);
    ghost var first;
    r, first := stream.ReadEvents(start.id, 64, 0);
  }

  // `received` is the gap-free stretch of the log that starts at `first`.
  ghost predicate Stretch(log: seq<Event>, first: nat, received: seq<Event>) {
    first + |received| <= |log| && received == log[first..first + |received|]
  }

  lemma PageIsStretch(before: seq<Event>, log: seq<Event>, first: nat, end: nat, page: seq<Event>)
    requires before <= log && first <= end <= |before|
    requires page == before[first..end]
    ensures Stretch(log, first, page)
    ensures page == [] <==> first == end
    ensures page != [] ==> page[|page| - 1] == log[first + |page| - 1]
  {
  }

  // What a consumer holds that started when the log was `base`.
  ghost predicate Session(base: seq<Event>, log: seq<Event>, trimmed: nat, first: nat, received: seq<Event>, cursor: nat) {
    && Stretch(log, first, received)
    && (base != [] ==> first == |base|)
    && (base == [] && received != [] ==> first <= trimmed)
    && (cursor == 0 <==> base == [] && received == [])
    && (cursor > 0 ==> 0 < first + |received| <= |log| && cursor == log[first + |received| - 1].id)
  }

  lemma SessionStarts(log: seq<Event>, trimmed: nat, cursor: nat)
    requires cursor == 0 <==> log == []
    requires log != [] ==> cursor == log[|log| - 1].id
    ensures Session(log, log, trimmed, |log|, [], cursor)
  {
  }

  lemma SessionContinues(base: seq<Event>, before: seq<Event>, lost: nat, log: seq<Event>, trimmed: nat, first: nat,
        received: seq<Event>, cursor: nat)
    requires before <= log && lost <= trimmed && Session(base, before, lost, first, received, cursor)
    ensures Session(base, log, trimmed, first, received, cursor)
  {
  }

  lemma SessionReceives(base: seq<Event>, log: seq<Event>, trimmed: nat, first: nat, received: seq<Event>,
        cursor: nat, start: nat, page: seq<Event>)
    requires Session(base, log, trimmed, first, received, cursor)
    requires page != [] && Stretch(log, start, page) && page[|page| - 1].id > 0
    requires if cursor > 0 then start == first + |received| else start <= trimmed
    ensures Session(base, log, trimmed, if cursor == 0 then start else first, received + page, page[|page| - 1].id)
  {
  }

  // The number of the next entry a consumer is to receive.
  function Position(first: nat, received: seq<Event>, cursor: nat, trimmed: nat): nat {
    if cursor > 0 then first + |received| else trimmed
  }

  lemma SessionPosition(base: seq<Event>, log: seq<Event>, trimmed: nat, first: nat, received: seq<Event>, cursor: nat)
    requires Session(base, log, trimmed, first, received, cursor) && trimmed <= |log|
    ensures Position(first, received, cursor, trimmed) <= |log|
    ensures cursor > 0 ==> 0 < first + |received| && cursor == log[first + |received| - 1].id
  {
  }

  // A page from a later position of a longer log ends no earlier.
  lemma ReachStep(position: nat, length: nat, n: nat, count: nat, start: nat, longer: nat)
    requires position <= length <= longer && Reach(position, length, n, count) <= start <= longer
    ensures Reach(position, length, n + 1, count) <= NextPosition(start, longer, count)
    ensures start == longer ==> NextPosition(start, longer, count) == start
    ensures start < longer ==> NextPosition(start, longer, count) > start
  {
  }

  /** The loop of the memory store's ReadEvents: one pass after the other, each wake-up leaving the others time
      to publish, until there is a page, a gap or the last wake-up is the timeout. */
  method AwaitEvents(cluster: SharedStore, cursor: nat, count: nat, wakeups: nat) returns (r: ReadResult)
    requires cluster.Valid()
    modifies cluster, cluster.store
    ensures cluster.Valid() && old(cluster.run) <= cluster.run && old(cluster.store.events) <= cluster.store.events
    ensures r == PageAfter(cluster.store.events, cursor, count)
    ensures !PageAfter(old(cluster.store.events), cursor, count).Waiting? ==>
              cluster.run == old(cluster.run) && r == PageAfter(old(cluster.store.events), cursor, count)
  {
    r := cluster.store.ReadEvents(cursor, count);
    var woken := 0;
    while r.Waiting? && woken < wakeups
      invariant cluster.Valid() && old(cluster.run) <= cluster.run && old(cluster.store.events) <= cluster.store.events
      invariant r == PageAfter(cluster.store.events, cursor, count)
      invariant !PageAfter(old(cluster.store.events), cursor, count).Waiting? ==>
                  cluster.run == old(cluster.run) && cluster.store.events == old(cluster.store.events)
      decreases wakeups - woken
    {
      Wait(cluster);
      r := cluster.store.ReadEvents(cursor, count);
      woken := woken + 1;
    }
  }

  // A subscription: the newest event, behind which the session begins.
  method Subscribe(cluster: SharedStore) returns (checkpoint: Event)
    requires cluster.Valid()
    ensures var log := cluster.store.events;
            && Session(log, log, 0, |log|, [], checkpoint.id)
            && checkpoint == if log == [] then Event(0, NO_HEAD) else log[|log| - 1]
  {
    checkpoint := cluster.store.StreamStart();
    LogIsStamped(cluster);
    ghost var log := cluster.store.events;
    assert log != [] ==> log[|log| - 1] in log;
    SessionStarts(log, 0, checkpoint.id);
  }

  /** One poll of a consumer of the memory store, with all coordinators and gateways running while it waits:
      it receives exactly the next page of what is then behind its cursor, and never a gap. */
  method Poll(cluster: SharedStore, cursor0: nat, count: nat, wakeups: nat, ghost base: seq<Event>, ghost received: seq<Event>)
    returns (page: seq<Event>, cursor: nat)
    requires cluster.Valid() && Session(base, cluster.store.events, 0, |base|, received, cursor0)
    modifies cluster, cluster.store
    ensures cluster.Valid() && old(cluster.run) <= cluster.run && old(cluster.store.events) <= cluster.store.events
    ensures Session(base, cluster.store.events, 0, |base|, received + page, cursor)
    ensures |base| + |received| <= |cluster.store.events|
    ensures |base| + |received + page| == NextPosition(|base| + |received|, |cluster.store.events|, count)
    ensures cursor == if page == [] then cursor0 else page[|page| - 1].id
  {
    hide Session, Stretch, Increasing, PageAfter, SharedStore.Valid;
    var r := AwaitEvents(cluster, cursor0, count, wakeups);
    ghost var log := cluster.store.events;
    SessionContinues(base, old(cluster.store.events), 0, log, 0, |base|, received, cursor0);
    LogIsStamped(cluster);
    PageInSession(base, log, received, cursor0, count);
    ExactPageIsStretch(log, |base| + |received|, count, r);
    page, cursor := [], cursor0;
    assert received + [] == received;
    if r.Events? {
      SessionReceives(base, log, 0, |base|, received, cursor0, |base| + |received|, r.events);
      page := r.events;
      cursor := page[|page| - 1].id;
    }
  }

  /** A consumer of the memory store from any of its states: n polls deliver, once and in order, everything that
      was logged before them as far as n pages reach, the last of them up to the then newest entry or a full
      page, and never a gap. */
  method Follow(cluster: SharedStore, received0: seq<Event>, cursor0: nat, polls: nat, count: nat, wakeups: nat,
        ghost base: seq<Event>)
    returns (received: seq<Event>, cursor: nat)
    requires cluster.Valid() && Session(base, cluster.store.events, 0, |base|, received0, cursor0)
    modifies cluster, cluster.store
    ensures cluster.Valid() && old(cluster.run) <= cluster.run && old(cluster.store.events) <= cluster.store.events
    ensures Session(base, cluster.store.events, 0, |base|, received, cursor) && received0 <= received
    ensures |base| + |received0| <= |old(cluster.store.events)|
    ensures |base| + |received| >= Reach(|base| + |received0|, |old(cluster.store.events)|, polls, count)
    ensures polls > 0 ==> |base| + |received| == |cluster.store.events| || (count > 0 && |received| >= |received0| + count)
  {
    hide Session, SharedStore.Valid;
    var store := cluster.store;
    received, cursor := received0, cursor0;
    SessionLength(base, store.events, received, cursor);
    for i := 0 to polls
      invariant cluster.Valid() && old(cluster.run) <= cluster.run && old(store.events) <= store.events
      invariant Session(base, store.events, 0, |base|, received, cursor) && received0 <= received
      invariant |base| + |received| >= Reach(|base| + |received0|, |old(store.events)|, i, count)
      invariant i > 0 ==> |base| + |received| == |store.events| || (count > 0 && |received| >= |received0| + count)
    {
      ghost var start := |base| + |received|;
      var page;
      page, cursor := Poll(cluster, cursor, count, wakeups, base, received);
      received := received + page;
      ReachStep(|base| + |received0|, |old(store.events)|, i, count, start, |store.events|);
    }
  }

  lemma SessionLength(base: seq<Event>, log: seq<Event>, received: seq<Event>, cursor: nat)
    requires Session(base, log, 0, |base|, received, cursor)
    ensures |base| + |received| <= |log| && Stretch(log, |base|, received)
  {
  }

  // Until the next read, the log may only grow.
  method Wait(cluster: SharedStore)
    requires cluster.Valid()
    modifies cluster, cluster.store
    ensures cluster.Valid() && old(cluster.run) <= cluster.run && old(cluster.store.events) <= cluster.store.events
  {
    ghost var ran := cluster.run;
    cluster.Interfere(NOBODY);
    LogGrows(cluster.cfg, cluster.run, |ran| - 1, |cluster.run| - 1);
  }

  const NOBODY := Token("", 0)

  lemma LogIsStamped(cluster: SharedStore)
    requires cluster.Valid()
    ensures Increasing(cluster.store.events) && forall e | e in cluster.store.events :: e.id > 0
  {
    RunKeepsInv(cluster.cfg, cluster.run, |cluster.run| - 1);
  }

  lemma PageFrom(log: seq<Event>, n: nat, end: nat)
    requires n < end <= |log|
    ensures var page := log[n..end];
            Stretch(log, n, page) && page != [] && page[|page| - 1] == log[end - 1] && page[|page| - 1] in log
  {
  }

  // One pass of ReadEvents from position n: exactly the next page, or nothing new.
  predicate ExactPage(log: seq<Event>, n: nat, count: nat, r: ReadResult)
    requires n <= |log|
  {
    match r
    case Gap => false
    case Waiting => n == |log|
    case Events(page) => n < |log| && page == log[n..NextPosition(n, |log|, count)] && page[|page| - 1].id > 0
  }

  lemma ExactPageFrom(log: seq<Event>, n: nat, count: nat)
    requires n <= |log| && forall e | e in log :: e.id > 0
    ensures ExactPage(log, n, count, if n == |log| then Waiting else Events(log[n..NextPosition(n, |log|, count)]))
  {
    if n < |log| {
      PageFrom(log, n, NextPosition(n, |log|, count));
    }
  }

  lemma ExactPageIsStretch(log: seq<Event>, n: nat, count: nat, r: ReadResult)
    requires n <= |log| && ExactPage(log, n, count, r)
    ensures r.Events? ==> r.events != [] && Stretch(log, n, r.events) && n + |r.events| == NextPosition(n, |log|, count)
    ensures r.Waiting? ==> n == NextPosition(n, |log|, count)
  {
  }

  lemma PageInSession(base: seq<Event>, log: seq<Event>, received: seq<Event>, cursor: nat, count: nat)
    requires Session(base, log, 0, |base|, received, cursor)
    requires Increasing(log) && forall e | e in log :: e.id > 0
    ensures |base| + |received| <= |log|
    ensures ExactPage(log, |base| + |received|, count, PageAfter(log, cursor, count))
  {
    hide ExactPage, Increasing, NextPosition, PageAfter;
    if cursor == 0 {
      PageFromOrigin(log, count);
    } else {
      PageAfterIsExact(log, |base| + |received| - 1, count);
    }
    ExactPageFrom(log, |base| + |received|, count);
  }
}
