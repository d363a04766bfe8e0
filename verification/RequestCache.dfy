/** The bounded response cache (internal/services/requestcache/cache.go).

    `Service` keeps the program's two structures, a map of list elements and a recency list; the functions
    on `seq<Entry>` are the plain recency-ordered map it is proved to implement. */
module RequestCache {
  import opened Wrappers

  datatype Response = Response(payload: string, upstream: string, skipCache: bool)

  datatype Entry = Entry(key: string, response: Response, expires: nat, size: nat)

  // Validated limits; `isJson` is the JSON validity check.
  datatype Limits = Limits(maxEntries: nat, maxBytes: nat, maxEntryBytes: nat, ttl: nat, isJson: string -> bool)
  {
    predicate Validated() {
      0 < maxEntries && maxEntryBytes <= maxBytes
    }
  }

  predicate IsSpace(c: char) {
    || '\t' <= c <= '\r' || c == ' ' || c == '\U{85}' || c == '\U{A0}' || c == '\U{1680}'
    || '\U{2000}' <= c <= '\U{200A}' || c == '\U{2028}' || c == '\U{2029}' || c == '\U{202F}' || c == '\U{205F}'
    || c == '\U{3000}'
  }

  function TrimSpace(s: string): string {
    if s != "" && IsSpace(s[0]) then TrimSpace(s[1..])
    else if s != "" && IsSpace(s[|s| - 1]) then TrimSpace(s[..|s| - 1])
    else s
  }

  // The text is null with nothing but white space around it.
  predicate SaysNull(s: string) {
    exists i | 0 <= i < |s| :: NullAt(s, i)
  }

  predicate NullAt(s: string, i: nat) {
    && i + 4 <= |s| && s[i] == 'n' && s[i + 1] == 'u' && s[i + 2] == 'l' && s[i + 3] == 'l'
    && (forall k | 0 <= k < i :: IsSpace(s[k])) && forall k | i + 4 <= k < |s| :: IsSpace(s[k])
  }

  lemma {:induction false} TrimmedIsNull(s: string)
    ensures TrimSpace(s) == "null" <==> SaysNull(s)
  {
    if s != "" && IsSpace(s[0]) {
      TrimmedIsNull(s[1..]);
      assert forall i | 0 < i < |s| && NullAt(s, i) :: NullAt(s[1..], i - 1);
      assert forall i | 0 <= i < |s[1..]| && NullAt(s[1..], i) :: NullAt(s, i + 1);
    } else if s != "" && IsSpace(s[|s| - 1]) {
      var front := s[..|s| - 1];
      TrimmedIsNull(front);
      assert forall i | 0 <= i < |s| && NullAt(s, i) :: i < |front| && NullAt(front, i);
      assert forall i | 0 <= i < |front| && NullAt(front, i) :: NullAt(s, i);
    } else {
      assert s == "null" ==> NullAt(s, 0);
      assert forall i | 0 <= i < |s| && NullAt(s, i) :: i == 0 && s == "null";
    }
  }

  /** Retained is exactly what was not marked, is valid JSON other than null, and is small enough. */
  lemma AdmittedExactly(limits: Limits, key: string, response: Response)
    ensures Admitted(limits, key, response) <==>
              && !response.skipCache && response.payload != "" && !SaysNull(response.payload)
              && |key| + |response.payload| + |response.upstream| <= limits.maxEntryBytes && limits.isJson(response.payload)
  {
    TrimmedIsNull(response.payload);
  }

  function SizeOf(key: string, response: Response): nat {
    |key| + |response.payload| + |response.upstream|
  }

  predicate Admitted(limits: Limits, key: string, response: Response) {
    && !response.skipCache && response.payload != "" && TrimSpace(response.payload) != "null"
    && SizeOf(key, response) <= limits.maxEntryBytes && limits.isJson(response.payload)
  }

  /******* The recency-ordered map, most recent first *******/

  function Bytes(list: seq<Entry>): nat {
    if list == [] then 0 else list[0].size + Bytes(list[1..])
  }

  function IndexOf(list: seq<Entry>, key: string): (i: nat)
    ensures i <= |list|
    ensures i < |list| ==> list[i].key == key
    ensures forall k | 0 <= k < i :: list[k].key != key
  {
    if list == [] || list[0].key == key then 0 else IndexOf(list[1..], key) + 1
  }

  function RemoveAt<T>(list: seq<T>, i: nat): (r: seq<T>)
    requires i < |list|
    ensures |r| == |list| - 1
  {
    list[..i] + list[i + 1..]
  }

  function Find(list: seq<Entry>, key: string, now: nat): (seq<Entry>, Option<Response>) {
    var i := IndexOf(list, key);
    if i == |list| then (list, None)
    else if now >= list[i].expires then (RemoveAt(list, i), None)
    else ([list[i]] + RemoveAt(list, i), Some(list[i].response))
  }

  predicate HasRoom(limits: Limits, list: seq<Entry>, size: nat) {
    |list| < limits.maxEntries && Bytes(list) + size <= limits.maxBytes
  }

  function Evict(limits: Limits, list: seq<Entry>, size: nat): seq<Entry> {
    if list == [] || HasRoom(limits, list, size) then list else Evict(limits, list[..|list| - 1], size)
  }

  function Without(list: seq<Entry>, key: string): seq<Entry> {
    var i := IndexOf(list, key);
    if i < |list| then RemoveAt(list, i) else list
  }

  function Store(limits: Limits, list: seq<Entry>, key: string, response: Response, now: nat): seq<Entry> {
    if !Admitted(limits, key, response) then list
    else
      [Entry(key, response, now + limits.ttl, SizeOf(key, response))]
      + Evict(limits, Without(list, key), SizeOf(key, response))
  }

  predicate DistinctKeys(list: seq<Entry>) {
    forall i, j | 0 <= i < j < |list| :: list[i].key != list[j].key
  }

  // Capacity, distinct keys, and nothing retained that may not be.
  predicate WellFormed(limits: Limits, list: seq<Entry>) {
    && |list| <= limits.maxEntries && Bytes(list) <= limits.maxBytes && DistinctKeys(list)
    && forall e | e in list :: Legitimate(limits, e)
  }

  predicate Legitimate(limits: Limits, e: Entry) {
    Admitted(limits, e.key, e.response) && e.size == SizeOf(e.key, e.response)
  }

  lemma {:induction false} BytesAppend(a: seq<Entry>, b: seq<Entry>)
    ensures Bytes(a + b) == Bytes(a) + Bytes(b)
  {
    if a == [] {
      assert a + b == b;
    } else {
      assert (a + b)[1..] == a[1..] + b;
      BytesAppend(a[1..], b);
    }
  }

  lemma RemoveAtKeys(list: seq<Entry>, i: nat)
    requires i < |list| && DistinctKeys(list)
    ensures DistinctKeys(RemoveAt(list, i))
    ensures forall e :: e in RemoveAt(list, i) <==> e in list && e.key != list[i].key
    ensures forall e | e in list && e.key == list[i].key :: e == list[i]
  {
  }

  lemma RemoveAtElements<T>(list: seq<T>, i: nat)
    requires i < |list|
    ensures |RemoveAt(list, i)| == |list| - 1 && multiset([list[i]] + RemoveAt(list, i)) == multiset(list)
  {
    assert list == list[..i] + [list[i]] + list[i + 1..];
  }

  lemma FrontKeys(e: Entry, list: seq<Entry>)
    requires DistinctKeys(list) && forall x | x in list :: x.key != e.key
    ensures DistinctKeys([e] + list) && Bytes([e] + list) == e.size + Bytes(list)
    ensures forall x :: x in [e] + list <==> x == e || x in list
  {
  }

  lemma BytesFront(e: Entry, list: seq<Entry>)
    ensures Bytes([e] + list) == e.size + Bytes(list)
  {
    assert ([e] + list)[1..] == list;
  }

  lemma BytesAround(front: seq<Entry>, e: Entry, back: seq<Entry>)
    ensures Bytes(front + ([e] + back)) == Bytes(front + back) + e.size
  {
    hide Bytes;
    BytesAppend(front, [e] + back);
    BytesAppend(front, back);
    BytesFront(e, back);
  }

  lemma SplitAt<T>(s: seq<T>, i: nat)
    requires i < |s|
    ensures s == s[..i] + ([s[i]] + s[i + 1..])
  {
  }

  lemma BytesRemoveAt(list: seq<Entry>, i: nat)
    requires i < |list|
    ensures Bytes(RemoveAt(list, i)) == Bytes(list) - list[i].size
  {
    hide Bytes;
    SplitAt(list, i);
    BytesAround(list[..i], list[i], list[i + 1..]);
  }

  /** Eviction makes room by dropping the fewest least recently used entries, and stops before the list is
      asked for an element it does not have. */
  lemma {:induction false} EvictFewest(limits: Limits, list: seq<Entry>, size: nat)
    requires limits.Validated() && size <= limits.maxEntryBytes
    ensures var kept := Evict(limits, list, size);
            && kept <= list && |kept| < limits.maxEntries && Bytes(kept) + size <= limits.maxBytes
            && forall n | |kept| < n <= |list| :: n >= limits.maxEntries || Bytes(list[..n]) + size > limits.maxBytes
  {
    if list != [] && !HasRoom(limits, list, size) {
      var shorter := list[..|list| - 1];
      EvictFewest(limits, shorter, size);
      forall n | |Evict(limits, shorter, size)| < n <= |list|
        ensures n >= limits.maxEntries || Bytes(list[..n]) + size > limits.maxBytes
      {
        if n == |list| {
          assert list[..n] == list;
        } else {
          assert list[..n] == shorter[..n];
        }
      }
    }
  }

  /** A hit returns the entry unchanged, expiry included, and only moves it to the front; a miss drops at
      most the expired entry. */
  lemma FindKeepsEntries(limits: Limits, list: seq<Entry>, key: string, now: nat)
    requires WellFormed(limits, list)
    ensures var (after, hit) := Find(list, key, now);
            && WellFormed(limits, after)
            && (hit.Some? ==>
                  && multiset(after) == multiset(list) && after != [] && after[0] in list
                  && after[0].key == key && now < after[0].expires && hit == Some(after[0].response))
            && (hit.None? ==> forall e :: e in after <==> e in list && e.key != key)
            && (hit.None? ==> forall e | e in list && e.key == key :: e.expires <= now)
  {
    hide Legitimate, DistinctKeys, Bytes, RemoveAt;
    var i := IndexOf(list, key);
    if i < |list| {
      BytesRemoveAt(list, i);
      RemoveAtKeys(list, i);
      FrontKeys(list[i], RemoveAt(list, i));
      RemoveAtElements(list, i);
    }
  }

  /** Storing keeps the limits; an admitted response is the most recent entry afterwards and the only one
      under its key, and a refused one changes nothing. */
  lemma StoreKeepsLimits(limits: Limits, list: seq<Entry>, key: string, response: Response, now: nat)
    requires limits.Validated() && WellFormed(limits, list)
    ensures var after := Store(limits, list, key, response, now);
            && WellFormed(limits, after)
            && (!Admitted(limits, key, response) ==> after == list)
            && (Admitted(limits, key, response) ==>
                  && after != [] && after[0] == Entry(key, response, now + limits.ttl, SizeOf(key, response))
                  && forall e | e in after[1..] :: e in list && e.key != key)
  {
    if Admitted(limits, key, response) {
      var e := Entry(key, response, now + limits.ttl, SizeOf(key, response));
      assert Legitimate(limits, e);
      hide Legitimate, DistinctKeys, Bytes, Evict, SizeOf, Without;
      WithoutKeys(list, key);
      var others := Without(list, key);
      var kept := Evict(limits, others, e.size);
      StoreAfterRemoval(limits, others, e);
      assert ([e] + kept)[1..] == kept;
    }
  }

  // The first entry under the key is at i.
  predicate FoundAt(list: seq<Entry>, key: string, i: nat) {
    i < |list| && list[i].key == key && forall k | 0 <= k < i :: list[k].key != key
  }

  /** What a read does to the list, entry by entry: an unexpired entry moves to the front past those before it, an
      expired one is taken out, and all others keep their order. */
  lemma FindExactly(list: seq<Entry>, key: string, now: nat, i: nat)
    ensures FoundAt(list, key, i) && now < list[i].expires ==>
              Find(list, key, now) == ([list[i]] + list[..i] + list[i + 1..], Some(list[i].response))
    ensures FoundAt(list, key, i) && now >= list[i].expires ==> Find(list, key, now) == (list[..i] + list[i + 1..], None)
    ensures (forall e | e in list :: e.key != key) ==> Find(list, key, now) == (list, None)
  {
    var found := IndexOf(list, key);
    assert FoundAt(list, key, i) ==> found == i;
    assert found < |list| ==> list[found] in list;
    if i < |list| {
      assert [list[i]] + (list[..i] + list[i + 1..]) == [list[i]] + list[..i] + list[i + 1..];
    }
  }

  /** What a write leaves: behind the new entry stands the longest start of the other entries, in their order, that
      leaves room for it in both limits. */
  lemma StoreExactly(limits: Limits, list: seq<Entry>, key: string, response: Response, now: nat)
    requires limits.Validated() && WellFormed(limits, list) && Admitted(limits, key, response)
    ensures var after := Store(limits, list, key, response, now);
            var others := Without(list, key);
            && after != [] && after[1..] <= others
            && (forall i: nat | FoundAt(list, key, i) :: others == list[..i] + list[i + 1..])
            && ((forall e | e in list :: e.key != key) ==> others == list)
            && |after| <= limits.maxEntries && Bytes(after[1..]) + after[0].size <= limits.maxBytes
            && forall n | |after| <= n <= |others| ::
                 n >= limits.maxEntries || Bytes(others[..n]) + after[0].size > limits.maxBytes
  {
    hide Bytes, DistinctKeys, Legitimate, Evict;
    var others, size := Without(list, key), SizeOf(key, response);
    EvictFewest(limits, others, size);
    assert Store(limits, list, key, response, now)[1..] == Evict(limits, others, size);
    assert IndexOf(list, key) < |list| ==> list[IndexOf(list, key)] in list;
  }

  lemma WithoutKeys(list: seq<Entry>, key: string)
    requires DistinctKeys(list)
    ensures DistinctKeys(Without(list, key))
    ensures forall x :: x in Without(list, key) <==> x in list && x.key != key
  {
  }

  lemma StoreAfterRemoval(limits: Limits, others: seq<Entry>, e: Entry)
    requires limits.Validated() && e.size <= limits.maxEntryBytes && Legitimate(limits, e)
    requires DistinctKeys(others) && forall x | x in others :: Legitimate(limits, x) && x.key != e.key
    ensures WellFormed(limits, [e] + Evict(limits, others, e.size))
    ensures forall x | x in Evict(limits, others, e.size) :: x in others
  {
  }

  /******* Histories *******/

  datatype Op = Get(key: string, now: nat) | Put(key: string, response: Response, now: nat)

  function After(limits: Limits, ops: seq<Op>): seq<Entry> {
    if ops == [] then []
    else
      var list := After(limits, ops[..|ops| - 1]);
      match ops[|ops| - 1]
      case Get(key, now) => Find(list, key, now).0
      case Put(key, response, now) => Store(limits, list, key, response, now)
  }

  // The last response that put accepted for a key, with its expiry.
  function LastStored(limits: Limits, ops: seq<Op>, key: string): Option<(Response, nat)> {
    if ops == [] then None
    else
      var op := ops[|ops| - 1];
      if op.Put? && op.key == key && Admitted(limits, key, op.response) then Some((op.response, op.now + limits.ttl))
      else LastStored(limits, ops[..|ops| - 1], key)
  }

  // The induction hypothesis of EntriesAreLastStored.
  predicate Current(limits: Limits, ops: seq<Op>, list: seq<Entry>) {
    forall e | e in list :: LastStored(limits, ops, e.key) == Some((e.response, e.expires))
  }

  lemma StoreStaysCurrent(limits: Limits, ops: seq<Op>, op: Op, list: seq<Entry>)
    requires limits.Validated() && WellFormed(limits, list) && Current(limits, ops, list) && op.Put?
    ensures Current(limits, ops + [op], Store(limits, list, op.key, op.response, op.now))
  {
    hide Store, WellFormed, Admitted, SizeOf;
    var after := Store(limits, list, op.key, op.response, op.now);
    StoreKeepsLimits(limits, list, op.key, op.response, op.now);
    assert (ops + [op])[..|ops|] == ops;
    forall e | e in after
      ensures LastStored(limits, ops + [op], e.key) == Some((e.response, e.expires))
    {
      if Admitted(limits, op.key, op.response) && e != after[0] {
        assert e in after[1..];
      }
    }
  }

  lemma FindStaysCurrent(limits: Limits, ops: seq<Op>, op: Op, list: seq<Entry>)
    requires WellFormed(limits, list) && Current(limits, ops, list) && op.Get?
    ensures Current(limits, ops + [op], Find(list, op.key, op.now).0)
  {
  }

  lemma {:induction false} EntriesAreLastStored(limits: Limits, ops: seq<Op>)
    requires limits.Validated()
    ensures WellFormed(limits, After(limits, ops)) && Current(limits, ops, After(limits, ops))
    ensures |After(limits, ops)| <= limits.maxEntries && Bytes(After(limits, ops)) <= limits.maxBytes
  {
    if ops != [] {
      var earlier, op := ops[..|ops| - 1], ops[|ops| - 1];
      EntriesAreLastStored(limits, earlier);
      assert ops == earlier + [op];
      hide WellFormed, Current;
      match op
      case Get(key, now) =>
        FindKeepsEntries(limits, After(limits, earlier), key, now);
        FindStaysCurrent(limits, earlier, op, After(limits, earlier));
      case Put(key, response, now) =>
        StoreKeepsLimits(limits, After(limits, earlier), key, response, now);
        StoreStaysCurrent(limits, earlier, op, After(limits, earlier));
    }
  }

  /** After any sequence of operations, a hit returns what was last accepted under its key and has not
      expired; null, errors marked SkipCache, malformed and oversized results are never hits. */
  lemma HitReturnsLastStored(limits: Limits, ops: seq<Op>, key: string, now: nat)
    requires limits.Validated() && Find(After(limits, ops), key, now).1.Some?
    ensures var hit := Find(After(limits, ops), key, now).1.value;
            && LastStored(limits, ops, key).Some? && LastStored(limits, ops, key).value.0 == hit
            && now < LastStored(limits, ops, key).value.1
            && !hit.skipCache && hit.payload != "" && !SaysNull(hit.payload) && limits.isJson(hit.payload)
            && |key| + |hit.payload| + |hit.upstream| <= limits.maxEntryBytes
  {
    AdmittedExactly(limits, key, Find(After(limits, ops), key, now).1.value);
    EntriesAreLastStored(limits, ops);
    FindKeepsEntries(limits, After(limits, ops), key, now);
  }

  /******* The class *******/

  // An element of the recency list.
  class Element {
    const entry: Entry

    constructor (entry: Entry)
      ensures this.entry == entry
    {
      this.entry := entry;
    }
  }

  function EntriesOf(elements: seq<Element>): (r: seq<Entry>)
    ensures |r| == |elements| && forall i | 0 <= i < |r| :: r[i] == elements[i].entry
  {
    seq(|elements|, i requires 0 <= i < |elements| => elements[i].entry)
  }

  function Position(elements: seq<Element>, element: Element): (i: nat)
    requires element in elements
    ensures i < |elements| && elements[i] == element
  {
    if elements[0] == element then 0 else Position(elements[1..], element) + 1
  }

  // The map and the list are in bijection.
  ghost predicate Bijective(entries: map<string, Element>, recent: seq<Element>) {
    DistinctKeys(EntriesOf(recent)) && Listed(entries, recent) && Mapped(entries, recent)
  }

  ghost predicate Listed(entries: map<string, Element>, recent: seq<Element>) {
    forall e | e in recent :: e.entry.key in entries && entries[e.entry.key] == e
  }

  ghost predicate Mapped(entries: map<string, Element>, recent: seq<Element>) {
    forall k | k in entries :: entries[k] in recent && entries[k].entry.key == k
  }

  lemma EntriesOfRemoveAt(recent: seq<Element>, i: nat)
    requires i < |recent|
    ensures EntriesOf(RemoveAt(recent, i)) == RemoveAt(EntriesOf(recent), i)
  {
  }

  lemma BijectiveRemove(entries: map<string, Element>, recent: seq<Element>, i: nat)
    requires Bijective(entries, recent) && i < |recent|
    ensures Bijective(entries - {recent[i].entry.key}, RemoveAt(recent, i))
  {
  }

  lemma EntriesOfFront(recent: seq<Element>, e: Element)
    ensures EntriesOf([e] + recent) == [e.entry] + EntriesOf(recent)
    ensures Bytes([e.entry] + EntriesOf(recent)) == e.entry.size + Bytes(EntriesOf(recent))
  {
  }

  lemma BijectiveFront(entries: map<string, Element>, recent: seq<Element>, e: Element)
    requires Bijective(entries, recent) && e.entry.key !in entries
    ensures Bijective(entries[e.entry.key := e], [e] + recent)
  {
  }

  lemma KeyIndex(entries: map<string, Element>, recent: seq<Element>, key: string)
    requires Bijective(entries, recent)
    ensures key in entries <==> IndexOf(EntriesOf(recent), key) < |recent|
    ensures key in entries ==> recent[IndexOf(EntriesOf(recent), key)] == entries[key]
  {
  }

  // An element of the list is the one the map has under its key.
  lemma ElementIndex(entries: map<string, Element>, recent: seq<Element>, element: Element)
    requires Bijective(entries, recent) && element in recent
    ensures Position(recent, element) == IndexOf(EntriesOf(recent), element.entry.key)
    ensures element.entry.key in entries && entries[element.entry.key] == element
  {
    KeyIndex(entries, recent, element.entry.key);
  }

  lemma ListedUnder(entries: map<string, Element>, recent: seq<Element>, key: string)
    requires Bijective(entries, recent) && key in entries
    ensures entries[key] in recent && entries[key].entry.key == key
  {
  }

  class Service {
    const limits: Limits
    var entries: map<string, Element>
    var recent: seq<Element>
    var bytes: int

    constructor (limits: Limits)
      requires limits.Validated()
      ensures Valid() && Contents() == [] && this.limits == limits
    {
      this.limits := limits;
      entries, recent, bytes := map[], [], 0;
    }

    // The recency-ordered map this cache stands for.
    function Contents(): seq<Entry>
      reads this
    {
      EntriesOf(recent)
    }

    ghost predicate Linked()
      reads this
    {
      Bijective(entries, recent) && bytes == Bytes(Contents())
    }

    ghost predicate Valid()
      reads this
    {
      limits.Validated() && Linked() && WellFormed(limits, Contents())
    }

    method Remove(element: Element)
      requires Linked() && element in recent
      modifies this
      ensures Linked() && old(IndexOf(Contents(), element.entry.key)) < |old(recent)|
      ensures Contents() == RemoveAt(old(Contents()), old(IndexOf(Contents(), element.entry.key)))
      ensures entries == old(entries) - {element.entry.key}
    {
      hide Bijective, Bytes, IndexOf, RemoveAt;
      var i := Position(recent, element);
      ElementIndex(entries, recent, element);
      BytesRemoveAt(Contents(), i);
      BijectiveRemove(entries, recent, i);
      EntriesOfRemoveAt(recent, i);
      entries := entries - {element.entry.key};
      bytes := bytes - element.entry.size;
      recent := RemoveAt(recent, i);
    }

    // MoveToFront of the recency list.
    method MoveToFront(element: Element)
      requires Linked() && element in recent
      modifies this`recent
      ensures Linked() && old(IndexOf(Contents(), element.entry.key)) < |old(recent)|
      ensures Contents() == [element.entry] + RemoveAt(old(Contents()), old(IndexOf(Contents(), element.entry.key)))
    {
      hide Bijective, Bytes, IndexOf, RemoveAt;
      var i := Position(recent, element);
      ElementIndex(entries, recent, element);
      BytesRemoveAt(Contents(), i);
      BijectiveRemove(entries, recent, i);
      EntriesOfRemoveAt(recent, i);
      EntriesOfFront(RemoveAt(recent, i), element);
      BijectiveFront(entries - {element.entry.key}, RemoveAt(recent, i), element);
      assert (entries - {element.entry.key})[element.entry.key := element] == entries;
      recent := [element] + RemoveAt(recent, i);
    }

    method Get(key: string, now: nat) returns (hit: Option<Response>)
      requires Valid()
      modifies this
      ensures Valid()
      ensures (Contents(), hit) == Find(old(Contents()), key, now)
      ensures hit.Some? <==> exists e | e in old(Contents()) :: e.key == key && now < e.expires
      ensures hit.Some? ==> Contents() != [] && Contents()[0].key == key && Contents()[0].response == hit.value
    {
      hide Bijective, Legitimate;
      FindKeepsEntries(limits, Contents(), key, now);
      KeyIndex(entries, recent, key);
      if key !in entries {
        return None;
      }
      var element := entries[key];
      if !(now < element.entry.expires) {
        Remove(element);
        return None;
      }
      MoveToFront(element);
      hit := Some(element.entry.response);
    }

    method Put(key: string, response: Response, now: nat)
      requires Valid()
      modifies this
      ensures Valid()
      ensures Contents() == Store(limits, old(Contents()), key, response, now)
      ensures var size := |key| + |response.payload| + |response.upstream|;
              if response.skipCache || response.payload == "" || SaysNull(response.payload)
                 || size > limits.maxEntryBytes || !limits.isJson(response.payload)
              then Contents() == old(Contents())
              else Contents() != [] && Contents()[0] == Entry(key, response, now + limits.ttl, size)
    {
      hide Bijective, Admitted, WellFormed, SaysNull, Bytes, IndexOf, RemoveAt, Evict;
      AdmittedExactly(limits, key, response);
      StoreKeepsLimits(limits, Contents(), key, response, now);
      KeyIndex(entries, recent, key);
      var size := |key| + |response.payload| + |response.upstream|;
      if !Admitted(limits, key, response) {
        return;
      }
      if key in entries {
        ListedUnder(entries, recent, key);
        Remove(entries[key]);
      }
      MakeRoom(size);
      var element := new Element(Entry(key, response, now + limits.ttl, size));
      BijectiveFront(entries, recent, element);
      EntriesOfFront(recent, element);
      recent := [element] + recent;
      entries := entries[key := element];
      bytes := bytes + size;
    }

    // The eviction loop: it never asks an empty list for its back element.
    method MakeRoom(size: nat)
      requires Linked() && limits.Validated() && size <= limits.maxEntryBytes
      modifies this
      ensures Linked() && Contents() == Evict(limits, old(Contents()), size)
      ensures entries.Keys <= old(entries).Keys
    {
      hide Bijective;
      while |recent| >= limits.maxEntries || bytes > limits.maxBytes - size
        invariant Linked() && entries.Keys <= old(entries).Keys
        invariant Evict(limits, Contents(), size) == Evict(limits, old(Contents()), size)
        decreases |recent|
      {
        ghost var before := Contents();
        BackIndex(entries, recent);
        Remove(recent[|recent| - 1]);
        assert Contents() == before[..|before| - 1];
      }
    }
  }

  lemma BackIndex(entries: map<string, Element>, recent: seq<Element>)
    requires Bijective(entries, recent) && recent != []
    ensures IndexOf(EntriesOf(recent), recent[|recent| - 1].entry.key) == |recent| - 1
  {
  }
}
