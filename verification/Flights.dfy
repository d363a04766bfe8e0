/** Cache transparency of GetOrLoad (internal/services/requestcache/cache.go:78-126).

    Callers hit, join flights, lead loads, complete and are evicted in any order.  The machine is generic in
    what a load may return: `could(key, pin, value)` says that an uncached load for `key` by a caller
    pinned at `pin` may return `value`. */
module Flights {
  import opened Wrappers

  datatype Request<Key, Pin> = Request(key: Key, pin: Pin)

  // `splits` marks the keys whose flights also carry the pin; `view` is what a caller makes of a cached or
  // shared value at its own pin, such as the receipt height ceiling.
  datatype Semantics<!Key, !Pin, !Value> = Semantics(
    could: (Key, Pin, Value) -> bool, keep: Value -> bool, view: (Pin, Value) -> Value, splits: Key -> bool)

  datatype FlightKey<Key, Pin> = FlightKey(key: Key, pin: Option<Pin>)

  // The leader runs the load; every waiter, the leader included, receives its result.
  datatype Flight<Key, Pin> = Flight(leader: Request<Key, Pin>, waiters: seq<Request<Key, Pin>>)

  datatype State<!Key(==), !Pin(==), Value> = State(
    cache: map<Key, Value>, flights: map<FlightKey<Key, Pin>, Flight<Key, Pin>>, answers: seq<(Request<Key, Pin>, Value)>)

  datatype Action<Key, Pin, Value> =
    | Hit(request: Request<Key, Pin>)
    | Join(request: Request<Key, Pin>)
    | LateHit(flight: FlightKey<Key, Pin>)                  // the second lookup, inside the flight
    | Complete(flight: FlightKey<Key, Pin>, value: Value)
    | Fail(flight: FlightKey<Key, Pin>)
    | Evict(key: Key)

  // A retained value is right for every pin.
  ghost predicate Retained<Key(!new), Pin(!new), Value(!new)>(sem: Semantics<Key, Pin, Value>, k: Key, v: Value) {
    forall q :: sem.could(k, q, sem.view(q, v))
  }

  /** The conditions the program's loads meet: a load agrees with its own view; a retained result is right
      for every pin; and keys whose flights are shared across pins do not depend on the pin. */
  ghost predicate Sound<Key(!new), Pin(!new), Value(!new)>(sem: Semantics<Key, Pin, Value>) {
    && (forall k, p, v | sem.could(k, p, v) :: sem.could(k, p, sem.view(p, v)))
    && (forall k, p, v | sem.could(k, p, v) && sem.keep(v) :: Retained(sem, k, v))
    && (forall k, p, q, v | sem.could(k, p, v) && !sem.splits(k) :: sem.could(k, q, v))
  }

  function KeyOf<Key, Pin, Value>(sem: Semantics<Key, Pin, Value>, r: Request<Key, Pin>): FlightKey<Key, Pin> {
    FlightKey(r.key, if sem.splits(r.key) then Some(r.pin) else None)
  }

  function Answer<Key, Pin, Value>(sem: Semantics<Key, Pin, Value>,
        waiters: seq<Request<Key, Pin>>, v: Value): seq<(Request<Key, Pin>, Value)> {
    seq(|waiters|, i requires 0 <= i < |waiters| => (waiters[i], sem.view(waiters[i].pin, v)))
  }

  predicate Enabled<Key(==), Pin(==), Value>(sem: Semantics<Key, Pin, Value>,
        s: State<Key, Pin, Value>, a: Action<Key, Pin, Value>) {
    match a
    case Hit(r) => r.key in s.cache
    case Join(r) => true
    case LateHit(f) => f in s.flights && s.flights[f].leader.key in s.cache
    case Complete(f, v) => f in s.flights && sem.could(s.flights[f].leader.key, s.flights[f].leader.pin, v)
    case Fail(f) => f in s.flights
    case Evict(k) => true
  }

  function Next<Key(==), Pin(==), Value>(sem: Semantics<Key, Pin, Value>,
        s: State<Key, Pin, Value>, a: Action<Key, Pin, Value>): State<Key, Pin, Value>
    requires Enabled(sem, s, a)
  {
    match a
    case Hit(r) => s.(answers := s.answers + [(r, sem.view(r.pin, s.cache[r.key]))])
    case Join(r) =>
      var f := KeyOf(sem, r);
      var flight := if f in s.flights then Flight(s.flights[f].leader, s.flights[f].waiters + [r]) else Flight(r, [r]);
      s.(flights := s.flights[f := flight])
    case LateHit(f) =>
      State(s.cache, s.flights - {f}, s.answers + Answer(sem, s.flights[f].waiters, s.cache[s.flights[f].leader.key]))
    case Complete(f, v) =>
      State(if sem.keep(v) then s.cache[s.flights[f].leader.key := v] else s.cache, s.flights - {f},
            s.answers + Answer(sem, s.flights[f].waiters, v))
    case Fail(f) => s.(flights := s.flights - {f})
    case Evict(k) => s.(cache := s.cache - {k})
  }

  predicate Aboard<Key(==), Pin(==), Value>(sem: Semantics<Key, Pin, Value>,
        f: FlightKey<Key, Pin>, flight: Flight<Key, Pin>) {
    && KeyOf(sem, flight.leader) == f
    && forall w | w in flight.waiters :: KeyOf(sem, w) == f
  }

  ghost predicate Inv<Key(!new), Pin(!new), Value(!new)>(sem: Semantics<Key, Pin, Value>, s: State<Key, Pin, Value>) {
    && (forall k | k in s.cache :: Retained(sem, k, s.cache[k]))
    && (forall f | f in s.flights :: Aboard(sem, f, s.flights[f]))
    && (forall i | 0 <= i < |s.answers| :: sem.could(s.answers[i].0.key, s.answers[i].0.pin, s.answers[i].1))
  }

  // Everybody aboard a flight may take what its leader loaded.
  lemma SharedAnswer<Key(!new), Pin(!new), Value(!new)>(sem: Semantics<Key, Pin, Value>,
        f: FlightKey<Key, Pin>, flight: Flight<Key, Pin>, w: Request<Key, Pin>, v: Value)
    requires Sound(sem) && Aboard(sem, f, flight) && w in flight.waiters
    requires sem.could(flight.leader.key, flight.leader.pin, v)
    ensures sem.could(w.key, w.pin, sem.view(w.pin, v))
  {
  }

  lemma StepKeepsInv<Key(!new), Pin(!new), Value(!new)>(sem: Semantics<Key, Pin, Value>,
        s: State<Key, Pin, Value>, a: Action<Key, Pin, Value>)
    requires Sound(sem) && Inv(sem, s) && Enabled(sem, s, a)
    ensures Inv(sem, Next(sem, s, a))
  {
    match a
    case Complete(f, v) =>
      var flight := s.flights[f];
      forall i | 0 <= i < |flight.waiters|
        ensures sem.could(flight.waiters[i].key, flight.waiters[i].pin, sem.view(flight.waiters[i].pin, v))
      {
        SharedAnswer(sem, f, flight, flight.waiters[i], v);
      }
      if sem.keep(v) {
        assert Retained(sem, flight.leader.key, v);
      }
    case LateHit(f) =>
      var flight := s.flights[f];
      assert Retained(sem, flight.leader.key, s.cache[flight.leader.key]);
      forall i | 0 <= i < |flight.waiters|
        ensures flight.waiters[i].key == flight.leader.key
      {
        assert KeyOf(sem, flight.waiters[i]) == f == KeyOf(sem, flight.leader);
      }
    case Hit(r) => assert Retained(sem, r.key, s.cache[r.key]);
    case _ =>
  }

  ghost predicate IsRun<Key(!new), Pin(!new), Value(!new)>(sem: Semantics<Key, Pin, Value>,
        ss: seq<State<Key, Pin, Value>>) {
    && |ss| > 0 && ss[0] == State(map[], map[], [])
    && forall i | 0 <= i < |ss| - 1 :: Step(sem, ss[i], ss[i + 1])
  }

  ghost predicate Step<Key(!new), Pin(!new), Value(!new)>(sem: Semantics<Key, Pin, Value>,
        s: State<Key, Pin, Value>, s': State<Key, Pin, Value>) {
    exists a :: Enabled(sem, s, a) && Next(sem, s, a) == s'
  }

  /** Every answer given in any run, be it a hit, shared, late or freshly loaded, is one that an uncached
      load for that very caller could have returned. */
  lemma {:induction false} AnswersAreTransparent<Key(!new), Pin(!new), Value(!new)>(sem: Semantics<Key, Pin, Value>,
        ss: seq<State<Key, Pin, Value>>, i: nat)
    requires Sound(sem) && IsRun(sem, ss) && i < |ss|
    ensures Inv(sem, ss[i])
    ensures forall r, v | (r, v) in ss[i].answers :: sem.could(r.key, r.pin, v)
  {
    if i > 0 {
      AnswersAreTransparent(sem, ss, i - 1);
      assert Step(sem, ss[i - 1], ss[i - 1 + 1]);
      var a :| Enabled(sem, ss[i - 1], a) && Next(sem, ss[i - 1], a) == ss[i];
      StepKeepsInv(sem, ss[i - 1], a);
    }
  }

  /** Where flights carry the pin, as for receipts, nobody waits for a load pinned elsewhere. */
  lemma NoFlightAcrossPins<Key(!new), Pin(!new), Value(!new)>(sem: Semantics<Key, Pin, Value>,
        ss: seq<State<Key, Pin, Value>>, i: nat, f: FlightKey<Key, Pin>, w: Request<Key, Pin>)
    requires Sound(sem) && IsRun(sem, ss) && i < |ss|
    requires f in ss[i].flights && w in ss[i].flights[f].waiters && sem.splits(w.key)
    ensures w.key == ss[i].flights[f].leader.key && w.pin == ss[i].flights[f].leader.pin
  {
    AnswersAreTransparent(sem, ss, i);
    assert KeyOf(sem, w) == f == KeyOf(sem, ss[i].flights[f].leader);
  }
}
