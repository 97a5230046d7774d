/** Coalescing of concurrent work: the first caller for a key starts a flight, callers
    arriving before it ends join it, and ending it frees the key. */
module Singleflight {
  import opened Wrappers

  datatype Flight<K, V> = Flight(key: K, result: Option<V>)

  datatype Group<K, V> = Group(running: map<K, nat>, flights: map<nat, Flight<K, V>>, next: nat)

  /** The flight a caller waits for, and whether it was started for it. */
  function Do<K, V>(g: Group<K, V>, key: K): (Group<K, V>, nat) {
    if key in g.running then (g, g.running[key])
    else (Group(g.running[key := g.next], g.flights[g.next := Flight(key, None)], g.next + 1), g.next)
  }

  function End<K, V>(g: Group<K, V>, id: nat, v: V): Group<K, V>
    requires id in g.flights
  {
    Group(g.running - {g.flights[id].key}, g.flights[id := Flight(g.flights[id].key, Some(v))], g.next)
  }

  /** A key is taken exactly while its flight has no result. */
  ghost predicate Valid<K, V>(g: Group<K, V>) {
    && (forall key :: key in g.running ==>
          g.running[key] in g.flights && g.flights[g.running[key]] == Flight(key, None))
    && (forall id :: id in g.flights ==> id < g.next)
    && (forall id :: id in g.flights && g.flights[id].result.None? ==>
          g.flights[id].key in g.running && g.running[g.flights[id].key] == id)
  }

  lemma DoKeepsValid<K, V>(g: Group<K, V>, key: K)
    requires Valid(g)
    ensures var (h, id) := Do(g, key);
            && Valid(h) && id in h.flights && h.flights[id] == Flight(key, None)
            && (forall i :: i in g.flights ==> i in h.flights && h.flights[i] == g.flights[i])
  {}

  lemma EndKeepsValid<K, V>(g: Group<K, V>, id: nat, v: V)
    requires Valid(g) && id in g.flights && g.flights[id].result.None?
    ensures Valid(End(g, id, v))
  {}

  /** At most one flight per key is under way. */
  lemma OneFlightPerKey<K, V>(g: Group<K, V>, i: nat, j: nat)
    requires Valid(g) && i in g.flights && j in g.flights && g.flights[i].key == g.flights[j].key
    requires g.flights[i].result.None? && g.flights[j].result.None?
    ensures i == j
  {}

  // ----- whole histories

  predicate UnderWay<K, V>(g: Group<K, V>, id: nat) {
    id in g.flights && g.flights[id].result.None?
  }

  datatype Move<K, V> = Arrival(key: K) | Ending(id: nat, result: V)

  /** A caller arrives, or a flight under way ends. */
  function ApplyMove<K, V>(g: Group<K, V>, m: Move<K, V>): Group<K, V> {
    match m
    case Arrival(key) => Do(g, key).0
    case Ending(id, v) => if UnderWay(g, id) then End(g, id, v) else g
  }

  function AfterMoves<K, V>(moves: seq<Move<K, V>>): Group<K, V> {
    if moves == [] then Group(map[], map[], 0) else ApplyMove(AfterMoves(moves[..|moves| - 1]), moves[|moves| - 1])
  }

  lemma {:induction false} AfterIsValid<K, V>(moves: seq<Move<K, V>>)
    ensures Valid(AfterMoves(moves))
  {
    if moves != [] {
      var g, m := AfterMoves(moves[..|moves| - 1]), moves[|moves| - 1];
      AfterIsValid(moves[..|moves| - 1]);
      match m
      case Arrival(key) => DoKeepsValid(g, key);
      case Ending(id, v) => if UnderWay(g, id) { EndKeepsValid(g, id, v); }
    }
  }

  /** After any arrivals and endings, at most one flight per key is under way, and a caller who arrives then waits
      for the one of its own key, starting it only if there was none. */
  lemma FlightsNeverOverlap<K, V>(moves: seq<Move<K, V>>, i: nat, j: nat, key: K)
    ensures var g := AfterMoves(moves);
            && (UnderWay(g, i) && UnderWay(g, j) && g.flights[i].key == g.flights[j].key ==> i == j)
            && (var (h, id) := Do(g, key);
                && id in h.flights && h.flights[id] == Flight(key, None)
                && (id in g.flights <==> exists k :: k in g.flights && g.flights[k] == Flight(key, None)))
  {
    AfterIsValid(moves);
    var g := AfterMoves(moves);
    DoKeepsValid(g, key);
    if UnderWay(g, i) && UnderWay(g, j) && g.flights[i].key == g.flights[j].key {
      OneFlightPerKey(g, i, j);
    }
  }
}
