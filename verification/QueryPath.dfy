/** The query path of the server as interleaved steps of concurrent clients: cache
    lookup, joining or starting a flight, the race of the upstreams, storing the
    winner, and collecting the result. */
module QueryPath {
  import opened Wrappers
  import opened DnsMessages
  import opened Recency
  import opened Singleflight
  import Race

  /** The cache size, the number of upstreams, and how queries and responses map to cache entries. */
  datatype Config = Config(
    size: int,
    upstreams: nat,
    keyOf: Msg -> Option<string>,
    entryFor: (Msg, Msg, int) -> Option<Entry>)

  ghost predicate Coherent(cfg: Config) {
    && (forall q: Msg :: cfg.keyOf(q.(recursionDesired := true)) == cfg.keyOf(q))
    && (forall q, r, now :: cfg.entryFor(q, r, now).Some? ==>
          cfg.keyOf(q) == Some(cfg.entryFor(q, r, now).value.key) && cfg.entryFor(q, r, now).value.msg == r)
  }

  /** A usable response an upstream gave in some flight, and its storing. */
  datatype Given = Given(id: nat, query: Msg, resp: Msg)
  datatype Kept = Kept(given: Given, at: int, entry: Entry)

  datatype Phase = Racing(left: nat) | Won(resp: Msg) | Stored(resp: Msg) | Over

  datatype Work = Work(query: Msg, phase: Phase)

  /** How a client was answered. */
  datatype How = FromCache(at: int) | FromFlight(id: nat) | NoAnswer(id: nat)

  datatype Client =
    | Arrived(q: Msg)
    | Missed(q: Msg)
    | Waiting(q: Msg, id: nat)
    | Replied(q: Msg, reply: Msg, how: How)

  datatype State = State(
    cache: seq<Entry>,
    group: Group<string, Option<Msg>>,
    work: map<nat, Work>,
    clients: map<nat, Client>,
    given: set<Given>,
    kept: set<Kept>,
    lost: set<nat>)          // flights in which no upstream gave a usable response

  datatype Label =
    | Arrive(c: nat, q: Msg)
    | TryCache(c: nat, now: int, tooLong: bool)
    | Join(c: nat)
    | Receive(id: nat, r: Race.RaceResult)
    | Keep(id: nat, now: int)
    | Finish(id: nat)
    | Collect(c: nat, tooLong: bool)

  /** The copy sent to a client: its own Id, and without Extra but with TC when too long for it. */
  function Outgoing(q: Msg, m: Msg, tooLong: bool): Msg {
    var out := m.(id := q.id);
    if tooLong then out.(truncated := true, extra := []) else out
  }

  function Next(cfg: Config, s: State, l: Label): Option<State> {
    match l
    case Arrive(c, q) =>
      if c in s.clients || cfg.keyOf(q).None? then None else Some(s.(clients := s.clients[c := Arrived(q)]))
    case TryCache(c, now, tooLong) =>
      if c !in s.clients || !s.clients[c].Arrived? then None
      else
        var q := s.clients[c].q;
        var op := Lookup(cfg.keyOf(q), q.id, now);
        var hit := Answer(cfg.size, s.cache, op);
        Some(s.(cache := Step(cfg.size, s.cache, op),
                clients := s.clients[c :=
                  if hit.Some? then Replied(q, Outgoing(q, hit.value, tooLong), FromCache(now)) else Missed(q)]))
    case Join(c) =>
      if c !in s.clients || !s.clients[c].Missed? || cfg.keyOf(s.clients[c].q).None? then None
      else
        var q := s.clients[c].q.(recursionDesired := true);
        var (group, id) := Do(s.group, cfg.keyOf(s.clients[c].q).value);
        Some(s.(group := group, clients := s.clients[c := Waiting(s.clients[c].q, id)],
                work := if id in s.work then s.work else s.work[id := Work(q, Racing(cfg.upstreams))]))
    case Receive(id, r) =>
      if id !in s.work || !s.work[id].phase.Racing? || s.work[id].phase.left == 0 then None
      else
        var w := s.work[id];
        if Race.Usable(r) then
          Some(s.(work := s.work[id := w.(phase := Won(r.msg))], given := s.given + {Given(id, w.query, r.msg)}))
        else Some(s.(work := s.work[id := w.(phase := Racing(w.phase.left - 1))]))
    case Keep(id, now) =>
      if id !in s.work || !s.work[id].phase.Won? then None
      else
        var w := s.work[id];
        var e := cfg.entryFor(w.query, w.phase.resp, now);
        Some(s.(work := s.work[id := w.(phase := Stored(w.phase.resp))],
                cache := Step(cfg.size, s.cache, Store(e, now)),
                kept := if e.Some? then s.kept + {Kept(Given(id, w.query, w.phase.resp), now, e.value)} else s.kept))
    case Finish(id) =>
      if id !in s.work || id !in s.group.flights then None
      else
        var w := s.work[id];
        if w.phase.Stored? then
          Some(s.(work := s.work[id := w.(phase := Over)], group := End(s.group, id, Some(w.phase.resp))))
        else if w.phase.Racing? && w.phase.left == 0 then
          Some(s.(work := s.work[id := w.(phase := Over)], group := End(s.group, id, None), lost := s.lost + {id}))
        else None
    case Collect(c, tooLong) =>
      if c !in s.clients || !s.clients[c].Waiting? then None
      else
        var q, id := s.clients[c].q, s.clients[c].id;
        if id !in s.group.flights || s.group.flights[id].result.None? then None
        else
          var result := s.group.flights[id].result.value;
          Some(s.(clients := s.clients[c :=
            if result.Some? then Replied(q, Outgoing(q, result.value, tooLong), FromFlight(id))
            else Replied(q, ErrorReply(q.(recursionDesired := true), RCODE_SERVER_FAILURE), NoAnswer(id))]))
  }

  const Idle: State := State([], Group(map[], map[], 0), map[], map[], {}, {}, {})

  ghost predicate Reaches(cfg: Config, s: State, ls: seq<Label>, t: State)
    decreases ls
  {
    if ls == [] then s == t
    else Next(cfg, s, ls[0]).Some? && Reaches(cfg, Next(cfg, s, ls[0]).value, ls[1..], t)
  }

  // ----- the invariant

  /** Every cached entry was stored for a response an upstream gave. */
  ghost predicate CacheIsKept(cache: seq<Entry>, kept: set<Kept>) {
    forall i :: 0 <= i < |cache| ==> IsKept(cache[i], kept)
  }

  ghost predicate IsKept(e: Entry, kept: set<Kept>) {
    exists k :: k in kept && k.entry == e
  }

  ghost predicate KeptIsGiven(cfg: Config, s: State) {
    && (forall k :: k in s.kept ==>
          k.given in s.given && cfg.entryFor(k.given.query, k.given.resp, k.at) == Some(k.entry))
    && (forall g :: g in s.given ==>
          Race.Usable(Race.Response(g.resp)) && g.id in s.work && s.work[g.id].query == g.query)
  }

  ghost predicate FlightsAgree(cfg: Config, s: State) {
    && s.work.Keys == s.group.flights.Keys
    && forall id :: id in s.work ==> FlightAgrees(cfg, s, id)
  }

  /** A flight's work, its result and the responses given in it agree. */
  ghost predicate FlightAgrees(cfg: Config, s: State, id: nat)
    requires id in s.work && id in s.group.flights
  {
    var f, w := s.group.flights[id], s.work[id];
    && cfg.keyOf(w.query) == Some(f.key)
    && (f.result.Some? <==> w.phase.Over?)
    && (w.phase.Won? || w.phase.Stored? ==> Given(id, w.query, w.phase.resp) in s.given)
    && (f.result == Some(None) ==> id in s.lost)
    && (f.result.Some? && f.result.value.Some? ==> Given(id, w.query, f.result.value.value) in s.given)
  }

  /** The reply is a client's copy of this response, to a query with the same key. */
  predicate CopyOf(cfg: Config, q: Msg, reply: Msg, g: Given) {
    && cfg.keyOf(g.query) == cfg.keyOf(q)
    && (reply == Outgoing(q, g.resp, false) || reply == Outgoing(q, g.resp, true))
  }

  ghost predicate Explained(cfg: Config, s: State, client: Client) {
    match client
    case Waiting(q, id) => id in s.group.flights && cfg.keyOf(q) == Some(s.group.flights[id].key)
    case Replied(q, reply, FromCache(at)) =>
      exists k :: k in s.kept && CopyOf(cfg, q, reply, k.given) && at <= k.entry.expiry
    case Replied(q, reply, FromFlight(id)) =>
      exists g :: g in s.given && g.id == id && CopyOf(cfg, q, reply, g)
    case Replied(q, reply, NoAnswer(id)) =>
      id in s.lost && reply == ErrorReply(q.(recursionDesired := true), RCODE_SERVER_FAILURE)
    case _ => true
  }

  ghost predicate AllExplained(cfg: Config, s: State) {
    forall c :: c in s.clients ==> Explained(cfg, s, s.clients[c])
  }

  ghost predicate Inv(cfg: Config, s: State) {
    && Valid(s.group)
    && CacheIsKept(s.cache, s.kept) && KeptIsGiven(cfg, s) && FlightsAgree(cfg, s)
    && AllExplained(cfg, s)
  }

  /** What only ever grows. */
  ghost predicate Grows(s: State, t: State) {
    && s.given <= t.given && s.kept <= t.kept && s.lost <= t.lost
    && forall id :: id in s.group.flights ==>
         id in t.group.flights && t.group.flights[id].key == s.group.flights[id].key
  }

  lemma ExplainedStays(cfg: Config, s: State, t: State, client: Client)
    requires Explained(cfg, s, client) && Grows(s, t)
    ensures Explained(cfg, t, client)
  {}

  lemma OthersStayExplained(cfg: Config, s: State, t: State, c: nat)
    requires AllExplained(cfg, s) && Grows(s, t)
    requires forall d :: d in t.clients && d != c ==> d in s.clients && t.clients[d] == s.clients[d]
    requires c in t.clients ==> Explained(cfg, t, t.clients[c])
    ensures AllExplained(cfg, t)
  {
    forall d | d in t.clients ensures Explained(cfg, t, t.clients[d]) {
      if d != c { ExplainedStays(cfg, s, t, s.clients[d]); }
    }
  }

  lemma StillExplained(cfg: Config, s: State, t: State)
    requires AllExplained(cfg, s) && Grows(s, t) && t.clients == s.clients
    ensures AllExplained(cfg, t)
  {
    forall d | d in t.clients ensures Explained(cfg, t, t.clients[d]) {
      ExplainedStays(cfg, s, t, s.clients[d]);
    }
  }

  // ----- the cache

  lemma {:induction false} WithoutMembers(s: seq<Entry>, key: string, kept: set<Kept>)
    requires CacheIsKept(s, kept)
    ensures CacheIsKept(Without(s, key), kept)
  {
    if s != [] {
      forall i | 0 <= i < |s[1..]| ensures IsKept(s[1..][i], kept) {
        assert s[1..][i] == s[i + 1];
      }
      WithoutMembers(s[1..], key, kept);
      assert s[0].key != key ==> Without(s, key) == [s[0]] + Without(s[1..], key);
    }
  }

  lemma {:induction false} FoundIsMember(s: seq<Entry>, key: string) returns (i: nat)
    requires Find(s, key).Some?
    ensures i < |s| && s[i] == Find(s, key).value && s[i].key == key
  {
    if s[0].key == key { i := 0; } else { i := FoundIsMember(s[1..], key); i := i + 1; }
  }

  lemma LookKeepsCache(s: seq<Entry>, key: string, now: int, kept: set<Kept>)
    requires CacheIsKept(s, kept)
    ensures CacheIsKept(Look(s, key, now).0, kept)
    ensures Look(s, key, now).1.Some? ==>
              exists k :: k in kept && k.entry.key == key && now <= k.entry.expiry
                && k.entry.msg == Look(s, key, now).1.value
  {
    WithoutMembers(s, key, kept);
    if Find(s, key).Some? {
      var i := FoundIsMember(s, key);
      assert IsKept(s[i], kept);
    }
  }

  lemma InsertKeepsCache(s: seq<Entry>, size: int, e: Entry, kept: set<Kept>, k: Kept)
    requires CacheIsKept(s, kept) && k.entry == e
    ensures CacheIsKept(Insert(s, size, e), kept + {k})
  {
    WithoutMembers(s, e.key, kept);
    var full := [e] + Without(s, e.key);
    forall i | 0 <= i < |full| ensures IsKept(full[i], kept + {k}) {
      if i == 0 {
        assert k in kept + {k} && k.entry == full[0];
      } else {
        assert IsKept(Without(s, e.key)[i - 1], kept);
      }
    }
  }

  // ----- every step keeps the invariant

  lemma StepGrows(cfg: Config, s: State, l: Label)
    requires Valid(s.group) && Next(cfg, s, l).Some?
    ensures Grows(s, Next(cfg, s, l).value)
  {}

  /** Steps that touch the clients and the cache only. */
  lemma ClientStepKeepsInv(cfg: Config, s: State, t: State, c: nat)
    requires Inv(cfg, s) && t == s.(clients := t.clients, cache := t.cache)
    requires CacheIsKept(t.cache, t.kept)
    requires c in t.clients && t.clients == s.clients[c := t.clients[c]] && Explained(cfg, t, t.clients[c])
    ensures Inv(cfg, t)
  {
    OthersStayExplained(cfg, s, t, c);
    forall id | id in t.work ensures FlightAgrees(cfg, t, id) {
      assert FlightAgrees(cfg, s, id);
    }
  }

  lemma ArriveKeepsInv(cfg: Config, s: State, c: nat, q: Msg)
    requires Inv(cfg, s) && Next(cfg, s, Arrive(c, q)).Some?
    ensures Inv(cfg, Next(cfg, s, Arrive(c, q)).value)
  {
    ClientStepKeepsInv(cfg, s, Next(cfg, s, Arrive(c, q)).value, c);
  }

  lemma {:induction false} TryCacheFacts(cfg: Config, s: State, q: Msg, now: int, tooLong: bool)
    requires Inv(cfg, s) && Coherent(cfg)
    ensures var op := Lookup(cfg.keyOf(q), q.id, now);
            var hit := Answer(cfg.size, s.cache, op);
            && CacheIsKept(Step(cfg.size, s.cache, op), s.kept)
            && (hit.Some? ==>
                  exists k :: k in s.kept && CopyOf(cfg, q, Outgoing(q, hit.value, tooLong), k.given)
                    && now <= k.entry.expiry)
  {
    var op := Lookup(cfg.keyOf(q), q.id, now);
    if cfg.keyOf(q).Some? { LookKeepsCache(s.cache, cfg.keyOf(q).value, now, s.kept); }
    var hit := Answer(cfg.size, s.cache, op);
    if hit.Some? {
      var key := cfg.keyOf(q).value;
      var k :| k in s.kept && k.entry.key == key && now <= k.entry.expiry
               && k.entry.msg == Recency.Look(s.cache, key, now).1.value;
      assert cfg.entryFor(k.given.query, k.given.resp, k.at) == Some(k.entry);
      assert hit.value == k.given.resp.(id := q.id);
      assert CopyOf(cfg, q, Outgoing(q, hit.value, tooLong), k.given);
    }
  }

  lemma TryCacheKeepsInv(cfg: Config, s: State, c: nat, now: int, tooLong: bool)
    requires Inv(cfg, s) && Coherent(cfg) && Next(cfg, s, TryCache(c, now, tooLong)).Some?
    ensures Inv(cfg, Next(cfg, s, TryCache(c, now, tooLong)).value)
  {
    TryCacheFacts(cfg, s, s.clients[c].q, now, tooLong);
    ClientStepKeepsInv(cfg, s, Next(cfg, s, TryCache(c, now, tooLong)).value, c);
  }

  lemma CollectKeepsInv(cfg: Config, s: State, c: nat, tooLong: bool)
    requires Inv(cfg, s) && Next(cfg, s, Collect(c, tooLong)).Some?
    ensures Inv(cfg, Next(cfg, s, Collect(c, tooLong)).value)
  {
    var q, id := s.clients[c].q, s.clients[c].id;
    assert Explained(cfg, s, s.clients[c]);
    assert FlightAgrees(cfg, s, id);
    var result := s.group.flights[id].result.value;
    if result.Some? {
      var g := Given(id, s.work[id].query, result.value);
      assert g in s.given && CopyOf(cfg, q, Outgoing(q, result.value, tooLong), g);
    }
    ClientStepKeepsInv(cfg, s, Next(cfg, s, Collect(c, tooLong)).value, c);
  }

  lemma JoinShape(cfg: Config, s: State, c: nat)
    requires Valid(s.group) && Next(cfg, s, Join(c)).Some?
    ensures var t := Next(cfg, s, Join(c)).value;
            && Valid(t.group) && t == s.(work := t.work, group := t.group, clients := t.clients)
            && (forall id :: id in s.work ==> id in t.work && t.work[id] == s.work[id])
            && Explained(cfg, t, t.clients[c])
  {
    DoKeepsValid(s.group, cfg.keyOf(s.clients[c].q).value);
  }

  lemma JoinKeepsFlights(cfg: Config, s: State, c: nat)
    requires Valid(s.group) && FlightsAgree(cfg, s) && Coherent(cfg) && Next(cfg, s, Join(c)).Some?
    ensures FlightsAgree(cfg, Next(cfg, s, Join(c)).value)
  {
    var t := Next(cfg, s, Join(c)).value;
    DoKeepsValid(s.group, cfg.keyOf(s.clients[c].q).value);
    forall id | id in t.work ensures id in t.group.flights && FlightAgrees(cfg, t, id) {
      if id in s.work { assert FlightAgrees(cfg, s, id); }
    }
  }

  lemma {:induction false} JoinKeepsInv(cfg: Config, s: State, c: nat)
    requires Inv(cfg, s) && Coherent(cfg) && Next(cfg, s, Join(c)).Some?
    ensures Inv(cfg, Next(cfg, s, Join(c)).value)
  {
    StepGrows(cfg, s, Join(c));
    JoinShape(cfg, s, c);
    JoinKeepsFlights(cfg, s, c);
    OthersStayExplained(cfg, s, Next(cfg, s, Join(c)).value, c);
  }

  lemma ReceiveKeepsFlights(cfg: Config, s: State, id: nat, r: Race.RaceResult)
    requires FlightsAgree(cfg, s) && Next(cfg, s, Receive(id, r)).Some?
    ensures FlightsAgree(cfg, Next(cfg, s, Receive(id, r)).value)
  {
    var t := Next(cfg, s, Receive(id, r)).value;
    forall i | i in t.work ensures FlightAgrees(cfg, t, i) {
      assert FlightAgrees(cfg, s, i);
    }
  }

  lemma ReceiveKeepsGiven(cfg: Config, s: State, id: nat, r: Race.RaceResult)
    requires KeptIsGiven(cfg, s) && Next(cfg, s, Receive(id, r)).Some?
    ensures var t := Next(cfg, s, Receive(id, r)).value;
            KeptIsGiven(cfg, t) && t == s.(work := t.work, given := t.given)
  {}

  lemma {:induction false} ReceiveKeepsInv(cfg: Config, s: State, id: nat, r: Race.RaceResult)
    requires Inv(cfg, s) && Next(cfg, s, Receive(id, r)).Some?
    ensures Inv(cfg, Next(cfg, s, Receive(id, r)).value)
  {
    StepGrows(cfg, s, Receive(id, r));
    ReceiveKeepsFlights(cfg, s, id, r);
    ReceiveKeepsGiven(cfg, s, id, r);
    StillExplained(cfg, s, Next(cfg, s, Receive(id, r)).value);
  }

  lemma StoreKeepsCache(cfg: Config, s: State, id: nat, now: int)
    requires CacheIsKept(s.cache, s.kept) && Next(cfg, s, Keep(id, now)).Some?
    ensures var t := Next(cfg, s, Keep(id, now)).value; CacheIsKept(t.cache, t.kept)
  {
    var w := s.work[id];
    var e := cfg.entryFor(w.query, w.phase.resp, now);
    if e.Some? {
      var k := Kept(Given(id, w.query, w.phase.resp), now, e.value);
      InsertKeepsCache(s.cache, cfg.size, e.value, s.kept, k);
      forall i | 0 <= i < |s.cache| ensures IsKept(s.cache[i], s.kept + {k}) {
        assert IsKept(s.cache[i], s.kept);
      }
    }
  }

  lemma KeepKeepsFlights(cfg: Config, s: State, id: nat, now: int)
    requires KeptIsGiven(cfg, s) && FlightsAgree(cfg, s) && Next(cfg, s, Keep(id, now)).Some?
    ensures var t := Next(cfg, s, Keep(id, now)).value; FlightsAgree(cfg, t) && KeptIsGiven(cfg, t)
  {
    var t := Next(cfg, s, Keep(id, now)).value;
    assert FlightAgrees(cfg, s, id);
    forall i | i in t.work ensures FlightAgrees(cfg, t, i) {
      assert FlightAgrees(cfg, s, i);
    }
  }

  lemma KeepKeepsInv(cfg: Config, s: State, id: nat, now: int)
    requires Inv(cfg, s) && Next(cfg, s, Keep(id, now)).Some?
    ensures Inv(cfg, Next(cfg, s, Keep(id, now)).value)
  {
    StepGrows(cfg, s, Keep(id, now));
    StoreKeepsCache(cfg, s, id, now);
    KeepKeepsFlights(cfg, s, id, now);
    StillExplained(cfg, s, Next(cfg, s, Keep(id, now)).value);
  }

  lemma FinishKeepsFlights(cfg: Config, s: State, id: nat)
    requires Valid(s.group) && FlightsAgree(cfg, s) && Next(cfg, s, Finish(id)).Some?
    ensures var t := Next(cfg, s, Finish(id)).value;
            FlightsAgree(cfg, t) && t == s.(work := t.work, group := t.group, lost := t.lost)
  {
    var t := Next(cfg, s, Finish(id)).value;
    forall i | i in t.work ensures FlightAgrees(cfg, t, i) {
      assert FlightAgrees(cfg, s, i);
    }
  }

  lemma FinishKeepsGroup(cfg: Config, s: State, id: nat)
    requires Valid(s.group) && FlightsAgree(cfg, s) && KeptIsGiven(cfg, s) && Next(cfg, s, Finish(id)).Some?
    ensures var t := Next(cfg, s, Finish(id)).value; Valid(t.group) && KeptIsGiven(cfg, t)
  {
    assert FlightAgrees(cfg, s, id);
    EndKeepsValid(s.group, id, if s.work[id].phase.Stored? then Some(s.work[id].phase.resp) else None);
  }

  lemma {:induction false} FinishKeepsInv(cfg: Config, s: State, id: nat)
    requires Inv(cfg, s) && Next(cfg, s, Finish(id)).Some?
    ensures Inv(cfg, Next(cfg, s, Finish(id)).value)
  {
    StepGrows(cfg, s, Finish(id));
    FinishKeepsFlights(cfg, s, id);
    FinishKeepsGroup(cfg, s, id);
    StillExplained(cfg, s, Next(cfg, s, Finish(id)).value);
  }

  lemma {:induction false} StepKeepsInv(cfg: Config, s: State, l: Label)
    requires Inv(cfg, s) && Coherent(cfg) && Next(cfg, s, l).Some?
    ensures Inv(cfg, Next(cfg, s, l).value)
  {
    match l
    case Arrive(c, q) => ArriveKeepsInv(cfg, s, c, q);
    case TryCache(c, now, tooLong) => TryCacheKeepsInv(cfg, s, c, now, tooLong);
    case Join(c) => JoinKeepsInv(cfg, s, c);
    case Receive(id, r) => ReceiveKeepsInv(cfg, s, id, r);
    case Keep(id, now) => KeepKeepsInv(cfg, s, id, now);
    case Finish(id) => FinishKeepsInv(cfg, s, id);
    case Collect(c, tooLong) => CollectKeepsInv(cfg, s, c, tooLong);
  }

  lemma {:induction false} RunKeepsInv(cfg: Config, s: State, ls: seq<Label>, t: State)
    requires Inv(cfg, s) && Coherent(cfg) && Reaches(cfg, s, ls, t)
    ensures Inv(cfg, t)
    decreases ls
  {
    if ls != [] {
      StepKeepsInv(cfg, s, ls[0]);
      RunKeepsInv(cfg, Next(cfg, s, ls[0]).value, ls[1..], t);
    }
  }

  // ----- one winner per flight

  /** A flight has at most one winning response, and a lost flight has none. */
  ghost predicate OneWinner(s: State) {
    && (forall g :: g in s.given ==> g.id in s.work && !s.work[g.id].phase.Racing? && g.id !in s.lost)
    && (forall id :: id in s.lost ==> id in s.work && s.work[id].phase.Over?)
    && (forall g, h :: g in s.given && h in s.given && g.id == h.id ==> g == h)
  }

  lemma StepKeepsOneWinner(cfg: Config, s: State, l: Label)
    requires OneWinner(s) && Next(cfg, s, l).Some?
    ensures OneWinner(Next(cfg, s, l).value)
  {}

  lemma {:induction false} RunKeepsOneWinner(cfg: Config, s: State, ls: seq<Label>, t: State)
    requires OneWinner(s) && Reaches(cfg, s, ls, t)
    ensures OneWinner(t)
    decreases ls
  {
    if ls != [] {
      StepKeepsOneWinner(cfg, s, ls[0]);
      RunKeepsOneWinner(cfg, Next(cfg, s, ls[0]).value, ls[1..], t);
    }
  }
}
