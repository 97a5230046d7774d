/** The cache of upstream host addresses, as interleaved steps of concurrent callers:
    a look at the map, joining a resolution, and collecting its result. */
module HostnameCache {
  import opened Wrappers
  import opened Singleflight

  /** A cached address list and when it expires. */
  datatype Cached = Cached(ips: seq<string>, exp: int)

  /** What a resolver answers. */
  datatype Answer = Addresses(ips: seq<string>) | Error

  /** How a returned address came about. */
  datatype Source = Literal | FromMap(at: int) | FromFlight(id: nat)

  datatype Caller =
    | Calling(host: string)
    | Missed(host: string)
    | Waiting(host: string, id: nat)
    | Returned(host: string, ip: string, source: Source)
    | Failed(host: string, id: nat, cancelled: bool)

  /** How far the closure of a flight has come. */
  datatype Phase = Resolving | Resolved(ips: seq<string>) | Saved(ips: seq<string>) | Broken | Over

  /** A resolver's answer: which flight asked, for which host, and the list given. */
  datatype Given = Given(id: nat, host: string, ips: seq<string>)

  /** An answer put in the map. */
  datatype Saving = Saving(given: Given, at: int, ttl: int)

  datatype State = State(
    m: map<string, Cached>,
    group: Group<string, Option<string>>,
    phases: map<nat, Phase>,
    callers: map<nat, Caller>,
    cancelled: set<nat>,                 // callers whose context has expired
    given: set<Given>,                   // every usable answer so far
    saved: set<Saving>,                  // which answers were put in the map, when and for how long
    errors: set<nat>)                    // flights whose resolution failed

  datatype Label =
    | Call(c: nat, host: string)
    | Look(c: nat, now: int)             // literal check, then the map under its lock
    | Join(c: nat)
    | Resolve(id: nat, answer: Answer)
    | Save(id: nat, now: int, ttl: int)
    | End(id: nat)
    | Collect(c: nat)
    | Cancel(c: nat)

  /** The first address; the code would panic on an empty list, which the invariant excludes. */
  function First(ips: seq<string>): string {
    if ips == [] then "" else ips[0]
  }

  /** One atomic step; `isLiteral` stands for parsing the host as an address. */
  function Next(isLiteral: string -> bool, s: State, l: Label): Option<State> {
    match l
    case Call(c, host) =>
      if c in s.callers then None else Some(s.(callers := s.callers[c := Calling(host)]))
    case Look(c, now) =>
      if c !in s.callers || !s.callers[c].Calling? then None
      else
        var host := s.callers[c].host;
        var pc := if isLiteral(host) then Returned(host, host, Literal)
                  else if host in s.m && now < s.m[host].exp then Returned(host, First(s.m[host].ips), FromMap(now))
                  else Missed(host);
        Some(s.(callers := s.callers[c := pc]))
    case Join(c) =>
      if c !in s.callers || !s.callers[c].Missed? then None
      else
        var host := s.callers[c].host;
        var (group, id) := Do(s.group, host);
        Some(s.(group := group, callers := s.callers[c := Waiting(host, id)],
                phases := if id in s.phases then s.phases else s.phases[id := Resolving]))
    case Resolve(id, answer) =>
      if id !in s.phases || !s.phases[id].Resolving? || id !in s.group.flights then None
      else if answer.Error? || answer.ips == [] then
        Some(s.(phases := s.phases[id := Broken], errors := s.errors + {id}))
      else
        Some(s.(phases := s.phases[id := Resolved(answer.ips)],
                given := s.given + {Given(id, s.group.flights[id].key, answer.ips)}))
    case Save(id, now, ttl) =>
      if id !in s.phases || !s.phases[id].Resolved? || id !in s.group.flights then None
      else
        var host, ips := s.group.flights[id].key, s.phases[id].ips;
        Some(s.(phases := s.phases[id := Saved(ips)], m := s.m[host := Cached(ips, now + ttl)],
                saved := s.saved + {Saving(Given(id, host, ips), now, ttl)}))
    case End(id) =>
      if id !in s.phases || id !in s.group.flights then None
      else if s.phases[id].Saved? then
        Some(s.(phases := s.phases[id := Over], group := Singleflight.End(s.group, id, Some(First(s.phases[id].ips)))))
      else if s.phases[id].Broken? then
        Some(s.(phases := s.phases[id := Over], group := Singleflight.End(s.group, id, None)))
      else None
    case Collect(c) =>
      if c !in s.callers || !s.callers[c].Waiting? then None
      else
        var host, id := s.callers[c].host, s.callers[c].id;
        if id !in s.group.flights || s.group.flights[id].result.None? then None
        else
          var result := s.group.flights[id].result.value;
          var pc := if result.None? then Failed(host, id, false)
                    else if c in s.cancelled then Failed(host, id, true)
                    else Returned(host, result.value, FromFlight(id));
          Some(s.(callers := s.callers[c := pc]))
    case Cancel(c) => Some(s.(cancelled := s.cancelled + {c}))
  }

  const Empty: State := State(map[], Group(map[], map[], 0), map[], map[], {}, {}, {}, {})

  ghost predicate Reaches(isLiteral: string -> bool, s: State, ls: seq<Label>, t: State)
    decreases ls
  {
    if ls == [] then s == t
    else Next(isLiteral, s, ls[0]).Some? && Reaches(isLiteral, Next(isLiteral, s, ls[0]).value, ls[1..], t)
  }

  // ----- the invariant

  /** Cached lists are never empty, and are answers a resolver gave for that host. */
  ghost predicate MapIsGiven(s: State) {
    forall host :: host in s.m ==>
      s.m[host].ips != [] && IsSaved(host, s.m[host], s.saved)
  }

  ghost predicate IsSaved(host: string, c: Cached, saved: set<Saving>) {
    exists v :: v in saved && v.given.host == host && v.given.ips == c.ips && v.at + v.ttl == c.exp
  }

  ghost predicate SavedAreGiven(s: State) {
    && (forall v :: v in s.saved ==> v.given in s.given)
    && (forall g :: g in s.given ==>
          g.ips != [] && g.id in s.phases && !s.phases[g.id].Resolving? && g.id !in s.errors)
    && (forall id :: id in s.errors ==> id in s.phases && (s.phases[id].Broken? || s.phases[id].Over?))
  }

  /** A flight's phase, result and answer agree. */
  ghost predicate FlightsAgree(s: State) {
    && s.phases.Keys == s.group.flights.Keys
    && forall id :: id in s.phases ==> FlightAgrees(s, id)
  }

  ghost predicate FlightAgrees(s: State, id: nat)
    requires id in s.phases && id in s.group.flights
  {
    var f := s.group.flights[id];
    && (f.result.Some? <==> s.phases[id].Over?)
    && (s.phases[id].Resolved? || s.phases[id].Saved? ==> Given(id, f.key, s.phases[id].ips) in s.given)
    && (s.phases[id].Broken? ==> id in s.errors)
    && (f.result == Some(None) ==> id in s.errors)
    && (f.result.Some? && f.result.value.Some? ==>
          exists ips :: Given(id, f.key, ips) in s.given && ips != [] && ips[0] == f.result.value.value)
  }

  /** The address is the first of a list put in the map for this host less than its TTL before. */
  ghost predicate FromLiveSaving(host: string, ip: string, at: int, saved: set<Saving>) {
    exists v :: v in saved && v.given.host == host && v.given.ips != [] && ip == v.given.ips[0] && at < v.at + v.ttl
  }

  /** The address is the first of a list some resolver gave for this host. */
  ghost predicate FromGiven(host: string, ip: string, given: set<Given>) {
    exists g :: g in given && g.host == host && g.ips != [] && ip == g.ips[0]
  }

  /** Where a caller's outcome comes from. */
  ghost predicate Explained(isLiteral: string -> bool, s: State, c: nat, pc: Caller) {
    match pc
    case Waiting(host, id) => id in s.group.flights && s.group.flights[id].key == host
    case Returned(host, ip, Literal) => isLiteral(host) && ip == host
    case Returned(host, ip, FromMap(at)) =>
      FromLiveSaving(host, ip, at, s.saved)
    case Returned(host, ip, FromFlight(id)) =>
      exists ips :: Given(id, host, ips) in s.given && ips != [] && ip == ips[0]
    case Failed(host, id, cancelled) => if cancelled then c in s.cancelled else id in s.errors
    case _ => true
  }

  ghost predicate Inv(isLiteral: string -> bool, s: State) {
    && Valid(s.group)
    && MapIsGiven(s) && SavedAreGiven(s) && FlightsAgree(s)
    && AllExplained(isLiteral, s)
  }

  ghost predicate AllExplained(isLiteral: string -> bool, s: State) {
    forall c :: c in s.callers ==> Explained(isLiteral, s, c, s.callers[c])
  }

  /** What only ever grows. */
  ghost predicate Grows(s: State, t: State) {
    && s.given <= t.given && s.saved <= t.saved && s.errors <= t.errors && s.cancelled <= t.cancelled
    && forall id :: id in s.group.flights ==>
         id in t.group.flights && t.group.flights[id].key == s.group.flights[id].key
  }

  lemma ExplainedStays(isLiteral: string -> bool, s: State, t: State, c: nat, pc: Caller)
    requires Explained(isLiteral, s, c, pc) && Grows(s, t)
    ensures Explained(isLiteral, t, c, pc)
  {}

  /** Outcomes stay explained, except perhaps that of the one caller that moved. */
  lemma OthersStayExplained(isLiteral: string -> bool, s: State, t: State, c: nat)
    requires AllExplained(isLiteral, s) && Grows(s, t)
    requires forall d :: d in t.callers && d != c ==> d in s.callers && t.callers[d] == s.callers[d]
    requires c in t.callers ==> Explained(isLiteral, t, c, t.callers[c])
    ensures AllExplained(isLiteral, t)
  {
    forall d | d in t.callers ensures Explained(isLiteral, t, d, t.callers[d]) {
      if d != c { ExplainedStays(isLiteral, s, t, d, s.callers[d]); }
    }
  }

  lemma StillExplained(isLiteral: string -> bool, s: State, t: State)
    requires AllExplained(isLiteral, s) && Grows(s, t) && t.callers == s.callers
    ensures AllExplained(isLiteral, t)
  {
    forall d | d in t.callers ensures Explained(isLiteral, t, d, t.callers[d]) {
      ExplainedStays(isLiteral, s, t, d, s.callers[d]);
    }
  }

  lemma StepGrows(isLiteral: string -> bool, s: State, l: Label)
    requires Valid(s.group) && Next(isLiteral, s, l).Some?
    ensures Grows(s, Next(isLiteral, s, l).value)
  {}

  // ----- every step keeps it

  lemma CallsKeepInv(isLiteral: string -> bool, s: State, l: Label)
    requires Inv(isLiteral, s) && (l.Call? || l.Look? || l.Collect?) && Next(isLiteral, s, l).Some?
    ensures Inv(isLiteral, Next(isLiteral, s, l).value)
  {
    var t := Next(isLiteral, s, l).value;
    StepGrows(isLiteral, s, l);
    assert t == s.(callers := t.callers);
    if l.Look? { LookIsExplained(isLiteral, s, l.c, l.now); }
    if l.Collect? { CollectIsExplained(isLiteral, s, l.c); }
    ExplainedStays(isLiteral, s, t, l.c, t.callers[l.c]);
    OthersStayExplained(isLiteral, s, t, l.c);
    FactsStay(isLiteral, s, t);
  }

  lemma FactsStay(isLiteral: string -> bool, s: State, t: State)
    requires Inv(isLiteral, s) && AllExplained(isLiteral, t)
    requires t == s.(callers := t.callers, cancelled := t.cancelled)
    ensures Inv(isLiteral, t)
  {
    forall id | id in t.phases ensures FlightAgrees(t, id) {
      assert FlightAgrees(s, id);
    }
  }

  lemma CancelKeepsInv(isLiteral: string -> bool, s: State, c: nat)
    requires Inv(isLiteral, s)
    ensures Inv(isLiteral, Next(isLiteral, s, Cancel(c)).value)
  {
    var t := Next(isLiteral, s, Cancel(c)).value;
    StillExplained(isLiteral, s, t);
    FactsStay(isLiteral, s, t);
  }

  lemma LookIsExplained(isLiteral: string -> bool, s: State, c: nat, now: int)
    requires Inv(isLiteral, s) && Next(isLiteral, s, Look(c, now)).Some?
    ensures Explained(isLiteral, s, c, Next(isLiteral, s, Look(c, now)).value.callers[c])
  {
    var host := s.callers[c].host;
    if host in s.m {
      var v :| v in s.saved && v.given.host == host && v.given.ips == s.m[host].ips && v.at + v.ttl == s.m[host].exp;
      assert now < s.m[host].exp ==> FromLiveSaving(host, First(s.m[host].ips), now, s.saved);
    }
  }

  lemma CollectIsExplained(isLiteral: string -> bool, s: State, c: nat)
    requires Inv(isLiteral, s) && Next(isLiteral, s, Collect(c)).Some?
    ensures Explained(isLiteral, s, c, Next(isLiteral, s, Collect(c)).value.callers[c])
  {
    assert Explained(isLiteral, s, c, s.callers[c]);
    assert FlightAgrees(s, s.callers[c].id);
  }

  lemma NewFlightsKeepInv(isLiteral: string -> bool, s: State, t: State)
    requires Inv(isLiteral, s) && t == s.(phases := t.phases, group := t.group, callers := t.callers)
    requires Valid(t.group) && SavedAreGiven(t) && FlightsAgree(t) && AllExplained(isLiteral, t)
    ensures Inv(isLiteral, t)
  {}

  lemma JoinKeepsFlights(isLiteral: string -> bool, s: State, c: nat)
    requires Valid(s.group) && FlightsAgree(s) && Next(isLiteral, s, Join(c)).Some?
    ensures FlightsAgree(Next(isLiteral, s, Join(c)).value)
  {
    var t := Next(isLiteral, s, Join(c)).value;
    DoKeepsValid(s.group, s.callers[c].host);
    forall id | id in t.phases ensures id in t.group.flights && FlightAgrees(t, id) {
      if id in s.phases { assert FlightAgrees(s, id); }
    }
  }

  lemma JoinKeepsGiven(isLiteral: string -> bool, s: State, c: nat)
    requires Valid(s.group) && SavedAreGiven(s) && Next(isLiteral, s, Join(c)).Some?
    ensures var t := Next(isLiteral, s, Join(c)).value;
            && Valid(t.group) && SavedAreGiven(t)
            && t == s.(phases := t.phases, group := t.group, callers := t.callers)
  {
    DoKeepsValid(s.group, s.callers[c].host);
  }

  lemma JoinIsExplained(isLiteral: string -> bool, s: State, c: nat)
    requires Valid(s.group) && Next(isLiteral, s, Join(c)).Some?
    ensures var t := Next(isLiteral, s, Join(c)).value; Explained(isLiteral, t, c, t.callers[c])
  {
    DoKeepsValid(s.group, s.callers[c].host);
  }

  lemma {:induction false} JoinKeepsInv(isLiteral: string -> bool, s: State, c: nat)
    requires Inv(isLiteral, s) && Next(isLiteral, s, Join(c)).Some?
    ensures Inv(isLiteral, Next(isLiteral, s, Join(c)).value)
  {
    StepGrows(isLiteral, s, Join(c));
    JoinKeepsFlights(isLiteral, s, c);
    JoinKeepsGiven(isLiteral, s, c);
    JoinIsExplained(isLiteral, s, c);
    OthersStayExplained(isLiteral, s, Next(isLiteral, s, Join(c)).value, c);
    NewFlightsKeepInv(isLiteral, s, Next(isLiteral, s, Join(c)).value);
  }

  lemma ResolveKeepsFlights(isLiteral: string -> bool, s: State, id: nat, answer: Answer)
    requires FlightsAgree(s) && Next(isLiteral, s, Resolve(id, answer)).Some?
    ensures FlightsAgree(Next(isLiteral, s, Resolve(id, answer)).value)
  {
    var t := Next(isLiteral, s, Resolve(id, answer)).value;
    forall i | i in t.phases ensures FlightAgrees(t, i) {
      assert FlightAgrees(s, i);
    }
  }

  lemma ResolveKeepsGiven(isLiteral: string -> bool, s: State, id: nat, answer: Answer)
    requires SavedAreGiven(s) && Next(isLiteral, s, Resolve(id, answer)).Some?
    ensures var t := Next(isLiteral, s, Resolve(id, answer)).value;
            SavedAreGiven(t) && t == s.(phases := t.phases, given := t.given, errors := t.errors)
  {}

  lemma ResolveKeepsInv(isLiteral: string -> bool, s: State, id: nat, answer: Answer)
    requires Inv(isLiteral, s) && Next(isLiteral, s, Resolve(id, answer)).Some?
    ensures Inv(isLiteral, Next(isLiteral, s, Resolve(id, answer)).value)
  {
    var t := Next(isLiteral, s, Resolve(id, answer)).value;
    StepGrows(isLiteral, s, Resolve(id, answer));
    ResolveKeepsFlights(isLiteral, s, id, answer);
    ResolveKeepsGiven(isLiteral, s, id, answer);
    StillExplained(isLiteral, s, t);
  }

  lemma SaveKeepsMap(isLiteral: string -> bool, s: State, id: nat, now: int, ttl: int)
    requires MapIsGiven(s) && SavedAreGiven(s) && FlightsAgree(s) && Next(isLiteral, s, Save(id, now, ttl)).Some?
    ensures var t := Next(isLiteral, s, Save(id, now, ttl)).value; MapIsGiven(t) && SavedAreGiven(t)
  {
    var t := Next(isLiteral, s, Save(id, now, ttl)).value;
    assert FlightAgrees(s, id);
    var g := Given(id, s.group.flights[id].key, s.phases[id].ips);
    assert g in s.given;
    forall host | host in t.m
      ensures t.m[host].ips != [] && IsSaved(host, t.m[host], t.saved)
    {
      if host == g.host {
        assert Saving(g, now, ttl) in t.saved;
      } else {
        var v :| v in s.saved && v.given.host == host && v.given.ips == s.m[host].ips && v.at + v.ttl == s.m[host].exp;
        assert v in t.saved;
      }
    }
  }

  lemma SaveKeepsInv(isLiteral: string -> bool, s: State, id: nat, now: int, ttl: int)
    requires Inv(isLiteral, s) && Next(isLiteral, s, Save(id, now, ttl)).Some?
    ensures Inv(isLiteral, Next(isLiteral, s, Save(id, now, ttl)).value)
  {
    var t := Next(isLiteral, s, Save(id, now, ttl)).value;
    StepGrows(isLiteral, s, Save(id, now, ttl));
    SaveKeepsMap(isLiteral, s, id, now, ttl);
    forall i | i in t.phases ensures FlightAgrees(t, i) {
      assert FlightAgrees(s, i);
    }
    StillExplained(isLiteral, s, t);
  }

  lemma EndKeepsFlights(isLiteral: string -> bool, s: State, id: nat)
    requires SavedAreGiven(s) && FlightsAgree(s) && Next(isLiteral, s, End(id)).Some?
    ensures FlightsAgree(Next(isLiteral, s, End(id)).value)
  {
    var t := Next(isLiteral, s, End(id)).value;
    forall i | i in t.phases ensures FlightAgrees(t, i) {
      assert FlightAgrees(s, i);
    }
  }

  lemma EndKeepsGroup(isLiteral: string -> bool, s: State, id: nat)
    requires Valid(s.group) && SavedAreGiven(s) && FlightsAgree(s) && Next(isLiteral, s, End(id)).Some?
    ensures var t := Next(isLiteral, s, End(id)).value;
            Valid(t.group) && SavedAreGiven(t) && t == s.(phases := t.phases, group := t.group)
  {
    assert FlightAgrees(s, id);
    EndKeepsValid(s.group, id, if s.phases[id].Saved? then Some(First(s.phases[id].ips)) else None);
  }

  lemma {:induction false} EndKeepsInv(isLiteral: string -> bool, s: State, id: nat)
    requires Inv(isLiteral, s) && Next(isLiteral, s, End(id)).Some?
    ensures Inv(isLiteral, Next(isLiteral, s, End(id)).value)
  {
    StepGrows(isLiteral, s, End(id));
    EndKeepsGroup(isLiteral, s, id);
    EndKeepsFlights(isLiteral, s, id);
    StillExplained(isLiteral, s, Next(isLiteral, s, End(id)).value);
    NewFlightsKeepInv(isLiteral, s, Next(isLiteral, s, End(id)).value);
  }

  lemma {:induction false} StepKeepsInv(isLiteral: string -> bool, s: State, l: Label)
    requires Inv(isLiteral, s) && Next(isLiteral, s, l).Some?
    ensures Inv(isLiteral, Next(isLiteral, s, l).value)
  {
    match l
    case Join(c) => JoinKeepsInv(isLiteral, s, c);
    case Resolve(id, answer) => ResolveKeepsInv(isLiteral, s, id, answer);
    case Save(id, now, ttl) => SaveKeepsInv(isLiteral, s, id, now, ttl);
    case End(id) => EndKeepsInv(isLiteral, s, id);
    case Cancel(c) => CancelKeepsInv(isLiteral, s, c);
    case _ => CallsKeepInv(isLiteral, s, l);
  }

  lemma {:induction false} RunKeepsInv(isLiteral: string -> bool, s: State, ls: seq<Label>, t: State)
    requires Inv(isLiteral, s) && Reaches(isLiteral, s, ls, t)
    ensures Inv(isLiteral, t)
    decreases ls
  {
    if ls != [] {
      StepKeepsInv(isLiteral, s, ls[0]);
      RunKeepsInv(isLiteral, Next(isLiteral, s, ls[0]).value, ls[1..], t);
    }
  }

  // ----- what it means for callers

  /** In every interleaving: a returned address is the literal host, or the first address of a list some resolver
      gave for that host, either in the flight joined or cached less than its TTL before it was looked up. */
  lemma AddressesAreGenuine(isLiteral: string -> bool, ls: seq<Label>, t: State, c: nat)
    requires Reaches(isLiteral, Empty, ls, t) && c in t.callers && t.callers[c].Returned?
    ensures var host, ip := t.callers[c].host, t.callers[c].ip;
            match t.callers[c].source
            case Literal => isLiteral(host) && ip == host
            case FromMap(at) =>
              FromLiveSaving(host, ip, at, t.saved) && FromGiven(host, ip, t.given)
            case FromFlight(id) => exists ips :: Given(id, host, ips) in t.given && ips != [] && ip == ips[0]
  {
    RunKeepsInv(isLiteral, Empty, ls, t);
    assert Explained(isLiteral, t, c, t.callers[c]);
    if t.callers[c].source.FromMap? {
      var host, ip, at := t.callers[c].host, t.callers[c].ip, t.callers[c].source.at;
      var v :| v in t.saved && v.given.host == host && v.given.ips != [] && ip == v.given.ips[0] && at < v.at + v.ttl;
      assert v.given in t.given;
    }
  }

  /** A caller gets an error only if its own context expired or the resolver failed the flight it waited for;
      a flight whose resolver gave addresses fails no caller with a live context, whoever else was cancelled. */
  lemma ErrorsAreOwn(isLiteral: string -> bool, ls: seq<Label>, t: State, c: nat)
    requires Reaches(isLiteral, Empty, ls, t) && c in t.callers && t.callers[c].Failed?
    ensures c in t.cancelled || t.callers[c].id in t.errors
    ensures forall g :: g in t.given && g.id == t.callers[c].id ==> c in t.cancelled
  {
    RunKeepsInv(isLiteral, Empty, ls, t);
    assert Explained(isLiteral, t, c, t.callers[c]);
  }

  /** A flight whose closure has not returned. */
  predicate Resolves(s: State, id: nat) {
    id in s.phases && id in s.group.flights && !s.phases[id].Over?
  }

  /** At most one resolution per host is under way, cached lists are never empty, and a flight whose
      resolution failed never put anything in the map. */
  lemma MapIsSound(isLiteral: string -> bool, ls: seq<Label>, t: State, i: nat, j: nat)
    requires Reaches(isLiteral, Empty, ls, t)
    ensures Resolves(t, i) && Resolves(t, j) && t.group.flights[i].key == t.group.flights[j].key ==> i == j
    ensures forall host :: host in t.m ==> t.m[host].ips != []
    ensures forall v :: v in t.saved ==> v.given.id !in t.errors
  {
    RunKeepsInv(isLiteral, Empty, ls, t);
    if Resolves(t, i) && Resolves(t, j) {
      assert FlightAgrees(t, i) && FlightAgrees(t, j);
    }
  }

  /** Only a save changes the map. */
  lemma OnlySavesChangeTheMap(isLiteral: string -> bool, s: State, l: Label)
    requires Next(isLiteral, s, l).Some? && Next(isLiteral, s, l).value.m != s.m
    ensures l.Save? && s.phases[l.id].Resolved?
  {}

  /** A resolver's answer without addresses. */
  predicate FailedAnswer(l: Label) {
    l.Resolve? ==> l.answer.Error? || l.answer.ips == []
  }

  ghost predicate NoneResolved(s: State) {
    forall id :: id in s.phases ==> !s.phases[id].Resolved?
  }

  /** Resolutions that fail leave the map as it was, whatever else goes on. */
  lemma {:induction false} FailuresLeaveTheMap(isLiteral: string -> bool, s: State, ls: seq<Label>, t: State)
    requires Reaches(isLiteral, s, ls, t) && NoneResolved(s) && forall i :: 0 <= i < |ls| ==> FailedAnswer(ls[i])
    ensures t.m == s.m
    decreases ls
  {
    if ls != [] {
      var u := Next(isLiteral, s, ls[0]).value;
      if u.m != s.m { OnlySavesChangeTheMap(isLiteral, s, ls[0]); }
      assert FailedAnswer(ls[0]) && NoneResolved(u);
      FailuresLeaveTheMap(isLiteral, u, ls[1..], t);
    }
  }
}
