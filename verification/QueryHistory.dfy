/** The query path told from the labels of a run: every flight is a race of all upstreams, and
    the cache is what the lookups and stores so far have left. */
module QueryHistory {
  import opened Wrappers
  import opened DnsMessages
  import opened CacheKeys
  import opened Recency
  import opened LruHistory
  import opened QueryPath
  import opened Provenance
  import opened LruInputs
  import opened QueryProgress
  import Server
  import Singleflight
  import Race

  // ----- every flight is a race

  function ResultIn(l: Label, id: nat): seq<Race.RaceResult> {
    if l.Receive? && l.id == id then [l.r] else []
  }

  /** The results received in a flight, in order of arrival. */
  function Results(ls: seq<Label>, id: nat): seq<Race.RaceResult>
    decreases ls
  {
    if ls == [] then [] else ResultIn(ls[0], id) + Results(ls[1..], id)
  }

  /** The flight's last result is its first usable one, this response. */
  ghost predicate WonBy(results: seq<Race.RaceResult>, m: Msg) {
    && results != [] && results[|results| - 1] == Race.Response(m) && m.rcode != 2
    && forall i :: 0 <= i < |results| - 1 ==> NotUsable(results[i])
  }

  /** No response, or one that reports a server failure. */
  predicate NotUsable(r: Race.RaceResult) {
    r.Response? ==> r.msg.rcode == 2
  }

  ghost predicate NothingUsable(results: seq<Race.RaceResult>) {
    forall i :: 0 <= i < |results| ==> NotUsable(results[i])
  }

  /** A flight's phase and result are what its race has come to. */
  ghost predicate RacesOn(cfg: Config, s: State, results: seq<Race.RaceResult>, id: nat) {
    if id !in s.work then results == [] && id !in s.lost
    else
      match s.work[id].phase
      case Racing(left) => |results| + left == cfg.upstreams && NothingUsable(results) && id !in s.lost
      case Won(m) => WonBy(results, m) && id !in s.lost
      case Stored(m) => WonBy(results, m) && id !in s.lost
      case Over =>
        && id in s.group.flights && s.group.flights[id].result.Some?
        && match s.group.flights[id].result.value
           case None => id in s.lost && |results| == cfg.upstreams && NothingUsable(results)
           case Some(m) => id !in s.lost && WonBy(results, m)
  }

  lemma ReceiveRaces(cfg: Config, s: State, results: seq<Race.RaceResult>, l: Label, id: nat)
    requires RacesOn(cfg, s, results, id) && l.Receive? && Next(cfg, s, l).Some?
    ensures RacesOn(cfg, Next(cfg, s, l).value, if l.id == id then results + [l.r] else results, id)
  {}

  lemma WorkRaces(cfg: Config, s: State, results: seq<Race.RaceResult>, l: Label, id: nat)
    requires RacesOn(cfg, s, results, id) && (l.Keep? || l.Finish?) && Next(cfg, s, l).Some?
    ensures RacesOn(cfg, Next(cfg, s, l).value, results, id)
  {}

  lemma JoinRaces(cfg: Config, s: State, results: seq<Race.RaceResult>, l: Label, id: nat)
    requires Singleflight.Valid(s.group) && RacesOn(cfg, s, results, id) && l.Join? && Next(cfg, s, l).Some?
    ensures RacesOn(cfg, Next(cfg, s, l).value, results, id)
  {
    Singleflight.DoKeepsValid(s.group, cfg.keyOf(s.clients[l.c].q).value);
  }

  lemma StepRaces(cfg: Config, s: State, got: seq<Race.RaceResult>, l: Label, id: nat)
    requires Singleflight.Valid(s.group) && RacesOn(cfg, s, got, id) && Next(cfg, s, l).Some?
    ensures RacesOn(cfg, Next(cfg, s, l).value, got + ResultIn(l, id), id)
  {
    assert got + [] == got;
    if l.Receive? { ReceiveRaces(cfg, s, got, l, id); }
    else if l.Keep? || l.Finish? { WorkRaces(cfg, s, got, l, id); }
    else if l.Join? { JoinRaces(cfg, s, got, l, id); }
  }

  /** The table of flights is in order in every state of the run. */
  ghost predicate OrderlyRun(cfg: Config, s: State, ls: seq<Label>)
    decreases ls
  {
    Singleflight.Valid(s.group)
    && (ls != [] ==> Next(cfg, s, ls[0]).Some? && OrderlyRun(cfg, Next(cfg, s, ls[0]).value, ls[1..]))
  }

  lemma {:induction false} RunIsOrderly(cfg: Config, s: State, ls: seq<Label>, t: State)
    requires Inv(cfg, s) && Coherent(cfg) && Reaches(cfg, s, ls, t)
    ensures OrderlyRun(cfg, s, ls)
    decreases ls
  {
    if ls != [] {
      StepKeepsInv(cfg, s, ls[0]);
      RunIsOrderly(cfg, Next(cfg, s, ls[0]).value, ls[1..], t);
    }
  }

  lemma {:induction false} RunRaces(cfg: Config, s: State, got: seq<Race.RaceResult>, ls: seq<Label>, t: State, id: nat)
    requires OrderlyRun(cfg, s, ls) && RacesOn(cfg, s, got, id) && Reaches(cfg, s, ls, t)
    ensures RacesOn(cfg, t, got + Results(ls, id), id)
    decreases ls
  {
    if ls == [] {
      assert got + [] == got;
    } else {
      StepRaces(cfg, s, got, ls[0], id);
      RunRaces(cfg, Next(cfg, s, ls[0]).value, got + ResultIn(ls[0], id), ls[1..], t, id);
      ResultsAddUp(got, ls, id);
    }
  }

  lemma ResultsAddUp(got: seq<Race.RaceResult>, ls: seq<Label>, id: nat)
    requires ls != []
    ensures (got + ResultIn(ls[0], id)) + Results(ls[1..], id) == got + Results(ls, id)
  {}

  /** In every run of the server, every flight is a race of all upstreams. */
  lemma FlightIsARace(size: int, upstreams: nat, ls: seq<Label>, t: State, id: nat)
    requires Reaches(ServerConfig(size, upstreams), Idle, ls, t)
    ensures RacesOn(ServerConfig(size, upstreams), t, Results(ls, id), id)
  {
    ServerIsCoherent(size, upstreams);
    ServerStarts(size, upstreams);
    RunIsOrderly(ServerConfig(size, upstreams), Idle, ls, t);
    RunRaces(ServerConfig(size, upstreams), Idle, [], ls, t, id);
    assert [] + Results(ls, id) == Results(ls, id);
  }

  /** A flight is lost exactly when it is over, has received a result from every upstream, and none was usable;
      and while nothing usable has come, the results of all other upstreams are still awaited. */
  lemma LostIff(size: int, upstreams: nat, ls: seq<Label>, t: State, id: nat)
    requires Reaches(ServerConfig(size, upstreams), Idle, ls, t) && id in t.work
    ensures id in t.lost <==>
            t.work[id].phase.Over? && |Results(ls, id)| == upstreams && NothingUsable(Results(ls, id))
    ensures !t.work[id].phase.Over? && NothingUsable(Results(ls, id)) ==>
              |Results(ls, id)| <= upstreams && t.work[id].phase == Racing(upstreams - |Results(ls, id)|)
  {
    FlightIsARace(size, upstreams, ls, t, id);
  }

  /** After any run, a client waiting for a flight can go on as soon as that is over: it gets the first usable result
      under its own Id, cut short if it is too long, or a server failure if there was none. */
  lemma CollectOutcome(size: int, upstreams: nat, ls: seq<Label>, s: State, c: nat, tooLong: bool)
    requires Reaches(ServerConfig(size, upstreams), Idle, ls, s) && c in s.clients && s.clients[c].Waiting?
    ensures var q, id := s.clients[c].q, s.clients[c].id;
            var t := Next(ServerConfig(size, upstreams), s, Collect(c, tooLong));
            && id in s.work && (t.Some? <==> s.work[id].phase.Over?)
            && (t.Some? ==> c in t.value.clients && ToldOf(q, Results(ls, id), t.value.clients[c], tooLong))
  {
    var cfg := ServerConfig(size, upstreams);
    ServerIsCoherent(size, upstreams);
    ServerStarts(size, upstreams);
    RunKeepsInv(cfg, Idle, ls, s);
    WaitsForWork(cfg, s, c);
    FlightIsARace(size, upstreams, ls, s, s.clients[c].id);
    CollectTells(cfg, s, Results(ls, s.clients[c].id), c, tooLong);
  }

  lemma WaitsForWork(cfg: Config, s: State, c: nat)
    requires Inv(cfg, s) && c in s.clients && s.clients[c].Waiting?
    ensures var id := s.clients[c].id;
            && id in s.work && id in s.group.flights
            && (s.work[id].phase.Over? <==> s.group.flights[id].result.Some?)
  {
    assert Explained(cfg, s, s.clients[c]);
    assert FlightAgrees(cfg, s, s.clients[c].id);
  }

  /** The client has been told the outcome of a race with these results. */
  ghost predicate ToldOf(q: Msg, results: seq<Race.RaceResult>, client: Client, tooLong: bool) {
    && client.Replied?
    && if NothingUsable(results) then IsErrorReply(q.(recursionDesired := true), 2, client.reply)
       else
         && results != [] && results[|results| - 1].Response?
         && WonBy(results, results[|results| - 1].msg)
         && var own := results[|results| - 1].msg.(id := q.id);
            client.reply == if tooLong then own.(truncated := true, extra := []) else own
  }

  lemma CollectTells(cfg: Config, s: State, results: seq<Race.RaceResult>, c: nat, tooLong: bool)
    requires c in s.clients && s.clients[c].Waiting? && RacesOn(cfg, s, results, s.clients[c].id)
    requires s.clients[c].id in s.work && s.clients[c].id in s.group.flights
    requires s.work[s.clients[c].id].phase.Over? <==> s.group.flights[s.clients[c].id].result.Some?
    ensures var t := Next(cfg, s, Collect(c, tooLong));
            && (t.Some? <==> s.work[s.clients[c].id].phase.Over?)
            && (t.Some? ==> c in t.value.clients && ToldOf(s.clients[c].q, results, t.value.clients[c], tooLong))
  {
    var q := s.clients[c].q.(recursionDesired := true);
    ErrorReplyIs(q, 2, ErrorReply(q, RCODE_SERVER_FAILURE));
  }

  // ----- what the upstreams are asked

  /** The upstreams are asked what some client asked, with recursion. */
  ghost predicate AskedBy(s: State, query: Msg) {
    exists c :: c in s.clients && query == s.clients[c].q.(recursionDesired := true)
  }

  ghost predicate AllAsked(s: State) {
    forall id :: id in s.work ==> AskedBy(s, s.work[id].query)
  }

  lemma QueriesStay(cfg: Config, s: State, l: Label)
    requires Next(cfg, s, l).Some?
    ensures forall c :: c in s.clients ==>
              c in Next(cfg, s, l).value.clients && Next(cfg, s, l).value.clients[c].q == s.clients[c].q
  {}

  lemma WorkIsAsked(cfg: Config, s: State, l: Label, id: nat)
    requires Next(cfg, s, l).Some? && id in Next(cfg, s, l).value.work
    ensures var query := Next(cfg, s, l).value.work[id].query;
            if id in s.work then query == s.work[id].query
            else l.Join? && l.c in s.clients && query == s.clients[l.c].q.(recursionDesired := true)
  {}

  lemma StepAsks(cfg: Config, s: State, l: Label)
    requires AllAsked(s) && Next(cfg, s, l).Some?
    ensures AllAsked(Next(cfg, s, l).value)
  {
    var t := Next(cfg, s, l).value;
    QueriesStay(cfg, s, l);
    forall id | id in t.work ensures AskedBy(t, t.work[id].query) {
      WorkIsAsked(cfg, s, l, id);
      if id in s.work {
        var c :| c in s.clients && s.work[id].query == s.clients[c].q.(recursionDesired := true);
        assert t.clients[c].q == s.clients[c].q;
      } else {
        assert t.clients[l.c].q == s.clients[l.c].q;
      }
    }
  }

  lemma {:induction false} UpstreamsAreAsked(cfg: Config, s: State, ls: seq<Label>, t: State)
    requires AllAsked(s) && Reaches(cfg, s, ls, t)
    ensures AllAsked(t)
    decreases ls
  {
    if ls != [] {
      StepAsks(cfg, s, ls[0]);
      UpstreamsAreAsked(cfg, Next(cfg, s, ls[0]).value, ls[1..], t);
    }
  }

  // ----- the cache is what its calls have left

  /** The call of the cache a step makes. */
  function CallOf(s: State, l: Label): seq<Call> {
    match l
    case TryCache(c, now, _) => if c in s.clients then [Get(s.clients[c].q, now)] else []
    case Keep(id, now) =>
      if id in s.work && s.work[id].phase.Won? then [Put(s.work[id].query, Some(s.work[id].phase.resp), now)] else []
    case _ => []
  }

  /** The calls of the cache a run makes. */
  function Calls(cfg: Config, s: State, ls: seq<Label>): seq<Call>
    decreases ls
  {
    if ls == [] || Next(cfg, s, ls[0]).None? then []
    else CallOf(s, ls[0]) + Calls(cfg, Next(cfg, s, ls[0]).value, ls[1..])
  }

  ghost predicate LeftBy(size: int, s: State, made: seq<Call>) {
    s.cache == After(size, OpsOf(made))
  }

  lemma StepCalls(size: int, upstreams: nat, s: State, made: seq<Call>, l: Label)
    requires LeftBy(size, s, made) && Next(ServerConfig(size, upstreams), s, l).Some?
    ensures LeftBy(size, Next(ServerConfig(size, upstreams), s, l).value, made + CallOf(s, l))
  {
    var more := CallOf(s, l);
    StepMakesCall(size, upstreams, s, l);
    if more == [] {
      assert made + more == made;
    } else {
      Server.OneMoreCall(size, made, more[0]);
    }
  }

  lemma StepMakesCall(size: int, upstreams: nat, s: State, l: Label)
    requires Next(ServerConfig(size, upstreams), s, l).Some?
    ensures var t, more := Next(ServerConfig(size, upstreams), s, l).value, CallOf(s, l);
            if more == [] then t.cache == s.cache
            else more == [more[0]] && t.cache == Step(size, s.cache, OpOf(more[0]))
  {}

  lemma {:induction false} RunCalls(size: int, upstreams: nat, s: State, made: seq<Call>, ls: seq<Label>, t: State)
    requires LeftBy(size, s, made) && Reaches(ServerConfig(size, upstreams), s, ls, t)
    ensures LeftBy(size, t, made + Calls(ServerConfig(size, upstreams), s, ls))
    decreases ls
  {
    var cfg := ServerConfig(size, upstreams);
    if ls == [] {
      assert made + [] == made;
    } else {
      var u := Next(cfg, s, ls[0]).value;
      StepCalls(size, upstreams, s, made, ls[0]);
      RunCalls(size, upstreams, u, made + CallOf(s, ls[0]), ls[1..], t);
      CallsAddUp(cfg, s, made, ls);
    }
  }

  lemma CallsAddUp(cfg: Config, s: State, made: seq<Call>, ls: seq<Label>)
    requires ls != [] && Next(cfg, s, ls[0]).Some?
    ensures (made + CallOf(s, ls[0])) + Calls(cfg, Next(cfg, s, ls[0]).value, ls[1..]) == made + Calls(cfg, s, ls)
  {}

  /** In every run of the server the cache is what the clients' Gets and the winners' Puts have left of it. */
  lemma CacheFollowsCalls(size: int, upstreams: nat, ls: seq<Label>, t: State)
    requires Reaches(ServerConfig(size, upstreams), Idle, ls, t)
    ensures t.cache == After(size, OpsOf(Calls(ServerConfig(size, upstreams), Idle, ls)))
  {
    RunCalls(size, upstreams, Idle, [], ls, t);
    assert [] + Calls(ServerConfig(size, upstreams), Idle, ls) == Calls(ServerConfig(size, upstreams), Idle, ls);
  }

  /** In every run with a monotone clock: a client that looks into the cache is answered from it exactly when an
      earlier flight for its question had a winner worth keeping, the latest of these is still to be kept, and it
      has not been crowded out; it is answered by that response, under its own Id. Otherwise it goes on to a flight. */
  lemma AnsweredFromCacheIff(size: int, upstreams: nat, ls: seq<Label>, s: State, c: nat, now: int, tooLong: bool)
    requires Reaches(ServerConfig(size, upstreams), Idle, ls, s) && c in s.clients && s.clients[c].Arrived?
    requires var calls := Calls(ServerConfig(size, upstreams), Idle, ls);
             Monotone(OpsOf(calls)) && forall i :: 0 <= i < |calls| ==> calls[i].now <= now
    ensures var cfg, q := ServerConfig(size, upstreams), s.clients[c].q;
            var calls, t := Calls(cfg, Idle, ls), Next(cfg, s, TryCache(c, now, tooLong));
            && t.Some? && c in t.value.clients && q.question != []
            && (t.value.clients[c].Replied? <==>
                  && size >= 1 && !CrowdedOut(InputEvents(size, OpsOf(calls)), CacheKey(q).value, size)
                  && exists i :: 0 <= i < |calls| && IsLatestPut(q, calls, i) && Alive(calls[i], now))
            && (t.value.clients[c].Replied? ==>
                  exists i :: 0 <= i < |calls| && IsLatestPut(q, calls, i)
                    && t.value.clients[c].reply == Outgoing(q, calls[i].r.value, tooLong))
            && (!t.value.clients[c].Replied? ==> t.value.clients[c] == Missed(q))
  {
    var cfg, q := ServerConfig(size, upstreams), s.clients[c].q;
    var calls := Calls(cfg, Idle, ls);
    CacheFollowsCalls(size, upstreams, ls, s);
    RunKeepsAsking(cfg, Idle, ls, s);
    SameKeyIffSameQuestion(q, q);
    AnsweredIff(size, calls, q, now);
    if Answer(size, s.cache, GetOp(q, now)).Some? {
      var i := HitExplained(size, calls, q, now);
      assert Outgoing(q, calls[i].r.value.(id := q.id), tooLong) == Outgoing(q, calls[i].r.value, tooLong);
    }
  }
}
