/** Where every reply of the server comes from, for any number of concurrent clients. */
module Provenance {
  import opened Wrappers
  import opened DnsMessages
  import opened CacheKeys
  import opened CacheTtl
  import opened Recency
  import opened Singleflight
  import opened QueryPath
  import Race

  function ServerConfig(size: int, upstreams: nat): Config {
    Config(size, upstreams, q => CacheKey(q), (q, r, now) => EntryFor(q, r, now))
  }

  lemma ServerIsCoherent(size: int, upstreams: nat)
    ensures Coherent(ServerConfig(size, upstreams))
  {}

  lemma ServerStarts(size: int, upstreams: nat)
    ensures Inv(ServerConfig(size, upstreams), Idle)
  {}

  /** A response that answers the client's question, as the upstream gave it. */
  ghost predicate Answers(g: Given, q: Msg, reply: Msg) {
    && g.query.question != [] && q.question != [] && SameQuestion(g.query, q)
    && g.resp.rcode != 2
    && (reply == g.resp.(id := q.id) || reply == g.resp.(id := q.id, truncated := true, extra := []))
  }

  lemma CopyAnswers(size: int, upstreams: nat, q: Msg, reply: Msg, g: Given)
    requires CopyOf(ServerConfig(size, upstreams), q, reply, g)
    requires CacheKey(g.query).Some? && Race.Usable(Race.Response(g.resp))
    ensures Answers(g, q, reply) && reply.id == q.id
  {
    SameKeyIffSameQuestion(g.query, q);
  }

  /** Some upstream gave this answer in that flight. */
  ghost predicate GivenInFlight(t: State, id: nat, q: Msg, reply: Msg) {
    exists g :: g in t.given && g.id == id && Answers(g, q, reply)
  }

  /** Some upstream gave this answer in an earlier flight, and its stored copy was still alive at that time. */
  ghost predicate CachedCopy(t: State, at: int, q: Msg, reply: Msg) {
    exists k :: k in t.kept && k.given in t.given && Answers(k.given, q, reply)
      && exists ttl: uint32 :: KeptFor(k.given.resp, ttl) && at <= k.at + 1_000_000_000 * ttl
  }

  lemma FlightReplyIsGiven(size: int, upstreams: nat, t: State, id: nat, q: Msg, reply: Msg)
    requires FlightsAgree(ServerConfig(size, upstreams), t) && KeptIsGiven(ServerConfig(size, upstreams), t)
    requires exists g :: g in t.given && g.id == id && CopyOf(ServerConfig(size, upstreams), q, reply, g)
    ensures GivenInFlight(t, id, q, reply) && reply.id == q.id
  {
    var g :| g in t.given && g.id == id && CopyOf(ServerConfig(size, upstreams), q, reply, g);
    assert FlightAgrees(ServerConfig(size, upstreams), t, g.id);
    CopyAnswers(size, upstreams, q, reply, g);
  }

  lemma CachedReplyIsKept(size: int, upstreams: nat, t: State, at: int, q: Msg, reply: Msg)
    requires KeptIsGiven(ServerConfig(size, upstreams), t)
    requires exists k :: k in t.kept && CopyOf(ServerConfig(size, upstreams), q, reply, k.given) && at <= k.entry.expiry
    ensures CachedCopy(t, at, q, reply) && reply.id == q.id
  {
    var k :| k in t.kept && CopyOf(ServerConfig(size, upstreams), q, reply, k.given) && at <= k.entry.expiry;
    assert EntryFor(k.given.query, k.given.resp, k.at) == Some(k.entry);
    LifetimeIsKept(k.given.resp);
    CopyAnswers(size, upstreams, q, reply, k.given);
  }

  /** What a client was told, and where it comes from. */
  ghost predicate Genuine(t: State, q: Msg, reply: Msg, how: How) {
    && reply.id == q.id
    && match how
       case FromFlight(id) => GivenInFlight(t, id, q, reply)
       case FromCache(at) => CachedCopy(t, at, q, reply)
       case NoAnswer(id) => id in t.lost && IsErrorReply(q.(recursionDesired := true), 2, reply)
  }

  lemma ExplainedIsGenuine(size: int, upstreams: nat, t: State, client: Client)
    requires FlightsAgree(ServerConfig(size, upstreams), t) && KeptIsGiven(ServerConfig(size, upstreams), t)
    requires client.Replied? && Explained(ServerConfig(size, upstreams), t, client)
    ensures Genuine(t, client.q, client.reply, client.how)
  {
    var q, reply := client.q, client.reply;
    match client.how
    case FromFlight(id) => FlightReplyIsGiven(size, upstreams, t, id, q, reply);
    case FromCache(at) => CachedReplyIsKept(size, upstreams, t, at, q, reply);
    case NoAnswer(_) => ErrorReplyIs(q.(recursionDesired := true), 2, reply);
  }

  /** In every interleaving, each non-error reply carries the client's Id and, up to Id, TC and a dropped
      Extra, is a usable response some upstream gave to a query with the same class, type, name and DO bit:
      in the flight the client waited for, or as a cached copy still to be kept. A SERVFAIL is sent only when
      the flight waited for is over and got no usable response. */
  lemma RepliesAreGenuine(size: int, upstreams: nat, ls: seq<Label>, t: State, c: nat)
    requires Reaches(ServerConfig(size, upstreams), Idle, ls, t) && c in t.clients && t.clients[c].Replied?
    ensures Genuine(t, t.clients[c].q, t.clients[c].reply, t.clients[c].how)
  {
    var cfg := ServerConfig(size, upstreams);
    ServerIsCoherent(size, upstreams);
    ServerStarts(size, upstreams);
    RunKeepsInv(cfg, Idle, ls, t);
    assert Explained(cfg, t, t.clients[c]);
    ExplainedIsGenuine(size, upstreams, t, t.clients[c]);
  }

  /** No upstream gives a usable response in a flight that was lost. */
  lemma LostMeansNoneUsable(size: int, upstreams: nat, ls: seq<Label>, t: State, id: nat)
    requires Reaches(ServerConfig(size, upstreams), Idle, ls, t) && id in t.lost
    ensures id in t.work && t.work[id].phase.Over?
    ensures forall g :: g in t.given ==> g.id != id
  {
    RunKeepsOneWinner(ServerConfig(size, upstreams), Idle, ls, t);
  }

  /** Two clients answered from one flight got copies of one and the same response. */
  lemma CoalescedClientsShareTheWinner(size: int, upstreams: nat, ls: seq<Label>, t: State, c: nat, d: nat)
    requires Reaches(ServerConfig(size, upstreams), Idle, ls, t)
    requires c in t.clients && d in t.clients && t.clients[c].Replied? && t.clients[d].Replied?
    requires t.clients[c].how.FromFlight? && t.clients[d].how == t.clients[c].how
    ensures exists g :: g in t.given && Answers(g, t.clients[c].q, t.clients[c].reply)
                          && Answers(g, t.clients[d].q, t.clients[d].reply)
  {
    RepliesAreGenuine(size, upstreams, ls, t, c);
    RepliesAreGenuine(size, upstreams, ls, t, d);
    RunKeepsOneWinner(ServerConfig(size, upstreams), Idle, ls, t);
    var id := t.clients[c].how.id;
    var g :| g in t.given && g.id == id && Answers(g, t.clients[c].q, t.clients[c].reply);
    var h :| h in t.given && h.id == id && Answers(h, t.clients[d].q, t.clients[d].reply);
    assert g == h;
  }

  lemma FirstStep(cfg: Config, s: State, l: Label, ls: seq<Label>, t: State)
    requires Next(cfg, s, l).Some? && Reaches(cfg, Next(cfg, s, l).value, ls, t)
    ensures Reaches(cfg, s, [l] + ls, t)
  {
    assert ([l] + ls)[1..] == ls;
  }

  /** The leader of a flight that has been won gets its answer. */
  lemma WonFlightAnswers(cfg: Config, s: State, q: Msg, m: Msg) returns (ls: seq<Label>, t: State)
    requires s.clients == map[0 := Waiting(q, 0)]
    requires 0 in s.work && s.work[0].phase == Won(m) && 0 in s.group.flights
    ensures Reaches(cfg, s, ls, t) && 0 in t.clients
    ensures t.clients[0] == Replied(q, Outgoing(q, m, false), FromFlight(0))
  {
    var s1 := Next(cfg, s, Keep(0, 0)).value;
    var s2 := Next(cfg, s1, Finish(0)).value;
    t := Next(cfg, s2, Collect(0, false)).value;
    assert Reaches(cfg, t, [], t);
    FirstStep(cfg, s2, Collect(0, false), [], t);
    FirstStep(cfg, s1, Finish(0), [Collect(0, false)] + [], t);
    ls := [Keep(0, 0)] + ([Finish(0)] + ([Collect(0, false)] + []));
    FirstStep(cfg, s, Keep(0, 0), [Finish(0)] + ([Collect(0, false)] + []), t);
  }

  /** Any usable response to any question can come to be a client's reply. */
  lemma AnyAnswerIsPossible(size: int, upstreams: nat, q: Msg, m: Msg) returns (ls: seq<Label>, t: State)
    requires upstreams >= 1 && q.question != [] && Race.Usable(Race.Response(m))
    ensures Reaches(ServerConfig(size, upstreams), Idle, ls, t) && 0 in t.clients
    ensures t.clients[0] == Replied(q, Outgoing(q, m, false), FromFlight(0))
  {
    var cfg := ServerConfig(size, upstreams);
    var s1 := Next(cfg, Idle, Arrive(0, q)).value;
    var s2 := Next(cfg, s1, TryCache(0, 0, false)).value;
    var s3 := Next(cfg, s2, Join(0)).value;
    var s4 := Next(cfg, s3, Receive(0, Race.Response(m))).value;
    assert s4.clients == map[0 := Waiting(q, 0)];
    ls, t := WonFlightAnswers(cfg, s4, q, m);
    FirstStep(cfg, s3, Receive(0, Race.Response(m)), ls, t);
    ls := [Receive(0, Race.Response(m))] + ls;
    FirstStep(cfg, s2, Join(0), ls, t);
    ls := [Join(0)] + ls;
    FirstStep(cfg, s1, TryCache(0, 0, false), ls, t);
    ls := [TryCache(0, 0, false)] + ls;
    FirstStep(cfg, Idle, Arrive(0, q), ls, t);
    ls := [Arrive(0, q)] + ls;
  }

  /** A flight whose race, storing or hand-over is still going on. */
  predicate UnderWay(s: State, id: nat) {
    id in s.work && !s.work[id].phase.Over?
  }

  /** At most one race per question is under way. */
  lemma OneRacePerKey(size: int, upstreams: nat, ls: seq<Label>, t: State, i: nat, j: nat)
    requires Reaches(ServerConfig(size, upstreams), Idle, ls, t)
    requires UnderWay(t, i) && UnderWay(t, j)
    ensures t.work[i].query.question != [] && t.work[j].query.question != []
    ensures SameQuestion(t.work[i].query, t.work[j].query) ==> i == j
  {
    var cfg := ServerConfig(size, upstreams);
    ServerIsCoherent(size, upstreams);
    ServerStarts(size, upstreams);
    RunKeepsInv(cfg, Idle, ls, t);
    assert FlightAgrees(cfg, t, i) && FlightAgrees(cfg, t, j);
    SameKeyIffSameQuestion(t.work[i].query, t.work[j].query);
    if SameQuestion(t.work[i].query, t.work[j].query) { OneFlightPerKey(t.group, i, j); }
  }
}
