/** Any number of queries served one after another, while the clients do as they like
    with the replies they hold: who owns which message. */
module ServerSession {
  import opened Wrappers
  import opened DnsMessages
  import opened MessageObjects
  import opened CacheKeys
  import opened LruHistory
  import opened LruInputs
  import opened Race
  import opened Server
  import RateLimiter

  /** A query as it reaches the server, with what its flight will bring. */
  datatype Request = Request(r: Message, from: Option<string>, turn: Turn, at: int, now: int, later: int)

  /** Message objects that came in, with their content. */
  type Content = map<Message, Msg>

  ghost predicate Kept(content: Content)
    reads content.Keys
  {
    forall m {:trigger content[m]} :: m in content ==> m.value == content[m]
  }

  ghost predicate BringsOnly(turn: Turn, content: Content) {
    match turn
    case Lead(arrivals) => forall i :: 0 <= i < |arrivals| && arrivals[i].resp != null ==> arrivals[i].resp in content
    case Follow(m) => m != null ==> m in content
  }

  ghost function Shown(a: Arrival, content: Content): RaceResult
    requires a.resp != null ==> a.resp in content
  {
    if a.err.Some? then Failure(a.err.value) else if a.resp == null then Empty else Response(content[a.resp])
  }

  /** What a flight brings, as values. */
  ghost function TurnIn(turn: Turn, content: Content): TurnValue
    requires BringsOnly(turn, content)
  {
    match turn
    case Lead(arrivals) => Raced(seq(|arrivals|, i requires 0 <= i < |arrivals| => Shown(arrivals[i], content)))
    case Follow(m) => Joined(if m == null then None else Some(content[m]))
  }

  lemma KeptMatches(turn: Turn, content: Content)
    requires Kept(content) && BringsOnly(turn, content)
    ensures Matches(turn, TurnIn(turn, content))
  {}

  /** The query messages are distinct objects, and no upstream hands one of them back. */
  ghost predicate Separate(requests: seq<Request>) {
    && (forall i, j :: 0 <= i < j < |requests| ==> requests[i].r != requests[j].r)
    && (forall i, j :: 0 <= i < |requests| && 0 <= j < |requests| ==> !Brings(requests[i].turn, requests[j].r))
  }

  /** The requests from the k-th on are made of these objects. */
  ghost predicate Incoming(requests: seq<Request>, k: nat, content: Content) {
    forall i :: k <= i < |requests| ==> requests[i].r in content && BringsOnly(requests[i].turn, content)
  }

  lemma IncomingNext(requests: seq<Request>, k: nat, content: Content)
    requires Separate(requests) && k < |requests| && Incoming(requests, k, content)
    ensures Incoming(requests, k + 1, content - {requests[k].r})
  {
    forall i | k + 1 <= i < |requests|
      ensures requests[i].r in content - {requests[k].r} && BringsOnly(requests[i].turn, content - {requests[k].r})
    {
      assert BringsOnly(requests[i].turn, content) && !Brings(requests[i].turn, requests[k].r);
    }
  }

  ghost predicate Within(part: Content, all: Content) {
    forall m :: m in part ==> m in all && part[m] == all[m]
  }

  lemma TurnInAgrees(turn: Turn, part: Content, all: Content)
    requires BringsOnly(turn, part) && Within(part, all)
    ensures BringsOnly(turn, all) && TurnIn(turn, part) == TurnIn(turn, all)
  {}

  // ----- what a session did

  /** One query: the limiter before it, its reply, and its calls of the cache. */
  datatype Exchange = Exchange(counters: RateLimiter.State, reply: Msg, more: seq<Call>)

  function CallsOf(log: seq<Exchange>): seq<Call> {
    if log == [] then [] else CallsOf(log[..|log| - 1]) + log[|log| - 1].more
  }

  /** The server's constants. */
  datatype Setup = Setup(size: int, limit: int, window: int, wireLen: Msg -> nat)

  ghost function SetupOf(server: Server): Setup
    reads server, server.cache, server.rateL
  {
    Setup(server.cache.size, server.rateL.limit, server.rateL.window, server.wireLen)
  }

  /** A query was turned away or served, after this history of cache calls, and counted. */
  ghost predicate Handled(su: Setup, req: Request, q: Msg, v: TurnValue, calls: seq<Call>, x: Exchange,
                          end: RateLimiter.State)
  {
    && end == Counted(q, req.from, x.counters, req.at, su.limit, su.window, su.wireLen)
    && match Refusal(q, req.from, x.counters, req.at, su.limit, su.window, su.wireLen)
       case Some(code) => x.reply == ErrorReply(q, code) && x.more == []
       case None => Served(su.size, su.wireLen, q, v, calls, req.now, req.later, x.reply, x.more)
  }

  /** Every query was handled after the cache calls, and with the limiter, of all before it. */
  ghost predicate Told(su: Setup, requests: seq<Request>, content: Content, log: seq<Exchange>,
                       start: RateLimiter.State, end: RateLimiter.State)
    requires Incoming(requests, 0, content) && |log| <= |requests|
    decreases log
  {
    if log == [] then start == end
    else
      var k := |log| - 1;
      var req := requests[k];
      && Handled(su, req, content[req.r], TurnIn(req.turn, content), CallsOf(log[..k]), log[k], end)
      && Told(su, requests, content, log[..k], start, log[k].counters)
  }

  lemma CallsOfMore(log: seq<Exchange>, x: Exchange)
    ensures CallsOf(log + [x]) == CallsOf(log) + x.more
  {
    assert (log + [x])[..|log|] == log;
  }

  lemma ToldMore(su: Setup, requests: seq<Request>, content: Content, log: seq<Exchange>, x: Exchange,
                 start: RateLimiter.State, end: RateLimiter.State)
    requires Incoming(requests, 0, content) && |log| < |requests|
    requires Told(su, requests, content, log, start, x.counters)
    requires var req := requests[|log|];
             Handled(su, req, content[req.r], TurnIn(req.turn, content), CallsOf(log), x, end)
    ensures Told(su, requests, content, log + [x], start, end)
  {
    var all, k := log + [x], |log|;
    var req := requests[k];
    assert all[..k] == log && all[k] == x;
    assert Handled(su, req, content[req.r], TurnIn(req.turn, content), CallsOf(all[..k]), all[k], end);
  }

  /** The replies are objects of their own, all in this set. */
  ghost predicate Apart(replies: seq<Message>, given: set<Message>) {
    && (forall i :: 0 <= i < |replies| ==> replies[i] in given)
    && (forall i, j :: 0 <= i < j < |replies| ==> replies[i] != replies[j])
  }

  lemma ApartMore(replies: seq<Message>, given: set<Message>, reply: Message, all: set<Message>)
    requires Apart(replies, given) && reply !in given && reply in all && given <= all
    ensures Apart(replies + [reply], all)
  {}

  // ----- the session

  /** One query of the session. */
  method ServeOne(server: Server, req: Request, ghost v: TurnValue, ghost calls: seq<Call>, ghost rest: Content,
                  ghost others: set<Message>)
    returns (reply: Message, ghost x: Exchange)
    requires server.Valid(calls) && req.r !in server.cache.msgs && !Brings(req.turn, req.r) && Matches(req.turn, v)
    requires Kept(rest) && req.r !in rest && others !! server.cache.msgs
    modifies server.rateL, req.r
    modifies server.cache`m, server.cache`boxes, server.cache`msgs
    modifies server.cache.ll, server.cache.ll.nodes, server.cache.boxes
    ensures fresh(reply) && reply !in server.cache.msgs && reply !in others && others !! server.cache.msgs
    ensures server.Valid(calls + x.more) && Kept(rest)
    ensures x.counters == old(server.rateL.View()) && x.reply == reply.value
    ensures Handled(SetupOf(server), req, old(req.r.value), v, calls, x, server.rateL.View())
    ensures forall b :: b in server.cache.boxes && b !in old(server.cache.boxes) ==> fresh(b)
    ensures forall c :: c in server.cache.msgs && c !in old(server.cache.msgs) ==> fresh(c)
    ensures forall n :: n in server.cache.ll.nodes && n !in old(server.cache.ll.nodes) ==> fresh(n)
  {
    ghost var counters, more := server.rateL.View(), [];
    reply, more := server.ServeDNS(req.r, req.from, req.turn, req.at, req.now, req.later, v, calls);
    x := Exchange(counters, reply.value, more);
  }

  /** Clients write what they like to the replies they hold; neither the cache nor what came in notices. */
  method Scribble(server: Server, replies: seq<Message>, edits: nat -> Msg,
                  ghost calls: seq<Call>, ghost given: set<Message>, ghost content: Content)
    requires server.Valid(calls) && Kept(content)
    requires given !! server.cache.msgs && given !! content.Keys
    requires forall i :: 0 <= i < |replies| ==> replies[i] in given
    modifies given
    ensures server.Valid(calls) && Kept(content)
  {
    for j := 0 to |replies|
      invariant server.Valid(calls) && Kept(content)
    {
      replies[j].value := edits(j);
    }
  }

  lemma OneMoreApart(incoming: set<Message>, given: set<Message>, reply: Message, msgs: set<Message>)
    requires incoming + given !! msgs && reply !in msgs && reply !in incoming + given && given !! incoming
    ensures incoming !! msgs && given + {reply} !! msgs && given + {reply} !! incoming
  {}

  /** One query of the session, after the clients have written to the replies given before. */
  method Round(server: Server, req: Request, replies: seq<Message>, edits: nat -> Msg, ghost calls: seq<Call>,
               ghost given: set<Message>, ghost rest: Content, ghost incoming: set<Message>)
    returns (reply: Message, ghost x: Exchange, ghost all: set<Message>)
    requires server.Valid(calls) && req.r in incoming && rest.Keys <= incoming
    requires Kept(rest) && req.r !in rest && BringsOnly(req.turn, rest) && !Brings(req.turn, req.r)
    requires incoming !! server.cache.msgs && given !! server.cache.msgs && given !! incoming
    requires forall i :: 0 <= i < |replies| ==> replies[i] in given
    modifies server.rateL, req.r, given
    modifies server.cache`m, server.cache`boxes, server.cache`msgs
    modifies server.cache.ll, server.cache.ll.nodes, server.cache.boxes
    ensures reply !in given && reply in all && given <= all && forall m :: m in all && m !in given ==> fresh(m)
    ensures incoming !! server.cache.msgs && all !! server.cache.msgs && all !! incoming
    ensures server.Valid(calls + x.more) && Kept(rest)
    ensures x.counters == old(server.rateL.View())
    ensures Handled(SetupOf(server), req, old(req.r.value), TurnIn(req.turn, rest), calls, x, server.rateL.View())
    ensures forall b :: b in server.cache.boxes && b !in old(server.cache.boxes) ==> fresh(b)
    ensures forall n :: n in server.cache.ll.nodes && n !in old(server.cache.ll.nodes) ==> fresh(n)
  {
    Scribble(server, replies, edits, calls, given, rest);
    KeptMatches(req.turn, rest);
    reply, x := ServeOne(server, req, TurnIn(req.turn, rest), calls, rest, incoming + given);
    all := given + {reply};
    OneMoreApart(incoming, given, reply, server.cache.msgs);
  }

  /** What the session has noted after its first queries. */
  ghost predicate Noted(su: Setup, requests: seq<Request>, content: Content, rest: Content, replies: seq<Message>,
                        given: set<Message>, log: seq<Exchange>, start: RateLimiter.State, end: RateLimiter.State)
    requires Incoming(requests, 0, content)
  {
    && |replies| == |log| <= |requests|
    && Told(su, requests, content, log, start, end) && Apart(replies, given)
    && Incoming(requests, |log|, rest) && Within(rest, content)
  }

  lemma NotedMore(su: Setup, requests: seq<Request>, content: Content, rest: Content, replies: seq<Message>,
                  given: set<Message>, log: seq<Exchange>, start: RateLimiter.State, end: RateLimiter.State,
                  reply: Message, all: set<Message>, x: Exchange)
    requires Incoming(requests, 0, content) && Separate(requests) && |log| < |requests|
    requires Noted(su, requests, content, rest, replies, given, log, start, x.counters)
    requires reply !in given && reply in all && given <= all
    requires var req := requests[|log|];
             && BringsOnly(req.turn, rest - {req.r})
             && Handled(su, req, rest[req.r], TurnIn(req.turn, rest - {req.r}), CallsOf(log), x, end)
    ensures Noted(su, requests, content, rest - {requests[|log|].r}, replies + [reply], all, log + [x], start, end)
    ensures CallsOf(log + [x]) == CallsOf(log) + x.more
  {
    var req := requests[|log|];
    TurnInAgrees(req.turn, rest - {req.r}, content);
    ApartMore(replies, given, reply, all);
    ToldMore(su, requests, content, log, x, start, end);
    IncomingNext(requests, |log|, rest);
    CallsOfMore(log, x);
  }

  ghost function Queries(requests: seq<Request>): set<Message> {
    set i | 0 <= i < |requests| :: requests[i].r
  }

  /** The next query of a session under way. */
  lemma NextQuery(requests: seq<Request>, k: nat, rest: Content)
    requires Separate(requests) && k < |requests| && Incoming(requests, k, rest)
    ensures var req := requests[k];
            && req in requests && req.r in Queries(requests)
            && BringsOnly(req.turn, rest - {req.r}) && !Brings(req.turn, req.r)
  {}

  lemma KeptPart(content: Content, r: Message)
    requires Kept(content) && r in content
    ensures Kept(content - {r}) && r.value == content[r]
  {}

  /** One more query of a session under way. */
  method Advance(server: Server, requests: seq<Request>, k: nat, before: seq<Message>, edits: nat -> Msg,
                 ghost start: RateLimiter.State, ghost content: Content, ghost rest: Content, ghost given: set<Message>,
                 ghost log: seq<Exchange>)
    returns (replies: seq<Message>, ghost rest': Content, ghost given': set<Message>, ghost log': seq<Exchange>)
    requires |log| == k < |requests| && Separate(requests) && Incoming(requests, 0, content)
    requires Noted(SetupOf(server), requests, content, rest, before, given, log, start, server.rateL.View())
    requires server.Valid(CallsOf(log)) && Kept(rest)
    requires content.Keys !! server.cache.msgs && given !! server.cache.msgs && given !! content.Keys
    modifies server.rateL, requests[k].r, given
    modifies server.cache`m, server.cache`boxes, server.cache`msgs
    modifies server.cache.ll, server.cache.ll.nodes, server.cache.boxes
    ensures |log'| == k + 1
    ensures Noted(SetupOf(server), requests, content, rest', replies, given', log', start, server.rateL.View())
    ensures server.Valid(CallsOf(log')) && Kept(rest')
    ensures content.Keys !! server.cache.msgs && given' !! server.cache.msgs && given' !! content.Keys
    ensures forall m :: m in given' && m !in given ==> fresh(m)
    ensures forall b :: b in server.cache.boxes && b !in old(server.cache.boxes) ==> fresh(b)
    ensures forall n :: n in server.cache.ll.nodes && n !in old(server.cache.ll.nodes) ==> fresh(n)
  {
    var req := requests[k];
    NextQuery(requests, k, rest);
    KeptPart(rest, req.r);
    rest' := rest - {req.r};
    var reply;
    ghost var x;
    reply, x, given' := Round(server, req, before, edits, CallsOf(log), given, rest', content.Keys);
    NotedMore(SetupOf(server), requests, content, rest, before, given, log, start, server.rateL.View(),
              reply, given', x);
    replies, log' := before + [reply], log + [x];
  }

  /** The queries from the k-th on. */
  method ServeRest(server: Server, requests: seq<Request>, k: nat, before: seq<Message>, edits: nat -> (nat -> Msg),
                   ghost start: RateLimiter.State, ghost content: Content, ghost rest: Content,
                   ghost given: set<Message>, ghost log: seq<Exchange>)
    returns (replies: seq<Message>, ghost given': set<Message>, ghost log': seq<Exchange>)
    requires |log| == k <= |requests| && Separate(requests) && Incoming(requests, 0, content)
    requires Noted(SetupOf(server), requests, content, rest, before, given, log, start, server.rateL.View())
    requires server.Valid(CallsOf(log)) && Kept(rest)
    requires content.Keys !! server.cache.msgs && given !! server.cache.msgs && given !! content.Keys
    modifies server.rateL, Queries(requests), given
    modifies server.cache`m, server.cache`boxes, server.cache`msgs
    modifies server.cache.ll, server.cache.ll.nodes, server.cache.boxes
    ensures |log'| == |requests| && |replies| == |requests|
    ensures Told(SetupOf(server), requests, content, log', start, server.rateL.View())
    ensures server.Valid(CallsOf(log')) && Apart(replies, given') && given' !! server.cache.msgs
    ensures forall m :: m in given' && m !in given ==> fresh(m)
    decreases |requests| - k
  {
    replies, given', log' := before, given, log;
    if k < |requests| {
      ghost var rest';
      assert requests[k].r in Queries(requests);
      replies, rest', given', log' := Advance(server, requests, k, before, edits(k), start, content, rest, given, log);
      replies, given', log' := ServeRest(server, requests, k + 1, replies, edits, start, content, rest', given', log');
    }
  }

  /** Serves the queries one after another. Before the k-th, the clients write edits(k) to the replies so far.
      The replies are objects of their own, none of them held by the cache, and each query is answered as
      the calls before it say, whatever was written. */
  method ServeAll(server: Server, requests: seq<Request>, edits: nat -> (nat -> Msg), ghost content: Content)
    returns (replies: seq<Message>, ghost log: seq<Exchange>)
    requires server.Valid([]) && Separate(requests)
    requires Incoming(requests, 0, content) && Kept(content) && content.Keys !! server.cache.msgs
    modifies server.rateL, Queries(requests)
    modifies server.cache`m, server.cache`boxes, server.cache`msgs
    modifies server.cache.ll, server.cache.ll.nodes, server.cache.boxes
    ensures |replies| == |log| == |requests|
    ensures Told(SetupOf(server), requests, content, log, old(server.rateL.View()), server.rateL.View())
    ensures server.Valid(CallsOf(log))
    ensures forall i :: 0 <= i < |replies| ==> fresh(replies[i]) && replies[i] !in server.cache.msgs
    ensures forall i, j :: 0 <= i < j < |replies| ==> replies[i] != replies[j]
  {
    ghost var given;
    replies, given, log := ServeRest(server, requests, 0, [], edits, server.rateL.View(), content, content, {}, []);
  }

  /** Each query of a session was handled after the cache calls of those before it. */
  lemma {:induction false} ToldAt(su: Setup, requests: seq<Request>, content: Content, log: seq<Exchange>,
                                  start: RateLimiter.State, end: RateLimiter.State, i: nat)
    returns (counted: RateLimiter.State)
    requires Incoming(requests, 0, content) && i < |log| <= |requests|
    requires Told(su, requests, content, log, start, end)
    ensures var req := requests[i];
            Handled(su, req, content[req.r], TurnIn(req.turn, content), CallsOf(log[..i]), log[i], counted)
    decreases log
  {
    var k := |log| - 1;
    if i == k {
      counted := end;
    } else {
      counted := ToldAt(su, requests, content, log[..k], start, log[k].counters, i);
      assert log[..k][..i] == log[..i];
    }
  }

  /** The response of the latest accepted Put of the query's key, still alive, or what its flight came to. */
  ghost predicate Genuine(wireLen: Msg -> nat, q: Msg, v: TurnValue, calls: seq<Call>, now: int, reply: Msg) {
    || FromLatestPut(wireLen, q, calls, now, reply)
    || exists result :: ComesTo(v, result) && reply == FlightReply(q, result, wireLen)
  }

  predicate Accepted(su: Setup, req: Request, q: Msg, x: Exchange) {
    Refusal(q, req.from, x.counters, req.at, su.limit, su.window, su.wireLen) == None
  }

  predicate NoneAfter(calls: seq<Call>, now: int) {
    forall j :: 0 <= j < |calls| ==> calls[j].now <= now
  }

  lemma HandledIsGenuine(su: Setup, req: Request, q: Msg, v: TurnValue, calls: seq<Call>, x: Exchange,
                         end: RateLimiter.State)
    requires Handled(su, req, q, v, calls, x, end) && Accepted(su, req, q, x) && NoneAfter(calls, req.now)
    ensures x.reply.id == q.id && Genuine(su.wireLen, q, v, calls, req.now, x.reply)
  {
    RepliesComeFromHistoryOrFlight(su.size, su.wireLen, q, v, calls, req.now, req.later, x.reply, x.more);
  }

  lemma HandledCalls(su: Setup, req: Request, q: Msg, v: TurnValue, calls: seq<Call>, x: Exchange,
                     end: RateLimiter.State, now: int)
    requires Handled(su, req, q, v, calls, x, end) && req.now <= now && req.later <= now
    ensures NoneAfter(x.more, now)
  {
    if Accepted(su, req, q, x) { ServedCalls(su, req, q, v, calls, x, now); }
  }

  lemma ServedCalls(su: Setup, req: Request, q: Msg, v: TurnValue, calls: seq<Call>, x: Exchange, now: int)
    requires Served(su.size, su.wireLen, q, v, calls, req.now, req.later, x.reply, x.more)
    requires req.now <= now && req.later <= now
    ensures NoneAfter(x.more, now)
  {
    if x.more != [Get(q, req.now)] {
      var result :| FromFlightResult(su.wireLen, q, v, req.now, req.later, x.reply, x.more, result);
    }
  }

  /** No clock reading of these requests is later than this one. */
  ghost predicate ReadBefore(requests: seq<Request>, k: nat, now: int)
    requires k <= |requests|
  {
    forall j :: 0 <= j < k ==> requests[j].now <= now && requests[j].later <= now
  }

  /** A query of a session calls the cache at its own times. */
  lemma OwnTimes(su: Setup, requests: seq<Request>, content: Content, log: seq<Exchange>,
                 start: RateLimiter.State, end: RateLimiter.State, j: nat, now: int)
    requires Incoming(requests, 0, content) && j < |log| <= |requests|
    requires Told(su, requests, content, log, start, end) && ReadBefore(requests, j + 1, now)
    ensures NoneAfter(log[j].more, now)
  {
    var req := requests[j];
    var counted := ToldAt(su, requests, content, log, start, end, j);
    HandledCalls(su, req, content[req.r], TurnIn(req.turn, content), CallsOf(log[..j]), log[j], counted, now);
  }

  lemma {:induction false} CallsNotAfter(log: seq<Exchange>, now: int)
    requires forall j :: 0 <= j < |log| ==> NoneAfter(log[j].more, now)
    ensures NoneAfter(CallsOf(log), now)
    decreases log
  {
    if log != [] {
      var k := |log| - 1;
      CallsNotAfter(log[..k], now);
      NoneAfterBoth(CallsOf(log[..k]), log[k].more, now);
    }
  }

  lemma NoneAfterBoth(a: seq<Call>, b: seq<Call>, now: int)
    requires NoneAfter(a, now) && NoneAfter(b, now)
    ensures NoneAfter(a + b, now)
  {}

  /** In every session with a monotone clock, whatever the clients write to their replies: a query that is not
      turned away gets, under its own Id, the response of the latest accepted Put or what its flight came to. */
  lemma RepliesOfSession(su: Setup, requests: seq<Request>, content: Content, log: seq<Exchange>,
                         start: RateLimiter.State, end: RateLimiter.State, i: nat)
    requires Incoming(requests, 0, content) && i < |log| <= |requests|
    requires Told(su, requests, content, log, start, end)
    requires Accepted(su, requests[i], content[requests[i].r], log[i]) && ReadBefore(requests, i, requests[i].now)
    ensures var req, q, reply := requests[i], content[requests[i].r], log[i].reply;
            reply.id == q.id && Genuine(su.wireLen, q, TurnIn(req.turn, content), CallsOf(log[..i]), req.now, reply)
  {
    var req := requests[i];
    forall j | 0 <= j < i ensures NoneAfter(log[j].more, req.now) {
      OwnTimes(su, requests, content, log, start, end, j, req.now);
    }
    CallsNotAfter(log[..i], req.now);
    var counted := ToldAt(su, requests, content, log, start, end, i);
    HandledIsGenuine(su, req, content[req.r], TurnIn(req.turn, content), CallsOf(log[..i]), log[i], counted);
  }

  // ----- exactly when a query is answered from the cache

  /** The clock never runs backwards from the first of these requests to the last. */
  ghost predicate ClockRuns(requests: seq<Request>, n: nat)
    requires n <= |requests|
  {
    && (forall j :: 0 <= j < n ==> requests[j].now <= requests[j].later)
    && (forall j, k :: 0 <= j < k < n ==> requests[j].later <= requests[k].now)
  }

  /** The calls are in order of time, between these two readings. */
  ghost predicate InOrder(calls: seq<Call>, from: int, to: int) {
    && (forall j, k :: 0 <= j < k < |calls| ==> calls[j].now <= calls[k].now)
    && forall j :: 0 <= j < |calls| ==> from <= calls[j].now <= to
  }

  lemma InOrderBoth(a: seq<Call>, b: seq<Call>, from: int, mid: int, next: int, to: int)
    requires InOrder(a, from, mid) && mid <= next && InOrder(b, next, to) && from <= next && mid <= to
    ensures InOrder(a + b, from, to)
  {
    forall j, k | 0 <= j < k < |a + b| ensures (a + b)[j].now <= (a + b)[k].now {
      if k < |a| {
        assert a[j].now <= a[k].now;
      } else if j >= |a| {
        assert b[j - |a|].now <= b[k - |a|].now;
      }
    }
  }

  lemma OpsInOrder(calls: seq<Call>, from: int, to: int)
    requires InOrder(calls, from, to)
    ensures Monotone(OpsOf(calls))
  {}

  lemma ServedInOrder(su: Setup, req: Request, q: Msg, v: TurnValue, calls: seq<Call>, x: Exchange)
    requires Served(su.size, su.wireLen, q, v, calls, req.now, req.later, x.reply, x.more) && req.now <= req.later
    ensures InOrder(x.more, req.now, req.later)
  {
    if x.more != [Get(q, req.now)] {
      var result :| FromFlightResult(su.wireLen, q, v, req.now, req.later, x.reply, x.more, result);
    }
  }

  lemma ExchangeInOrder(su: Setup, requests: seq<Request>, content: Content, log: seq<Exchange>,
                        start: RateLimiter.State, end: RateLimiter.State, j: nat)
    requires Incoming(requests, 0, content) && j < |log| <= |requests|
    requires Told(su, requests, content, log, start, end) && requests[j].now <= requests[j].later
    ensures InOrder(log[j].more, requests[j].now, requests[j].later)
  {
    var req := requests[j];
    var counted := ToldAt(su, requests, content, log, start, end, j);
    if Accepted(su, req, content[req.r], log[j]) {
      ServedInOrder(su, req, content[req.r], TurnIn(req.turn, content), CallsOf(log[..j]), log[j]);
    }
  }

  lemma CallsOfNext(log: seq<Exchange>, k: nat)
    requires k < |log|
    ensures CallsOf(log[..k + 1]) == CallsOf(log[..k]) + log[k].more
    ensures log[..0] == [] && CallsOf([]) == []
  {
    assert log[..k + 1][..k] == log[..k] && log[..k + 1][k] == log[k];
  }

  lemma {:induction false} CallsInOrder(requests: seq<Request>, log: seq<Exchange>, n: nat)
    requires n <= |log| <= |requests| && ClockRuns(requests, n)
    requires forall j :: 0 <= j < n ==> InOrder(log[j].more, requests[j].now, requests[j].later)
    ensures n > 0 ==> InOrder(CallsOf(log[..n]), requests[0].now, requests[n - 1].later)
    ensures n == 0 ==> CallsOf(log[..n]) == []
  {
    if n > 0 {
      var k := n - 1;
      CallsInOrder(requests, log, k);
      CallsOfNext(log, k);
      if k > 0 {
        InOrderBoth(CallsOf(log[..k]), log[k].more, requests[0].now, requests[k - 1].later, requests[k].now,
                    requests[k].later);
      } else {
        assert CallsOf(log[..1]) == log[0].more;
      }
    }
  }

  /** A response to this very question was accepted, the latest such is still to be kept, and it has not been
      crowded out. */
  ghost predicate Cached(size: int, q: Msg, calls: seq<Call>, now: int)
    requires q.question != []
  {
    && size >= 1 && !CrowdedOut(InputEvents(size, OpsOf(calls)), CacheKey(q).value, size)
    && exists k :: 0 <= k < |calls| && IsLatestPut(q, calls, k) && Alive(calls[k], now)
  }

  /** In every session whose clock does not run backwards: a query that is not turned away is answered by the latest
      accepted response exactly when that is cached, and only looks into the cache then; otherwise it gets what its
      flight comes to, and if it leads the flight, that is put into the cache. */
  lemma AnsweredInSessionIff(su: Setup, requests: seq<Request>, content: Content, log: seq<Exchange>,
                             start: RateLimiter.State, end: RateLimiter.State, i: nat)
    requires Incoming(requests, 0, content) && i < |log| <= |requests|
    requires Told(su, requests, content, log, start, end) && ClockRuns(requests, i + 1)
    requires Accepted(su, requests[i], content[requests[i].r], log[i])
    ensures var req, q, x, calls := requests[i], content[requests[i].r], log[i], CallsOf(log[..i]);
            && q.question != []
            && if Cached(su.size, q, calls, req.now) then
                 && x.more == [Get(q, req.now)]
                 && exists k :: 0 <= k < |calls| && IsLatestPut(q, calls, k)
                      && x.reply == Fitted(q, calls[k].r.value, su.wireLen)
               else
                 var v := TurnIn(req.turn, content);
                 exists result :: FromFlightResult(su.wireLen, q, v, req.now, req.later, x.reply, x.more, result)
  {
    forall j | 0 <= j < i ensures InOrder(log[j].more, requests[j].now, requests[j].later) {
      ExchangeInOrder(su, requests, content, log, start, end, j);
    }
    CallsInOrder(requests, log, i);
    if i > 0 { OpsInOrder(CallsOf(log[..i]), requests[0].now, requests[i - 1].later); }
    var req, q := requests[i], content[requests[i].r];
    var counted := ToldAt(su, requests, content, log, start, end, i);
    AnsweredExactly(su, req, q, TurnIn(req.turn, content), CallsOf(log[..i]), log[i]);
  }

  lemma AnsweredExactly(su: Setup, req: Request, q: Msg, v: TurnValue, calls: seq<Call>, x: Exchange)
    requires Served(su.size, su.wireLen, q, v, calls, req.now, req.later, x.reply, x.more) && q.question != []
    requires Monotone(OpsOf(calls)) && forall j :: 0 <= j < |calls| ==> calls[j].now <= req.now
    ensures if Cached(su.size, q, calls, req.now) then
              && x.more == [Get(q, req.now)]
              && exists k :: 0 <= k < |calls| && IsLatestPut(q, calls, k)
                   && x.reply == Fitted(q, calls[k].r.value, su.wireLen)
            else
              exists result :: FromFlightResult(su.wireLen, q, v, req.now, req.later, x.reply, x.more, result)
  {
    AnsweredIff(su.size, calls, q, req.now);
    if Cached(su.size, q, calls, req.now) {
      var k := HitExplained(su.size, calls, q, req.now);
      var m := calls[k].r.value;
      assert Fitted(q, m.(id := q.id), su.wireLen) == Fitted(q, m, su.wireLen);
    }
  }

  // ----- who is turned away

  /** The requests counted by the limiter among the first n: not oversized, and with a known sender. */
  ghost function CountedRequests(su: Setup, requests: seq<Request>, content: Content, n: nat): seq<RateLimiter.Request>
    requires Incoming(requests, 0, content) && n <= |requests|
  {
    if n == 0 then []
    else
      var req := requests[n - 1];
      CountedRequests(su, requests, content, n - 1)
      + if su.wireLen(content[req.r]) <= 4096 && req.from.Some? && req.from.value != ""
        then [RateLimiter.Request(req.from.value, req.at)] else []
  }

  lemma {:induction false} LimiterOfSession(su: Setup, requests: seq<Request>, content: Content, log: seq<Exchange>,
                                            start: RateLimiter.State, end: RateLimiter.State)
    requires Incoming(requests, 0, content) && |log| <= |requests|
    requires Told(su, requests, content, log, start, end)
    ensures end == RateLimiter.Through(start, CountedRequests(su, requests, content, |log|), su.limit, su.window)
    decreases log
  {
    if log != [] {
      var k := |log| - 1;
      var before := CountedRequests(su, requests, content, k);
      LimiterOfSession(su, requests, content, log[..k], start, log[k].counters);
      var req := requests[k];
      if su.wireLen(content[req.r]) <= 4096 && req.from.Some? && req.from.value != "" {
        RateLimiter.OneMoreRequest(start, before, RateLimiter.Request(req.from.value, req.at), su.limit, su.window);
      } else {
        assert before + [] == before;
      }
    }
  }

  /** The state of the limiter at one query of a session. */
  lemma {:induction false} LimiterAt(su: Setup, requests: seq<Request>, content: Content, log: seq<Exchange>,
                                     start: RateLimiter.State, end: RateLimiter.State, i: nat)
    requires Incoming(requests, 0, content) && i < |log| <= |requests|
    requires Told(su, requests, content, log, start, end)
    ensures var counted := CountedRequests(su, requests, content, i);
            log[i].counters == RateLimiter.Through(start, counted, su.limit, su.window)
    decreases log
  {
    var k := |log| - 1;
    if i == k {
      LimiterOfSession(su, requests, content, log[..k], start, log[k].counters);
    } else {
      LimiterAt(su, requests, content, log[..k], start, log[k].counters, i);
    }
  }

  /** The code of the error reply to a query that is turned away: it is too large, its sender is over the limit of its
      window, or it asks nothing. */
  ghost function Reason(su: Setup, requests: seq<Request>, content: Content, i: nat): Option<nat>
    requires Incoming(requests, 0, content) && i < |requests|
  {
    var req, q := requests[i], content[requests[i].r];
    if su.wireLen(q) > 4096 then Some(1)
    else if OverLimit(su, CountedRequests(su, requests, content, i + 1), req.from) then Some(5)
    else if q.question == [] then Some(2)
    else None
  }

  /** The last of these requests came from this sender, and is not within the limit of its window. */
  ghost predicate OverLimit(su: Setup, counted: seq<RateLimiter.Request>, from: Option<string>) {
    from.Some? && from.value != "" &&
    var times := RateLimiter.TimesOf(counted, from.value);
    times != [] && !RateLimiter.WithinLimit(times, su.limit, su.window, |times| - 1)
  }

  lemma RefusalHasReason(su: Setup, requests: seq<Request>, content: Content, t0: int, i: nat)
    requires Incoming(requests, 0, content) && i < |requests|
    requires RateLimiter.Ordered(CountedRequests(su, requests, content, i + 1), t0)
    ensures var req := requests[i];
            var counted := CountedRequests(su, requests, content, i);
            var counters := RateLimiter.Through(RateLimiter.State(map[], t0), counted, su.limit, su.window);
            Refusal(content[req.r], req.from, counters, req.at, su.limit, su.window, su.wireLen) ==
            Reason(su, requests, content, i)
  {
    var req := requests[i];
    if su.wireLen(content[req.r]) <= 4096 && req.from.Some? && req.from.value != "" {
      RateLimiter.NextIsAllowedIff(CountedRequests(su, requests, content, i),
                                   RateLimiter.Request(req.from.value, req.at), t0, su.limit, su.window);
    }
  }

  /** In every session of a new server whose counted requests arrive in order of time: a query is turned away, with
      an error reply under its own Id and question and without touching the cache, exactly for these reasons. */
  lemma RefusalsOfSession(su: Setup, requests: seq<Request>, content: Content, log: seq<Exchange>,
                          t0: int, end: RateLimiter.State, i: nat)
    requires Incoming(requests, 0, content) && i < |log| <= |requests|
    requires Told(su, requests, content, log, RateLimiter.State(map[], t0), end)
    requires RateLimiter.Ordered(CountedRequests(su, requests, content, i + 1), t0)
    ensures var q := content[requests[i].r];
            match Reason(su, requests, content, i)
            case Some(code) => IsErrorReply(q, code, log[i].reply) && log[i].more == []
            case None => Accepted(su, requests[i], q, log[i])
  {
    LimiterAt(su, requests, content, log, RateLimiter.State(map[], t0), end, i);
    RefusalHasReason(su, requests, content, t0, i);
    var counted := ToldAt(su, requests, content, log, RateLimiter.State(map[], t0), end, i);
    match Reason(su, requests, content, i)
    case Some(code) => ErrorReplyIs(content[requests[i].r], code, log[i].reply);
    case None =>
  }
}
