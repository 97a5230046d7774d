/** One query through the server: the size and rate checks, the cache, the race of the
    upstreams, and the reply built on message objects that may be shared. */
module Server {
  import opened Wrappers
  import opened DnsMessages
  import opened MessageObjects
  import opened Recency
  import opened Race
  import opened RateLimiter
  import opened LruHistory
  import Cache
  import QueryPath

  const MAX_ACCEPTED_MSG_SIZE: nat := 4096
  const RATE_LIMIT: int := 100
  const RATE_WINDOW: int := 1_000_000_000

  // ----- replies as values

  /** The largest reply a client takes over UDP: 512 bytes, or more if its OPT record says so. */
  function UdpSize(q: Msg): nat {
    match LastOpt(q.extra)
    case None => 512
    case Some(opt) => if opt.class_ > 512 then opt.class_ else 512
  }

  /** A client's own copy of a response. */
  function Fitted(q: Msg, m: Msg, wireLen: Msg -> nat): Msg {
    QueryPath.Outgoing(q, m, wireLen(m.(id := q.id)) > UdpSize(q))
  }

  /** What a flight's result becomes for one of its clients. */
  function FlightReply(q: Msg, result: Option<Msg>, wireLen: Msg -> nat): Msg {
    match result
    case None => ErrorReply(q.(recursionDesired := true), RCODE_SERVER_FAILURE)
    case Some(m) => Fitted(q, m, wireLen)
  }

  /** The most the sender of a query takes over UDP, read off its last OPT record. */
  ghost predicate TakesUpTo(q: Msg, n: nat) {
    && (forall i :: IsLastOpt(q.extra, i) ==> n == if q.extra[i].class_ > 512 then q.extra[i].class_ else 512)
    && ((forall i :: !IsLastOpt(q.extra, i)) ==> n == 512)
  }

  lemma UdpSizeIs(q: Msg)
    ensures TakesUpTo(q, UdpSize(q))
  {
    var i := SomeLastOpt(q.extra);
    LastOptIs(q.extra, i);
    forall j | IsLastOpt(q.extra, j) ensures LastOpt(q.extra) == Some(q.extra[j]) {
      LastOptIs(q.extra, j);
    }
  }

  /** A client's copy is the response under the client's Id; if that is too long for the client, it says so and
      comes without its Extra section. */
  lemma FittedIs(q: Msg, m: Msg, wireLen: Msg -> nat, n: nat)
    requires TakesUpTo(q, n)
    ensures var own := m.(id := q.id);
            Fitted(q, m, wireLen) == if wireLen(own) > n then own.(truncated := true, extra := []) else own
  {
    UdpSizeIs(q);
    var i := SomeLastOpt(q.extra);
    assert UdpSize(q) == n by {
      if exists j :: IsLastOpt(q.extra, j) { var j :| IsLastOpt(q.extra, j); }
    }
  }

  /** A client of a lost flight is told of a server failure; the others get the response, fitted. */
  lemma FlightReplyIs(q: Msg, result: Option<Msg>, wireLen: Msg -> nat)
    ensures result.None? ==> IsErrorReply(q.(recursionDesired := true), 2, FlightReply(q, result, wireLen))
    ensures result.Some? ==> FlightReply(q, result, wireLen) == Fitted(q, result.value, wireLen)
  {
    ErrorReplyIs(q.(recursionDesired := true), 2, FlightReply(q, result, wireLen));
  }

  // ----- truncation

  /** applyEDNSTruncation, with the wire length of a message given by the library. */
  method ApplyEdnsTruncation(query: Message, resp: Message, wireLen: Msg -> nat)
    requires query != resp
    modifies resp
    ensures var tooLong := wireLen(old(resp.value)) > UdpSize(query.value);
            && resp.value.truncated == (old(resp.value.truncated) || tooLong)
            && resp.value.extra == (if tooLong then [] else old(resp.value.extra))
            && resp.value == old(resp.value).(truncated := resp.value.truncated, extra := resp.value.extra)
  {
    var udpSize := 512;
    var opt := LastOpt(query.value.extra);
    if opt.Some? {
      if opt.value.class_ > udpSize {
        udpSize := opt.value.class_;
      }
    }
    if wireLen(resp.value) > udpSize {
      resp.value := resp.value.(truncated := true);
      resp.value := resp.value.(extra := []);
    }
  }

  // ----- the race, in order of arrival

  ghost function ValueOf(m: Message?): Option<Msg>
    reads m
  {
    if m == null then None else Some(m.value)
  }

  /** What the receiver takes off the channel: an error, or a response object, or neither. */
  datatype Arrival = Arrival(resp: Message?, err: Option<string>)

  ghost predicate Shows(a: Arrival, r: RaceResult)
    reads a.resp
  {
    if a.err.Some? then r == Failure(a.err.value)
    else if a.resp == null then r == Empty
    else r == Response(a.resp.value)
  }

  /** The receiving loop of resolveRace, the upstreams' results arriving in this order. */
  method AwaitWinner(arrivals: seq<Arrival>, ghost results: seq<RaceResult>)
    returns (resp: Message?, err: Option<string>)
    requires |results| == |arrivals| && forall i :: 0 <= i < |arrivals| ==> Shows(arrivals[i], results[i])
    ensures Decides(results, if resp != null then Won(resp.value) else Failed(err))
    ensures resp != null ==> exists i :: 0 <= i < |arrivals| && arrivals[i].resp == resp
  {
    var firstErr: Option<string> := None;
    for i := 0 to |arrivals|
      invariant NoneUsable(results[..i]) && FirstError(results[..i], firstErr)
    {
      var res := arrivals[i];
      OneMoreError(results, i, firstErr);
      if res.err.Some? {
        if firstErr.None? {
          firstErr := res.err;
        }
        continue;
      }
      if res.resp == null {
        continue;
      }
      if res.resp.value.rcode == RCODE_SERVER_FAILURE {
        continue;
      }
      assert FirstUsable(results, i);
      return res.resp, None;
    }
    assert results[..|arrivals|] == results;
    return null, firstErr;
  }

  /** resolveRace: the winner goes to the cache, and is handed out as it is. */
  method ResolveRace(cache: Cache.Cache, r: Message, arrivals: seq<Arrival>, now: int,
                     ghost results: seq<RaceResult>, ghost s: seq<Entry>)
    returns (resp: Message?, err: Option<string>)
    requires cache.Valid(s)
    requires |results| == |arrivals| && forall i :: 0 <= i < |arrivals| ==> Shows(arrivals[i], results[i])
    modifies cache`m, cache`boxes, cache`msgs, cache.ll, cache.ll.nodes, cache.boxes
    ensures Decides(results, if resp != null then Won(resp.value) else Failed(err))
    ensures resp != null ==> exists i :: 0 <= i < |arrivals| && arrivals[i].resp == resp
    ensures cache.Valid(Step(cache.size, s, PutOp(r.value, ValueOf(resp), now)))
    ensures forall b :: b in cache.boxes && b !in old(cache.boxes) ==> fresh(b)
    ensures forall c :: c in cache.msgs && c !in old(cache.msgs) ==> fresh(c)
    ensures forall n :: n in cache.ll.nodes && n !in old(cache.ll.nodes) ==> fresh(n)
  {
    resp, err := AwaitWinner(arrivals, results);
    if resp != null {
      cache.Put(r, resp, now, s);
    }
  }

  // ----- one query

  /** What the coalescing of flights makes of a caller: it runs the race, or it is handed the result
      of the flight it joined (null when that failed). */
  datatype Turn = Lead(arrivals: seq<Arrival>) | Follow(shared: Message?)

  /** The message objects a turn brings along. */
  ghost predicate Brings(turn: Turn, m: Message) {
    match turn
    case Lead(arrivals) => exists i :: 0 <= i < |arrivals| && arrivals[i].resp == m
    case Follow(shared) => shared == m
  }

  /** The same as values: the race's results in order of arrival, or the result joined. */
  datatype TurnValue = Raced(results: seq<RaceResult>) | Joined(result: Option<Msg>)

  ghost predicate Matches(turn: Turn, v: TurnValue)
    reads match turn case Lead(arrivals) => (set i | 0 <= i < |arrivals| :: arrivals[i].resp) case Follow(m) => {m}
  {
    match turn
    case Lead(arrivals) =>
      v.Raced? && |v.results| == |arrivals| && forall i :: 0 <= i < |arrivals| ==> Shows(arrivals[i], v.results[i])
    case Follow(m) => v == Joined(ValueOf(m))
  }

  /** The result a flight comes to: that of the race, or the one joined. */
  ghost predicate ComesTo(v: TurnValue, result: Option<Msg>) {
    match v
    case Raced(results) => exists o :: Decides(results, o) && result == if o.Won? then Some(o.msg) else None
    case Joined(m) => result == m
  }

  lemma RaceComesTo(results: seq<RaceResult>, result: Option<Msg>, err: Option<string>)
    requires Decides(results, if result.Some? then Won(result.value) else Failed(err))
    ensures ComesTo(Raced(results), result)
  {
    var o := if result.Some? then Won(result.value) else Failed(err);
    assert Decides(results, o);
  }

  /** The client's address, when it could be read. */
  predicate Known(from: Option<string>) {
    from.Some? && from.value != ""
  }

  /** The limiter after this query: it counts every query that is not oversized and has a known sender. */
  function Counted(q: Msg, from: Option<string>, counters: RateLimiter.State, at: int,
                   limit: int, window: int, wireLen: Msg -> nat): RateLimiter.State {
    if wireLen(q) <= MAX_ACCEPTED_MSG_SIZE && Known(from)
    then AllowCollecting(counters, from.value, at, limit, window).0
    else counters
  }

  /** The code of the error reply when a query is turned away. */
  function Refusal(q: Msg, from: Option<string>, counters: RateLimiter.State, at: int,
                   limit: int, window: int, wireLen: Msg -> nat): Option<nat> {
    if wireLen(q) > MAX_ACCEPTED_MSG_SIZE then Some(RCODE_FORMAT_ERROR)
    else if Known(from) && !AllowCollecting(counters, from.value, at, limit, window).1 then Some(RCODE_REFUSED)
    else if q.question == [] then Some(RCODE_SERVER_FAILURE)
    else None
  }

  /** A query that was not turned away: its reply, and what it did to the cache. */
  ghost predicate Served(size: int, wireLen: Msg -> nat, q: Msg, v: TurnValue, calls: seq<Call>, now: int, later: int,
                         reply: Msg, more: seq<Call>)
  {
    match Answer(size, After(size, OpsOf(calls)), GetOp(q, now))
    case Some(m) => reply == Fitted(q, m, wireLen) && more == [Get(q, now)]
    case None => exists result :: FromFlightResult(wireLen, q, v, now, later, reply, more, result)
  }

  ghost predicate FromFlightResult(wireLen: Msg -> nat, q: Msg, v: TurnValue, now: int, later: int,
                                   reply: Msg, more: seq<Call>, result: Option<Msg>)
  {
    && ComesTo(v, result)
    && reply == FlightReply(q, result, wireLen)
    && more == [Get(q, now)] + PutsOf(q, v, result, later)
  }

  /** What the leader of a flight does to the cache. */
  function PutsOf(q: Msg, v: TurnValue, result: Option<Msg>, later: int): seq<Call> {
    if v.Raced? then [Put(q.(recursionDesired := true), result, later)] else []
  }

  lemma FlightServes(size: int, wireLen: Msg -> nat, q: Msg, v: TurnValue, calls: seq<Call>, now: int, later: int,
                     reply: Msg, result: Option<Msg>)
    requires Answer(size, After(size, OpsOf(calls)), GetOp(q, now)) == None
    requires ComesTo(v, result) && reply == FlightReply(q, result, wireLen)
    ensures Served(size, wireLen, q, v, calls, now, later, reply, [Get(q, now)] + PutsOf(q, v, result, later))
  {
    assert FromFlightResult(wireLen, q, v, now, later, reply, [Get(q, now)] + PutsOf(q, v, result, later), result);
  }

  lemma CallsAdd(size: int, calls: seq<Call>, get: Call, q: Msg, v: TurnValue, result: Option<Msg>, later: int)
    ensures var s := After(size, OpsOf(calls + [get]));
            After(size, OpsOf(calls + ([get] + PutsOf(q, v, result, later)))) ==
            if v.Raced? then Step(size, s, PutOp(q.(recursionDesired := true), result, later)) else s
  {
    assert calls + ([get] + PutsOf(q, v, result, later)) == (calls + [get]) + PutsOf(q, v, result, later);
    if v.Raced? {
      OneMoreCall(size, calls + [get], Put(q.(recursionDesired := true), result, later));
    } else {
      assert (calls + [get]) + [] == calls + [get];
    }
  }

  lemma OneMoreCall(size: int, calls: seq<Call>, call: Call)
    ensures After(size, OpsOf(calls + [call])) == Step(size, After(size, OpsOf(calls)), OpOf(call))
  {
    assert OpsOf(calls + [call]) == OpsOf(calls) + [OpOf(call)];
    Cache.Extends(size, OpsOf(calls), OpOf(call));
  }

  method NewError(r: Message, rcode: nat) returns (m: Message)
    ensures fresh(m) && m.value == ErrorReply(r.value, rcode)
  {
    var value := ErrorReply(r.value, rcode);
    m := new Message(value);
  }

  class Server {
    const cache: Cache.Cache
    const rateL: IpRateLimiter
    const wireLen: Msg -> nat   // the packed length, as the library computes it

    /** The cache is what this history of Gets and Puts left. */
    ghost predicate Valid(calls: seq<Call>)
      reads this, cache, cache.ll, cache.ll.nodes, cache.boxes, cache.msgs
    {
      cache.Valid(After(cache.size, OpsOf(calls)))
    }

    constructor (size: int, wireLen: Msg -> nat, now: int)
      ensures Valid([]) && cache.size == size && cache.boxes == {} && cache.msgs == {}
      ensures fresh(cache) && fresh(cache.ll) && fresh(cache.ll.nodes) && fresh(rateL)
      ensures rateL.View() == RateLimiter.State(map[], now) && rateL.limit == 100 && rateL.window == 1_000_000_000
    {
      this.wireLen := wireLen;
      cache := new Cache.Cache(size);
      rateL := new IpRateLimiter(RATE_LIMIT, RATE_WINDOW, now);
    }

    /** The checks before the cache: the code of an error reply, or none when the query may go on. */
    method Screen(r: Message, from: Option<string>, at: int) returns (code: Option<nat>)
      modifies rateL
      ensures rateL.View() == Counted(r.value, from, old(rateL.View()), at, rateL.limit, rateL.window, wireLen)
      ensures code == Refusal(r.value, from, old(rateL.View()), at, rateL.limit, rateL.window, wireLen)
    {
      if wireLen(r.value) > MAX_ACCEPTED_MSG_SIZE {
        return Some(RCODE_FORMAT_ERROR);
      }
      if Known(from) {
        var ok := rateL.Allow(from.value, at);
        if !ok {
          return Some(RCODE_REFUSED);
        }
      }
      if |r.value.question| == 0 {
        return Some(RCODE_SERVER_FAILURE);
      }
      code := None;
    }

    /** Fits a reply of the server's own to its client; the cache does not notice. */
    method Fit(r: Message, reply: Message, ghost s: seq<Entry>)
      requires cache.Valid(s) && reply !in cache.msgs && r != reply && reply.value.id == r.value.id
      modifies reply
      ensures cache.Valid(s)
      ensures reply.value == Fitted(r.value, old(reply.value), wireLen)
    {
      ApplyEdnsTruncation(r, reply, wireLen);
      assert old(reply.value) == old(reply.value).(id := r.value.id);
    }

    /** The reply from the cache, or null. */
    method FromCache(r: Message, now: int, ghost s: seq<Entry>) returns (reply: Message?)
      requires cache.Valid(s)
      modifies cache`m, cache.ll, cache.ll.nodes
      ensures cache.Valid(Step(cache.size, s, GetOp(r.value, now))) && cache.ll.nodes == old(cache.ll.nodes)
      ensures reply != null ==> fresh(reply)
      ensures var hit := Answer(cache.size, s, GetOp(r.value, now));
              if reply == null then hit == None else hit.Some? && reply.value == Fitted(r.value, hit.value, wireLen)
    {
      reply := cache.Get(r, now, s);
      if reply != null {
        Fit(r, reply, Step(cache.size, s, GetOp(r.value, now)));
      }
    }

    /** A client's copy of a flight's result. */
    method CopyOut(r: Message, shared: Message?, ghost q: Msg, ghost s: seq<Entry>) returns (reply: Message)
      requires cache.Valid(s) && r.value == q.(recursionDesired := true)
      ensures fresh(reply) && reply !in cache.msgs
      ensures cache.Valid(s)
      ensures reply.value == FlightReply(q, ValueOf(shared), wireLen)
    {
      if shared == null {
        reply := NewError(r, RCODE_SERVER_FAILURE);
        return;
      }
      reply := shared.Copy();
      reply.value := reply.value.(id := r.value.id);
      ApplyEdnsTruncation(r, reply, wireLen);
    }

    /** What the flight of this caller comes to. */
    method TakeTurn(r: Message, turn: Turn, later: int, ghost v: TurnValue, ghost s: seq<Entry>)
      returns (shared: Message?)
      requires cache.Valid(s) && Matches(turn, v)
      modifies cache`m, cache`boxes, cache`msgs, cache.ll, cache.ll.nodes, cache.boxes
      ensures ComesTo(v, ValueOf(shared))
      ensures cache.Valid(if v.Raced? then Step(cache.size, s, PutOp(r.value, ValueOf(shared), later)) else s)
      ensures forall b :: b in cache.boxes && b !in old(cache.boxes) ==> fresh(b)
      ensures forall c :: c in cache.msgs && c !in old(cache.msgs) ==> fresh(c)
      ensures forall n :: n in cache.ll.nodes && n !in old(cache.ll.nodes) ==> fresh(n)
    {
      match turn
      case Lead(arrivals) =>
        var err;
        shared, err := ResolveRace(cache, r, arrivals, later, v.results, s);
        RaceComesTo(v.results, ValueOf(shared), err);
      case Follow(m) =>
        shared := m;
    }

    /** Asks for recursion on the client's query. */
    method Mark(r: Message, turn: Turn, ghost v: TurnValue, ghost s: seq<Entry>)
      requires cache.Valid(s) && r !in cache.msgs && !Brings(turn, r) && Matches(turn, v)
      modifies r
      ensures r.value == old(r.value).(recursionDesired := true)
      ensures cache.Valid(s) && Matches(turn, v)
    {
      r.value := r.value.(recursionDesired := true);
    }

    /** The flight, and the copy of its result. The result itself, which other callers may hold, stays as it is. */
    method Resolve(r: Message, turn: Turn, later: int, ghost q: Msg, ghost v: TurnValue, ghost s: seq<Entry>)
      returns (reply: Message, ghost result: Option<Msg>)
      requires cache.Valid(s) && Matches(turn, v) && r.value == q.(recursionDesired := true)
      modifies cache`m, cache`boxes, cache`msgs, cache.ll, cache.ll.nodes, cache.boxes
      ensures fresh(reply) && reply !in cache.msgs
      ensures ComesTo(v, result)
      ensures reply.value == FlightReply(q, result, wireLen)
      ensures cache.Valid(if v.Raced? then Step(cache.size, s, PutOp(r.value, result, later)) else s)
      ensures forall b :: b in cache.boxes && b !in old(cache.boxes) ==> fresh(b)
      ensures forall c :: c in cache.msgs && c !in old(cache.msgs) ==> fresh(c)
      ensures forall n :: n in cache.ll.nodes && n !in old(cache.ll.nodes) ==> fresh(n)
    {
      var shared := TakeTurn(r, turn, later, v, s);
      result := ValueOf(shared);
      reply := CopyOut(r, shared, q, if v.Raced? then Step(cache.size, s, PutOp(r.value, result, later)) else s);
    }

    /** From the cache miss to the reply. */
    method FromFlight(r: Message, turn: Turn, later: int, ghost v: TurnValue, ghost s: seq<Entry>)
      returns (reply: Message, ghost result: Option<Msg>)
      requires cache.Valid(s) && r !in cache.msgs && !Brings(turn, r) && Matches(turn, v)
      modifies r, cache`m, cache`boxes, cache`msgs, cache.ll, cache.ll.nodes, cache.boxes
      ensures fresh(reply) && reply !in cache.msgs
      ensures ComesTo(v, result)
      ensures reply.value == FlightReply(old(r.value), result, wireLen)
      ensures var q := old(r.value).(recursionDesired := true);
              cache.Valid(if v.Raced? then Step(cache.size, s, PutOp(q, result, later)) else s)
      ensures forall b :: b in cache.boxes && b !in old(cache.boxes) ==> fresh(b)
      ensures forall c :: c in cache.msgs && c !in old(cache.msgs) ==> fresh(c)
      ensures forall n :: n in cache.ll.nodes && n !in old(cache.ll.nodes) ==> fresh(n)
    {
      Mark(r, turn, v, s);
      reply, result := Resolve(r, turn, later, old(r.value), v, s);
    }

    /** FromCache, told of the calls. */
    method Consult(r: Message, now: int, later: int, ghost v: TurnValue, ghost calls: seq<Call>)
      returns (reply: Message?)
      requires Valid(calls)
      modifies cache`m, cache.ll, cache.ll.nodes
      ensures Valid(calls + [Get(r.value, now)]) && cache.ll.nodes == old(cache.ll.nodes)
      ensures reply != null ==>
                && fresh(reply)
                && Served(cache.size, wireLen, r.value, v, calls, now, later, reply.value, [Get(r.value, now)])
      ensures reply == null ==> Answer(cache.size, After(cache.size, OpsOf(calls)), GetOp(r.value, now)) == None
    {
      OneMoreCall(cache.size, calls, Get(r.value, now));
      reply := FromCache(r, now, After(cache.size, OpsOf(calls)));
    }

    /** FromFlight, told of the calls. */
    method Launch(r: Message, turn: Turn, now: int, later: int, ghost v: TurnValue, ghost calls: seq<Call>)
      returns (reply: Message, ghost more: seq<Call>)
      requires Valid(calls + [Get(r.value, now)])
      requires Answer(cache.size, After(cache.size, OpsOf(calls)), GetOp(r.value, now)) == None
      requires r !in cache.msgs && !Brings(turn, r) && Matches(turn, v)
      modifies r, cache`m, cache`boxes, cache`msgs, cache.ll, cache.ll.nodes, cache.boxes
      ensures fresh(reply) && reply !in cache.msgs
      ensures Served(cache.size, wireLen, old(r.value), v, calls, now, later, reply.value, more)
      ensures Valid(calls + more)
      ensures forall b :: b in cache.boxes && b !in old(cache.boxes) ==> fresh(b)
      ensures forall c :: c in cache.msgs && c !in old(cache.msgs) ==> fresh(c)
      ensures forall n :: n in cache.ll.nodes && n !in old(cache.ll.nodes) ==> fresh(n)
    {
      ghost var q := r.value;
      ghost var result;
      reply, result := FromFlight(r, turn, later, v, After(cache.size, OpsOf(calls + [Get(q, now)])));
      more := [Get(q, now)] + PutsOf(q, v, result, later);
      CallsAdd(cache.size, calls, Get(q, now), q, v, result, later);
      FlightServes(cache.size, wireLen, q, v, calls, now, later, reply.value, result);
    }

    /** ServeDNS past the checks. */
    method Serve(r: Message, turn: Turn, now: int, later: int, ghost v: TurnValue, ghost calls: seq<Call>)
      returns (reply: Message, ghost more: seq<Call>)
      requires Valid(calls) && r !in cache.msgs && !Brings(turn, r) && Matches(turn, v)
      modifies r, cache`m, cache`boxes, cache`msgs, cache.ll, cache.ll.nodes, cache.boxes
      ensures fresh(reply) && reply !in cache.msgs
      ensures Served(cache.size, wireLen, old(r.value), v, calls, now, later, reply.value, more)
      ensures Valid(calls + more)
      ensures forall b :: b in cache.boxes && b !in old(cache.boxes) ==> fresh(b)
      ensures forall c :: c in cache.msgs && c !in old(cache.msgs) ==> fresh(c)
      ensures forall n :: n in cache.ll.nodes && n !in old(cache.ll.nodes) ==> fresh(n)
    {
      more := [Get(r.value, now)];
      var cached := Consult(r, now, later, v, calls);
      if cached != null {
        return cached, more;
      }
      reply, more := Launch(r, turn, now, later, v, calls);
    }

    /** The error reply for a query that was turned away. */
    method Refuse(r: Message, code: nat, ghost calls: seq<Call>) returns (reply: Message)
      requires Valid(calls)
      ensures fresh(reply) && reply !in cache.msgs && reply.value == ErrorReply(r.value, code)
      ensures Valid(calls + [])
    {
      reply := NewError(r, code);
      assert calls + [] == calls;
    }

    /** One query, from its arrival to the message written back. */
    method ServeDNS(r: Message, from: Option<string>, turn: Turn, at: int, now: int, later: int,
                    ghost v: TurnValue, ghost calls: seq<Call>)
      returns (reply: Message, ghost more: seq<Call>)
      requires Valid(calls) && r !in cache.msgs && !Brings(turn, r) && Matches(turn, v)
      modifies rateL, r, cache`m, cache`boxes, cache`msgs, cache.ll, cache.ll.nodes, cache.boxes
      ensures fresh(reply) && reply !in cache.msgs
      ensures rateL.View() == Counted(old(r.value), from, old(rateL.View()), at, rateL.limit, rateL.window, wireLen)
      ensures match Refusal(old(r.value), from, old(rateL.View()), at, rateL.limit, rateL.window, wireLen)
              case Some(code) => reply.value == ErrorReply(old(r.value), code) && more == []
              case None => Served(cache.size, wireLen, old(r.value), v, calls, now, later, reply.value, more)
      ensures Valid(calls + more)
      ensures forall b :: b in cache.boxes && b !in old(cache.boxes) ==> fresh(b)
      ensures forall c :: c in cache.msgs && c !in old(cache.msgs) ==> fresh(c)
      ensures forall n :: n in cache.ll.nodes && n !in old(cache.ll.nodes) ==> fresh(n)
    {
      var code := Screen(r, from, at);
      if code.Some? {
        more := [];
        reply := Refuse(r, code.value, calls);
        return;
      }
      reply, more := Serve(r, turn, now, later, v, calls);
    }
  }

  // ----- what a reply is

  /** The reply is the response of the latest accepted Put under the query's key, still alive. */
  ghost predicate FromLatestPut(wireLen: Msg -> nat, q: Msg, calls: seq<Call>, now: int, reply: Msg) {
    exists i ::
      && 0 <= i < |calls| && IsLatestPut(q, calls, i)
      && Alive(calls[i], now) && now <= calls[i].now + 3600_000_000_000
      && reply == Fitted(q, calls[i].r.value, wireLen)
  }

  /** After any history of queries with a monotone clock, a query that is not turned away gets a reply
      under its own Id: the response of the latest accepted Put of its key, or else what its flight came to. */
  lemma RepliesComeFromHistoryOrFlight(size: int, wireLen: Msg -> nat, q: Msg, v: TurnValue, calls: seq<Call>,
                                       now: int, later: int, reply: Msg, more: seq<Call>)
    requires q.question != [] && forall i :: 0 <= i < |calls| ==> calls[i].now <= now
    requires Served(size, wireLen, q, v, calls, now, later, reply, more)
    ensures reply.id == q.id
    ensures || FromLatestPut(wireLen, q, calls, now, reply)
            || exists result :: ComesTo(v, result) && reply == FlightReply(q, result, wireLen)
  {
    var hit := Answer(size, After(size, OpsOf(calls)), GetOp(q, now));
    if hit.Some? {
      var i := HitExplained(size, calls, q, now);
      assert hit.value == calls[i].r.value.(id := q.id);
      assert Fitted(q, hit.value, wireLen) == Fitted(q, calls[i].r.value, wireLen);
    } else {
      var result :| FromFlightResult(wireLen, q, v, now, later, reply, more, result);
    }
  }

  /** What the cache represents depends on its own objects only: writing to any message it has not stored,
      a reply above all, leaves it as it is. */
  twostate lemma RepliesAreDetached(cache: Cache.Cache, s: seq<Entry>, replies: set<Message>)
    requires old(cache.Valid(s)) && replies !! old(cache.msgs)
    requires unchanged(cache, cache.ll, old(cache.ll.nodes), old(cache.boxes))
    requires forall m :: m in old(cache.msgs) && m !in replies ==> unchanged(m)
    ensures cache.Valid(s)
  {}
}
