/** The race of all upstreams for one query: each upstream's goroutine sends its result
    once on a channel with room for all of them, and the receiver takes results until
    the first usable one. */
module Race {
  import opened Wrappers
  import opened DnsMessages

  /** What one upstream's goroutine sends. */
  datatype RaceResult = Failure(err: string) | Empty | Response(msg: Msg)

  predicate Usable(r: RaceResult) {
    r.Response? && r.msg.rcode != RCODE_SERVER_FAILURE
  }

  /** Won by a response, or failed with the first error; a failure without an error says that all
      responses were empty or SERVFAIL. */
  datatype Outcome = Won(msg: Msg) | Failed(err: Option<string>)

  ghost predicate FirstUsable(results: seq<RaceResult>, i: nat) {
    i < |results| && Usable(results[i]) && forall j :: 0 <= j < i ==> !Usable(results[j])
  }

  ghost predicate NoneUsable(results: seq<RaceResult>) {
    forall j :: 0 <= j < |results| ==> !Usable(results[j])
  }

  ghost predicate NoErrors(results: seq<RaceResult>, n: nat)
    requires n <= |results|
  {
    forall j :: 0 <= j < n ==> !results[j].Failure?
  }

  /** The first error among these results, if there is one. */
  ghost predicate FirstError(results: seq<RaceResult>, err: Option<string>) {
    match err
    case None => NoErrors(results, |results|)
    case Some(e) => exists i :: 0 <= i < |results| && results[i] == Failure(e) && NoErrors(results, i)
  }

  /** The outcome these results decide on, in this order of arrival. */
  ghost predicate Decides(results: seq<RaceResult>, o: Outcome) {
    match o
    case Won(msg) => exists i: nat :: FirstUsable(results, i) && results[i].msg == msg
    case Failed(err) => NoneUsable(results) && FirstError(results, err)
  }

  lemma OneMoreError(results: seq<RaceResult>, i: nat, err: Option<string>)
    requires i < |results| && FirstError(results[..i], err)
    ensures FirstError(results[..i + 1], if err.None? && results[i].Failure? then Some(results[i].err) else err)
  {
    var t, u := results[..i], results[..i + 1];
    assert u == t + [results[i]];
    if err.Some? {
      var k :| 0 <= k < i && t[k] == Failure(err.value) && NoErrors(t, k);
      assert u[k] == Failure(err.value) && NoErrors(u, k);
    } else if results[i].Failure? {
      assert u[i] == Failure(results[i].err) && NoErrors(u, i);
    }
  }

  lemma FirstUsableExists(results: seq<RaceResult>, k: nat) returns (i: nat)
    requires k < |results| && Usable(results[k])
    ensures FirstUsable(results, i)
    decreases k
  {
    if j :| 0 <= j < k && Usable(results[j]) {
      i := FirstUsableExists(results, j);
    } else {
      i := k;
    }
  }

  lemma FirstErrorExists(results: seq<RaceResult>, k: nat) returns (err: string)
    requires k < |results| && results[k].Failure?
    ensures FirstError(results, Some(err))
    decreases k
  {
    if j :| 0 <= j < k && results[j].Failure? {
      err := FirstErrorExists(results, j);
    } else {
      err := results[k].err;
    }
  }

  /** Every order of arrival decides on exactly one outcome. */
  lemma DecidesOnce(results: seq<RaceResult>)
    ensures exists o :: Decides(results, o)
    ensures forall o, o' :: Decides(results, o) && Decides(results, o') ==> o == o'
  {
    if k :| 0 <= k < |results| && Usable(results[k]) {
      var i := FirstUsableExists(results, k);
      assert Decides(results, Won(results[i].msg));
    } else if k :| 0 <= k < |results| && results[k].Failure? {
      var err := FirstErrorExists(results, k);
      assert Decides(results, Failed(Some(err)));
    } else {
      assert Decides(results, Failed(None));
    }
  }

  // ----- the channel

  datatype State = State(
    size: nat,
    pending: set<nat>,         // upstreams yet to send
    sent: seq<RaceResult>,     // all results, in order of arrival
    channel: seq<RaceResult>,
    received: seq<RaceResult>,
    outcome: Option<Outcome>,
    puts: seq<Msg>)            // what has been handed to the cache

  datatype Label = Send(upstream: nat, r: RaceResult) | Receive | GiveUp(err: Option<string>)

  function Upstreams(n: nat): set<nat> {
    if n == 0 then {} else Upstreams(n - 1) + {n - 1}
  }

  function Start(upstreams: nat): State {
    State(upstreams, Upstreams(upstreams), [], [], [], None, [])
  }

  /** A send blocks on a full channel, a receive on an empty one. */
  ghost predicate Next(s: State, l: Label, t: State) {
    match l
    case Send(i, r) =>
      && i in s.pending && |s.channel| < s.size
      && t == s.(pending := s.pending - {i}, sent := s.sent + [r], channel := s.channel + [r])
    case Receive =>
      && s.outcome.None? && |s.received| < s.size && s.channel != []
      && var r := s.channel[0];
         t == s.(channel := s.channel[1..], received := s.received + [r],
                 outcome := if Usable(r) then Some(Won(r.msg)) else None,
                 puts := if Usable(r) then s.puts + [r.msg] else s.puts)
    case GiveUp(err) =>
      && s.outcome.None? && |s.received| == s.size && FirstError(s.received, err)
      && t == s.(outcome := Some(Failed(err)))
  }

  ghost predicate Reaches(s: State, run: seq<(Label, State)>, t: State)
    decreases run
  {
    if run == [] then s == t else Next(s, run[0].0, run[0].1) && Reaches(run[0].1, run[1..], t)
  }

  ghost predicate Inv(s: State) {
    && |s.pending| + |s.channel| + |s.received| == s.size
    && s.sent == s.received + s.channel
    && (s.outcome.None? ==> NoneUsable(s.received) && s.puts == [])
    && (s.outcome.Some? ==>
          && Decides(s.received, s.outcome.value)
          && s.puts == (if s.outcome.value.Won? then [s.outcome.value.msg] else [])
          && (s.outcome.value.Failed? ==> |s.received| == s.size))
  }

  lemma {:induction false} UpstreamsCount(n: nat)
    ensures |Upstreams(n)| == n
    ensures forall i :: i in Upstreams(n) <==> 0 <= i < n
  {
    if n > 0 { UpstreamsCount(n - 1); }
  }

  lemma StepKeepsInv(s: State, l: Label, t: State)
    requires Inv(s) && Next(s, l, t)
    ensures Inv(t) && t.size == s.size
  {
    if l.Receive? && Usable(s.channel[0]) {
      assert FirstUsable(t.received, |s.received|);
    }
  }

  lemma {:induction false} RunKeepsInv(s: State, run: seq<(Label, State)>, t: State)
    requires Inv(s) && Reaches(s, run, t)
    ensures Inv(t) && t.size == s.size
    decreases run
  {
    if run != [] {
      StepKeepsInv(s, run[0].0, run[0].1);
      RunKeepsInv(run[0].1, run[1..], t);
    }
  }

  /** At any moment of any race, whatever the receiver has done by then, an upstream that has
      not sent can send at once: no loser is ever left blocked. */
  lemma NoSendBlocks(upstreams: nat, run: seq<(Label, State)>, s: State, i: nat, r: RaceResult)
    requires Reaches(Start(upstreams), run, s) && i in s.pending
    ensures exists t :: Next(s, Send(i, r), t)
  {
    UpstreamsCount(upstreams);
    RunKeepsInv(Start(upstreams), run, s);
    assert |s.pending| > 0;
    assert Next(s, Send(i, r), s.(pending := s.pending - {i}, sent := s.sent + [r], channel := s.channel + [r]));
  }

  /** Steps that can still follow. */
  function ToGo(s: State): nat {
    2 * |s.pending| + |s.channel| + if s.outcome.None? then 1 else 0
  }

  lemma {:induction false} EveryStepCounts(s: State, run: seq<(Label, State)>, t: State)
    requires Reaches(s, run, t)
    ensures |run| + ToGo(t) <= ToGo(s)
    decreases run
  {
    if run != [] { EveryStepCounts(run[0].1, run[1..], t); }
  }

  /** A race that has taken all its steps is decided, and every upstream has sent. */
  lemma RaceGoesOn(upstreams: nat, run: seq<(Label, State)>, s: State)
    requires Reaches(Start(upstreams), run, s) && (s.outcome.None? || s.pending != {})
    ensures exists l, t :: Next(s, l, t)
  {
    UpstreamsCount(upstreams);
    RunKeepsInv(Start(upstreams), run, s);
    if s.pending != {} {
      var i :| i in s.pending;
      NoSendBlocks(upstreams, run, s, i, Empty);
    } else if s.channel != [] {
      var r := s.channel[0];
      assert Next(s, Receive, s.(channel := s.channel[1..], received := s.received + [r],
                                 outcome := if Usable(r) then Some(Won(r.msg)) else None,
                                 puts := if Usable(r) then s.puts + [r.msg] else s.puts));
    } else {
      DecidesOnce(s.received);
      var o :| Decides(s.received, o);
      assert Next(s, GiveUp(o.err), s.(outcome := Some(o)));
    }
  }

  /** Every race ends: no run of it takes more than 2N + 1 steps, and one that cannot go on is decided. */
  lemma RaceEnds(upstreams: nat, run: seq<(Label, State)>, s: State)
    requires Reaches(Start(upstreams), run, s)
    ensures |run| <= 2 * upstreams + 1
    ensures (forall l, t :: !Next(s, l, t)) ==> s.outcome.Some? && s.pending == {}
  {
    UpstreamsCount(upstreams);
    EveryStepCounts(Start(upstreams), run, s);
    if s.outcome.None? || s.pending != {} { RaceGoesOn(upstreams, run, s); }
  }

  /** Results that arrive after the winner change nothing. */
  lemma LateResultsDoNotMatter(received: seq<RaceResult>, late: seq<RaceResult>, o: Outcome)
    requires Decides(received, o) && o.Won?
    ensures Decides(received + late, o)
  {
    var i: nat :| FirstUsable(received, i) && received[i].msg == o.msg;
    assert FirstUsable(received + late, i);
  }

  /** The race is decided as the order of arrival has it: won by the first usable result, or failed with the
      first error, if there was one. It fails exactly when all upstreams' results are in and none is
      usable, and only a winner is handed to the cache. */
  lemma RaceIsCorrect(upstreams: nat, run: seq<(Label, State)>, s: State)
    requires Reaches(Start(upstreams), run, s) && s.outcome.Some?
    ensures Decides(s.sent, s.outcome.value)
    ensures s.outcome.value.Failed? <==> |s.sent| == upstreams && NoneUsable(s.sent)
    ensures s.puts == if s.outcome.value.Won? then [s.outcome.value.msg] else []
  {
    UpstreamsCount(upstreams);
    RunKeepsInv(Start(upstreams), run, s);
    if s.outcome.value.Won? {
      LateResultsDoNotMatter(s.received, s.channel, s.outcome.value);
    } else {
      assert s.sent == s.received;
    }
  }
}
