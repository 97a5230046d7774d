/** No client waits for ever: while some client has no reply, some step other than a new arrival is possible,
    and only so many such steps follow one another. */
module QueryProgress {
  import opened Totals
  import opened Singleflight
  import opened QueryPath
  import opened Provenance
  import Race

  // ----- a bound on the steps

  /** What a client has left to do, with the flight it may still start. */
  function ClientLeft(upstreams: nat): Client -> nat {
    (client: Client) =>
      match client
      case Arrived(_) => upstreams + 5
      case Missed(_) => upstreams + 4
      case Waiting(_, _) => 1
      case Replied(_, _, _) => 0
  }

  /** What a flight has left to do. */
  function WorkLeft(w: Work): nat {
    match w.phase
    case Racing(left) => left + 2
    case Won(_) => 2
    case Stored(_) => 1
    case Over => 0
  }

  /** With client numbers below n. */
  function ToDo(cfg: Config, s: State, n: nat): nat {
    Total(s.clients, ClientLeft(cfg.upstreams), n) + Total(s.work, WorkLeft, s.group.next)
  }

  ghost predicate Below(s: State, n: nat) {
    forall c :: c in s.clients ==> c < n
  }

  /** Flights are numbered in order of their start. */
  ghost predicate Numbered(s: State) {
    Valid(s.group) && s.work.Keys == s.group.flights.Keys
  }

  lemma LookTakesOne(cfg: Config, s: State, l: Label, n: nat)
    requires Below(s, n) && (l.TryCache? || l.Collect?) && Next(cfg, s, l).Some?
    ensures var t := Next(cfg, s, l).value; ToDo(cfg, t, n) < ToDo(cfg, s, n) && Below(t, n)
  {
    var t := Next(cfg, s, l).value;
    TotalUpdate(s.clients, ClientLeft(cfg.upstreams), n, l.c, t.clients[l.c]);
  }

  lemma JoinTakesOne(cfg: Config, s: State, c: nat, n: nat)
    requires Numbered(s) && Below(s, n) && Next(cfg, s, Join(c)).Some?
    ensures var t := Next(cfg, s, Join(c)).value; ToDo(cfg, t, n) < ToDo(cfg, s, n) && Below(t, n)
  {
    var t := Next(cfg, s, Join(c)).value;
    TotalUpdate(s.clients, ClientLeft(cfg.upstreams), n, c, t.clients[c]);
    var id := t.clients[c].id;
    if id !in s.work {
      assert id == s.group.next;
      TotalUpdate(s.work, WorkLeft, id, id, t.work[id]);
    }
  }

  lemma WorkTakesOne(cfg: Config, s: State, l: Label, n: nat)
    requires Numbered(s) && (l.Receive? || l.Keep? || l.Finish?) && Next(cfg, s, l).Some?
    ensures var t := Next(cfg, s, l).value; ToDo(cfg, t, n) < ToDo(cfg, s, n) && t.clients == s.clients
  {
    var t := Next(cfg, s, l).value;
    TotalUpdate(s.work, WorkLeft, s.group.next, l.id, t.work[l.id]);
  }

  lemma StepTakesOne(cfg: Config, s: State, l: Label, n: nat)
    requires Numbered(s) && Below(s, n) && !l.Arrive? && Next(cfg, s, l).Some?
    ensures var t := Next(cfg, s, l).value; ToDo(cfg, t, n) < ToDo(cfg, s, n) && Below(t, n)
  {
    if l.Join? { JoinTakesOne(cfg, s, l.c, n); }
    else if l.TryCache? || l.Collect? { LookTakesOne(cfg, s, l, n); }
    else { WorkTakesOne(cfg, s, l, n); }
  }

  ghost predicate NoArrivals(ls: seq<Label>) {
    forall i :: 0 <= i < |ls| ==> !ls[i].Arrive?
  }

  /** Without new clients, no run takes more steps than there was to do. */
  lemma {:induction false} RunsAreBounded(cfg: Config, s: State, ls: seq<Label>, t: State, n: nat)
    requires Inv(cfg, s) && Coherent(cfg) && Below(s, n) && NoArrivals(ls) && Reaches(cfg, s, ls, t)
    ensures |ls| + ToDo(cfg, t, n) <= ToDo(cfg, s, n)
    decreases ls
  {
    if ls != [] {
      assert !ls[0].Arrive?;
      StepTakesOne(cfg, s, ls[0], n);
      StepKeepsInv(cfg, s, ls[0]);
      RunsAreBounded(cfg, Next(cfg, s, ls[0]).value, ls[1..], t, n);
    }
  }

  // ----- and it is never stuck

  /** A client on its way has a question. */
  ghost predicate Asking(cfg: Config, s: State) {
    forall c :: c in s.clients && (s.clients[c].Arrived? || s.clients[c].Missed?) ==> cfg.keyOf(s.clients[c].q).Some?
  }

  lemma StepKeepsAsking(cfg: Config, s: State, l: Label)
    requires Asking(cfg, s) && Next(cfg, s, l).Some?
    ensures Asking(cfg, Next(cfg, s, l).value)
  {}

  lemma {:induction false} RunKeepsAsking(cfg: Config, s: State, ls: seq<Label>, t: State)
    requires Asking(cfg, s) && Reaches(cfg, s, ls, t)
    ensures Asking(cfg, t)
    decreases ls
  {
    if ls != [] {
      StepKeepsAsking(cfg, s, ls[0]);
      RunKeepsAsking(cfg, Next(cfg, s, ls[0]).value, ls[1..], t);
    }
  }

  ghost predicate CanGoOn(cfg: Config, s: State) {
    exists l: Label :: !l.Arrive? && Next(cfg, s, l).Some?
  }

  lemma OwnStep(cfg: Config, s: State, l: Label)
    requires !l.Arrive? && Next(cfg, s, l).Some?
    ensures CanGoOn(cfg, s)
  {}

  /** A flight under way gets a result from one of its upstreams, stores its winner, or ends. */
  lemma FlightGoesOn(cfg: Config, s: State, id: nat)
    requires id in s.work && id in s.group.flights && !s.work[id].phase.Over?
    ensures CanGoOn(cfg, s)
  {
    match s.work[id].phase
    case Racing(left) => OwnStep(cfg, s, if left == 0 then Finish(id) else Receive(id, Race.Empty));
    case Won(_) => OwnStep(cfg, s, Keep(id, 0));
    case Stored(_) => OwnStep(cfg, s, Finish(id));
  }

  lemma UnrepliedGoesOn(cfg: Config, s: State, c: nat)
    requires Inv(cfg, s) && Asking(cfg, s) && c in s.clients && !s.clients[c].Replied?
    ensures CanGoOn(cfg, s)
  {
    match s.clients[c]
    case Arrived(_) => OwnStep(cfg, s, TryCache(c, 0, false));
    case Missed(_) => OwnStep(cfg, s, Join(c));
    case Waiting(_, id) =>
      assert Explained(cfg, s, s.clients[c]);
      assert FlightAgrees(cfg, s, id);
      if s.group.flights[id].result.Some? { OwnStep(cfg, s, Collect(c, false)); } else { FlightGoesOn(cfg, s, id); }
  }

  /** After any run of an idle server: without new clients only so many steps follow, and when no step but an
      arrival is possible any more, every client has its reply. */
  lemma EveryClientIsAnswered(size: int, upstreams: nat, ls: seq<Label>, s: State, n: nat, ks: seq<Label>, t: State)
    requires Reaches(ServerConfig(size, upstreams), Idle, ls, s) && Below(s, n)
    requires NoArrivals(ks) && Reaches(ServerConfig(size, upstreams), s, ks, t)
    ensures |ks| <= ToDo(ServerConfig(size, upstreams), s, n)
    ensures !CanGoOn(ServerConfig(size, upstreams), t) ==> forall c :: c in t.clients ==> t.clients[c].Replied?
  {
    var cfg := ServerConfig(size, upstreams);
    ServerIsCoherent(size, upstreams);
    ServerStarts(size, upstreams);
    RunKeepsInv(cfg, Idle, ls, s);
    RunKeepsAsking(cfg, Idle, ls, s);
    RunsAreBounded(cfg, s, ks, t, n);
    RunKeepsInv(cfg, s, ks, t);
    RunKeepsAsking(cfg, s, ks, t);
    if !CanGoOn(cfg, t) {
      forall c | c in t.clients ensures t.clients[c].Replied? {
        if !t.clients[c].Replied? { UnrepliedGoesOn(cfg, t, c); }
      }
    }
  }
}
