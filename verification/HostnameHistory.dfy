/** The cache of host addresses told from the labels of a run: what each flight's resolver
    answered, what the map holds, and what exactly each caller is told. */
module HostnameHistory {
  import opened Wrappers
  import opened Singleflight
  import opened HostnameCache

  // ----- what the flights come to

  /** The resolver's answer in a flight. */
  function AnswerIn(ls: seq<Label>, id: nat): Option<Answer>
    decreases ls
  {
    if ls == [] then None
    else if ls[0].Resolve? && ls[0].id == id then Some(ls[0].answer)
    else AnswerIn(ls[1..], id)
  }

  /** An answer with at least one address. */
  predicate Good(answer: Answer) {
    answer.Addresses? && answer.ips != []
  }

  /** A flight's phase and result are what its resolver has answered, if it has. */
  ghost predicate ComesFrom(s: State, answer: Option<Answer>, id: nat) {
    && (forall g :: g in s.given && g.id == id ==> answer == Some(Addresses(g.ips)))
    && if id !in s.phases then answer.None?
    else
      match s.phases[id]
      case Resolving => answer.None?
      case Resolved(ips) => answer == Some(Addresses(ips)) && ips != []
      case Saved(ips) => answer == Some(Addresses(ips)) && ips != []
      case Broken => answer.Some? && !Good(answer.value)
      case Over =>
        && answer.Some? && id in s.group.flights
        && s.group.flights[id].result == Some(if Good(answer.value) then Some(answer.value.ips[0]) else None)
  }

  function Then(got: Option<Answer>, l: Label, id: nat): Option<Answer> {
    if got.None? && l.Resolve? && l.id == id then Some(l.answer) else got
  }

  lemma JoinComes(isLiteral: string -> bool, s: State, got: Option<Answer>, l: Label, id: nat)
    requires Valid(s.group) && ComesFrom(s, got, id) && l.Join? && Next(isLiteral, s, l).Some?
    ensures ComesFrom(Next(isLiteral, s, l).value, got, id)
  {
    DoKeepsValid(s.group, s.callers[l.c].host);
  }

  lemma ResolveComes(isLiteral: string -> bool, s: State, got: Option<Answer>, l: Label, id: nat)
    requires ComesFrom(s, got, id) && l.Resolve? && Next(isLiteral, s, l).Some?
    ensures ComesFrom(Next(isLiteral, s, l).value, Then(got, l, id), id)
  {}

  lemma EndComes(isLiteral: string -> bool, s: State, got: Option<Answer>, l: Label, id: nat)
    requires ComesFrom(s, got, id) && l.End? && Next(isLiteral, s, l).Some?
    ensures ComesFrom(Next(isLiteral, s, l).value, got, id)
  {}

  lemma StepComes(isLiteral: string -> bool, s: State, got: Option<Answer>, l: Label, id: nat)
    requires Valid(s.group) && ComesFrom(s, got, id) && Next(isLiteral, s, l).Some?
    ensures ComesFrom(Next(isLiteral, s, l).value, Then(got, l, id), id)
  {
    if l.Join? { JoinComes(isLiteral, s, got, l, id); }
    else if l.Resolve? { ResolveComes(isLiteral, s, got, l, id); }
    else if l.End? { EndComes(isLiteral, s, got, l, id); }
  }

  /** The table of flights is in order in every state of the run. */
  ghost predicate OrderlyRun(isLiteral: string -> bool, s: State, ls: seq<Label>)
    decreases ls
  {
    Valid(s.group)
    && (ls != [] ==> Next(isLiteral, s, ls[0]).Some? && OrderlyRun(isLiteral, Next(isLiteral, s, ls[0]).value, ls[1..]))
  }

  lemma {:induction false} RunIsOrderly(isLiteral: string -> bool, s: State, ls: seq<Label>, t: State)
    requires Inv(isLiteral, s) && Reaches(isLiteral, s, ls, t)
    ensures OrderlyRun(isLiteral, s, ls)
    decreases ls
  {
    if ls != [] {
      StepKeepsInv(isLiteral, s, ls[0]);
      RunIsOrderly(isLiteral, Next(isLiteral, s, ls[0]).value, ls[1..], t);
    }
  }

  lemma {:induction false} RunComes(isLiteral: string -> bool, s: State, got: Option<Answer>, ls: seq<Label>, t: State,
                                    id: nat)
    requires OrderlyRun(isLiteral, s, ls) && ComesFrom(s, got, id) && Reaches(isLiteral, s, ls, t)
    ensures ComesFrom(t, if got.Some? then got else AnswerIn(ls, id), id)
    decreases ls
  {
    if ls != [] {
      StepComes(isLiteral, s, got, ls[0], id);
      RunComes(isLiteral, Next(isLiteral, s, ls[0]).value, Then(got, ls[0], id), ls[1..], t, id);
    }
  }

  /** In every run a flight comes to the first address its resolver gives, or to a failure if it gives none. */
  lemma FlightTellsItsAnswer(isLiteral: string -> bool, ls: seq<Label>, t: State, id: nat)
    requires Reaches(isLiteral, Empty, ls, t)
    ensures ComesFrom(t, AnswerIn(ls, id), id)
  {
    RunIsOrderly(isLiteral, Empty, ls, t);
    RunComes(isLiteral, Empty, None, ls, t, id);
  }

  // ----- what the map holds

  predicate SavesFor(t: State, l: Label, host: string) {
    l.Save? && l.id in t.group.flights && t.group.flights[l.id].key == host
  }

  /** The last time an answer for this host was put in the map. */
  function LastSave(t: State, ls: seq<Label>, host: string): Option<Label>
    decreases ls
  {
    if ls == [] then None
    else
      var later := LastSave(t, ls[1..], host);
      if later.Some? then later else if SavesFor(t, ls[0], host) then Some(ls[0]) else None
  }

  lemma {:induction false} RunGrows(isLiteral: string -> bool, s: State, ls: seq<Label>, t: State)
    requires OrderlyRun(isLiteral, s, ls) && Reaches(isLiteral, s, ls, t)
    ensures Grows(s, t)
    decreases ls
  {
    if ls != [] {
      StepGrows(isLiteral, s, ls[0]);
      RunGrows(isLiteral, Next(isLiteral, s, ls[0]).value, ls[1..], t);
    }
  }

  /** What a host's entry in the map is after a run. */
  ghost predicate HoldsLast(s: State, ls: seq<Label>, t: State, host: string) {
    match LastSave(t, ls, host)
    case None => (host in t.m <==> host in s.m) && (host in t.m ==> t.m[host] == s.m[host])
    case Some(l) =>
      && l.Save? && host in t.m && t.m[host].exp == l.now + l.ttl
      && Saving(Given(l.id, host, t.m[host].ips), l.now, l.ttl) in t.saved
  }

  lemma SaveSets(isLiteral: string -> bool, s: State, l: Label, t: State, host: string)
    requires Next(isLiteral, s, l).Some? && Grows(Next(isLiteral, s, l).value, t)
    ensures var u := Next(isLiteral, s, l).value;
            if SavesFor(t, l, host) then
              && host in u.m && u.m[host].exp == l.now + l.ttl
              && Saving(Given(l.id, host, u.m[host].ips), l.now, l.ttl) in t.saved
            else (host in u.m <==> host in s.m) && (host in u.m ==> u.m[host] == s.m[host])
  {}

  lemma {:induction false} RunHolds(isLiteral: string -> bool, s: State, ls: seq<Label>, t: State, host: string)
    requires OrderlyRun(isLiteral, s, ls) && Reaches(isLiteral, s, ls, t)
    ensures HoldsLast(s, ls, t, host)
    decreases ls
  {
    if ls != [] {
      var u := Next(isLiteral, s, ls[0]).value;
      RunGrows(isLiteral, u, ls[1..], t);
      SaveSets(isLiteral, s, ls[0], t, host);
      RunHolds(isLiteral, u, ls[1..], t, host);
    }
  }

  /** In every run the map holds, for each host, what its resolver answered in the flight that saved last, until that
      saving's own TTL has run out; and nothing for other hosts. */
  lemma MapHoldsLatestSave(isLiteral: string -> bool, ls: seq<Label>, t: State, host: string)
    requires Reaches(isLiteral, Empty, ls, t)
    ensures match LastSave(t, ls, host)
            case None => host !in t.m
            case Some(l) =>
              && l.Save? && host in t.m && t.m[host].exp == l.now + l.ttl
              && t.m[host].ips != [] && AnswerIn(ls, l.id) == Some(Addresses(t.m[host].ips))
  {
    RunIsOrderly(isLiteral, Empty, ls, t);
    RunHolds(isLiteral, Empty, ls, t, host);
    RunKeepsInv(isLiteral, Empty, ls, t);
    if LastSave(t, ls, host).Some? {
      FlightTellsItsAnswer(isLiteral, ls, t, LastSave(t, ls, host).value.id);
    }
  }

  // ----- what a caller is told

  /** The context of this caller expires during the run. */
  ghost predicate Cancelled(ls: seq<Label>, c: nat) {
    Cancel(c) in ls
  }

  lemma {:induction false} CancelledIff(isLiteral: string -> bool, s: State, ls: seq<Label>, t: State, c: nat)
    requires Reaches(isLiteral, s, ls, t)
    ensures c in t.cancelled <==> c in s.cancelled || Cancelled(ls, c)
    decreases ls
  {
    if ls != [] {
      assert ls == [ls[0]] + ls[1..];
      CancelledIff(isLiteral, Next(isLiteral, s, ls[0]).value, ls[1..], t, c);
    }
  }

  /** After any run, a caller who looks gets a literal address back as it is; else the first address of the latest
      answer saved for the host, while its TTL lasts; else it goes on to a flight. */
  lemma LookOutcome(isLiteral: string -> bool, ls: seq<Label>, s: State, c: nat, now: int)
    requires Reaches(isLiteral, Empty, ls, s) && c in s.callers && s.callers[c].Calling?
    ensures var host, t := s.callers[c].host, Next(isLiteral, s, Look(c, now));
            && t.Some? && c in t.value.callers
            && var last := LastSave(s, ls, host);
               if isLiteral(host) then t.value.callers[c] == Returned(host, host, Literal)
               else if last.Some? && last.value.Save? && now < last.value.now + last.value.ttl then
                 var answer := AnswerIn(ls, last.value.id);
                 && answer.Some? && Good(answer.value)
                 && t.value.callers[c] == Returned(host, answer.value.ips[0], FromMap(now))
               else t.value.callers[c] == Missed(host)
  {
    MapHoldsLatestSave(isLiteral, ls, s, s.callers[c].host);
  }

  /** After any run, a caller waiting for a flight can go on as soon as that is over. It gets the first address the
      resolver gave; an error if that gave none; and its own cancellation, if it was cancelled and there was one. */
  lemma CollectOutcome(isLiteral: string -> bool, ls: seq<Label>, s: State, c: nat)
    requires Reaches(isLiteral, Empty, ls, s) && c in s.callers && s.callers[c].Waiting?
    ensures var host, id := s.callers[c].host, s.callers[c].id;
            var t, answer := Next(isLiteral, s, Collect(c)), AnswerIn(ls, id);
            && id in s.phases && (t.Some? <==> s.phases[id].Over?)
            && (t.Some? ==>
                  && answer.Some? && c in t.value.callers
                  && t.value.callers[c] ==
                     if !Good(answer.value) then Failed(host, id, false)
                     else if Cancelled(ls, c) then Failed(host, id, true)
                     else Returned(host, answer.value.ips[0], FromFlight(id)))
  {
    RunKeepsInv(isLiteral, Empty, ls, s);
    CancelledIff(isLiteral, Empty, ls, s, c);
    FlightTellsItsAnswer(isLiteral, ls, s, s.callers[c].id);
    assert Explained(isLiteral, s, c, s.callers[c]);
    assert FlightAgrees(s, s.callers[c].id);
  }
}
