/** What one call of Exchange or WarmPool does over a whole run, told from the labels of the
    run: how often it tries, and whether its last exchange succeeded. */
module DotPoolAttempts {
  import opened Wrappers
  import opened DotPool

  /** How often goroutine g met with this event. */
  function Times(ls: seq<Label>, g: nat, e: Event): nat {
    if ls == [] then 0
    else Times(ls[..|ls| - 1], g, e) + Bit(ls[|ls| - 1] == Run(g, e))
  }

  /** How the last dial, or write and read, of goroutine g ended. */
  function LastResult(ls: seq<Label>, g: nat): Option<Event> {
    if ls == [] then None
    else
      var l := ls[|ls| - 1];
      if l == Run(g, Succeed) || l == Run(g, Fail) then Some(l.e) else LastResult(ls[..|ls| - 1], g)
  }

  lemma OneMore(ls: seq<Label>, l: Label, g: nat, e: Event)
    ensures Times(ls + [l], g, e) == Times(ls, g, e) + Bit(l == Run(g, e))
    ensures LastResult(ls + [l], g) ==
            if l == Run(g, Succeed) || l == Run(g, Fail) then Some(l.e) else LastResult(ls, g)
  {
    assert (ls + [l])[..|ls|] == ls;
  }

  /** Once set, the closed flag stays set. */
  lemma {:induction false} ClosedStays(s: State, ls: seq<Label>, t: State)
    requires Reaches(s, ls, t) && s.closed
    ensures t.closed
    decreases ls
  {
    if ls != [] {
      var m := StepMoves(s, ls[0]);
      StepKeepsClosed(s, ls[0]);
      ClosedStays(Next(s, ls[0]).value, ls[1..], t);
    }
  }

  lemma StepKeepsClosed(s: State, l: Label)
    requires Next(s, l).Some? && s.closed
    ensures Next(s, l).value.closed
  {
    var m := StepMoves(s, l);
    if l.Run? && InClose(s.procs[l.g]) { CloseKeepsClosed(s, l.g, l.e); }
  }

  lemma CloseKeepsClosed(s: State, g: nat, e: Event)
    requires g in s.procs && CloseAct(s, g, e).Some? && s.closed
    ensures CloseAct(s, g, e).value.closed
  {}

  // ----- a failed exchange has tried twice

  /** Where an Exchange can be after so many failures, if nobody has closed the client or cancelled it;
      where a WarmPool can be after so many dials. */
  predicate Fits(pc: Pc, fails: nat, dials: nat) {
    match pc
    case Start => fails == 0
    case Acquire => fails == 0
    case Attempt(n) => fails == n <= 2
    case CheckOpen(n) => fails == n < 2
    case TakeIdle(n) => fails == n < 2
    case Dialling(n) => fails == n < 2
    case Talking(n, _) => fails == n < 2
    case CloseFailed(n, _) => fails == n + 1 <= 2
    case Release(ok) => if ok then fails < 2 else fails == 2
    case Done(ok) => if ok then fails < 2 else fails == 2
    case CheckPut(_, caller) => FitsCaller(caller, fails, dials)
    case SendPut(_, caller) => FitsCaller(caller, fails, dials)
    case ClosePut(_, caller) => FitsCaller(caller, fails, dials)
    case Warm(i) => dials == i <= POOL_SIZE
    case WarmDialling(i) => dials == i < POOL_SIZE
    case WarmDone => dials == POOL_SIZE
    case _ => true
  }

  predicate FitsCaller(caller: Caller, fails: nat, dials: nat) {
    match caller
    case ByExchange => fails < 2
    case ByWarm(i) => dials == i + 1 <= POOL_SIZE
  }

  predicate FitsAt(s: State, g: nat, fails: nat, successes: nat) {
    if g in s.procs then Fits(s.procs[g], fails, fails + successes) else fails == 0 && successes == 0
  }

  lemma GateFits(s: State, g: nat, e: Event, fails: nat, successes: nat)
    requires g in s.procs && GateAct(s, g, e).Some? && FitsAt(s, g, fails, successes) && e != Cancel && !s.closed
    ensures FitsAt(GateAct(s, g, e).value, g, fails + Bit(e.Fail?), successes + Bit(e.Succeed?))
  {}

  lemma ConnFits(s: State, g: nat, e: Event, fails: nat, successes: nat)
    requires g in s.procs && ConnAct(s, g, e).Some? && FitsAt(s, g, fails, successes) && e != Cancel && !s.closed
    ensures FitsAt(ConnAct(s, g, e).value, g, fails + Bit(e.Fail?), successes + Bit(e.Succeed?))
  {}

  lemma PutFits(s: State, g: nat, e: Event, fails: nat, successes: nat)
    requires g in s.procs && PutAct(s, g, e).Some? && FitsAt(s, g, fails, successes) && e != Cancel && !s.closed
    ensures FitsAt(PutAct(s, g, e).value, g, fails + Bit(e.Fail?), successes + Bit(e.Succeed?))
  {}

  lemma WarmFits(s: State, g: nat, e: Event, fails: nat, successes: nat)
    requires g in s.procs && WarmAct(s, g, e).Some? && FitsAt(s, g, fails, successes) && e != Cancel && !s.closed
    ensures FitsAt(WarmAct(s, g, e).value, g, fails + Bit(e.Fail?), successes + Bit(e.Succeed?))
  {}

  lemma CloseFits(s: State, g: nat, e: Event, fails: nat, successes: nat)
    requires g in s.procs && CloseAct(s, g, e).Some? && FitsAt(s, g, fails, successes) && e != Cancel && !s.closed
    ensures FitsAt(CloseAct(s, g, e).value, g, fails + Bit(e.Fail?), successes + Bit(e.Succeed?))
  {}

  lemma OwnStepFits(s: State, g: nat, e: Event, fails: nat, successes: nat)
    requires g in s.procs && Act(s, g, e).Some? && FitsAt(s, g, fails, successes) && e != Cancel && !s.closed
    ensures FitsAt(Act(s, g, e).value, g, fails + Bit(e.Fail?), successes + Bit(e.Succeed?))
  {
    var pc := s.procs[g];
    if Putting(pc) { PutFits(s, g, e, fails, successes); }
    else if Warming(pc) { WarmFits(s, g, e, fails, successes); }
    else if InClose(pc) { CloseFits(s, g, e, fails, successes); }
    else if InGate(pc) { GateFits(s, g, e, fails, successes); }
    else { ConnFits(s, g, e, fails, successes); }
  }

  lemma StepFits(s: State, l: Label, g: nat, fails: nat, successes: nat)
    requires Next(s, l).Some? && FitsAt(s, g, fails, successes) && l != Run(g, Cancel) && !s.closed
    ensures FitsAt(Next(s, l).value, g, fails + Bit(l == Run(g, Fail)), successes + Bit(l == Run(g, Succeed)))
  {
    if l.g == g && l.Run? {
      OwnStepFits(s, g, l.e, fails, successes);
    } else if l.g != g {
      var m := StepMoves(s, l);
    }
  }

  /** Nothing cancels goroutine g. */
  predicate NeverCancelled(ls: seq<Label>, g: nat) {
    forall i :: 0 <= i < |ls| ==> ls[i] != Run(g, Cancel)
  }

  lemma {:induction false} RunFits(s: State, before: seq<Label>, ls: seq<Label>, t: State, g: nat)
    requires FitsAt(s, g, Times(before, g, Fail), Times(before, g, Succeed))
    requires Reaches(s, ls, t) && NeverCancelled(ls, g) && !t.closed
    ensures FitsAt(t, g, Times(before + ls, g, Fail), Times(before + ls, g, Succeed))
    decreases ls
  {
    if ls == [] {
      assert before + ls == before;
    } else {
      if s.closed { ClosedStays(s, ls, t); }
      assert ls[0] != Run(g, Cancel);
      StepFits(s, ls[0], g, Times(before, g, Fail), Times(before, g, Succeed));
      OneMore(before, ls[0], g, Fail);
      OneMore(before, ls[0], g, Succeed);
      RunFits(Next(s, ls[0]).value, before + [ls[0]], ls[1..], t, g);
      assert (before + [ls[0]]) + ls[1..] == before + ls;
    }
  }

  /** In every run of a new client that nobody has closed: an Exchange that returned an error, and was not cancelled,
      has failed exactly twice, dialling or on a connection. One that succeeded has failed at most once. */
  lemma FailedExchangeTriedTwice(ls: seq<Label>, t: State, g: nat)
    requires Reaches(NewClient, ls, t) && g in t.procs && t.procs[g].Done?
    requires !t.closed && NeverCancelled(ls, g)
    ensures if t.procs[g].ok then Times(ls, g, Fail) <= 1 else Times(ls, g, Fail) == 2
  {
    RunFits(NewClient, [], ls, t, g);
    assert [] + ls == ls;
  }

  /** And a WarmPool that ran to its end has dialled once for every place in the pool. */
  lemma WarmPoolFillsEveryPlace(ls: seq<Label>, t: State, g: nat)
    requires Reaches(NewClient, ls, t) && g in t.procs && t.procs[g].WarmDone?
    requires !t.closed && NeverCancelled(ls, g)
    ensures Times(ls, g, Succeed) + Times(ls, g, Fail) == 8
  {
    RunFits(NewClient, [], ls, t, g);
    assert [] + ls == ls;
  }

  // ----- an exchange succeeds exactly if its last write and read did

  predicate Ends(pc: Pc, last: Option<Event>) {
    match pc
    case Talking(_, _) => true
    case Release(ok) => ok <==> last == Some(Succeed)
    case Done(ok) => ok <==> last == Some(Succeed)
    case CheckPut(_, caller) => caller.ByExchange? ==> last == Some(Succeed)
    case SendPut(_, caller) => caller.ByExchange? ==> last == Some(Succeed)
    case ClosePut(_, caller) => caller.ByExchange? ==> last == Some(Succeed)
    case _ => Exchanging(pc) ==> last != Some(Succeed)
  }

  predicate Exchanging(pc: Pc) {
    pc.Start? || pc.Acquire? || pc.Attempt? || pc.CheckOpen? || pc.TakeIdle? || pc.Dialling? || pc.CloseFailed?
  }

  predicate EndsAt(s: State, g: nat, last: Option<Event>) {
    if g in s.procs then Ends(s.procs[g], last) else last.None?
  }

  lemma GateEnds(s: State, g: nat, e: Event, last: Option<Event>)
    requires g in s.procs && GateAct(s, g, e).Some? && EndsAt(s, g, last)
    ensures EndsAt(GateAct(s, g, e).value, g, if e.Succeed? || e.Fail? then Some(e) else last)
  {}

  lemma ConnEnds(s: State, g: nat, e: Event, last: Option<Event>)
    requires g in s.procs && ConnAct(s, g, e).Some? && EndsAt(s, g, last)
    ensures EndsAt(ConnAct(s, g, e).value, g, if e.Succeed? || e.Fail? then Some(e) else last)
  {}

  lemma PutEnds(s: State, g: nat, e: Event, last: Option<Event>)
    requires g in s.procs && PutAct(s, g, e).Some? && EndsAt(s, g, last)
    ensures EndsAt(PutAct(s, g, e).value, g, if e.Succeed? || e.Fail? then Some(e) else last)
  {}

  lemma WarmEnds(s: State, g: nat, e: Event, last: Option<Event>)
    requires g in s.procs && WarmAct(s, g, e).Some? && EndsAt(s, g, last)
    ensures EndsAt(WarmAct(s, g, e).value, g, if e.Succeed? || e.Fail? then Some(e) else last)
  {}

  lemma CloseEnds(s: State, g: nat, e: Event, last: Option<Event>)
    requires g in s.procs && CloseAct(s, g, e).Some? && EndsAt(s, g, last)
    ensures EndsAt(CloseAct(s, g, e).value, g, if e.Succeed? || e.Fail? then Some(e) else last)
  {}

  lemma OwnStepEnds(s: State, g: nat, e: Event, last: Option<Event>)
    requires g in s.procs && Act(s, g, e).Some? && EndsAt(s, g, last)
    ensures EndsAt(Act(s, g, e).value, g, if e.Succeed? || e.Fail? then Some(e) else last)
  {
    var pc := s.procs[g];
    if Putting(pc) { PutEnds(s, g, e, last); }
    else if Warming(pc) { WarmEnds(s, g, e, last); }
    else if InClose(pc) { CloseEnds(s, g, e, last); }
    else if InGate(pc) { GateEnds(s, g, e, last); }
    else { ConnEnds(s, g, e, last); }
  }

  lemma StepEnds(s: State, l: Label, g: nat, last: Option<Event>)
    requires Next(s, l).Some? && EndsAt(s, g, last)
    ensures EndsAt(Next(s, l).value, g, if l == Run(g, Succeed) || l == Run(g, Fail) then Some(l.e) else last)
  {
    if l.g == g && l.Run? {
      OwnStepEnds(s, g, l.e, last);
    } else if l.g != g {
      var m := StepMoves(s, l);
    }
  }

  lemma {:induction false} RunEnds(s: State, before: seq<Label>, ls: seq<Label>, t: State, g: nat)
    requires EndsAt(s, g, LastResult(before, g)) && Reaches(s, ls, t)
    ensures EndsAt(t, g, LastResult(before + ls, g))
    decreases ls
  {
    if ls == [] {
      assert before + ls == before;
    } else {
      StepEnds(s, ls[0], g, LastResult(before, g));
      OneMore(before, ls[0], g, Fail);
      RunEnds(Next(s, ls[0]).value, before + [ls[0]], ls[1..], t, g);
      assert (before + [ls[0]]) + ls[1..] == before + ls;
    }
  }

  /** In every run, cancelled and closed as it may be: an Exchange succeeds exactly if the last that it tried did.
      A dial that succeeds is not the last, because a write and read on the new connection follows. */
  lemma SucceedsIffLastDid(ls: seq<Label>, t: State, g: nat)
    requires Reaches(NewClient, ls, t) && g in t.procs && t.procs[g].Done?
    ensures t.procs[g].ok <==> LastResult(ls, g) == Some(Succeed)
  {
    RunEnds(NewClient, [], ls, t, g);
    assert [] + ls == ls;
  }
}
