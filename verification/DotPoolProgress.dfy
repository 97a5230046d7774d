/** The pool never gets stuck: whatever the contexts do, calls that have been made always
    have a step to take until all of them have returned, and they take a bounded number. */
module DotPoolProgress {
  import opened Totals
  import opened DotPool
  import opened DotPoolSafety
  import opened DotPoolShutdown

  // ----- a bound on the steps

  /** Steps an attempt and those after it can take. */
  function AttemptsLeft(n: nat): nat {
    if n >= 2 then 2 else if n == 1 then 10 else 18
  }

  function WarmLeft(i: nat): nat {
    if i >= POOL_SIZE then 1 else 1 + 7 * (POOL_SIZE - i)
  }

  function AfterPutLeft(caller: Caller): nat {
    match caller
    case ByExchange => 1
    case ByWarm(i) => WarmLeft(i + 1)
  }

  /** What a goroutine has left to do; an idle connection counts for two steps of whoever drains it. */
  function Left(pc: Pc): nat {
    match pc
    case Start => AttemptsLeft(0) + 2
    case Acquire => AttemptsLeft(0) + 1
    case Attempt(n) => AttemptsLeft(n)
    case CheckOpen(n) => AttemptsLeft(n + 1) + 7
    case TakeIdle(n) => AttemptsLeft(n + 1) + 6
    case Dialling(n) => AttemptsLeft(n + 1) + 5
    case Talking(n, _) => AttemptsLeft(n + 1) + 4
    case CloseFailed(n, _) => AttemptsLeft(n + 1) + 1
    case Release(_) => 1
    case Done(_) => 0
    case CheckPut(_, caller) => AfterPutLeft(caller) + 4
    case SendPut(_, caller) => AfterPutLeft(caller) + 3
    case ClosePut(_, caller) => AfterPutLeft(caller) + 1
    case Warm(i) => WarmLeft(i)
    case WarmDialling(i) => WarmLeft(i + 1) + 5
    case WarmDone => 0
    case CloseCall => 3
    case CloseFlag => 2
    case CloseDrain => 1
    case CloseConn(_) => 2
    case CloseDone => 0
  }

  function ToDo(s: State, n: nat): nat {
    Total(s.procs, Left, n) + 2 * |s.pool|
  }

  ghost predicate Progresses(s: State, g: nat, t: State)
    requires g in s.procs
  {
    g in t.procs && Left(t.procs[g]) + 2 * |t.pool| < Left(s.procs[g]) + 2 * |s.pool|
  }

  lemma GateProgresses(s: State, g: nat, e: Event)
    requires g in s.procs && GateAct(s, g, e).Some?
    ensures Progresses(s, g, GateAct(s, g, e).value)
  {}

  lemma ConnProgresses(s: State, g: nat, e: Event)
    requires g in s.procs && ConnAct(s, g, e).Some?
    ensures Progresses(s, g, ConnAct(s, g, e).value)
  {}

  lemma PutProgresses(s: State, g: nat, e: Event)
    requires g in s.procs && PutAct(s, g, e).Some?
    ensures Progresses(s, g, PutAct(s, g, e).value)
  {}

  lemma WarmProgresses(s: State, g: nat, e: Event)
    requires g in s.procs && WarmAct(s, g, e).Some?
    ensures Progresses(s, g, WarmAct(s, g, e).value)
  {}

  lemma CloseProgresses(s: State, g: nat, e: Event)
    requires g in s.procs && CloseAct(s, g, e).Some?
    ensures Progresses(s, g, CloseAct(s, g, e).value)
  {}

  lemma StepProgresses(s: State, g: nat, e: Event)
    requires g in s.procs && Act(s, g, e).Some?
    ensures Progresses(s, g, Act(s, g, e).value)
  {
    var pc := s.procs[g];
    if Putting(pc) { PutProgresses(s, g, e); }
    else if Warming(pc) { WarmProgresses(s, g, e); }
    else if InClose(pc) { CloseProgresses(s, g, e); }
    else if InGate(pc) { GateProgresses(s, g, e); }
    else { ConnProgresses(s, g, e); }
  }

  lemma StepTakesOne(s: State, l: Label, n: nat)
    requires l.Run? && l.g < n && Next(s, l).Some?
    ensures ToDo(Next(s, l).value, n) < ToDo(s, n)
    ensures Next(s, l).value.procs.Keys == s.procs.Keys
  {
    var t := Next(s, l).value;
    var m := StepMoves(s, l);
    StepProgresses(s, l.g, l.e);
    TotalUpdate(s.procs, Left, n, l.g, t.procs[l.g]);
  }

  ghost predicate OnlyRuns(ls: seq<Label>) {
    forall i :: 0 <= i < |ls| ==> ls[i].Run?
  }

  ghost predicate Below(s: State, n: nat) {
    forall g :: g in s.procs ==> g < n
  }

  /** Without new calls, no run takes more steps than there was to do. */
  lemma {:induction false} RunsAreBounded(s: State, ls: seq<Label>, t: State, n: nat)
    requires Below(s, n) && OnlyRuns(ls) && Reaches(s, ls, t)
    ensures |ls| + ToDo(t, n) <= ToDo(s, n) && Below(t, n)
    decreases ls
  {
    if ls != [] {
      assert ls[0].Run?;
      StepTakesOne(s, ls[0], n);
      RunsAreBounded(Next(s, ls[0]).value, ls[1..], t, n);
    }
  }

  // ----- and it is never stuck

  /** Whoever the sync.Once let in is in the body of Close or has finished it. */
  ghost predicate OnceRuns(s: State) {
    s.once.Some? ==> s.once.value in s.procs && (Draining(s.procs[s.once.value]) || s.procs[s.once.value].CloseDone?)
  }

  lemma CloseKeepsOnce(s: State, g: nat, e: Event)
    requires OnceRuns(s) && g in s.procs && CloseAct(s, g, e).Some?
    ensures OnceRuns(CloseAct(s, g, e).value)
  {}

  lemma StepKeepsOnce(s: State, l: Label)
    requires OnceRuns(s) && Next(s, l).Some?
    ensures OnceRuns(Next(s, l).value)
  {
    if l.Run? {
      var pc := s.procs[l.g];
      var m := StepMoves(s, l);
      if Putting(pc) { PutStaysOut(s, l.g, l.e); }
      else if Warming(pc) { WarmStaysOut(s, l.g, l.e); }
      else if InClose(pc) { CloseKeepsOnce(s, l.g, l.e); }
      else if InGate(pc) { GateStaysOut(s, l.g, l.e); }
      else { ConnStaysOut(s, l.g, l.e); }
    }
  }

  lemma {:induction false} RunKeepsOnce(s: State, ls: seq<Label>, t: State)
    requires OnceRuns(s) && Reaches(s, ls, t)
    ensures OnceRuns(t)
    decreases ls
  {
    if ls != [] {
      StepKeepsOnce(s, ls[0]);
      RunKeepsOnce(Next(s, ls[0]).value, ls[1..], t);
    }
  }

  /** Some goroutine can go on, and not because a context has expired. */
  ghost predicate CanGoOn(s: State) {
    exists g, e :: g in s.procs && e != Cancel && Act(s, g, e).Some?
  }

  lemma OwnStep(s: State, g: nat, e: Event)
    requires g in s.procs && e != Cancel && Act(s, g, e).Some?
    ensures CanGoOn(s)
  {}

  /** A goroutine that waits for nobody. */
  lemma FreeGoesOn(s: State, g: nat)
    requires Inv(s) && g in s.procs && !Finished(s.procs[g]) && !s.procs[g].Acquire? && !s.procs[g].CloseCall?
    ensures CanGoOn(s)
  {
    if s.procs[g].Release? { HolderHasToken(s, g); }
    var pc := s.procs[g];
    OwnStep(s, g, if pc.Dialling? || pc.Talking? || pc.WarmDialling? then Succeed else Go);
  }

  lemma SomeHolder(s: State) returns (g: nat)
    requires s.sem == CountIf(s.procs, Holds) && s.sem > 0
    ensures g in s.procs && Holds(s.procs[g])
  {
    assert Procs(s.procs, Holds) != {};
    g :| g in Procs(s.procs, Holds);
  }

  lemma UnfinishedGoesOn(s: State, g: nat)
    requires Inv(s) && OnceRuns(s) && g in s.procs && !Finished(s.procs[g])
    ensures CanGoOn(s)
  {
    if s.procs[g].Acquire? && s.sem >= POOL_SIZE {
      var h := SomeHolder(s);
      FreeGoesOn(s, h);
    } else if s.procs[g].CloseCall? && s.once.Some? && !s.procs[s.once.value].CloseDone? {
      FreeGoesOn(s, s.once.value);
    } else if s.procs[g].Acquire? || s.procs[g].CloseCall? {
      OwnStep(s, g, Go);
    } else {
      FreeGoesOn(s, g);
    }
  }

  /** After any run of a new client: as long as some call has not returned, some goroutine can go on without
      any context expiring; and without new calls only so many steps follow. */
  lemma CallsReturn(ls: seq<Label>, s: State, n: nat, ks: seq<Label>, t: State)
    requires Reaches(NewClient, ls, s) && Below(s, n) && OnlyRuns(ks) && Reaches(s, ks, t)
    ensures |ks| <= ToDo(s, n)
    ensures !CanGoOn(t) ==> forall g :: g in t.procs ==> Finished(t.procs[g])
  {
    InitialInv();
    RunsAreBounded(s, ks, t, n);
    ReachesThrough(NewClient, ls, s, ks, t);
    RunKeepsInv(NewClient, ls + ks, t);
    RunKeepsOnce(NewClient, ls + ks, t);
    if !CanGoOn(t) {
      forall g | g in t.procs ensures Finished(t.procs[g]) {
        if !Finished(t.procs[g]) { UnfinishedGoesOn(t, g); }
      }
    }
  }
}
