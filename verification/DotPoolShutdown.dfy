/** What Close guarantees, and what its comment over-claims: exactly which exchanges can
    still succeed after the closed flag is set, and exactly when the pool stays empty. */
module DotPoolShutdown {
  import opened Wrappers
  import opened DotPool
  import opened DotPoolSafety

  lemma {:induction false} ReachesThrough(s: State, ls: seq<Label>, m: State, ks: seq<Label>, t: State)
    requires Reaches(s, ls, m) && Reaches(m, ks, t)
    ensures Reaches(s, ls + ks, t)
    decreases ls
  {
    if ls == [] {
      assert ls + ks == ks;
    } else {
      ReachesThrough(Next(s, ls[0]).value, ls[1..], m, ks, t);
      assert (ls + ks)[1..] == ls[1..] + ks;
    }
  }

  lemma OneStep(s: State, l: Label)
    requires Next(s, l).Some?
    ensures Reaches(s, [l], Next(s, l).value)
  {
    assert [l][1..] == [];
    assert Reaches(Next(s, l).value, [], Next(s, l).value);
  }

  /** Steps of other goroutines leave a goroutine where it is. */
  lemma OthersLeaveAlone(s: State, l: Label, g: nat)
    requires Next(s, l).Some? && g in s.procs && l.g != g
    ensures g in Next(s, l).value.procs && Next(s, l).value.procs[g] == s.procs[g]
  {
    var m := StepMoves(s, l);
  }

  // ----- exchanges and the closed flag

  /** A new Exchange that finds the client closed only ever fails; it never dials. */
  lemma {:induction false} LateExchangeFails(s: State, ls: seq<Label>, t: State, g: nat)
    requires Inv(s) && s.closed && g in s.procs && (s.procs[g].Start? || s.procs[g] == Done(false))
    requires Reaches(s, ls, t)
    ensures g in t.procs && (t.procs[g].Start? || t.procs[g] == Done(false))
    decreases ls
  {
    if ls != [] {
      var u := Next(s, ls[0]).value;
      StepKeepsInv(s, ls[0]);
      StepKeepsFlags(s, ls[0]);
      if ls[0].g != g { OthersLeaveAlone(s, ls[0], g); }
      LateExchangeFails(u, ls[1..], t, g);
    }
  }

  /** In every run: an Exchange called after some Close has returned never gets past its first check. */
  lemma ExchangeAfterCloseFails(ls: seq<Label>, s: State, w: nat, g: nat, ks: seq<Label>, t: State)
    requires Reaches(NewClient, ls, s) && w in s.procs && s.procs[w].CloseDone? && g !in s.procs
    requires Reaches(Next(s, Call(g)).value, ks, t)
    ensures g in t.procs && (t.procs[g].Start? || t.procs[g] == Done(false))
  {
    InitialInv();
    RunKeepsInv(NewClient, ls, s);
    StepKeepsInv(s, Call(g));
    LateExchangeFails(Next(s, Call(g)).value, ks, t, g);
  }

  /** Past the closed check of getConn, or already holding a connection without an error. */
  predicate PastCheck(pc: Pc) {
    match pc
    case TakeIdle(_) => true
    case Dialling(_) => true
    case Talking(_, _) => true
    case CheckPut(_, caller) => caller.ByExchange?
    case SendPut(_, caller) => caller.ByExchange?
    case ClosePut(_, caller) => caller.ByExchange?
    case Release(ok) => ok
    case Done(ok) => ok
    case _ => false
  }

  lemma StepStaysShort(s: State, g: nat, e: Event)
    requires s.closed && g in s.procs && !PastCheck(s.procs[g]) && Act(s, g, e).Some?
    ensures !PastCheck(Act(s, g, e).value.procs[g])
  {
    var pc := s.procs[g];
    if Putting(pc) { WarmPutStaysShort(s, g, e); }
    else if InClose(pc) { CloseStaysShort(s, g, e); }
  }

  lemma WarmPutStaysShort(s: State, g: nat, e: Event)
    requires g in s.procs && !PastCheck(s.procs[g]) && PutAct(s, g, e).Some?
    ensures !PastCheck(PutAct(s, g, e).value.procs[g])
  {}

  lemma CloseStaysShort(s: State, g: nat, e: Event)
    requires g in s.procs && CloseAct(s, g, e).Some?
    ensures !PastCheck(CloseAct(s, g, e).value.procs[g])
  {}

  lemma {:induction false} ShortOfCheckFails(s: State, ls: seq<Label>, t: State, g: nat)
    requires Inv(s) && s.closed && g in s.procs && !PastCheck(s.procs[g]) && Reaches(s, ls, t)
    ensures g in t.procs && !PastCheck(t.procs[g])
    decreases ls
  {
    if ls != [] {
      var u := Next(s, ls[0]).value;
      StepKeepsInv(s, ls[0]);
      StepKeepsFlags(s, ls[0]);
      if ls[0].g != g { OthersLeaveAlone(s, ls[0], g); } else { StepStaysShort(s, g, ls[0].e); }
      ShortOfCheckFails(u, ls[1..], t, g);
    }
  }

  /** Steps left to a successful return. */
  function ToGo(pc: Pc): nat {
    match pc
    case TakeIdle(_) => 7
    case Dialling(_) => 6
    case Talking(_, _) => 5
    case CheckPut(_, _) => 4
    case SendPut(_, _) => 3
    case ClosePut(_, _) => 2
    case Release(_) => 1
    case _ => 0
  }

  lemma HolderHasToken(s: State, g: nat)
    requires Inv(s) && g in s.procs && Holds(s.procs[g])
    ensures s.sem > 0
  {
    SubsetCount({g}, Procs(s.procs, Holds));
  }

  lemma SucceedStep(s: State, g: nat) returns (e: Event)
    requires Inv(s) && g in s.procs && PastCheck(s.procs[g]) && !s.procs[g].Done?
    ensures Act(s, g, e).Some?
    ensures var pc := Act(s, g, e).value.procs[g]; PastCheck(pc) && ToGo(pc) < ToGo(s.procs[g])
  {
    e := if s.procs[g].Dialling? || s.procs[g].Talking? then Succeed else Go;
    if s.procs[g].Release? { HolderHasToken(s, g); }
  }

  lemma {:induction false} SucceedRun(s: State, g: nat) returns (ls: seq<Label>, t: State)
    requires Inv(s) && g in s.procs && PastCheck(s.procs[g])
    ensures Reaches(s, ls, t) && g in t.procs && t.procs[g] == Done(true)
    decreases ToGo(s.procs[g])
  {
    if s.procs[g].Done? {
      ls, t := [], s;
    } else {
      var e := SucceedStep(s, g);
      var l := Run(g, e);
      var u := Next(s, l).value;
      StepKeepsInv(s, l);
      OneStep(s, l);
      var rest;
      rest, t := SucceedRun(u, g);
      ls := [l] + rest;
      ReachesThrough(s, [l], u, rest, t);
    }
  }

  /** Some continuation brings the Exchange of g to a successful return. */
  ghost predicate MaySucceed(s: State, g: nat) {
    exists ls, t :: Reaches(s, ls, t) && g in t.procs && t.procs[g] == Done(true)
  }

  lemma CannotSucceed(s: State, g: nat)
    requires Inv(s) && s.closed && g in s.procs && !PastCheck(s.procs[g])
    ensures !MaySucceed(s, g)
  {
    forall ls, t | Reaches(s, ls, t) ensures g in t.procs && !PastCheck(t.procs[g]) {
      ShortOfCheckFails(s, ls, t, g);
    }
  }

  lemma CanSucceed(s: State, g: nat)
    requires Inv(s) && g in s.procs && PastCheck(s.procs[g])
    ensures MaySucceed(s, g)
  {
    var ls, t := SucceedRun(s, g);
  }

  /** Once the flag is set, an Exchange can still succeed exactly when it is past the closed
      check of getConn and has not seen an error on its connection. */
  lemma SucceedsAfterCloseIff(s: State, g: nat)
    requires Inv(s) && s.closed && g in s.procs
    ensures MaySucceed(s, g) <==> PastCheck(s.procs[g])
  {
    if PastCheck(s.procs[g]) { CanSucceed(s, g); } else { CannotSucceed(s, g); }
  }

  // ----- the pool after Close

  /** The flag is set, nobody is about to send, and whoever has returned from Close left the pool empty. */
  ghost predicate Sealed(s: State) {
    && s.closed
    && (forall g :: g in s.procs ==> !s.procs[g].SendPut?)
    && (forall g :: g in s.procs && s.procs[g].CloseDone? ==> s.pool == [])
  }

  lemma PutStaysSealed(s: State, g: nat, e: Event)
    requires s.closed && g in s.procs && !s.procs[g].SendPut? && PutAct(s, g, e).Some?
    ensures var t := PutAct(s, g, e).value; t.pool == s.pool && !t.procs[g].SendPut? && !t.procs[g].CloseDone?
  {}

  lemma CloseStaysSealed(s: State, g: nat, e: Event)
    requires Sealed(s) && g in s.procs && CloseAct(s, g, e).Some?
    ensures var t := CloseAct(s, g, e).value;
            !t.procs[g].SendPut? && (t.procs[g].CloseDone? ==> t.pool == []) && (s.pool == [] ==> t.pool == [])
  {}

  lemma GateStaysSealed(s: State, g: nat, e: Event)
    requires g in s.procs && GateAct(s, g, e).Some?
    ensures var t := GateAct(s, g, e).value;
            t.pool == s.pool && !t.procs[g].SendPut? && !t.procs[g].CloseDone?
  {}

  lemma ConnStaysSealed(s: State, g: nat, e: Event)
    requires g in s.procs && ConnAct(s, g, e).Some?
    ensures var t := ConnAct(s, g, e).value;
            (s.pool == [] ==> t.pool == []) && !t.procs[g].SendPut? && !t.procs[g].CloseDone?
  {}

  lemma StepStaysSealed(s: State, l: Label)
    requires Inv(s) && Sealed(s) && Next(s, l).Some?
    ensures Sealed(Next(s, l).value)
  {
    var m := StepMoves(s, l);
    StepKeepsFlags(s, l);
    if l.Run? {
      var pc := s.procs[l.g];
      if Putting(pc) { PutStaysSealed(s, l.g, l.e); }
      else if InClose(pc) { CloseStaysSealed(s, l.g, l.e); }
      else if InGate(pc) { GateStaysSealed(s, l.g, l.e); }
      else if !Warming(pc) { ConnStaysSealed(s, l.g, l.e); }
    }
  }

  lemma {:induction false} SealedForGood(s: State, ls: seq<Label>, t: State)
    requires Inv(s) && Sealed(s) && Reaches(s, ls, t)
    ensures Inv(t) && Sealed(t)
    decreases ls
  {
    if ls != [] {
      StepKeepsInv(s, ls[0]);
      StepStaysSealed(s, ls[0]);
      SealedForGood(Next(s, ls[0]).value, ls[1..], t);
    }
  }

  /** Close drains the pool on its own. */
  lemma DrainRun(s: State, w: nat) returns (ls: seq<Label>, t: State)
    requires w in s.procs && s.procs[w].CloseDrain?
    ensures Reaches(s, ls, t) && t.procs == s.procs[w := CloseDone] && t.pool == []
    decreases |s.pool|
  {
    var go := Run(w, Go);
    var u := Next(s, go).value;
    OneStep(s, go);
    if s.pool == [] {
      ls, t := [go], u;
    } else {
      var v := Next(u, go).value;
      OneStep(u, go);
      var rest;
      rest, t := DrainRun(v, w);
      ReachesThrough(u, [go], v, rest, t);
      ReachesThrough(s, [go], u, [go] + rest, t);
      ls := [go] + ([go] + rest);
      assert s.procs[w := CloseConn(s.pool[0])][w := CloseDrain][w := CloseDone] == s.procs[w := CloseDone];
    }
  }

  /** Whatever happens next, the pool is empty whenever the Close of w has returned. */
  ghost predicate EmptyOnceClosed(s: State, w: nat) {
    forall ls, t :: Reaches(s, ls, t) ==> ReturnedEmpty(t, w)
  }

  ghost predicate ReturnedEmpty(t: State, w: nat) {
    w in t.procs && t.procs[w].CloseDone? ==> t.pool == []
  }

  predicate NoneSending(s: State) {
    forall g :: g in s.procs ==> !s.procs[g].SendPut?
  }

  lemma SealedEmpties(s: State, w: nat)
    requires Inv(s) && s.closed && NoneSending(s)
    requires forall g :: g in s.procs ==> !s.procs[g].CloseDone?
    ensures EmptyOnceClosed(s, w)
  {
    forall ls, t | Reaches(s, ls, t) ensures ReturnedEmpty(t, w) {
      SealedForGood(s, ls, t);
    }
  }

  /** A putConn that slipped past the check pushes after the drain. */
  lemma LeakRun(s: State, w: nat, p: nat) returns (ls: seq<Label>, t: State)
    requires w in s.procs && s.procs[w].CloseDrain? && p in s.procs && s.procs[p].SendPut?
    ensures Reaches(s, ls, t) && w in t.procs && t.procs[w].CloseDone? && t.pool == [s.procs[p].conn]
  {
    var drain, drained := DrainRun(s, w);
    t := Next(drained, Run(p, Go)).value;
    OneStep(drained, Run(p, Go));
    ReachesThrough(s, drain, drained, [Run(p, Go)], t);
    ls := drain + [Run(p, Go)];
  }

  /** From the moment Close sets the flag: the pool is sure to be empty whenever Close has
      returned exactly when, at that moment, no putConn is between its closed check and its send. */
  lemma PoolStaysEmptyIff(s: State, w: nat)
    requires Inv(s) && s.closed && w in s.procs && s.procs[w].CloseDrain?
    requires forall g :: g in s.procs ==> !s.procs[g].CloseDone?
    ensures EmptyOnceClosed(s, w) <==> NoneSending(s)
  {
    if NoneSending(s) {
      SealedEmpties(s, w);
    } else {
      var p :| p in s.procs && s.procs[p].SendPut?;
      var ls, t := LeakRun(s, w, p);
      assert !ReturnedEmpty(t, w);
    }
  }

  /** Once sealed and returned from, every connection ever dialled is closed or still in the
      hands of the goroutine that will close it. */
  lemma NothingLeaks(s: State, w: nat, c: Conn)
    requires Inv(s) && Sealed(s) && w in s.procs && s.procs[w].CloseDone? && c < s.next
    ensures s.shut[c] == 1 || exists g :: g in s.procs && Owns(s.procs[g]) == Some(c)
  {
    ExactlyOnePlace(s, c);
  }

  // ----- who closes what

  lemma SealedStepCloses(s: State, l: Label, g: nat, c: Conn)
    requires Inv(s) && Sealed(s) && Next(s, l).Some?
    requires OwnedBy(s, g) == Some(c) || s.shut[c] >= 1
    ensures OwnedBy(Next(s, l).value, g) == Some(c) || Next(s, l).value.shut[c] >= 1
  {
    var m := StepMoves(s, l);
    if l.g != g && g in s.procs { OthersLeaveAlone(s, l, g); }
  }

  /** Once sealed: whoever owns a connection keeps it until it is closed. */
  lemma {:induction false} OwnersClose(s: State, ls: seq<Label>, t: State, g: nat, c: Conn)
    requires Inv(s) && Sealed(s) && Reaches(s, ls, t)
    requires OwnedBy(s, g) == Some(c) || s.shut[c] >= 1
    ensures OwnedBy(t, g) == Some(c) || t.shut[c] == 1
    decreases ls
  {
    if ls != [] {
      SealedStepCloses(s, ls[0], g, c);
      StepKeepsInv(s, ls[0]);
      StepStaysSealed(s, ls[0]);
      OwnersClose(Next(s, ls[0]).value, ls[1..], t, g, c);
    } else {
      assert Places(s, c) == Bit(c < s.next);
    }
  }

  /** From the moment Close sets the flag, if nobody is then about to send: a connection some goroutine owns
      at any later time is closed, once, by the time that goroutine no longer owns it, and so when it is done. */
  lemma OwnersCloseAfterFlag(s: State, ls: seq<Label>, m: State, g: nat, c: Conn, ks: seq<Label>, t: State)
    requires Inv(s) && s.closed && NoneSending(s) && forall h :: h in s.procs ==> !s.procs[h].CloseDone?
    requires Reaches(s, ls, m) && OwnedBy(m, g) == Some(c) && Reaches(m, ks, t)
    ensures OwnedBy(t, g) != Some(c) ==> t.shut[c] == 1
  {
    SealedForGood(s, ls, m);
    OwnersClose(m, ks, t, g, c);
  }

  predicate Finished(pc: Pc) {
    pc.Done? || pc.WarmDone? || pc.CloseDone?
  }

  /** And when all goroutines are done, every connection ever dialled is closed. */
  lemma AllClosedInTheEnd(s: State, ls: seq<Label>, t: State, w: nat, c: Conn)
    requires Inv(s) && s.closed && NoneSending(s) && forall h :: h in s.procs ==> !s.procs[h].CloseDone?
    requires Reaches(s, ls, t) && w in t.procs && t.procs[w].CloseDone?
    requires (forall h :: h in t.procs ==> Finished(t.procs[h])) && c < t.next
    ensures t.shut[c] == 1
  {
    SealedForGood(s, ls, t);
    NothingLeaks(t, w, c);
  }
}
