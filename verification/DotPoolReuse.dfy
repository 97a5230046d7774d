/** What the pool is for: connections are reused. As long as nothing fails, a client dials no
    more connections than exchanges ever overlapped, and closes none. */
module DotPoolReuse {
  import opened DotPool
  import opened DotPoolSafety
  import opened DotPoolAttempts

  /** At most k tokens are in use in every state of the run. */
  ghost predicate Overlap(s: State, ls: seq<Label>, k: nat)
    decreases ls
  {
    s.sem <= k && (ls != [] && Next(s, ls[0]).Some? ==> Overlap(Next(s, ls[0]).value, ls[1..], k))
  }

  /** Exchange and Close only, with no dial and no write or read failing. */
  predicate Fine(l: Label) {
    !l.CallWarm? && (l.Run? ==> l.e != Fail)
  }

  /** Where a goroutine can be when nothing has failed or been closed. */
  predicate Healthy(pc: Pc) {
    && !IsWarm(pc) && !Warming(pc) && !Closing(pc)
    && !pc.CloseFailed? && !pc.ClosePut?
  }

  predicate Owning(pc: Pc) {
    Owns(pc).Some?
  }

  ghost predicate Frugal(s: State, k: nat) {
    && (forall g :: g in s.procs ==> Healthy(s.procs[g]))
    && s.shut == multiset{}
    && s.next == |s.pool| + CountIf(s.procs, Owning)
    && Live(s) <= k
  }

  /** What a step of a goroutine does to the connections when nothing fails. */
  ghost predicate StepIsHealthy(s: State, g: nat, t: State) {
    && g in t.procs && Healthy(t.procs[g]) && t.shut == s.shut
    && t.next + |s.pool| + OwningAt(s, g) == s.next + |t.pool| + OwningAt(t, g)
  }

  function OwningAt(s: State, g: nat): nat {
    Bit(g in s.procs && Owning(s.procs[g]))
  }

  lemma GateIsHealthy(s: State, g: nat, e: Event)
    requires g in s.procs && GateAct(s, g, e).Some?
    ensures StepIsHealthy(s, g, GateAct(s, g, e).value)
  {}

  lemma ConnIsHealthy(s: State, g: nat, e: Event)
    requires g in s.procs && ConnAct(s, g, e).Some? && Healthy(s.procs[g]) && e != Fail
    ensures StepIsHealthy(s, g, ConnAct(s, g, e).value)
  {}

  /** There is room for whatever was taken out. */
  lemma PutIsHealthy(s: State, g: nat, e: Event)
    requires g in s.procs && PutAct(s, g, e).Some? && Healthy(s.procs[g]) && !s.closed && |s.pool| < POOL_SIZE
    ensures StepIsHealthy(s, g, PutAct(s, g, e).value)
  {}

  lemma CloseIsHealthy(s: State, g: nat, e: Event)
    requires g in s.procs && CloseAct(s, g, e).Some? && Healthy(s.procs[g]) && !CloseAct(s, g, e).value.closed
    requires forall h :: h in s.procs ==> Healthy(s.procs[h])
    ensures StepIsHealthy(s, g, CloseAct(s, g, e).value)
  {}

  lemma OwnerIsBusy(s: State, g: nat)
    requires g in s.procs && Putting(s.procs[g]) && Healthy(s.procs[g]) && Live(s) <= POOL_SIZE
    ensures |s.pool| < POOL_SIZE
  {
    SubsetCount({g}, Procs(s.procs, Busy));
  }

  lemma StepKeepsFrugal(s: State, l: Label, k: nat)
    requires Inv(s) && Frugal(s, k) && k <= POOL_SIZE && Fine(l)
    requires Next(s, l).Some? && Next(s, l).value.sem <= k && !Next(s, l).value.closed
    ensures Frugal(Next(s, l).value, k)
  {
    var t := Next(s, l).value;
    if s.closed { StepKeepsClosed(s, l); }
    if l.Run? {
      var pc := s.procs[l.g];
      if Putting(pc) {
        OwnerIsBusy(s, l.g);
        PutIsHealthy(s, l.g, l.e);
      }
      else if InClose(pc) { CloseIsHealthy(s, l.g, l.e); }
      else if InGate(pc) { GateIsHealthy(s, l.g, l.e); }
      else { ConnIsHealthy(s, l.g, l.e); }
    }
    var m := StepMoves(s, l);
    StepKeepsBound(s, l, k);
    CountUpdate(s.procs, l.g, t.procs[l.g], Owning);
  }

  lemma {:induction false} RunKeepsFrugal(s: State, ls: seq<Label>, t: State, k: nat)
    requires Inv(s) && Frugal(s, k) && k <= POOL_SIZE && Overlap(s, ls, k) && Reaches(s, ls, t) && !t.closed
    requires forall i :: 0 <= i < |ls| ==> Fine(ls[i])
    ensures Frugal(t, k)
    decreases ls
  {
    if ls != [] {
      var u := Next(s, ls[0]).value;
      assert Fine(ls[0]) && Overlap(u, ls[1..], k);
      if u.closed { ClosedStays(u, ls[1..], t); }
      StepKeepsInv(s, ls[0]);
      StepKeepsFrugal(s, ls[0], k);
      RunKeepsFrugal(u, ls[1..], t, k);
    }
  }

  /** In every run of a new client in which nothing fails and nobody closes the client: it dials at most as many
      connections as there ever were exchanges past the semaphore at once, and closes none of them. */
  lemma DialsNoMoreThanOverlap(ls: seq<Label>, t: State, k: nat)
    requires Reaches(NewClient, ls, t) && !t.closed && Overlap(NewClient, ls, k) && k <= 8
    requires forall i :: 0 <= i < |ls| ==> Fine(ls[i])
    ensures t.next <= k && t.shut == multiset{}
  {
    InitialInv();
    assert Procs(NewClient.procs, Owning) == {} && Procs(NewClient.procs, Busy) == {};
    RunKeepsFrugal(NewClient, ls, t, k);
    forall g | g in Procs(t.procs, Owning) ensures g in Procs(t.procs, Busy) {}
    SubsetCount(Procs(t.procs, Owning), Procs(t.procs, Busy));
  }

  /** An Exchange waits at the semaphore exactly while eight others are past it. */
  lemma WaitsOnlyForEight(ls: seq<Label>, t: State, g: nat)
    requires Reaches(NewClient, ls, t) && g in t.procs && t.procs[g].Acquire?
    ensures Act(t, g, Go).None? <==> |set h | h in t.procs && Holds(t.procs[h])| == 8
    ensures Act(t, g, Cancel).Some?
  {
    InitialInv();
    RunKeepsInv(NewClient, ls, t);
    assert Procs(t.procs, Holds) == set h | h in t.procs && Holds(t.procs[h]);
  }
}
