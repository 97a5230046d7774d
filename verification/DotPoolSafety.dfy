/** What every interleaving of the pool's steps keeps: each connection in exactly one
    place and closed at most once, errors never pooled, and the bound on live connections. */
module DotPoolSafety {
  import opened Wrappers
  import opened DotPool

  // ----- ownership is exclusive

  lemma SubsetCount(a: set<nat>, b: set<nat>)
    requires a <= b
    ensures |a| <= |b|
    decreases a
  {
    if a != {} {
      var x :| x in a;
      SubsetCount(a - {x}, b - {x});
    }
  }

  lemma OwnerExcludes(s: State, g: nat, c: Conn)
    requires Conserved(s) && g in s.procs && Owns(s.procs[g]) == Some(c)
    ensures c < s.next && c !in s.pool && s.shut[c] == 0
    ensures forall h :: h in s.procs && h != g ==> Owns(s.procs[h]) != Some(c)
  {
    var owners := Procs(s.procs, Is(c));
    assert g in owners;
    SubsetCount({g}, owners);
    assert Places(s, c) == Bit(c < s.next);
    forall h | h in s.procs && h != g ensures Owns(s.procs[h]) != Some(c) {
      if Owns(s.procs[h]) == Some(c) {
        SubsetCount({g, h}, owners);
      }
    }
  }

  lemma {:induction false} PoolCount(pool: seq<Conn>, i: nat, j: nat)
    requires i < j < |pool| && pool[i] == pool[j]
    ensures multiset(pool)[pool[i]] >= 2
  {
    var a, b := pool[..j], pool[j..];
    assert pool == a + b;
    assert pool[i] == a[i] && pool[j] == b[0];
    assert pool[i] in a && pool[j] in b;
  }

  /** Each dialled connection is in exactly one of: the pool, one goroutine's hands, closed. */
  lemma ExactlyOnePlace(s: State, c: Conn)
    requires Inv(s) && c < s.next
    ensures s.shut[c] <= 1
    ensures c in s.pool ==> s.shut[c] == 0 && forall g :: g in s.procs ==> Owns(s.procs[g]) != Some(c)
    ensures s.shut[c] == 1 ==> c !in s.pool && forall g :: g in s.procs ==> Owns(s.procs[g]) != Some(c)
    ensures forall g, h :: g in s.procs && h in s.procs ==>
              Owns(s.procs[g]) == Some(c) && Owns(s.procs[h]) == Some(c) ==> g == h
    ensures c in s.pool || s.shut[c] == 1 || exists g :: g in s.procs && Owns(s.procs[g]) == Some(c)
    ensures forall i, j :: 0 <= i < j < |s.pool| ==> s.pool[i] != s.pool[j]
  {
    assert Places(s, c) == Bit(c < s.next);
    forall g | g in s.procs && Owns(s.procs[g]) == Some(c)
      ensures c !in s.pool && s.shut[c] == 0 && forall h :: h in s.procs && h != g ==> Owns(s.procs[h]) != Some(c)
    {
      OwnerExcludes(s, g, c);
    }
    if c !in s.pool && s.shut[c] == 0 {
      var owners := Procs(s.procs, Is(c));
      assert owners != {};
      var g :| g in owners;
      assert g in s.procs && Owns(s.procs[g]) == Some(c);
    }
    forall i, j | 0 <= i < j < |s.pool| ensures s.pool[i] != s.pool[j] {
      if s.pool[i] == s.pool[j] {
        assert Places(s, s.pool[i]) == Bit(s.pool[i] < s.next);
        PoolCount(s.pool, i, j);
      }
    }
  }

  // ----- the invariant

  lemma InitialInv()
    ensures Inv(NewClient)
  {
    forall c: Conn ensures Places(NewClient, c) == Bit(c < NewClient.next) {
      assert Procs(NewClient.procs, Is(c)) == {};
    }
    assert Procs(NewClient.procs, Holds) == {};
  }

  function HoldsAt(s: State, g: nat): nat {
    Bit(g in s.procs && Holds(s.procs[g]))
  }

  /** Tokens are taken and returned exactly where a goroutine starts and stops holding one. */
  ghost predicate MovesToken(s: State, g: nat, t: State) {
    t.sem + HoldsAt(s, g) == s.sem + HoldsAt(t, g) && t.sem <= POOL_SIZE
  }

  lemma GateMovesToken(s: State, g: nat, e: Event)
    requires g in s.procs && GateAct(s, g, e).Some? && s.sem <= POOL_SIZE
    ensures MovesToken(s, g, GateAct(s, g, e).value)
  {}

  lemma ConnMovesToken(s: State, g: nat, e: Event)
    requires g in s.procs && ConnAct(s, g, e).Some? && s.sem <= POOL_SIZE
    ensures MovesToken(s, g, ConnAct(s, g, e).value)
  {}

  lemma PutMovesToken(s: State, g: nat, e: Event)
    requires g in s.procs && PutAct(s, g, e).Some? && s.sem <= POOL_SIZE
    ensures MovesToken(s, g, PutAct(s, g, e).value)
  {}

  lemma CloseMovesToken(s: State, g: nat, e: Event)
    requires g in s.procs && CloseAct(s, g, e).Some? && s.sem <= POOL_SIZE
    ensures MovesToken(s, g, CloseAct(s, g, e).value)
  {}

  lemma StepKeepsSemaphore(s: State, l: Label)
    requires s.sem == CountIf(s.procs, Holds) <= POOL_SIZE && Next(s, l).Some?
    ensures var t := Next(s, l).value; t.sem == CountIf(t.procs, Holds) <= POOL_SIZE
  {
    var t := Next(s, l).value;
    var m := StepMoves(s, l);
    CountUpdate(s.procs, l.g, t.procs[l.g], Holds);
    if l.Run? {
      var pc := s.procs[l.g];
      if Putting(pc) { PutMovesToken(s, l.g, l.e); }
      else if InClose(pc) { CloseMovesToken(s, l.g, l.e); }
      else if InGate(pc) { GateMovesToken(s, l.g, l.e); }
      else if !Warming(pc) { ConnMovesToken(s, l.g, l.e); }
    }
    assert MovesToken(s, l.g, t);
  }

  /** A step marks a connection failed only in the hands of the goroutine that saw the error. */
  lemma FailedBy(s: State, l: Label)
    requires Next(s, l).Some?
    ensures var t := Next(s, l).value;
            || t.failed == s.failed
            || (exists c :: t.failed == s.failed + {c} && OwnedBy(s, l.g) == Some(c)
                            && t.pool == s.pool && t.procs[l.g].CloseFailed?)
  {}

  /** A failed connection stays in those hands until it is closed. */
  lemma CloseFailedOnlyCloses(s: State, l: Label)
    requires Next(s, l).Some? && l.g in s.procs && s.procs[l.g].CloseFailed?
    ensures OwnedBy(Next(s, l).value, l.g) == None
  {}

  lemma StepKeepsFailedOut(s: State, l: Label)
    requires Conserved(s) && FailedAreOut(s) && Next(s, l).Some?
    ensures FailedAreOut(Next(s, l).value)
  {
    var t := Next(s, l).value;
    var m := StepMoves(s, l);
    FailedBy(s, l);
    if OwnedBy(s, l.g).Some? { OwnerExcludes(s, l.g, OwnedBy(s, l.g).value); }
    if l.g in s.procs && s.procs[l.g].CloseFailed? { CloseFailedOnlyCloses(s, l); }
    FailedStayOut(s, l.g, t, m);
  }

  lemma FailedStayOut(s: State, g: nat, t: State, m: Move)
    requires FailedAreOut(s) && Moves(s, g, t, m)
    requires OwnedBy(s, g).Some? ==>
               OwnedBy(s, g).value < s.next && OwnedBy(s, g).value !in s.pool
               && forall h :: h in s.procs && h != g ==> Owns(s.procs[h]) != OwnedBy(s, g)
    requires g in s.procs && s.procs[g].CloseFailed? ==> OwnedBy(t, g) == None
    requires t.failed == s.failed
             || (exists c :: t.failed == s.failed + {c} && OwnedBy(s, g) == Some(c)
                             && t.pool == s.pool && t.procs[g].CloseFailed?)
    ensures FailedAreOut(t)
  {
    if m.FromPool? { assert s.pool[0] in s.pool; }
  }

  /** The flag is never cleared, and whoever is past setting it finds it set. */
  lemma StepKeepsFlags(s: State, l: Label)
    requires FlagsAgree(s) && Next(s, l).Some?
    ensures FlagsAgree(Next(s, l).value) && (s.closed ==> Next(s, l).value.closed)
  {
    var m := StepMoves(s, l);
    if l.Run? && InClose(s.procs[l.g]) { CloseKeepsFlags(s, l.g, l.e); }
  }

  lemma CloseKeepsFlags(s: State, g: nat, e: Event)
    requires FlagsAgree(s) && g in s.procs && CloseAct(s, g, e).Some?
    ensures var t := CloseAct(s, g, e).value;
            g in t.procs && (s.closed ==> t.closed) && (Closing(t.procs[g]) ==> t.closed)
  {}

  lemma StepKeepsInv(s: State, l: Label)
    requires Inv(s) && Next(s, l).Some?
    ensures Inv(Next(s, l).value)
  {
    var m := StepMoves(s, l);
    MoveConserves(s, l.g, Next(s, l).value, m);
    StepKeepsSemaphore(s, l);
    StepKeepsFailedOut(s, l);
    StepKeepsFlags(s, l);
  }

  /** The invariant holds after every interleaving. */
  lemma {:induction false} RunKeepsInv(s: State, ls: seq<Label>, t: State)
    requires Inv(s) && Reaches(s, ls, t)
    ensures Inv(t)
    decreases ls
  {
    if ls != [] {
      StepKeepsInv(s, ls[0]);
      RunKeepsInv(Next(s, ls[0]).value, ls[1..], t);
    }
  }

  /** In every interleaving of a new client's calls, a connection is closed at most once, and
      one that saw an error is never idle in the pool. */
  lemma PoolIsSafe(ls: seq<Label>, t: State, c: Conn)
    requires Reaches(NewClient, ls, t)
    ensures t.shut[c] <= 1
    ensures c in t.failed ==> c !in t.pool
    ensures c < t.next ==> multiset(t.pool)[c] + CountIf(t.procs, Is(c)) + t.shut[c] == 1
  {
    InitialInv();
    RunKeepsInv(NewClient, ls, t);
    assert Places(t, c) == Bit(c < t.next);
  }

  // ----- the bound on live connections

  predicate IsWarm(pc: Pc) {
    pc.Warm? || pc.WarmDialling? || ((pc.CheckPut? || pc.SendPut? || pc.ClosePut?) && pc.caller.ByWarm?)
  }

  ghost predicate NoWarming(s: State) {
    forall g :: g in s.procs ==> !IsWarm(s.procs[g])
  }

  /** An Exchange that dials or holds a connection. */
  predicate Busy(pc: Pc) {
    Holds(pc) && (pc.Dialling? || Owns(pc).Some?)
  }

  ghost function Live(s: State): nat {
    |s.pool| + CountIf(s.procs, Busy)
  }

  lemma BusyHold(s: State)
    ensures CountIf(s.procs, Busy) <= CountIf(s.procs, Holds)
  {
    SubsetCount(Procs(s.procs, Busy), Procs(s.procs, Holds));
  }

  function BusyAt(s: State, g: nat): nat {
    Bit(g in s.procs && Busy(s.procs[g]))
  }

  /** A step adds a live connection only by starting to dial when none is idle. */
  ghost predicate AddsNone(s: State, g: nat, t: State) {
    && g in t.procs && !IsWarm(t.procs[g])
    && (|t.pool| + BusyAt(t, g) <= |s.pool| + BusyAt(s, g) || t.pool == [])
  }

  lemma GateAddsNone(s: State, g: nat, e: Event)
    requires g in s.procs && GateAct(s, g, e).Some?
    ensures AddsNone(s, g, GateAct(s, g, e).value)
  {}

  lemma ConnAddsNone(s: State, g: nat, e: Event)
    requires g in s.procs && ConnAct(s, g, e).Some?
    ensures AddsNone(s, g, ConnAct(s, g, e).value)
  {}

  lemma PutAddsNone(s: State, g: nat, e: Event)
    requires g in s.procs && PutAct(s, g, e).Some? && !IsWarm(s.procs[g])
    ensures AddsNone(s, g, PutAct(s, g, e).value)
  {}

  lemma CloseAddsNone(s: State, g: nat, e: Event)
    requires g in s.procs && CloseAct(s, g, e).Some?
    ensures AddsNone(s, g, CloseAct(s, g, e).value)
  {}

  /** The bound holds with any number of tokens in use, not only with all. */
  lemma StepKeepsBound(s: State, l: Label, k: nat)
    requires Inv(s) && NoWarming(s) && Live(s) <= k
    requires Next(s, l).Some? && !l.CallWarm? && Next(s, l).value.sem <= k
    ensures NoWarming(Next(s, l).value) && Live(Next(s, l).value) <= k
  {
    var t := Next(s, l).value;
    var m := StepMoves(s, l);
    if l.Run? {
      var pc := s.procs[l.g];
      if Putting(pc) { PutAddsNone(s, l.g, l.e); }
      else if InClose(pc) { CloseAddsNone(s, l.g, l.e); }
      else if InGate(pc) { GateAddsNone(s, l.g, l.e); }
      else if !Warming(pc) { ConnAddsNone(s, l.g, l.e); }
    }
    assert AddsNone(s, l.g, t);
    CountUpdate(s.procs, l.g, t.procs[l.g], Busy);
    StepKeepsSemaphore(s, l);
    BusyHold(t);
  }

  /** Pooled connections and those an exchange owns or is dialling never exceed the pool size,
      in any run from a state where warming is over and the bound holds. */
  lemma {:induction false} LiveConnectionsBounded(s: State, ls: seq<Label>, t: State)
    requires Inv(s) && NoWarming(s) && Live(s) <= POOL_SIZE
    requires Reaches(s, ls, t) && forall l :: l in ls ==> !l.CallWarm?
    ensures Live(t) <= POOL_SIZE && NoWarming(t)
    decreases ls
  {
    if ls != [] {
      StepKeepsInv(s, ls[0]);
      StepKeepsBound(s, ls[0], POOL_SIZE);
      LiveConnectionsBounded(Next(s, ls[0]).value, ls[1..], t);
    }
  }

  /** The state WarmPool leaves behind, before any Exchange, is such a state. */
  lemma WarmedPoolIsBounded(s: State)
    requires Inv(s) && forall g :: g in s.procs ==> s.procs[g].WarmDone?
    ensures NoWarming(s) && Live(s) <= POOL_SIZE
  {
    assert Procs(s.procs, Busy) == {};
  }

  // ----- the connection Close is about to close

  /** In the body of Close. */
  predicate Draining(pc: Pc) {
    pc.CloseFlag? || pc.CloseDrain? || pc.CloseConn?
  }

  /** Only the goroutine the sync.Once let in runs the body of Close. */
  ghost predicate OneDrains(s: State) {
    forall g :: g in s.procs && Draining(s.procs[g]) ==> s.once == Some(g)
  }

  ghost predicate StaysOut(s: State, g: nat, t: State) {
    g in t.procs && t.once == s.once && !Draining(t.procs[g])
  }

  lemma PutStaysOut(s: State, g: nat, e: Event)
    requires g in s.procs && PutAct(s, g, e).Some?
    ensures StaysOut(s, g, PutAct(s, g, e).value)
  {}

  lemma WarmStaysOut(s: State, g: nat, e: Event)
    requires g in s.procs && WarmAct(s, g, e).Some?
    ensures StaysOut(s, g, WarmAct(s, g, e).value)
  {}

  lemma GateStaysOut(s: State, g: nat, e: Event)
    requires g in s.procs && GateAct(s, g, e).Some?
    ensures StaysOut(s, g, GateAct(s, g, e).value)
  {}

  lemma ConnStaysOut(s: State, g: nat, e: Event)
    requires g in s.procs && ConnAct(s, g, e).Some?
    ensures StaysOut(s, g, ConnAct(s, g, e).value)
  {}

  lemma CloseKeepsOne(s: State, g: nat, e: Event)
    requires OneDrains(s) && g in s.procs && CloseAct(s, g, e).Some?
    ensures OneDrains(CloseAct(s, g, e).value)
  {}

  lemma StepKeepsOneDrains(s: State, l: Label)
    requires OneDrains(s) && Next(s, l).Some?
    ensures OneDrains(Next(s, l).value)
  {
    var m := StepMoves(s, l);
    if l.Run? {
      var pc := s.procs[l.g];
      if Putting(pc) { PutStaysOut(s, l.g, l.e); }
      else if Warming(pc) { WarmStaysOut(s, l.g, l.e); }
      else if InClose(pc) { CloseKeepsOne(s, l.g, l.e); }
      else if InGate(pc) { GateStaysOut(s, l.g, l.e); }
      else { ConnStaysOut(s, l.g, l.e); }
    }
  }

  lemma {:induction false} RunKeepsOneDrains(s: State, ls: seq<Label>, t: State)
    requires OneDrains(s) && Reaches(s, ls, t)
    ensures OneDrains(t)
    decreases ls
  {
    if ls != [] {
      StepKeepsOneDrains(s, ls[0]);
      RunKeepsOneDrains(Next(s, ls[0]).value, ls[1..], t);
    }
  }

  /** Any goroutine that owns a connection or is dialling one. */
  predicate Handling(pc: Pc) {
    Owns(pc).Some? || pc.Dialling? || pc.WarmDialling?
  }

  predicate HeldByClose(pc: Pc) {
    pc.CloseConn?
  }

  /** Every connection there is: pooled, owned by whichever goroutine, or being dialled. */
  ghost function AllLive(s: State): nat {
    |s.pool| + CountIf(s.procs, Handling)
  }

  lemma DisjointCount(a: set<nat>, b: set<nat>)
    requires a !! b
    ensures |a + b| == |a| + |b|
  {}

  lemma HandlingIs(pc: Pc)
    requires !IsWarm(pc)
    ensures Handling(pc) <==> Busy(pc) || HeldByClose(pc)
    ensures !(Busy(pc) && HeldByClose(pc))
  {}

  lemma OneHeld(s: State)
    requires OneDrains(s)
    ensures CountIf(s.procs, HeldByClose) <= 1
  {
    var held := Procs(s.procs, HeldByClose);
    if held != {} {
      var g :| g in held;
      forall h | h in held ensures h == g {}
      assert held == {g};
    }
  }

  lemma AllLiveSplits(s: State)
    requires NoWarming(s)
    ensures AllLive(s) == Live(s) + CountIf(s.procs, HeldByClose)
  {
    var all, busy, held := Procs(s.procs, Handling), Procs(s.procs, Busy), Procs(s.procs, HeldByClose);
    forall g ensures g in all <==> g in busy + held {
      if g in s.procs { HandlingIs(s.procs[g]); }
    }
    forall g | g in busy ensures g !in held {
      HandlingIs(s.procs[g]);
    }
    assert all == busy + held;
    DisjointCount(busy, held);
  }

  /** However WarmPool went, and whatever calls of Exchange and Close follow it: all connections together never
      exceed the pool size, but for the one that Close may have taken from the pool and not closed yet. */
  lemma WarmedClientStaysBounded(ls: seq<Label>, s: State, ks: seq<Label>, t: State)
    requires Reaches(NewClient, ls, s) && forall g :: g in s.procs ==> s.procs[g].WarmDone?
    requires Reaches(s, ks, t) && forall l :: l in ks ==> !l.CallWarm?
    ensures AllLive(t) <= POOL_SIZE + CountIf(t.procs, HeldByClose) <= POOL_SIZE + 1
  {
    InitialInv();
    RunKeepsInv(NewClient, ls, s);
    WarmedPoolIsBounded(s);
    LiveConnectionsBounded(s, ks, t);
    RunKeepsOneDrains(NewClient, ls, s);
    RunKeepsOneDrains(s, ks, t);
    AllLiveSplits(t);
    OneHeld(t);
  }
}
