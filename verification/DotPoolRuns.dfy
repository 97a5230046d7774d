/** Runs of a new client that reach the limits: nine connections at once, a connection left in the
    pool after Close has returned, and an exchange that succeeds after it. */
module DotPoolRuns {
  import opened Wrappers
  import opened DotPool
  import opened DotPoolSafety
  import opened DotPoolShutdown

  ghost predicate Unwarmed(ls: seq<Label>) {
    forall l :: l in ls ==> !l.CallWarm?
  }

  /** A run made one step longer. */
  lemma Then(s: State, ls: seq<Label>, m: State, l: Label) returns (ks: seq<Label>, t: State)
    requires Reaches(s, ls, m) && Unwarmed(ls) && Next(m, l).Some? && !l.CallWarm?
    ensures t == Next(m, l).value && Reaches(s, ks, t) && Unwarmed(ks)
  {
    t := Next(m, l).value;
    OneStep(m, l);
    ReachesThrough(s, ls, m, [l], t);
    ks := ls + [l];
  }

  /** A new Exchange gets its semaphore token. */
  lemma ToAttempt(s: State, ls: seq<Label>, m: State, g: nat) returns (ks: seq<Label>, t: State)
    requires Reaches(s, ls, m) && Unwarmed(ls) && g !in m.procs && !m.closed && m.sem < POOL_SIZE
    ensures Reaches(s, ks, t) && Unwarmed(ks)
    ensures t == m.(procs := m.procs[g := Attempt(0)], sem := m.sem + 1)
  {
    ks, t := Then(s, ls, m, Call(g));
    ks, t := Then(s, ks, t, Run(g, Go));
    ks, t := Then(s, ks, t, Run(g, Go));
    assert m.procs[g := Start][g := Acquire][g := Attempt(0)] == m.procs[g := Attempt(0)];
  }

  /** A new Exchange gets as far as choosing its connection. */
  lemma ToTake(s: State, ls: seq<Label>, m: State, g: nat) returns (ks: seq<Label>, t: State)
    requires Reaches(s, ls, m) && Unwarmed(ls) && g !in m.procs && !m.closed && m.sem < POOL_SIZE
    ensures Reaches(s, ks, t) && Unwarmed(ks)
    ensures t == m.(procs := m.procs[g := TakeIdle(0)], sem := m.sem + 1)
  {
    ks, t := ToAttempt(s, ls, m, g);
    ks, t := Then(s, ks, t, Run(g, Go));
    ks, t := Then(s, ks, t, Run(g, Go));
    assert m.procs[g := Attempt(0)][g := CheckOpen(0)][g := TakeIdle(0)] == m.procs[g := TakeIdle(0)];
  }

  /** With no idle connection, it dials. */
  lemma ToDialling(s: State, ls: seq<Label>, m: State, g: nat) returns (ks: seq<Label>, t: State)
    requires Reaches(s, ls, m) && Unwarmed(ls) && g !in m.procs && !m.closed && m.sem < POOL_SIZE && m.pool == []
    ensures Reaches(s, ks, t) && Unwarmed(ks)
    ensures t == m.(procs := m.procs[g := Dialling(0)], sem := m.sem + 1)
  {
    ks, t := ToTake(s, ls, m, g);
    ks, t := Then(s, ks, t, Run(g, Go));
    assert m.procs[g := TakeIdle(0)][g := Dialling(0)] == m.procs[g := Dialling(0)];
  }

  /** Close gets into the body of its sync.Once. */
  lemma ToFlag(s: State, ls: seq<Label>, m: State, w: nat) returns (ks: seq<Label>, t: State)
    requires Reaches(s, ls, m) && Unwarmed(ls) && w !in m.procs && m.once == None
    ensures Reaches(s, ks, t) && Unwarmed(ks)
    ensures t == m.(procs := m.procs[w := CloseFlag], once := Some(w))
  {
    ks, t := Then(s, ls, m, CallClose(w));
    ks, t := Then(s, ks, t, Run(w, Go));
    assert m.procs[w := CloseCall][w := CloseFlag] == m.procs[w := CloseFlag];
  }

  /** And sets the flag. */
  lemma ToDrain(s: State, ls: seq<Label>, m: State, w: nat) returns (ks: seq<Label>, t: State)
    requires Reaches(s, ls, m) && Unwarmed(ls) && w !in m.procs && m.once == None
    ensures Reaches(s, ks, t) && Unwarmed(ks)
    ensures t == m.(procs := m.procs[w := CloseDrain], once := Some(w), closed := true)
  {
    ks, t := ToFlag(s, ls, m, w);
    ks, t := Then(s, ks, t, Run(w, Go));
    assert m.procs[w := CloseFlag][w := CloseDrain] == m.procs[w := CloseDrain];
  }

  /** A new client's first Exchange talks to the upstream. */
  lemma ToTalking(g: nat) returns (ks: seq<Label>, t: State)
    ensures Reaches(NewClient, ks, t) && Unwarmed(ks)
    ensures t == NewClient.(procs := map[g := Talking(0, 0)], sem := 1, next := 1)
  {
    ks, t := ToDialling(NewClient, [], NewClient, g);
    ks, t := Then(NewClient, ks, t, Run(g, Succeed));
    assert NewClient.procs[g := Dialling(0)][g := Talking(0, 0)] == map[g := Talking(0, 0)];
  }

  /** A putConn that looked at the flag before Close set it leaves a connection in the pool of a closed client. */
  lemma LeakFromNewClient() returns (ls: seq<Label>, t: State)
    ensures Reaches(NewClient, ls, t) && 0 in t.procs && t.procs[0].CloseDone? && t.pool == [0]
  {
    var s;
    ls, s := ToTalking(1);
    ls, s := Then(NewClient, ls, s, Run(1, Succeed));
    ls, s := Then(NewClient, ls, s, Run(1, Go));
    ls, s := ToDrain(NewClient, ls, s, 0);
    var ks;
    ks, t := LeakRun(s, 0, 1);
    ReachesThrough(NewClient, ls, s, ks, t);
    ls := ls + ks;
  }

  /** An Exchange that was talking to the upstream succeeds after Close has returned. */
  lemma SuccessAfterClose() returns (ls: seq<Label>, s: State, ks: seq<Label>, t: State)
    ensures Reaches(NewClient, ls, s) && 0 in s.procs && s.procs[0].CloseDone? && 1 in s.procs && s.procs[1].Talking?
    ensures Reaches(s, ks, t) && 1 in t.procs && t.procs[1] == Done(true)
  {
    var m, more;
    ls, m := ToTalking(1);
    ls, m := ToDrain(NewClient, ls, m, 0);
    more, s := DrainRun(m, 0);
    ReachesThrough(NewClient, ls, m, more, s);
    ls := ls + more;
    InitialInv();
    RunKeepsInv(NewClient, ls, s);
    ks, t := SucceedRun(s, 1);
  }

  // ----- nine connections

  /** The first n exchanges, all dialling. */
  ghost function Dialers(n: nat): map<nat, Pc> {
    if n == 0 then map[] else Dialers(n - 1)[n - 1 := Dialling(0)]
  }

  lemma {:induction false} DialersAre(n: nat)
    ensures forall g: nat :: g in Dialers(n) <==> g < n
    ensures CountIf(Dialers(n), Handling) == n
  {
    if n == 0 {
      assert Procs(Dialers(0), Handling) == {};
    } else {
      DialersAre(n - 1);
      CountUpdate(Dialers(n - 1), n - 1, Dialling(0), Handling);
    }
  }

  lemma {:induction false} AllDial(n: nat) returns (ls: seq<Label>, t: State)
    requires n <= POOL_SIZE
    ensures Reaches(NewClient, ls, t) && Unwarmed(ls)
    ensures t == NewClient.(procs := Dialers(n), sem := n)
  {
    if n == 0 {
      ls, t := [], NewClient;
    } else {
      ls, t := AllDial(n - 1);
      DialersAre(n - 1);
      ls, t := ToDialling(NewClient, ls, t, n - 1);
    }
  }

  /** A dialling exchange gets its connection and talks. */
  lemma ToAnswer(ls: seq<Label>, m: State, g: nat) returns (ks: seq<Label>, t: State)
    requires Reaches(NewClient, ls, m) && Unwarmed(ls) && g in m.procs && m.procs[g] == Dialling(0)
    ensures Reaches(NewClient, ks, t) && Unwarmed(ks)
    ensures t == m.(procs := m.procs[g := CheckPut(m.next, ByExchange)], next := m.next + 1)
  {
    ks, t := Then(NewClient, ls, m, Run(g, Succeed));
    assert t == m.(procs := m.procs[g := Talking(0, m.next)], next := m.next + 1);
    ks, t := Then(NewClient, ks, t, Run(g, Succeed));
    assert m.procs[g := Talking(0, m.next)][g := CheckPut(m.next, ByExchange)]
        == m.procs[g := CheckPut(m.next, ByExchange)];
  }

  /** One more exchange dials and gets its answer. */
  lemma ToCheckPut(ls: seq<Label>, m: State, g: nat) returns (ks: seq<Label>, t: State)
    requires Reaches(NewClient, ls, m) && Unwarmed(ls)
    requires g !in m.procs && !m.closed && m.sem < POOL_SIZE && m.pool == []
    ensures Reaches(NewClient, ks, t) && Unwarmed(ks)
    ensures t == m.(procs := m.procs[g := CheckPut(m.next, ByExchange)], sem := m.sem + 1, next := m.next + 1)
  {
    ks, t := ToDialling(NewClient, ls, m, g);
    ks, t := ToAnswer(ks, t, g);
    assert m.procs[g := Dialling(0)][g := CheckPut(m.next, ByExchange)] == m.procs[g := CheckPut(m.next, ByExchange)];
  }

  /** And it gives its connection to the pool. */
  lemma ToIdle(ls: seq<Label>, m: State, g: nat) returns (ks: seq<Label>, t: State)
    requires Reaches(NewClient, ls, m) && Unwarmed(ls)
    requires g !in m.procs && !m.closed && m.sem < POOL_SIZE && m.pool == []
    ensures Reaches(NewClient, ks, t) && Unwarmed(ks)
    ensures t == m.(procs := m.procs[g := Done(true)], pool := [m.next], next := m.next + 1)
  {
    ks, t := ToCheckPut(ls, m, g);
    ks, t := PutBack(ks, t, g);
    assert m.procs[g := CheckPut(m.next, ByExchange)][g := Done(true)] == m.procs[g := Done(true)];
  }

  lemma PutBack(ls: seq<Label>, m: State, g: nat) returns (ks: seq<Label>, t: State)
    requires Reaches(NewClient, ls, m) && Unwarmed(ls) && !m.closed && m.sem > 0 && m.pool == []
    requires g in m.procs && m.procs[g].CheckPut? && m.procs[g].caller.ByExchange?
    ensures Reaches(NewClient, ks, t) && Unwarmed(ks)
    ensures t == m.(procs := m.procs[g := Done(true)], pool := [m.procs[g].conn], sem := m.sem - 1)
  {
    var c := m.procs[g].conn;
    ks, t := Then(NewClient, ls, m, Run(g, Go));
    ks, t := Then(NewClient, ks, t, Run(g, Go));
    ks, t := Then(NewClient, ks, t, Run(g, Go));
    assert m.procs[g := SendPut(c, ByExchange)][g := Release(true)][g := Done(true)] == m.procs[g := Done(true)];
  }

  /** Seven exchanges dialling, an idle connection, and an eighth exchange about to take it. */
  lemma ToBrink() returns (ls: seq<Label>, t: State)
    ensures Reaches(NewClient, ls, t) && Unwarmed(ls)
    ensures t == NewClient.(procs := Dialers(7)[7 := Done(true)][8 := TakeIdle(0)], pool := [0], sem := 8, next := 1)
  {
    ls, t := AllDial(7);
    DialersAre(7);
    ls, t := ToIdle(ls, t, 7);
    ls, t := ToTake(NewClient, ls, t, 8);
  }

  /** Close takes an idle connection before an exchange that was about to. */
  lemma Overtake(ls: seq<Label>, m: State, w: nat, g: nat) returns (ks: seq<Label>, t: State)
    requires Reaches(NewClient, ls, m) && Unwarmed(ls) && w !in m.procs && m.once == None && |m.pool| == 1
    requires g in m.procs && m.procs[g] == TakeIdle(0)
    ensures Reaches(NewClient, ks, t) && Unwarmed(ks)
    ensures t.procs == m.procs[g := Dialling(0)][w := CloseConn(m.pool[0])] && t.pool == []
  {
    ks, t := ToDrain(NewClient, ls, m, w);
    ks, t := Then(NewClient, ks, t, Run(w, Go));
    ks, t := Then(NewClient, ks, t, Run(g, Go));
    assert m.procs[w := CloseDrain][w := CloseConn(m.pool[0])][g := Dialling(0)]
        == m.procs[g := Dialling(0)][w := CloseConn(m.pool[0])];
  }

  lemma ToNine() returns (ls: seq<Label>, t: State)
    ensures Reaches(NewClient, ls, t) && Unwarmed(ls)
    ensures t.procs == Dialers(7)[7 := Done(true)][8 := Dialling(0)][9 := CloseConn(0)] && t.pool == []
  {
    ls, t := ToBrink();
    DialersAre(7);
    var procs: map<nat, Pc> := Dialers(7)[7 := Done(true)];
    ls, t := Overtake(ls, t, 9, 8);
    assert procs[8 := TakeIdle(0)][8 := Dialling(0)] == procs[8 := Dialling(0)];
  }

  /** A run of a new client, without WarmPool, with one connection more than the pool size. */
  lemma NineConnections() returns (ls: seq<Label>, t: State)
    ensures Reaches(NewClient, ls, t) && Unwarmed(ls) && AllLive(t) == POOL_SIZE + 1
  {
    ls, t := ToNine();
    DialersAre(7);
    var p0 := Dialers(7);
    var p1 := p0[7 := Done(true)];
    var p2 := p1[8 := Dialling(0)];
    CountUpdate(p0, 7, Done(true), Handling);
    CountUpdate(p1, 8, Dialling(0), Handling);
    CountUpdate(p2, 9, CloseConn(0), Handling);
  }
}
