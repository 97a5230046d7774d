/** The DNS-over-TLS client (RFC 7858) as interleaved steps: any number of Exchange,
    WarmPool and Close calls sharing a channel of idle connections, a counting
    semaphore and a closed flag. Each step is one atomic action of one goroutine. */
module DotPool {
  import opened Wrappers

  const POOL_SIZE: nat := 8

  type Conn = nat

  /** Where putConn returns to. */
  datatype Caller = ByExchange | ByWarm(i: nat)

  datatype Pc =
    // Exchange
    | Start                                   // before the first look at the closed flag
    | Acquire                                 // at the semaphore
    | Attempt(n: nat)                         // head of the retry loop
    | CheckOpen(n: nat)                       // getConn: the closed flag
    | TakeIdle(n: nat)                        // getConn: receive or fall through to dialling
    | Dialling(n: nat)
    | Talking(n: nat, conn: Conn)             // write and read on an owned connection
    | CloseFailed(n: nat, conn: Conn)         // an I/O error: about to close the connection
    | Release(ok: bool)                       // the deferred semaphore release
    | Done(ok: bool)
    // putConn
    | CheckPut(conn: Conn, caller: Caller)        // the closed flag
    | SendPut(conn: Conn, caller: Caller)         // send to the channel if there is room
    | ClosePut(conn: Conn, caller: Caller)        // about to close the connection instead
    // WarmPool
    | Warm(i: nat)
    | WarmDialling(i: nat)
    | WarmDone
    // Close
    | CloseCall                               // entering the sync.Once
    | CloseFlag                               // inside it, about to set the flag
    | CloseDrain
    | CloseConn(conn: Conn)                   // a drained connection, about to be closed
    | CloseDone

  datatype State = State(
    procs: map<nat, Pc>,
    pool: seq<Conn>,           // the channel of idle connections
    sem: nat,                  // tokens in the semaphore channel
    closed: bool,
    once: Option<nat>,         // the goroutine running the body of the sync.Once
    next: Conn,                // the connection the next dial returns
    shut: multiset<Conn>,      // every Close call made on a connection
    failed: set<Conn>)         // connections an exchange saw an error on

  /** How the environment resolves a step: dials and exchanges succeed or fail, contexts expire. */
  datatype Event = Go | Succeed | Fail | Cancel

  datatype Label = Call(g: nat) | CallWarm(g: nat) | CallClose(g: nat) | Run(g: nat, e: Event)

  function Owns(pc: Pc): Option<Conn> {
    match pc
    case Talking(_, c) => Some(c)
    case CloseFailed(_, c) => Some(c)
    case CheckPut(c, _) => Some(c)
    case SendPut(c, _) => Some(c)
    case ClosePut(c, _) => Some(c)
    case CloseConn(c) => Some(c)
    case _ => None
  }

  function AfterPut(caller: Caller): Pc {
    match caller
    case ByExchange => Release(true)
    case ByWarm(i) => Warm(i + 1)
  }

  function Goto(s: State, g: nat, pc: Pc): State {
    s.(procs := s.procs[g := pc])
  }

  /** A step of Exchange outside an attempt: the first check, the semaphore, the retry loop. */
  function GateAct(s: State, g: nat, e: Event): Option<State>
    requires g in s.procs
  {
    match s.procs[g]
    case Start =>
      if e.Go? then Some(Goto(s, g, if s.closed then Done(false) else Acquire)) else None
    case Acquire =>
      if e.Go? && s.sem < POOL_SIZE then Some(Goto(s, g, Attempt(0)).(sem := s.sem + 1))
      else if e.Cancel? then Some(Goto(s, g, Done(false)))
      else None
    case Attempt(n) =>
      if n >= 2 then if e.Go? then Some(Goto(s, g, Release(false))) else None
      else if e.Go? then Some(Goto(s, g, CheckOpen(n)))
      else if e.Cancel? then Some(Goto(s, g, Release(false)))
      else None
    case Release(ok) =>
      if e.Go? && s.sem > 0 then Some(Goto(s, g, Done(ok)).(sem := s.sem - 1)) else None
    case _ => None
  }

  /** A step of an attempt: getConn, then the write and read. */
  function ConnAct(s: State, g: nat, e: Event): Option<State>
    requires g in s.procs
  {
    match s.procs[g]
    case CheckOpen(n) =>
      if e.Go? then Some(Goto(s, g, if s.closed then Attempt(n + 1) else TakeIdle(n))) else None
    case TakeIdle(n) =>
      if !e.Go? then None
      else if s.pool != [] then Some(Goto(s, g, Talking(n, s.pool[0])).(pool := s.pool[1..]))
      else Some(Goto(s, g, Dialling(n)))
    case Dialling(n) =>
      if e.Succeed? then Some(Goto(s, g, Talking(n, s.next)).(next := s.next + 1))
      else if e.Fail? then Some(Goto(s, g, Attempt(n + 1)))
      else None
    case Talking(n, c) =>
      if e.Succeed? then Some(Goto(s, g, CheckPut(c, ByExchange)))
      else if e.Fail? then Some(Goto(s, g, CloseFailed(n, c)).(failed := s.failed + {c}))
      else None
    case CloseFailed(n, c) =>
      if e.Go? then Some(Goto(s, g, Attempt(n + 1)).(shut := s.shut + multiset{c})) else None
    case _ => None
  }

  /** A step of putConn. */
  function PutAct(s: State, g: nat, e: Event): Option<State>
    requires g in s.procs
  {
    match s.procs[g]
    case CheckPut(c, caller) =>
      if e.Go? then Some(Goto(s, g, if s.closed then ClosePut(c, caller) else SendPut(c, caller))) else None
    case SendPut(c, caller) =>
      if !e.Go? then None
      else if |s.pool| < POOL_SIZE then Some(Goto(s, g, AfterPut(caller)).(pool := s.pool + [c]))
      else Some(Goto(s, g, ClosePut(c, caller)))
    case ClosePut(c, caller) =>
      if e.Go? then Some(Goto(s, g, AfterPut(caller)).(shut := s.shut + multiset{c})) else None
    case _ => None
  }

  /** A step of WarmPool. */
  function WarmAct(s: State, g: nat, e: Event): Option<State>
    requires g in s.procs
  {
    match s.procs[g]
    case Warm(i) =>
      if e.Go? then Some(Goto(s, g, if i >= POOL_SIZE then WarmDone else WarmDialling(i)))
      else if e.Cancel? then Some(Goto(s, g, WarmDone))
      else None
    case WarmDialling(i) =>
      if e.Succeed? then Some(Goto(s, g, CheckPut(s.next, ByWarm(i))).(next := s.next + 1))
      else if e.Fail? then Some(Goto(s, g, Warm(i + 1)))
      else None
    case _ => None
  }

  /** A step of Close. */
  function CloseAct(s: State, g: nat, e: Event): Option<State>
    requires g in s.procs
  {
    match s.procs[g]
    case CloseCall =>
      if !e.Go? then None
      else if s.once.None? then Some(Goto(s, g, CloseFlag).(once := Some(g)))
      else if s.once.value in s.procs && s.procs[s.once.value].CloseDone? then Some(Goto(s, g, CloseDone))
      else None
    case CloseFlag =>
      if e.Go? then Some(Goto(s, g, CloseDrain).(closed := true)) else None
    case CloseDrain =>
      if !e.Go? then None
      else if s.pool != [] then Some(Goto(s, g, CloseConn(s.pool[0])).(pool := s.pool[1..]))
      else Some(Goto(s, g, CloseDone))
    case CloseConn(c) =>
      if e.Go? then Some(Goto(s, g, CloseDrain).(shut := s.shut + multiset{c})) else None
    case _ => None
  }

  predicate Putting(pc: Pc) {
    pc.CheckPut? || pc.SendPut? || pc.ClosePut?
  }

  predicate Warming(pc: Pc) {
    pc.Warm? || pc.WarmDialling? || pc.WarmDone?
  }

  predicate InClose(pc: Pc) {
    pc.CloseCall? || pc.CloseFlag? || pc.CloseDrain? || pc.CloseConn? || pc.CloseDone?
  }

  predicate InGate(pc: Pc) {
    pc.Start? || pc.Acquire? || pc.Attempt? || pc.Release? || pc.Done?
  }

  /** One action of goroutine g; None if it cannot take it. */
  function Act(s: State, g: nat, e: Event): Option<State>
    requires g in s.procs
  {
    var pc := s.procs[g];
    if Putting(pc) then PutAct(s, g, e)
    else if Warming(pc) then WarmAct(s, g, e)
    else if InClose(pc) then CloseAct(s, g, e)
    else if InGate(pc) then GateAct(s, g, e)
    else ConnAct(s, g, e)
  }

  function Next(s: State, l: Label): Option<State> {
    match l
    case Call(g) => if g in s.procs then None else Some(Goto(s, g, Start))
    case CallWarm(g) => if g in s.procs then None else Some(Goto(s, g, Warm(0)))
    case CallClose(g) => if g in s.procs then None else Some(Goto(s, g, CloseCall))
    case Run(g, e) => if g in s.procs then Act(s, g, e) else None
  }

  ghost predicate Reaches(s: State, ls: seq<Label>, t: State)
    decreases ls
  {
    if ls == [] then s == t
    else Next(s, ls[0]).Some? && Reaches(Next(s, ls[0]).value, ls[1..], t)
  }

  const NewClient: State := State(map[], [], 0, false, None, 0, multiset{}, {})

  // ----- counting goroutines

  ghost function Procs(procs: map<nat, Pc>, f: Pc -> bool): set<nat> {
    set g | g in procs && f(procs[g])
  }

  ghost function CountIf(procs: map<nat, Pc>, f: Pc -> bool): nat {
    |Procs(procs, f)|
  }

  function Bit(b: bool): nat {
    if b then 1 else 0
  }

  lemma CardinalityWithout(a: set<nat>, g: nat)
    ensures |a| == |a - {g}| + Bit(g in a)
  {}

  lemma CountUpdate(procs: map<nat, Pc>, g: nat, pc: Pc, f: Pc -> bool)
    ensures CountIf(procs[g := pc], f) + Bit(g in procs && f(procs[g])) == CountIf(procs, f) + Bit(f(pc))
  {
    var before, after := Procs(procs, f), Procs(procs[g := pc], f);
    assert after - {g} == before - {g} by {
      forall h ensures h in after - {g} <==> h in before - {g} {}
    }
    CardinalityWithout(before, g);
    CardinalityWithout(after, g);
  }

  // ----- every connection is in exactly one place

  function Is(c: Conn): Pc -> bool {
    pc => Owns(pc) == Some(c)
  }

  /** In how many places a connection is: idle in the pool, owned by a goroutine, or closed. */
  ghost function Places(s: State, c: Conn): nat {
    multiset(s.pool)[c] + CountIf(s.procs, Is(c)) + s.shut[c]
  }

  ghost predicate Conserved(s: State) {
    forall c: Conn :: Places(s, c) == Bit(c < s.next)
  }

  predicate Holds(pc: Pc) {
    match pc
    case CheckPut(_, caller) => caller.ByExchange?
    case SendPut(_, caller) => caller.ByExchange?
    case ClosePut(_, caller) => caller.ByExchange?
    case _ =>
      pc.Attempt? || pc.CheckOpen? || pc.TakeIdle? || pc.Dialling? || pc.Talking? || pc.CloseFailed? || pc.Release?
  }

  /** A connection that saw an error is nobody's but the goroutine about to close it. */
  ghost predicate FailedAreOut(s: State) {
    && (forall c :: c in s.failed ==> c !in s.pool)
    && (forall g :: g in s.procs && Owns(s.procs[g]).Some? && Owns(s.procs[g]).value in s.failed ==>
          s.procs[g].CloseFailed?)
    && (forall c :: c in s.failed ==> c < s.next)
  }

  ghost predicate FlagsAgree(s: State) {
    forall g :: g in s.procs && Closing(s.procs[g]) ==> s.closed
  }

  ghost predicate Inv(s: State) {
    && Conserved(s)
    && |s.pool| <= POOL_SIZE
    && s.sem == CountIf(s.procs, Holds) <= POOL_SIZE
    && FailedAreOut(s)
    && FlagsAgree(s)
  }

  /** The ways a step moves connections. */
  datatype Move = Quiet | FromPool | FromDial | ToPool(conn: Conn) | ToShut(conn: Conn)

  ghost function OwnedBy(s: State, g: nat): Option<Conn> {
    if g in s.procs then Owns(s.procs[g]) else None
  }

  predicate Closing(pc: Pc) {
    pc.CloseDrain? || pc.CloseConn? || pc.CloseDone?
  }

  /** A step of goroutine g moved connections like this. */
  ghost predicate Moves(s: State, g: nat, t: State, m: Move) {
    && g in t.procs && t.procs == s.procs[g := t.procs[g]]
    && ((t.closed == s.closed && !Closing(t.procs[g])) || (g in s.procs && InClose(s.procs[g])))
    && match m
       case Quiet => t.pool == s.pool && t.shut == s.shut && t.next == s.next && OwnedBy(t, g) == OwnedBy(s, g)
       case FromPool =>
         && s.pool != [] && t.pool == s.pool[1..] && t.shut == s.shut && t.next == s.next
         && OwnedBy(s, g) == None && OwnedBy(t, g) == Some(s.pool[0])
       case FromDial =>
         && t.pool == s.pool && t.shut == s.shut && t.next == s.next + 1
         && OwnedBy(s, g) == None && OwnedBy(t, g) == Some(s.next)
       case ToPool(c) =>
         && t.pool == s.pool + [c] && |s.pool| < POOL_SIZE && t.shut == s.shut && t.next == s.next
         && g in s.procs && s.procs[g].SendPut? && s.procs[g].conn == c && OwnedBy(t, g) == None
       case ToShut(c) =>
         && t.pool == s.pool && t.shut == s.shut + multiset{c} && t.next == s.next
         && OwnedBy(s, g) == Some(c) && OwnedBy(t, g) == None
  }

  lemma GateMoves(s: State, g: nat, e: Event)
    requires g in s.procs && GateAct(s, g, e).Some?
    ensures Moves(s, g, GateAct(s, g, e).value, Quiet)
  {}

  lemma ConnMoves(s: State, g: nat, e: Event) returns (m: Move)
    requires g in s.procs && ConnAct(s, g, e).Some?
    ensures Moves(s, g, ConnAct(s, g, e).value, m)
  {
    match s.procs[g]
    case TakeIdle(_) => m := if s.pool != [] then FromPool else Quiet;
    case Dialling(_) => m := if e.Succeed? then FromDial else Quiet;
    case CloseFailed(_, c) => m := ToShut(c);
    case _ => m := Quiet;
  }

  lemma PutMoves(s: State, g: nat, e: Event) returns (m: Move)
    requires g in s.procs && PutAct(s, g, e).Some?
    ensures Moves(s, g, PutAct(s, g, e).value, m)
  {
    match s.procs[g]
    case SendPut(c, _) => m := if |s.pool| < POOL_SIZE then ToPool(c) else Quiet;
    case ClosePut(c, _) => m := ToShut(c);
    case _ => m := Quiet;
  }

  lemma WarmMoves(s: State, g: nat, e: Event) returns (m: Move)
    requires g in s.procs && WarmAct(s, g, e).Some?
    ensures Moves(s, g, WarmAct(s, g, e).value, m)
  {
    m := if s.procs[g].WarmDialling? && e.Succeed? then FromDial else Quiet;
  }

  lemma CloseMoves(s: State, g: nat, e: Event) returns (m: Move)
    requires g in s.procs && CloseAct(s, g, e).Some?
    ensures Moves(s, g, CloseAct(s, g, e).value, m)
  {
    match s.procs[g]
    case CloseDrain => m := if s.pool != [] then FromPool else Quiet;
    case CloseConn(c) => m := ToShut(c);
    case _ => m := Quiet;
  }

  /** Every step moves connections in one of these ways. */
  lemma StepMoves(s: State, l: Label) returns (m: Move)
    requires Next(s, l).Some?
    ensures Moves(s, l.g, Next(s, l).value, m)
  {
    m := Quiet;
    if l.Run? {
      var pc := s.procs[l.g];
      if Putting(pc) { m := PutMoves(s, l.g, l.e); }
      else if Warming(pc) { m := WarmMoves(s, l.g, l.e); }
      else if InClose(pc) { m := CloseMoves(s, l.g, l.e); }
      else if InGate(pc) { GateMoves(s, l.g, l.e); }
      else { m := ConnMoves(s, l.g, l.e); }
    }
  }

  lemma PoolHead(pool: seq<Conn>, c: Conn)
    requires pool != []
    ensures multiset(pool)[c] == multiset(pool[1..])[c] + Bit(c == pool[0])
  {
    assert pool == [pool[0]] + pool[1..];
  }

  lemma PoolTail(pool: seq<Conn>, d: Conn, c: Conn)
    ensures multiset(pool + [d])[c] == multiset(pool)[c] + Bit(c == d)
  {}

  lemma MoveConserves(s: State, g: nat, t: State, m: Move)
    requires Conserved(s) && Moves(s, g, t, m)
    ensures Conserved(t)
  {
    forall c: Conn ensures Places(t, c) == Bit(c < t.next) {
      MoveConservesOne(s, g, t, m, c);
    }
  }

  lemma MoveConservesOne(s: State, g: nat, t: State, m: Move, c: Conn)
    requires Places(s, c) == Bit(c < s.next) && Moves(s, g, t, m)
    ensures Places(t, c) == Bit(c < t.next)
  {
    CountUpdate(s.procs, g, t.procs[g], Is(c));
    match m {
      case FromPool => PoolHead(s.pool, c);
      case ToPool(d) => PoolTail(s.pool, d, c);
      case _ =>
    }
  }
}
