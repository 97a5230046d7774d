/** No caller waits for ever: while some caller has not returned, some step other than a new call or a
    cancellation is possible, and only so many such steps follow one another. */
module HostnameProgress {
  import opened Totals
  import opened Singleflight
  import opened HostnameCache

  // ----- a bound on the steps

  /** What a caller has left to do, with the resolution it may still start. */
  function CallerLeft(caller: Caller): nat {
    match caller
    case Calling(_) => 6
    case Missed(_) => 5
    case Waiting(_, _) => 1
    case Returned(_, _, _) => 0
    case Failed(_, _, _) => 0
  }

  /** What a resolution has left to do. */
  function PhaseLeft(phase: Phase): nat {
    match phase
    case Resolving => 3
    case Resolved(_) => 2
    case Saved(_) => 1
    case Broken => 1
    case Over => 0
  }

  /** With caller numbers below n. */
  function ToDo(s: State, n: nat): nat {
    Total(s.callers, CallerLeft, n) + Total(s.phases, PhaseLeft, s.group.next)
  }

  ghost predicate Below(s: State, n: nat) {
    forall c :: c in s.callers ==> c < n
  }

  /** Resolutions are numbered in order of their start. */
  ghost predicate Numbered(s: State) {
    Valid(s.group) && s.phases.Keys == s.group.flights.Keys
  }

  lemma LookTakesOne(isLiteral: string -> bool, s: State, l: Label, n: nat)
    requires Below(s, n) && (l.Look? || l.Collect?) && Next(isLiteral, s, l).Some?
    ensures var t := Next(isLiteral, s, l).value; ToDo(t, n) < ToDo(s, n) && Below(t, n)
  {
    var t := Next(isLiteral, s, l).value;
    TotalUpdate(s.callers, CallerLeft, n, l.c, t.callers[l.c]);
  }

  lemma JoinTakesOne(isLiteral: string -> bool, s: State, c: nat, n: nat)
    requires Numbered(s) && Below(s, n) && Next(isLiteral, s, Join(c)).Some?
    ensures var t := Next(isLiteral, s, Join(c)).value; ToDo(t, n) < ToDo(s, n) && Below(t, n)
  {
    var t := Next(isLiteral, s, Join(c)).value;
    TotalUpdate(s.callers, CallerLeft, n, c, t.callers[c]);
    var id := t.callers[c].id;
    if id !in s.phases {
      assert id == s.group.next;
      TotalUpdate(s.phases, PhaseLeft, id, id, t.phases[id]);
    }
  }

  lemma PhaseTakesOne(isLiteral: string -> bool, s: State, l: Label, n: nat)
    requires Numbered(s) && (l.Resolve? || l.Save? || l.End?) && Next(isLiteral, s, l).Some?
    ensures var t := Next(isLiteral, s, l).value; ToDo(t, n) < ToDo(s, n) && t.callers == s.callers
  {
    var t := Next(isLiteral, s, l).value;
    TotalUpdate(s.phases, PhaseLeft, s.group.next, l.id, t.phases[l.id]);
  }

  /** New calls and expiring contexts come from outside. */
  predicate Outside(l: Label) {
    l.Call? || l.Cancel?
  }

  lemma StepTakesOne(isLiteral: string -> bool, s: State, l: Label, n: nat)
    requires Numbered(s) && Below(s, n) && !Outside(l) && Next(isLiteral, s, l).Some?
    ensures var t := Next(isLiteral, s, l).value; ToDo(t, n) < ToDo(s, n) && Below(t, n)
  {
    if l.Join? { JoinTakesOne(isLiteral, s, l.c, n); }
    else if l.Look? || l.Collect? { LookTakesOne(isLiteral, s, l, n); }
    else { PhaseTakesOne(isLiteral, s, l, n); }
  }

  ghost predicate NoCalls(ls: seq<Label>) {
    forall i :: 0 <= i < |ls| ==> !ls[i].Call?
  }

  /** The steps of a run that are not cancellations. */
  function OwnSteps(ls: seq<Label>): nat {
    if ls == [] then 0 else (if ls[0].Cancel? then 0 else 1) + OwnSteps(ls[1..])
  }

  /** Without new calls, no run takes more steps of its own than there was to do. */
  lemma {:induction false} RunsAreBounded(isLiteral: string -> bool, s: State, ls: seq<Label>, t: State, n: nat)
    requires Inv(isLiteral, s) && Below(s, n) && NoCalls(ls) && Reaches(isLiteral, s, ls, t)
    ensures OwnSteps(ls) + ToDo(t, n) <= ToDo(s, n)
    decreases ls
  {
    if ls != [] {
      assert !ls[0].Call?;
      if !ls[0].Cancel? { StepTakesOne(isLiteral, s, ls[0], n); }
      StepKeepsInv(isLiteral, s, ls[0]);
      RunsAreBounded(isLiteral, Next(isLiteral, s, ls[0]).value, ls[1..], t, n);
    }
  }

  // ----- and it is never stuck

  predicate HasReturned(caller: Caller) {
    caller.Returned? || caller.Failed?
  }

  ghost predicate CanGoOn(isLiteral: string -> bool, s: State) {
    exists l :: !Outside(l) && Next(isLiteral, s, l).Some?
  }

  lemma OwnStep(isLiteral: string -> bool, s: State, l: Label)
    requires !Outside(l) && Next(isLiteral, s, l).Some?
    ensures CanGoOn(isLiteral, s)
  {}

  /** A resolution under way is answered, saves its answer, or ends. */
  lemma ResolutionGoesOn(isLiteral: string -> bool, s: State, id: nat)
    requires id in s.phases && id in s.group.flights && !s.phases[id].Over?
    ensures CanGoOn(isLiteral, s)
  {
    match s.phases[id]
    case Resolving => OwnStep(isLiteral, s, Resolve(id, Error));
    case Resolved(_) => OwnStep(isLiteral, s, Save(id, 0, 0));
    case _ => OwnStep(isLiteral, s, End(id));
  }

  lemma CallerGoesOn(isLiteral: string -> bool, s: State, c: nat)
    requires Inv(isLiteral, s) && c in s.callers && !HasReturned(s.callers[c])
    ensures CanGoOn(isLiteral, s)
  {
    match s.callers[c]
    case Calling(_) => OwnStep(isLiteral, s, Look(c, 0));
    case Missed(_) => OwnStep(isLiteral, s, Join(c));
    case Waiting(_, id) =>
      assert Explained(isLiteral, s, c, s.callers[c]);
      assert FlightAgrees(s, id);
      if s.group.flights[id].result.Some? { OwnStep(isLiteral, s, Collect(c)); }
      else { ResolutionGoesOn(isLiteral, s, id); }
  }

  /** After any run of a new cache: without new calls only so many steps follow, cancellations apart, and when no
      step but a call or a cancellation is possible any more, every caller has returned. */
  lemma EveryCallerReturns(isLiteral: string -> bool, ls: seq<Label>, s: State, n: nat, ks: seq<Label>, t: State)
    requires Reaches(isLiteral, Empty, ls, s) && Below(s, n) && NoCalls(ks) && Reaches(isLiteral, s, ks, t)
    ensures OwnSteps(ks) <= ToDo(s, n)
    ensures !CanGoOn(isLiteral, t) ==> forall c :: c in t.callers ==> HasReturned(t.callers[c])
  {
    RunKeepsInv(isLiteral, Empty, ls, s);
    RunsAreBounded(isLiteral, s, ks, t, n);
    RunKeepsInv(isLiteral, s, ks, t);
    if !CanGoOn(isLiteral, t) {
      forall c | c in t.callers ensures HasReturned(t.callers[c]) {
        if !HasReturned(t.callers[c]) { CallerGoesOn(isLiteral, t, c); }
      }
    }
  }
}
