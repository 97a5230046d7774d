/** Replacing the installed binary: verify, rename the present one aside, rename the
    new one in, roll back on failure, delete the old one now or at the next reboot.
    The effects on disk are reported in order; a crash is a prefix of them. */
module UpdateSwap {
  import opened Wrappers

  /** A binary; trusted if it was installed before or passed both verifications. */
  datatype Image = Image(id: nat, trusted: bool)

  datatype Disk = Disk(
    bin: Option<Image>,   // at the install path
    aside: Option<Image>,   // at the same path with ".old" appended
    tmp: Option<Image>,   // the extracted candidate
    doomed: bool,         // the ".old" path is due for deletion at the next reboot
    running: bool)        // the service

  datatype Effect =
    | Extract(image: Image)
    | RemoveTmp
    | Stop
    | RemoveOld
    | Aside               // rename the binary to its ".old" name, replacing what is there
    | Install             // rename the candidate to the install path
    | RollBack            // rename the ".old" copy back
    | Doom                // ask for deletion at reboot
    | Start

  function Apply(d: Disk, e: Effect): Disk {
    match e
    case Extract(i) => d.(tmp := Some(i))
    case RemoveTmp => d.(tmp := None)
    case Stop => d.(running := false)
    case RemoveOld => d.(aside := None)
    case Aside => d.(aside := d.bin, bin := None)
    case Install => d.(bin := d.tmp, tmp := None)
    case RollBack => d.(bin := d.aside, aside := None)
    case Doom => d.(doomed := true)
    case Start => d.(running := true)
  }

  function ApplyAll(d: Disk, es: seq<Effect>): Disk
    decreases es
  {
    if es == [] then d else ApplyAll(Apply(d, es[0]), es[1..])
  }

  lemma {:induction false} ApplyThrough(d: Disk, a: seq<Effect>, b: seq<Effect>)
    ensures ApplyAll(d, a + b) == ApplyAll(ApplyAll(d, a), b)
    decreases a
  {
    if a == [] {
      assert a + b == b;
    } else {
      ApplyThrough(Apply(d, a[0]), a[1..], b);
      assert (a + b)[1..] == a[1..] + b;
    }
  }

  lemma ApplyOne(d: Disk, e: Effect)
    ensures ApplyAll(d, [e]) == Apply(d, e)
  {
    assert [e][1..] == [];
  }

  lemma OneEffect(d: Disk, e: Effect, rest: seq<Effect>)
    ensures ApplyAll(d, [e] + rest) == ApplyAll(Apply(d, e), rest)
  {
    assert ([e] + rest)[1..] == rest;
  }

  /** What goes well or wrong during one Update. */
  datatype Env = Env(
    fetched: bool,     // a newer release and its files were downloaded
    signed: bool,      // the minisign verification of the archive succeeds
    extracted: bool,
    id: nat,
    checked: bool,     // the checksum verification of the candidate succeeds
    queried: bool,     // the service could be queried
    stops: bool,
    clears: bool,      // removing a leftover ".old" works
    movesAside: bool,
    installs: bool,
    rollsBack: bool,
    cleans: bool,      // removing the ".old" copy afterwards works
    delays: bool,      // asking for deletion at reboot works
    starts: bool)

  function When(b: bool, e: Effect): seq<Effect> {
    if b then [e] else []
  }

  function ClearEffects(d: Disk, env: Env): seq<Effect> {
    When(env.queried && d.running && env.stops, Stop) + When(d.aside.Some? && env.clears, RemoveOld)
  }

  function FinishEffects(env: Env, restarts: bool): seq<Effect> {
    (if env.cleans then [RemoveOld] else When(env.delays, Doom)) + When(restarts, Start)
  }

  function RollBackEffects(env: Env): seq<Effect> {
    When(env.rollsBack, RollBack) + [RemoveTmp]
  }

  function RenameEffects(env: Env, restarts: bool): seq<Effect> {
    if !env.movesAside then [RemoveTmp]
    else [Aside] + if env.installs then [Install] + FinishEffects(env, restarts) else RollBackEffects(env)
  }

  function UpdateEffects(d: Disk, env: Env): seq<Effect> {
    if !env.fetched || !env.signed || !env.extracted then []
    else
      [Extract(Image(env.id, env.signed && env.checked))] +
      if !env.checked || d.bin.None? then [RemoveTmp]
      else ClearEffects(d, env) + RenameEffects(env, env.queried && d.running && env.starts)
  }

  class Machine {
    var disk: Disk

    /** One durable effect, if it happens. */
    method Do(b: bool, e: Effect) returns (ghost log: seq<Effect>)
      modifies this
      ensures log == When(b, e) && disk == ApplyAll(old(disk), log)
      ensures disk == if b then Apply(old(disk), e) else old(disk)
    {
      log := When(b, e);
      if b {
        ApplyOne(disk, e);
        disk := Apply(disk, e);
      }
    }

    /** Stop the service and clear a leftover ".old". */
    method Clear(env: Env) returns (ghost log: seq<Effect>)
      modifies this
      ensures log == ClearEffects(old(disk), env) && disk == ApplyAll(old(disk), log)
      ensures disk.bin == old(disk).bin && disk.tmp == old(disk).tmp
    {
      ghost var start, a, b := disk, [], [];
      if env.queried && disk.running {
        a := Do(env.stops, Stop);
      }
      b := Do(disk.aside.Some? && env.clears, RemoveOld);
      ApplyThrough(start, a, b);
      log := a + b;
    }

    /** Delete the ".old" copy now or at reboot, and restart the service. */
    method Finish(env: Env, restarts: bool) returns (ghost log: seq<Effect>)
      modifies this
      ensures log == FinishEffects(env, restarts) && disk == ApplyAll(old(disk), log) && disk.bin == old(disk).bin
    {
      ghost var start, a, b := disk, [], [];
      if env.cleans {
        a := Do(true, RemoveOld);
      } else {
        a := Do(env.delays, Doom);
      }
      b := Do(restarts, Start);
      ApplyThrough(start, a, b);
      log := a + b;
    }

    method GiveUp(env: Env) returns (ghost log: seq<Effect>)
      modifies this
      ensures log == RollBackEffects(env) && disk == ApplyAll(old(disk), log)
    {
      ghost var start, a, b := disk, [], [];
      a := Do(env.rollsBack, RollBack);
      b := Do(true, RemoveTmp);
      ApplyThrough(start, a, b);
      log := a + b;
    }

    /** The two renames, with the rollback. */
    method Rename(env: Env, restarts: bool) returns (ok: bool, ghost log: seq<Effect>)
      requires disk.bin.Some?
      modifies this
      ensures log == RenameEffects(env, restarts) && disk == ApplyAll(old(disk), log)
      ensures ok <==> env.movesAside && env.installs
      ensures ok ==> disk.bin == old(disk).tmp
    {
      if !env.movesAside {
        log := Do(true, RemoveTmp);
        return false, log;
      }
      ghost var start, a, b, c := disk, [], [], [];
      a := Do(true, Aside);
      ghost var moved := disk;
      if env.installs {
        b := Do(true, Install);
        ghost var placed := disk;
        c := Finish(env, restarts);
        ApplyThrough(moved, b, c);
        c := b + c;
      } else {
        c := GiveUp(env);
      }
      ApplyThrough(start, a, c);
      return env.installs, a + c;
    }

    /** Update, from the downloaded archive on. */
    method Update(env: Env) returns (ok: bool, ghost log: seq<Effect>)
      modifies this
      ensures log == UpdateEffects(old(disk), env) && disk == ApplyAll(old(disk), log)
      ensures ok ==> disk.bin == Some(Image(env.id, true))
    {
      if !env.fetched || !env.signed || !env.extracted {
        return false, [];
      }
      ghost var start, a, b, c := disk, [], [], [];
      a := Do(true, Extract(Image(env.id, env.signed && env.checked)));
      ghost var extracted := disk;
      if !env.checked || disk.bin.None? {
        b := Do(true, RemoveTmp);
        ApplyThrough(start, a, b);
        return false, a + b;
      }
      var wasRunning := env.queried && disk.running;
      b := Clear(env);
      ok, c := Rename(env, wasRunning && env.starts);
      ApplyThrough(extracted, b, c);
      ApplyThrough(start, a, b + c);
      return ok, a + (b + c);
    }
  }

  // ----- what a whole Update leaves

  lemma {:induction false} WhenLast(d: Disk, b: bool, e: Effect)
    ensures ApplyAll(d, When(b, e)) == if b then Apply(d, e) else d
  {
    if b { ApplyOne(d, e); }
  }

  lemma WhenFirst(d: Disk, b: bool, e: Effect, rest: seq<Effect>)
    ensures ApplyAll(d, When(b, e) + rest) == ApplyAll(if b then Apply(d, e) else d, rest)
  {
    ApplyThrough(d, When(b, e), rest);
    WhenLast(d, b, e);
  }

  /** The candidate was fetched, verified twice, and there is a binary to replace. */
  predicate Swaps(d: Disk, env: Env) {
    env.fetched && env.signed && env.extracted && env.checked && d.bin.Some?
  }

  /** The service was seen running and was stopped. */
  predicate Stopped(d: Disk, env: Env) {
    env.queried && d.running && env.stops
  }

  lemma FinishLeaves(d: Disk, env: Env, restarts: bool)
    ensures var f := ApplyAll(d, FinishEffects(env, restarts));
            && f.bin == d.bin && f.tmp == d.tmp && f.running == (d.running || restarts)
            && f.aside == (if env.cleans then None else d.aside)
            && f.doomed == (d.doomed || (!env.cleans && env.delays))
  {
    if env.cleans {
      WhenFirst(d, true, RemoveOld, When(restarts, Start));
      WhenLast(Apply(d, RemoveOld), restarts, Start);
    } else {
      WhenFirst(d, env.delays, Doom, When(restarts, Start));
      WhenLast(if env.delays then Apply(d, Doom) else d, restarts, Start);
    }
  }

  lemma GiveUpLeaves(d: Disk, env: Env)
    ensures var f := ApplyAll(d, RollBackEffects(env));
            if env.rollsBack then f == d.(bin := d.aside, aside := None, tmp := None) else f == d.(tmp := None)
  {
    WhenFirst(d, env.rollsBack, RollBack, [RemoveTmp]);
    ApplyOne(if env.rollsBack then Apply(d, RollBack) else d, RemoveTmp);
  }

  lemma RenameLeaves(d: Disk, env: Env, restarts: bool)
    ensures var f := ApplyAll(d, RenameEffects(env, restarts));
            && f.tmp == None
            && if !env.movesAside then f == d.(tmp := None)
               else if env.installs then
                 && f.bin == d.tmp && f.running == (d.running || restarts)
                 && f.aside == (if env.cleans then None else d.bin)
                 && f.doomed == (d.doomed || (!env.cleans && env.delays))
               else if env.rollsBack then f == d.(aside := None, tmp := None)
               else f == d.(bin := None, aside := d.bin, tmp := None)
  {
    if !env.movesAside {
      ApplyOne(d, RemoveTmp);
    } else {
      var d1 := Apply(d, Aside);
      if env.installs {
        OneEffect(d1, Install, FinishEffects(env, restarts));
        FinishLeaves(Apply(d1, Install), env, restarts);
        OneEffect(d, Aside, [Install] + FinishEffects(env, restarts));
      } else {
        GiveUpLeaves(d1, env);
        OneEffect(d, Aside, RollBackEffects(env));
      }
    }
  }

  lemma ClearLeaves(d: Disk, env: Env, rest: seq<Effect>)
    ensures var clears := d.aside.Some? && env.clears;
            ApplyAll(d, ClearEffects(d, env) + rest) ==
            ApplyAll(d.(running := d.running && !Stopped(d, env), aside := if clears then None else d.aside), rest)
  {
    var stops, clears := Stopped(d, env), d.aside.Some? && env.clears;
    WhenFirst(d, stops, Stop, When(clears, RemoveOld) + rest);
    var d1 := if stops then Apply(d, Stop) else d;
    WhenFirst(d1, clears, RemoveOld, rest);
    assert ClearEffects(d, env) + rest == When(stops, Stop) + (When(clears, RemoveOld) + rest);
  }

  /** From d, an Update that swaps in this image leaves f. It installs it exactly if both renames work; the old binary
      is then deleted, or due for deletion, and a service that was running runs again. Otherwise the binary is the one
      there was, unless the rollback failed as well, when it is still at its ".old" name. */
  ghost predicate Leaves(d: Disk, env: Env, image: Option<Image>, f: Disk) {
    && f.tmp == None
    && if env.movesAside && env.installs then
         && f.bin == image
         && (env.cleans ==> f.aside == None && f.doomed == d.doomed)
         && (!env.cleans ==> f.aside == d.bin && f.doomed == (d.doomed || env.delays))
         && f.running == (d.running && (!Stopped(d, env) || env.starts))
       else
         && (if env.movesAside && !env.rollsBack then f.bin == None && f.aside == d.bin else f.bin == d.bin)
         && f.doomed == d.doomed && f.running == (d.running && !Stopped(d, env))
         && (!env.movesAside ==> f.aside == if env.clears then None else d.aside)
  }

  lemma SwapLeaves(d: Disk, env: Env)
    ensures var rest := RenameEffects(env, env.queried && d.running && env.starts);
            Leaves(d, env, d.tmp, ApplyAll(d, ClearEffects(d, env) + rest))
  {
    var restarts := env.queried && d.running && env.starts;
    var rest := RenameEffects(env, restarts);
    ClearLeaves(d, env, rest);
    var clears := d.aside.Some? && env.clears;
    var cleared := d.(running := d.running && !Stopped(d, env), aside := if clears then None else d.aside);
    RenameLeaves(cleared, env, restarts);
  }

  /** What an Update that runs to its end leaves: everything as it was, except for a candidate there was before, if
      anything is missing or not verified; else what is said above. */
  lemma UpdateOutcome(d: Disk, env: Env)
    ensures var f := ApplyAll(d, UpdateEffects(d, env));
            if Swaps(d, env) then Leaves(d, env, Some(Image(env.id, true)), f)
            else f == if env.fetched && env.signed && env.extracted then d.(tmp := None) else d
  {
    if env.fetched && env.signed && env.extracted {
      var x := Extract(Image(env.id, env.signed && env.checked));
      var d1 := Apply(d, x);
      if Swaps(d, env) {
        SwapLeaves(d1, env);
        OneEffect(d, x, ClearEffects(d, env) + RenameEffects(env, env.queried && d.running && env.starts));
        LeavesAlike(d, d1, env, d1.tmp, ApplyAll(d, UpdateEffects(d, env)));
      } else {
        OneEffect(d, x, [RemoveTmp]);
        ApplyOne(d1, RemoveTmp);
      }
    }
  }

  /** The candidate that was extracted makes no other difference. */
  lemma LeavesAlike(d: Disk, d1: Disk, env: Env, image: Option<Image>, f: Disk)
    requires d1 == d.(tmp := d1.tmp)
    ensures Leaves(d, env, image, f) <==> Leaves(d1, env, image, f)
    ensures ClearEffects(d, env) == ClearEffects(d1, env)
  {}

  predicate Renames(e: Effect) {
    e.Aside? || e.Install?
  }

  lemma {:induction false} StaysStopped(d: Disk, es: seq<Effect>)
    requires !d.running && Start !in es
    ensures !ApplyAll(d, es).running
    decreases es
  {
    if es != [] { StaysStopped(Apply(d, es[0]), es[1..]); }
  }

  /** Nothing is started before the renames. */
  lemma StartsLast(env: Env, restarts: bool, j: nat)
    requires j < |RenameEffects(env, restarts)| && Renames(RenameEffects(env, restarts)[j])
    ensures j <= 1 && Start !in RenameEffects(env, restarts)[..j]
  {}

  lemma StoppedBefore(d: Disk, env: Env)
    requires d.running ==> Stopped(d, env)
    ensures !ApplyAll(d, ClearEffects(d, env)).running
  {
    ClearLeaves(d, env, []);
    assert ClearEffects(d, env) + [] == ClearEffects(d, env);
  }

  lemma PrefixInRest(x: Effect, clear: seq<Effect>, rest: seq<Effect>, k: nat) returns (j: nat)
    requires k < 1 + |clear| + |rest| && Renames(([x] + (clear + rest))[k])
    requires !Renames(x) && forall e :: e in clear ==> !Renames(e)
    ensures j < |rest| && rest[j] == ([x] + (clear + rest))[k]
    ensures ([x] + (clear + rest))[..k] == [x] + (clear + rest[..j])
  {
    assert k > 0;
    assert ([x] + (clear + rest))[k] == (clear + rest)[k - 1];
    j := k - 1 - |clear|;
  }

  /** If the service can be stopped, no rename happens while it runs. */
  lemma SwapsWhileStopped(d: Disk, env: Env, k: nat)
    requires d.running ==> env.queried && env.stops
    requires k < |UpdateEffects(d, env)| && Renames(UpdateEffects(d, env)[k])
    ensures !ApplyAll(d, UpdateEffects(d, env)[..k]).running
  {
    var x := Extract(Image(env.id, env.signed && env.checked));
    var d1, clear := Apply(d, x), ClearEffects(d, env);
    var restarts := env.queried && d.running && env.starts;
    var rest := RenameEffects(env, restarts);
    assert UpdateEffects(d, env) == [x] + (clear + rest);
    var j := PrefixInRest(x, clear, rest, k);
    StartsLast(env, restarts, j);
    StoppedBefore(d1, env);
    StaysStopped(ApplyAll(d1, clear), rest[..j]);
    ApplyThrough(d1, clear, rest[..j]);
    OneEffect(d, x, clear + rest[..j]);
  }

  // ----- crash safety

  ghost predicate Recoverable(d: Disk) {
    d.bin.Some? || d.aside.Some?
  }

  /** A binary at the install path or its ".old" name, and no untrusted one at either. */
  ghost predicate Whole(d: Disk) {
    && Recoverable(d)
    && (d.bin.Some? ==> d.bin.value.trusted)
    && (d.aside.Some? ==> d.aside.value.trusted)
  }

  ghost predicate Inv(d: Disk) {
    Whole(d) && (d.doomed ==> d.bin.Some?)
  }

  /** When an effect cannot lose the last binary or bring in an unverified one. */
  ghost predicate Safe(d: Disk, e: Effect) {
    match e
    case RemoveOld => d.bin.Some?
    case Aside => d.bin.Some? && !d.doomed
    case Install => d.tmp.Some? && d.tmp.value.trusted
    case RollBack => d.aside.Some?
    case Doom => d.bin.Some?
    case _ => true
  }

  ghost predicate AllSafe(d: Disk, es: seq<Effect>)
    decreases es
  {
    es == [] || (Safe(d, es[0]) && AllSafe(Apply(d, es[0]), es[1..]))
  }

  lemma {:induction false} SafePrefixKeepsInv(d: Disk, es: seq<Effect>, k: nat)
    requires Inv(d) && AllSafe(d, es) && k <= |es|
    ensures Inv(ApplyAll(d, es[..k]))
    decreases es
  {
    if k > 0 {
      SafePrefixKeepsInv(Apply(d, es[0]), es[1..], k - 1);
      assert es[..k][1..] == es[1..][..k - 1];
    }
  }

  lemma SafeFirst(d: Disk, e: Effect, rest: seq<Effect>)
    requires Safe(d, e) && AllSafe(Apply(d, e), rest)
    ensures AllSafe(d, [e] + rest)
  {
    assert ([e] + rest)[1..] == rest;
  }

  lemma SafeWhen(d: Disk, b: bool, e: Effect, rest: seq<Effect>)
    requires b ==> Safe(d, e)
    requires AllSafe(if b then Apply(d, e) else d, rest)
    ensures AllSafe(d, When(b, e) + rest)
  {
    if b { SafeFirst(d, e, rest); } else { assert When(b, e) + rest == rest; }
  }

  lemma SafeLast(d: Disk, b: bool, e: Effect)
    requires b ==> Safe(d, e)
    ensures AllSafe(d, When(b, e))
  {
    SafeWhen(d, b, e, []);
    assert When(b, e) + [] == When(b, e);
  }

  lemma FinishIsSafe(d: Disk, env: Env, restarts: bool)
    requires d.bin.Some?
    ensures AllSafe(d, FinishEffects(env, restarts))
  {
    if env.cleans {
      SafeLast(Apply(d, RemoveOld), restarts, Start);
      SafeFirst(d, RemoveOld, When(restarts, Start));
    } else {
      SafeLast(if env.delays then Apply(d, Doom) else d, restarts, Start);
      SafeWhen(d, env.delays, Doom, When(restarts, Start));
    }
  }

  lemma RenameIsSafe(d: Disk, env: Env, restarts: bool)
    requires d.bin.Some? && d.tmp.Some? && d.tmp.value.trusted && !d.doomed
    ensures AllSafe(d, RenameEffects(env, restarts))
  {
    var d1 := Apply(d, Aside);
    if !env.movesAside {
      SafeLast(d, true, RemoveTmp);
    } else if env.installs {
      FinishIsSafe(Apply(d1, Install), env, restarts);
      SafeFirst(d1, Install, FinishEffects(env, restarts));
      SafeFirst(d, Aside, [Install] + FinishEffects(env, restarts));
    } else {
      SafeLast(if env.rollsBack then Apply(d1, RollBack) else d1, true, RemoveTmp);
      SafeWhen(d1, env.rollsBack, RollBack, [RemoveTmp]);
      SafeFirst(d, Aside, RollBackEffects(env));
    }
  }

  lemma SwapIsSafe(d: Disk, env: Env, restarts: bool)
    requires d.bin.Some? && d.tmp.Some? && d.tmp.value.trusted && !d.doomed
    ensures AllSafe(d, ClearEffects(d, env) + RenameEffects(env, restarts))
  {
    var stops, clears := env.queried && d.running && env.stops, d.aside.Some? && env.clears;
    var d1 := if stops then Apply(d, Stop) else d;
    var d2 := if clears then Apply(d1, RemoveOld) else d1;
    var rest := RenameEffects(env, restarts);
    RenameIsSafe(d2, env, restarts);
    SafeWhen(d1, clears, RemoveOld, rest);
    SafeWhen(d, stops, Stop, When(clears, RemoveOld) + rest);
    assert ClearEffects(d, env) + rest == When(stops, Stop) + (When(clears, RemoveOld) + rest);
  }

  lemma UpdateIsSafe(d: Disk, env: Env)
    requires Inv(d) && !d.doomed
    ensures AllSafe(d, UpdateEffects(d, env))
  {
    if env.fetched && env.signed && env.extracted {
      var e := Extract(Image(env.id, env.signed && env.checked));
      var d1 := Apply(d, e);
      if !env.checked || d.bin.None? {
        SafeLast(d1, true, RemoveTmp);
        SafeFirst(d, e, [RemoveTmp]);
      } else {
        var restarts := env.queried && d.running && env.starts;
        SwapIsSafe(d1, env, restarts);
        SafeFirst(d, e, ClearEffects(d, env) + RenameEffects(env, restarts));
      }
    }
  }

  // ----- histories

  /** An Update stopped after `k` of its effects, or a reboot, which deletes a doomed ".old". */
  datatype Session = Ran(env: Env, k: nat) | Reboot

  function Rebooted(d: Disk): Disk {
    if d.doomed then d.(aside := None, doomed := false) else d
  }

  ghost predicate Leads(d: Disk, sessions: seq<Session>, f: Disk)
    decreases sessions
  {
    if sessions == [] then d == f
    else
      match sessions[0]
      case Reboot => Leads(Rebooted(d), sessions[1..], f)
      case Ran(env, k) =>
        k <= |UpdateEffects(d, env)| && Leads(ApplyAll(d, UpdateEffects(d, env)[..k]), sessions[1..], f)
  }

  /** No Update is begun while a deletion of ".old" is still due. */
  ghost predicate NoneWhileDoomed(d: Disk, sessions: seq<Session>)
    decreases sessions
  {
    sessions == [] ||
    match sessions[0]
    case Reboot => NoneWhileDoomed(Rebooted(d), sessions[1..])
    case Ran(env, k) =>
      !d.doomed && k <= |UpdateEffects(d, env)|
      && NoneWhileDoomed(ApplyAll(d, UpdateEffects(d, env)[..k]), sessions[1..])
  }

  /** Over any such history, a trusted image is always at the install path or its ".old" name. */
  lemma {:induction false} NeverLosesTheBinary(d: Disk, sessions: seq<Session>, f: Disk)
    requires Inv(d) && NoneWhileDoomed(d, sessions) && Leads(d, sessions, f)
    ensures Inv(f)
    decreases sessions
  {
    if sessions != [] {
      match sessions[0]
      case Reboot => NeverLosesTheBinary(Rebooted(d), sessions[1..], f);
      case Ran(env, k) =>
        UpdateIsSafe(d, env);
        SafePrefixKeepsInv(d, UpdateEffects(d, env), k);
        NeverLosesTheBinary(ApplyAll(d, UpdateEffects(d, env)[..k]), sessions[1..], f);
    }
  }

  lemma {:induction false} DoomIsIdle(d: Disk, es: seq<Effect>)
    ensures ApplyAll(d.(doomed := false), es).(doomed := false) == ApplyAll(d, es).(doomed := false)
    decreases es
  {
    if es != [] {
      var u, v := Apply(d.(doomed := false), es[0]), Apply(d, es[0]);
      assert u.(doomed := false) == v.(doomed := false);
      DoomIsIdle(u, es[1..]);
      DoomIsIdle(v, es[1..]);
    }
  }

  /** No Update, wherever it stops, loses the last binary by itself, deletions due or not. */
  lemma UpdateKeepsWhole(d: Disk, env: Env, k: nat)
    requires Whole(d) && k <= |UpdateEffects(d, env)|
    ensures Whole(ApplyAll(d, UpdateEffects(d, env)[..k]))
  {
    var clean, es := d.(doomed := false), UpdateEffects(d, env);
    UpdateIsSafe(clean, env);
    SafePrefixKeepsInv(clean, es, k);
    DoomIsIdle(d, es[..k]);
  }

  /** Every state between the sessions of a history is whole. */
  ghost predicate AlwaysWhole(d: Disk, sessions: seq<Session>)
    decreases sessions
  {
    Whole(d) &&
    (sessions == [] ||
     match sessions[0]
     case Reboot => AlwaysWhole(Rebooted(d), sessions[1..])
     case Ran(env, k) =>
       k <= |UpdateEffects(d, env)| && AlwaysWhole(ApplyAll(d, UpdateEffects(d, env)[..k]), sessions[1..]))
  }

  /** The state after an Update stopped at any effect, followed by a reboot, still has a binary. */
  ghost predicate SurvivesUpdate(d: Disk) {
    forall env: Env, k: nat :: k <= |UpdateEffects(d, env)| ==>
      Recoverable(Rebooted(ApplyAll(d, UpdateEffects(d, env)[..k])))
  }

  /** An Update may be interrupted anywhere exactly when no deletion of ".old" is due: otherwise a
      crash right after the rename aside lets the reboot delete the only copy. */
  lemma SurvivesUpdateIff(d: Disk)
    requires Inv(d)
    ensures SurvivesUpdate(d) <==> !d.doomed
  {
    if !d.doomed {
      forall env: Env, k: nat | k <= |UpdateEffects(d, env)|
        ensures Recoverable(Rebooted(ApplyAll(d, UpdateEffects(d, env)[..k])))
      {
        UpdateIsSafe(d, env);
        SafePrefixKeepsInv(d, UpdateEffects(d, env), k);
      }
    } else {
      var env, k := CrashAside(d);
    }
  }

  /** What is at the ".old" name is cleared, if there is anything. */
  lemma Cleared(d: Disk, rest: seq<Effect>)
    ensures ApplyAll(d, When(d.aside.Some?, RemoveOld) + rest) == ApplyAll(d.(aside := None), rest)
  {
    if d.aside.Some? {
      OneEffect(d, RemoveOld, rest);
    } else {
      assert When(d.aside.Some?, RemoveOld) + rest == rest;
      assert d == d.(aside := None);
    }
  }

  /** An update that goes well until it is stopped right after it renamed the binary aside. */
  lemma StopAside(d: Disk) returns (env: Env, k: nat)
    requires d.bin.Some?
    ensures k <= |UpdateEffects(d, env)|
    ensures var e := ApplyAll(d, UpdateEffects(d, env)[..k]); e.bin.None? && e.doomed == d.doomed
  {
    env := Env(true, true, true, 0, true, false, false, true, true, true, true, true, true, true);
    var x := Extract(Image(0, true));
    var clear := When(d.aside.Some?, RemoveOld);
    var done := [x] + (clear + [Aside]);
    assert ClearEffects(d, env) == clear;
    assert UpdateEffects(d, env) == done + ([Install] + FinishEffects(env, false));
    k := |done|;
    assert UpdateEffects(d, env)[..k] == done;
    OneEffect(d, x, clear + [Aside]);
    Cleared(Apply(d, x), [Aside]);
    ApplyOne(Apply(d, x).(aside := None), Aside);
  }

  /** The failing run: the update is stopped right after the binary was renamed aside. */
  lemma CrashAside(d: Disk) returns (env: Env, k: nat)
    requires Inv(d) && d.doomed
    ensures k <= |UpdateEffects(d, env)| && !Recoverable(Rebooted(ApplyAll(d, UpdateEffects(d, env)[..k])))
  {
    env, k := StopAside(d);
  }

  /** A retry that finds no installed binary leaves the ".old" copy alone, wherever it is stopped. */
  lemma RetryKeepsOld(d: Disk, env: Env, k: nat)
    requires d.bin.None? && k <= |UpdateEffects(d, env)|
    ensures ApplyAll(d, UpdateEffects(d, env)[..k]).aside == d.aside
  {
    var es := UpdateEffects(d, env)[..k];
    if k > 0 {
      var d1 := Apply(d, es[0]);
      assert es[0].Extract?;
      if k > 1 {
        assert es[1..] == [RemoveTmp];
        ApplyOne(d1, RemoveTmp);
      } else {
        assert es == [es[0]];
        ApplyOne(d, es[0]);
      }
    }
  }
}
