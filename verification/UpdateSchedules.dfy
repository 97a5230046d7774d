/** Which schedules of updates and reboots are safe, however each update goes and wherever it stops. */
module UpdateSchedules {
  import opened Wrappers
  import opened UpdateSwap

  datatype Step = Updating | Rebooting

  /** A history that follows the schedule. */
  ghost predicate Follows(sessions: seq<Session>, schedule: seq<Step>) {
    && |sessions| == |schedule|
    && forall i :: 0 <= i < |schedule| ==> (sessions[i].Reboot? <==> schedule[i].Rebooting?)
  }

  /** Every history of the schedule has a trusted image at the install path or its ".old" name throughout. */
  ghost predicate AlwaysSafe(d: Disk, schedule: seq<Step>) {
    forall sessions, f :: Follows(sessions, schedule) && Leads(d, sessions, f) ==> AlwaysWhole(d, sessions)
  }

  /** At every reboot there has been at most one update since the last; `updates` counts those so far. */
  predicate Spaced(schedule: seq<Step>, updates: nat) {
    schedule == [] ||
    match schedule[0]
    case Rebooting => updates < 2 && Spaced(schedule[1..], 0)
    case Updating => Spaced(schedule[1..], if updates < 2 then updates + 1 else 2)
  }

  /** Two updates with no reboot between them, and then a reboot before any other. */
  ghost predicate TwoThenReboot(schedule: seq<Step>, i: nat, j: nat, r: nat) {
    && i < j < r < |schedule|
    && schedule[i].Updating? && schedule[j].Updating? && schedule[r].Rebooting?
    && forall m :: i < m < r ==> schedule[m].Updating?
  }

  lemma {:induction false} NotSpaced(schedule: seq<Step>, i: nat, j: nat, r: nat, p: nat, updates: nat)
    requires TwoThenReboot(schedule, i, j, r) && p <= r
    requires (p > i ==> updates >= 1) && (p > j ==> updates >= 2)
    ensures !Spaced(schedule[p..], updates)
    decreases r - p
  {
    assert schedule[p..][0] == schedule[p] && schedule[p..][1..] == schedule[p + 1..];
    if p < r {
      NotSpaced(schedule, i, j, r, p + 1, if schedule[p].Rebooting? then 0 else if updates < 2 then updates + 1 else 2);
    }
  }

  /** Where a schedule that is not spaced goes wrong; `since` is where the updates since the last reboot began. */
  lemma {:induction false} FindTwo(schedule: seq<Step>, p: nat, updates: nat, since: nat)
    returns (i: nat, j: nat, r: nat)
    requires p <= |schedule| && !Spaced(schedule[p..], updates) && since <= p
    requires updates <= p - since && (updates < 2 ==> updates == p - since)
    requires forall m :: since <= m < p ==> schedule[m].Updating?
    ensures TwoThenReboot(schedule, i, j, r)
    decreases |schedule| - p
  {
    assert schedule[p..][0] == schedule[p] && schedule[p..][1..] == schedule[p + 1..];
    if schedule[p].Updating? {
      i, j, r := FindTwo(schedule, p + 1, if updates < 2 then updates + 1 else 2, since);
    } else if updates < 2 {
      i, j, r := FindTwo(schedule, p + 1, 0, p + 1);
    } else {
      i, j, r := since, since + 1, p;
    }
  }

  lemma SpacedIff(schedule: seq<Step>)
    ensures Spaced(schedule, 0) <==> forall i: nat, j: nat, r: nat :: !TwoThenReboot(schedule, i, j, r)
  {
    assert schedule[0..] == schedule;
    if !Spaced(schedule, 0) {
      var i, j, r := FindTwo(schedule, 0, 0, 0);
    }
    forall i: nat, j: nat, r: nat | TwoThenReboot(schedule, i, j, r) ensures !Spaced(schedule, 0) {
      NotSpaced(schedule, i, j, r, 0, 0);
    }
  }

  // ----- spaced schedules are safe

  /** What holds after so many updates since the last reboot. */
  ghost predicate Stage(d: Disk, updates: nat) {
    && Whole(d)
    && (updates == 0 ==> !d.doomed)
    && (updates <= 1 ==> Inv(d))
  }

  lemma UpdateStage(d: Disk, updates: nat, env: Env, k: nat)
    requires Stage(d, updates) && k <= |UpdateEffects(d, env)|
    ensures Stage(ApplyAll(d, UpdateEffects(d, env)[..k]), if updates < 2 then updates + 1 else 2)
  {
    UpdateKeepsWhole(d, env, k);
    if updates == 0 {
      UpdateIsSafe(d, env);
      SafePrefixKeepsInv(d, UpdateEffects(d, env), k);
    }
  }

  lemma {:induction false} SpacedIsSafe(d: Disk, schedule: seq<Step>, updates: nat, sessions: seq<Session>, f: Disk)
    requires Stage(d, updates) && Spaced(schedule, updates)
    requires Follows(sessions, schedule) && Leads(d, sessions, f)
    ensures AlwaysWhole(d, sessions)
    decreases schedule
  {
    if schedule != [] {
      assert Follows(sessions[1..], schedule[1..]);
      match sessions[0]
      case Reboot => SpacedIsSafe(Rebooted(d), schedule[1..], 0, sessions[1..], f);
      case Ran(env, k) =>
        UpdateStage(d, updates, env, k);
        SpacedIsSafe(ApplyAll(d, UpdateEffects(d, env)[..k]), schedule[1..],
                     if updates < 2 then updates + 1 else 2, sessions[1..], f);
    }
  }

  // ----- and no others

  const NOTHING: Env :=
    Env(false, false, false, 0, false, false, false, false, false, false, false, false, false, false)

  lemma PrependFollows(s: Session, sessions: seq<Session>, schedule: seq<Step>)
    requires schedule != [] && (s.Reboot? <==> schedule[0].Rebooting?) && Follows(sessions, schedule[1..])
    ensures Follows([s] + sessions, schedule)
  {
    forall i | 0 <= i < |schedule| ensures ([s] + sessions)[i].Reboot? <==> schedule[i].Rebooting? {
      if i > 0 { assert schedule[i] == schedule[1..][i - 1]; }
    }
  }

  /** An update that does nothing. */
  lemma IdleUpdate(d: Disk)
    ensures |UpdateEffects(d, NOTHING)| == 0 && ApplyAll(d, UpdateEffects(d, NOTHING)[..0]) == d
  {}

  lemma {:induction false} SomeHistory(d: Disk, schedule: seq<Step>) returns (sessions: seq<Session>, f: Disk)
    ensures Follows(sessions, schedule) && Leads(d, sessions, f)
    decreases schedule
  {
    if schedule == [] {
      sessions, f := [], d;
    } else {
      IdleUpdate(d);
      var s := if schedule[0].Rebooting? then Reboot else Ran(NOTHING, 0);
      sessions, f := SomeHistory(if s.Reboot? then Rebooted(d) else d, schedule[1..]);
      PrependFollows(s, sessions, schedule);
      assert ([s] + sessions)[1..] == sessions;
      sessions := [s] + sessions;
    }
  }

  /** A history that ends up without a trusted image. */
  ghost predicate Loses(d: Disk, schedule: seq<Step>, sessions: seq<Session>, f: Disk) {
    Follows(sessions, schedule) && Leads(d, sessions, f) && !AlwaysWhole(d, sessions)
  }

  /** One session leads from one disk to the other. */
  ghost predicate LeadsBy(d: Disk, s: Session, e: Disk) {
    if s.Reboot? then e == Rebooted(d)
    else s.k <= |UpdateEffects(d, s.env)| && e == ApplyAll(d, UpdateEffects(d, s.env)[..s.k])
  }

  lemma Prepend(d: Disk, e: Disk, schedule: seq<Step>, s: Session, sessions: seq<Session>, f: Disk)
    requires schedule != [] && (s.Reboot? <==> schedule[0].Rebooting?)
    requires LeadsBy(d, s, e)
    requires Loses(e, schedule[1..], sessions, f)
    ensures Loses(d, schedule, [s] + sessions, f)
  {
    PrependFollows(s, sessions, schedule);
    assert ([s] + sessions)[1..] == sessions;
  }

  /** An update that installs its binary but has to put off deleting the old one. */
  lemma PutOff(d: Disk) returns (env: Env, k: nat)
    requires d.bin.Some?
    ensures k <= |UpdateEffects(d, env)|
    ensures var e := ApplyAll(d, UpdateEffects(d, env)[..k]); e.bin.Some? && e.doomed
  {
    env := Env(true, true, true, 0, true, false, false, true, true, true, true, false, true, true);
    var x := Extract(Image(0, true));
    var clear, swap := When(d.aside.Some?, RemoveOld), [Aside] + ([Install] + [Doom]);
    var es := UpdateEffects(d, env);
    assert ClearEffects(d, env) == clear;
    assert FinishEffects(env, false) == [Doom];
    assert es == [x] + (clear + swap);
    k := |es|;
    assert es[..k] == es;
    OneEffect(d, x, clear + swap);
    var d1 := Apply(d, x);
    Cleared(d1, swap);
    var d2 := d1.(aside := None);
    OneEffect(d2, Aside, [Install] + [Doom]);
    OneEffect(Apply(d2, Aside), Install, [Doom]);
    ApplyOne(Apply(Apply(d2, Aside), Install), Doom);
  }

  /** With the install path empty and a deletion due, the next reboot deletes the only copy. */
  lemma {:induction false} LoseAtReboot(d: Disk, schedule: seq<Step>) returns (sessions: seq<Session>, f: Disk)
    requires d.bin.None? && d.doomed && !Spaced(schedule, 2)
    ensures Loses(d, schedule, sessions, f)
    decreases schedule
  {
    if schedule[0].Rebooting? {
      sessions, f := SomeHistory(Rebooted(d), schedule[1..]);
      assert !AlwaysWhole(Rebooted(d), sessions);
      Prepend(d, Rebooted(d), schedule, Reboot, sessions, f);
      sessions := [Reboot] + sessions;
    } else {
      IdleUpdate(d);
      sessions, f := LoseAtReboot(d, schedule[1..]);
      Prepend(d, d, schedule, Ran(NOTHING, 0), sessions, f);
      sessions := [Ran(NOTHING, 0)] + sessions;
    }
  }

  /** With a deletion due, a second update is stopped right after the rename aside. */
  lemma {:induction false} LoseAtSecond(d: Disk, schedule: seq<Step>) returns (sessions: seq<Session>, f: Disk)
    requires d.bin.Some? && d.doomed && !Spaced(schedule, 1)
    ensures Loses(d, schedule, sessions, f)
    decreases schedule
  {
    if schedule[0].Rebooting? {
      sessions, f := Lose(Rebooted(d), schedule[1..]);
      Prepend(d, Rebooted(d), schedule, Reboot, sessions, f);
      sessions := [Reboot] + sessions;
    } else {
      var env, k := StopAside(d);
      var e := ApplyAll(d, UpdateEffects(d, env)[..k]);
      sessions, f := LoseAtReboot(e, schedule[1..]);
      Prepend(d, e, schedule, Ran(env, k), sessions, f);
      sessions := [Ran(env, k)] + sessions;
    }
  }

  /** The first update puts its deletion off. */
  lemma {:induction false} Lose(d: Disk, schedule: seq<Step>) returns (sessions: seq<Session>, f: Disk)
    requires d.bin.Some? && !d.doomed && !Spaced(schedule, 0)
    ensures Loses(d, schedule, sessions, f)
    decreases schedule
  {
    if schedule[0].Rebooting? {
      sessions, f := Lose(d, schedule[1..]);
      Prepend(d, d, schedule, Reboot, sessions, f);
      sessions := [Reboot] + sessions;
    } else {
      var env, k := PutOff(d);
      var e := ApplyAll(d, UpdateEffects(d, env)[..k]);
      sessions, f := LoseAtSecond(e, schedule[1..]);
      Prepend(d, e, schedule, Ran(env, k), sessions, f);
      sessions := [Ran(env, k)] + sessions;
    }
  }

  /** From an installed disk with no deletion due: a schedule keeps a trusted image in place, however its updates
      go and wherever they stop, exactly when no reboot comes after two updates with no reboot between them. */
  lemma AlwaysSafeIff(d: Disk, schedule: seq<Step>)
    requires Inv(d) && d.bin.Some? && !d.doomed
    ensures AlwaysSafe(d, schedule) <==> forall i: nat, j: nat, r: nat :: !TwoThenReboot(schedule, i, j, r)
  {
    SpacedIff(schedule);
    if Spaced(schedule, 0) {
      forall sessions, f | Follows(sessions, schedule) && Leads(d, sessions, f) ensures AlwaysWhole(d, sessions) {
        SpacedIsSafe(d, schedule, 0, sessions, f);
      }
    } else {
      var sessions, f := Lose(d, schedule);
    }
  }

  /** From every installed disk with no deletion due: an update that puts its deletion off, a second one stopped
      after the rename aside, and a reboot leave no binary at either name. */
  lemma LostBinary(d: Disk) returns (first: Session, second: Session, f: Disk)
    requires d.bin.Some? && !d.doomed
    ensures first.Ran? && second.Ran?
    ensures Leads(d, [first, second, Reboot], f) && !Recoverable(f)
  {
    var env, k := PutOff(d);
    first := Ran(env, k);
    var d1 := ApplyAll(d, UpdateEffects(d, env)[..k]);
    env, k := StopAside(d1);
    second := Ran(env, k);
    var d2 := ApplyAll(d1, UpdateEffects(d1, env)[..k]);
    f := Rebooted(d2);
    assert [first, second, Reboot][1..] == [second, Reboot] && [second, Reboot][1..] == [Reboot] && [Reboot][1..] == [];
    assert Leads(f, [], f);
    assert Leads(d2, [Reboot], f);
    assert Leads(d1, [second, Reboot], f);
  }
}
