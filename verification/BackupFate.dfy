/** Which histories leave the backup file cut short, and what that does to the takeover. */
module BackupFate {
  import opened Wrappers
  import opened SystemDns
  import opened SystemDnsHistory

  // ----- effects that do not write the backup file

  predicate NoWrite(es: seq<Effect>) {
    es == [] || (!es[0].Truncate? && !es[0].Complete? && NoWrite(es[1..]))
  }

  lemma {:induction false} NoWriteConcat(a: seq<Effect>, b: seq<Effect>)
    requires NoWrite(a) && NoWrite(b)
    ensures NoWrite(a + b)
    decreases a
  {
    if a == [] {
      assert a + b == b;
    } else {
      NoWriteConcat(a[1..], b);
      assert (a + b)[1..] == a[1..] + b;
    }
  }

  lemma {:induction false} CommandsDoNotWrite(es: seq<Saved>)
    ensures NoWrite(FlipCommands(es)) && NoWrite(RestoreCommands(es))
  {
    if es != [] {
      CommandsDoNotWrite(es[1..]);
      NoWriteConcat(if es[0].servers == [] then [] else [Flip(es[0].alias)], FlipCommands(es[1..]));
      NoWriteConcat([Restore(es[0].alias, Normal(es[0]))], RestoreCommands(es[1..]));
    }
  }

  lemma {:induction false} SucceedingDoNotWrite(aliases: set<string>, cmds: seq<Effect>, results: seq<bool>)
    requires NoWrite(cmds)
    ensures NoWrite(Succeeding(aliases, cmds, results))
    decreases cmds
  {
    if cmds != [] && results != [] {
      SucceedingDoNotWrite(aliases, cmds[1..], results[1..]);
      NoWriteConcat(if results[0] && AliasOf(cmds[0]) in aliases then [cmds[0]] else [],
                    Succeeding(aliases, cmds[1..], results[1..]));
    }
  }

  /** Taking over and restoring do not write the backup file. */
  lemma ScriptsDoNotWrite(w: World, env: Env)
    ensures NoWrite(SetEffects(w, env)) && NoWrite(RestoreEffects(w, env))
  {
    if w.backup.Good? {
      var es := w.backup.entries;
      CommandsDoNotWrite(es);
      SucceedingDoNotWrite(w.ifaces.Keys, FlipCommands(es), env.flip.results);
      SucceedingDoNotWrite(w.ifaces.Keys, RestoreCommands(es), env.restore.results);
      var cmds := RestoreCommands(es);
      var ok := env.restore.finished && AllSucceed(w.ifaces.Keys, cmds, env.restore.results) && env.removes;
      NoWriteConcat(Succeeding(w.ifaces.Keys, cmds, env.restore.results), if ok then [Remove] else []);
    }
  }

  lemma {:induction false} NoWriteKeeps(t: Tracked, es: seq<Effect>, k: nat)
    requires NoWrite(es) && k <= |es|
    ensures var u := TrackAll(t, es[..k]); u.base == t.base && (!t.world.backup.Corrupt? ==> !u.world.backup.Corrupt?)
    decreases es
  {
    if k > 0 {
      NoWriteKeeps(Track(t, es[0]), es[1..], k - 1);
      assert es[..k][1..] == es[1..][..k - 1];
    }
  }

  /** What a Run does after saving. */
  function AfterSaving(w: World, env: Env): seq<Effect> {
    var flipped := if env.serves then SetEffects(w, env) else [];
    flipped + RestoreEffects(ApplyAll(w, flipped), env)
  }

  lemma AfterSavingFacts(w: World, env: Env)
    ensures NoWrite(AfterSaving(w, env))
    ensures !w.backup.Good? ==> AfterSaving(w, env) == []
  {
    var flipped := if env.serves then SetEffects(w, env) else [];
    ScriptsDoNotWrite(w, env);
    ScriptsDoNotWrite(ApplyAll(w, flipped), env);
    NoWriteConcat(flipped, RestoreEffects(ApplyAll(w, flipped), env));
  }

  function Saving(w: World, env: Env): seq<Effect> {
    if w.backup.Absent? then SaveEffects(w, env) else []
  }

  lemma RunSplits(w: World, env: Env)
    requires env.enabled
    ensures RunEffects(w, env) == Saving(w, env) + AfterSaving(ApplyAll(w, Saving(w, env)), env)
  {}

  lemma SavingLeaves(w: World, env: Env)
    ensures Saving(w, env) == [Truncate] ==> !ApplyAll(w, [Truncate]).backup.Good?
  {
    assert [Truncate][..0] == [];
  }

  /** The effects of a Run: none, the beginning of a write, or a complete write if there is no backup yet
      and then effects that do not write. */
  lemma RunShape(t: Tracked, env: Env) returns (rest: seq<Effect>)
    requires env.enabled
    ensures NoWrite(rest)
    ensures var es := RunEffects(t.world, env);
            match t.world.backup
            case Good(_) => es == rest
            case Corrupt => es == []
            case Absent =>
              if !env.readable || env.write == Failed(false) then es == []
              else if env.write == Failed(true) then es == [Truncate]
              else es == [Truncate, Complete(Snapshot(t.world.ifaces, env.order, env.annotated))] + rest
  {
    var saved := Saving(t.world, env);
    var w1 := ApplyAll(t.world, saved);
    rest := AfterSaving(w1, env);
    RunSplits(t.world, env);
    SavingLeaves(t.world, env);
    AfterSavingFacts(w1, env);
  }

  // ----- how a backup comes to be cut short

  /** This session starts writing the backup file. */
  predicate BeginsWriting(t: Tracked, s: Session) {
    && s.Ran? && s.k >= 1
    && s.env.enabled && t.world.backup.Absent? && s.env.readable && s.env.write != Failed(false)
  }

  /** It stops between the two effects of the write, or the write fails half-way. */
  predicate CutShort(s: Session)
    requires s.Ran?
  {
    s.k == 1 || s.env.write == Failed(true)
  }

  lemma PairPrefix(a: Effect, b: Effect, rest: seq<Effect>, k: nat)
    requires k <= |rest| + 2
    ensures ([a, b] + rest)[..k] == if k == 0 then [] else if k == 1 then [a] else [a] + ([b] + rest[..k - 2])
  {}

  lemma FirstTwo(t: Tracked, a: Effect, b: Effect, rest: seq<Effect>)
    ensures TrackAll(t, [a] + ([b] + rest)) == TrackAll(Track(Track(t, a), b), rest)
  {
    assert ([a] + ([b] + rest))[1..] == [b] + rest;
    assert ([b] + rest)[1..] == rest;
  }

  /** A complete write is cut short exactly when it stops after its first effect. */
  lemma WriteCutShort(t: Tracked, c: Effect, rest: seq<Effect>, k: nat)
    requires c.Complete? && NoWrite(rest) && k <= |rest| + 2 && !t.world.backup.Corrupt?
    ensures TrackAll(t, ([Truncate, c] + rest)[..k]).world.backup.Corrupt? <==> k == 1
  {
    PairPrefix(Truncate, c, rest, k);
    if k == 1 {
      assert [Truncate][1..] == [];
      assert TrackAll(Track(t, Truncate), []) == Track(t, Truncate);
    } else if k >= 2 {
      FirstTwo(t, Truncate, c, rest[..k - 2]);
      NoWriteKeeps(Track(Track(t, Truncate), c), rest, k - 2);
    }
  }

  /** A Run that finds no backup leaves one cut short exactly when it is cut short writing it. */
  lemma WriterCorrupts(t: Tracked, env: Env, k: nat)
    requires env.enabled && t.world.backup.Absent? && k <= |RunEffects(t.world, env)|
    ensures TrackAll(t, RunEffects(t.world, env)[..k]).world.backup.Corrupt? <==>
            k >= 1 && env.readable && env.write != Failed(false) && (k == 1 || env.write == Failed(true))
  {
    var rest := RunShape(t, env);
    var es := RunEffects(t.world, env);
    if es == [] {
    } else if es == [Truncate] {
      assert es[..1] == [Truncate] && [Truncate][1..] == [];
      assert TrackAll(Track(t, Truncate), []) == Track(t, Truncate);
    } else {
      WriteCutShort(t, Complete(Snapshot(t.world.ifaces, env.order, env.annotated)), rest, k);
    }
  }

  /** A session leaves the file cut short exactly when it was so before, or it is cut short writing it. */
  lemma SessionCorrupts(t: Tracked, s: Session)
    requires Possible(t, s)
    ensures After(t, s).world.backup.Corrupt? <==>
            t.world.backup.Corrupt? || (BeginsWriting(t, s) && CutShort(s))
  {
    if s.Ran? && s.env.enabled {
      if t.world.backup.Absent? {
        WriterCorrupts(t, s.env, s.k);
      } else {
        var rest := RunShape(t, s.env);
        if t.world.backup.Good? { NoWriteKeeps(t, rest, s.k); }
      }
    }
  }

  /** The last session that started writing the backup file. */
  ghost function LastWriter(t: Tracked, sessions: seq<Session>, u: Tracked): (w: Option<Session>)
    requires Leads(t, sessions, u)
    ensures w.Some? ==> w.value.Ran?
    decreases sessions
  {
    if sessions == [] then None
    else
      var later := LastWriter(After(t, sessions[0]), sessions[1..], u);
      if later.Some? then later else if BeginsWriting(t, sessions[0]) then Some(sessions[0]) else None
  }

  lemma {:induction false} NoWriterOnceCorrupt(t: Tracked, sessions: seq<Session>, u: Tracked)
    requires Leads(t, sessions, u) && t.world.backup.Corrupt?
    ensures LastWriter(t, sessions, u) == None && u.world.backup.Corrupt?
    decreases sessions
  {
    if sessions != [] {
      SessionCorrupts(t, sessions[0]);
      NoWriterOnceCorrupt(After(t, sessions[0]), sessions[1..], u);
    }
  }

  lemma {:induction false} CorruptFrom(t: Tracked, sessions: seq<Session>, u: Tracked)
    requires Leads(t, sessions, u) && !t.world.backup.Corrupt?
    ensures var w := LastWriter(t, sessions, u);
            u.world.backup.Corrupt? <==> w.Some? && CutShort(w.value)
    decreases sessions
  {
    if sessions != [] {
      var next := After(t, sessions[0]);
      SessionCorrupts(t, sessions[0]);
      if next.world.backup.Corrupt? {
        NoWriterOnceCorrupt(next, sessions[1..], u);
      } else {
        CorruptFrom(next, sessions[1..], u);
      }
    }
  }

  /** After any history, the backup is cut short exactly when the last session that started writing it
      was stopped between its two effects, or failed half-way. */
  lemma CorruptIff(ifaces: map<string, Iface>, sessions: seq<Session>, u: Tracked)
    requires Leads(Fresh(ifaces), sessions, u)
    ensures var w := LastWriter(Fresh(ifaces), sessions, u);
            u.world.backup.Corrupt? <==> w.Some? && CutShort(w.value)
  {
    CorruptFrom(Fresh(ifaces), sessions, u);
  }

  // ----- when the takeover can still happen

  /** Every order of the interfaces exists. */
  lemma {:induction false} SomeOrder(aliases: set<string>) returns (order: seq<string>)
    ensures Lists(order, aliases)
  {
    if aliases == {} {
      order := [];
    } else {
      var a :| a in aliases;
      var rest := SomeOrder(aliases - {a});
      order := [a] + rest;
      forall i, j | 0 <= i < j < |order| ensures order[i] != order[j] {
        if i == 0 { assert rest[j - 1] in rest; }
      }
    }
  }

  /** From every machine, a history that leaves the backup cut short. */
  lemma CutShortRun(ifaces: map<string, Iface>) returns (sessions: seq<Session>, u: Tracked)
    ensures Leads(Fresh(ifaces), sessions, u) && u.world.backup.Corrupt?
  {
    var order := SomeOrder(ifaces.Keys);
    var script := Script([], true);
    var env := Env(true, order, true, true, Written, true, script, script, true);
    var s := Ran(env, 1);
    var t := Fresh(ifaces);
    var rest := RunShape(t, env);
    SessionCorrupts(t, s);
    sessions, u := [s], After(t, s);
    assert sessions[1..] == [];
    assert Leads(u, [], u);
  }
}
