/** Exactly when the program can still take an interface over. */
module TakeoverFate {
  import opened Wrappers
  import opened SystemDns
  import opened SystemDnsHistory
  import opened BackupFate

  /** The settings a takeover goes by: those saved, or those to be saved. */
  function ToSave(t: Tracked): map<string, Iface> {
    if t.world.backup.Absent? then t.world.ifaces else t.base
  }

  predicate HasServers(ifaces: map<string, Iface>) {
    exists a :: a in ifaces && ServersOf(ifaces[a]) != []
  }

  ghost predicate Plausible(t: Tracked, env: Env) {
    t.world.backup.Absent? ==> Lists(env.order, t.world.ifaces.Keys)
  }

  ghost predicate FlipsAt(t: Tracked, env: Env, i: nat) {
    i < |RunEffects(t.world, env)| && RunEffects(t.world, env)[i].Flip?
  }

  /** Some Run begun now points an interface at 127.0.0.1. */
  ghost predicate NextRunMayTakeOver(t: Tracked) {
    exists env, i :: Plausible(t, env) && FlipsAt(t, env, i)
  }

  // ----- a flip needs an intact backup and servers

  lemma {:induction false} LegalAt(t: Tracked, es: seq<Effect>, i: nat)
    requires LegalAll(t, es) && i < |es|
    ensures Legal(TrackAll(t, es[..i]), es[i])
    decreases es
  {
    if i > 0 {
      LegalAt(Track(t, es[0]), es[1..], i - 1);
      assert es[..i][1..] == es[1..][..i - 1];
    }
  }

  /** Up to its first flip, a Run goes by the settings it found saved or saved itself. */
  lemma BaseBeforeFlip(t: Tracked, env: Env, i: nat)
    requires env.enabled && FlipsAt(t, env, i)
    ensures !t.world.backup.Corrupt? && TrackAll(t, RunEffects(t.world, env)[..i]).base == ToSave(t)
  {
    var rest := RunShape(t, env);
    match t.world.backup
    case Good(_) => NoWriteKeeps(t, rest, i);
    case Corrupt =>
    case Absent =>
      var c := Complete(Snapshot(t.world.ifaces, env.order, env.annotated));
      assert i >= 2;
      PairPrefix(Truncate, c, rest, i);
      FirstTwo(t, Truncate, c, rest[..i - 2]);
      NoWriteKeeps(Track(Track(t, Truncate), c), rest, i - 2);
  }

  lemma FlipNeedsServers(t: Tracked, env: Env, i: nat)
    requires Inv(t) && Plausible(t, env) && FlipsAt(t, env, i)
    ensures !t.world.backup.Corrupt? && HasServers(ToSave(t))
  {
    var es := RunEffects(t.world, env);
    RunIsLegal(t, env);
    LegalAt(t, es, i);
    LegalPrefix(t, es, i);
    LegalAllKeepsInv(t, es[..i]);
    BaseBeforeFlip(t, env, i);
    var u := TrackAll(t, es[..i]);
    var a := es[i].alias;
    assert Original(Find(u.world.backup.entries, a).value, a, u.base[a]);
    assert a in ToSave(t) && ServersOf(ToSave(t)[a]) != [];
  }

  // ----- and they suffice

  function Trues(n: nat): seq<bool> {
    if n == 0 then [] else [true] + Trues(n - 1)
  }

  lemma {:induction false} ScriptsSucceed(es: seq<Saved>, aliases: set<string>)
    requires forall i :: 0 <= i < |es| ==> es[i].alias in aliases
    ensures AllSucceed(aliases, FlipCommands(es), Trues(|FlipCommands(es)|))
    ensures AllSucceed(aliases, RestoreCommands(es), Trues(|RestoreCommands(es)|))
  {
    if es != [] {
      ScriptsSucceed(es[1..], aliases);
      var flips, restores := FlipCommands(es[1..]), RestoreCommands(es[1..]);
      assert ([Flip(es[0].alias)] + flips)[1..] == flips && [] + flips == flips;
      assert RestoreCommands(es)[1..] == restores;
      assert Trues(|flips| + 1)[1..] == Trues(|flips|) && Trues(|restores| + 1)[1..] == Trues(|restores|);
    }
  }

  lemma {:induction false} SomethingToFlip(es: seq<Saved>, i: nat)
    requires i < |es| && es[i].servers != []
    ensures FlipCommands(es) != []
  {
    if i > 0 { SomethingToFlip(es[1..], i - 1); }
  }

  lemma {:induction false} FoundAt(es: seq<Saved>, a: string) returns (i: nat)
    requires Find(es, a).Some?
    ensures i < |es| && es[i] == Find(es, a).value
  {
    if es[0].alias == a { i := 0; } else { i := FoundAt(es[1..], a); i := i + 1; }
  }

  /** An Env in which every line works. */
  function Smooth(order: seq<string>, flips: nat, restores: nat, serves: bool): Env {
    Env(true, order, true, true, Written, serves, Script(Trues(flips), true), Script(Trues(restores), true), true)
  }

  lemma SetFlips(w: World, env: Env, base: map<string, Iface>)
    requires w.backup.Good? && Describes(w.backup.entries, base) && base.Keys == w.ifaces.Keys && HasServers(base)
    requires env.flip.results == Trues(|FlipCommands(w.backup.entries)|)
    ensures SetEffects(w, env) != [] && SetEffects(w, env)[0].Flip?
  {
    var es := w.backup.entries;
    var a :| a in base && ServersOf(base[a]) != [];
    assert Original(Find(es, a).value, a, base[a]);
    var i := FoundAt(es, a);
    SomethingToFlip(es, i);
    forall j | 0 <= j < |es| ensures es[j].alias in w.ifaces.Keys {
      assert Find(es, es[j].alias) == Some(es[j]);
    }
    ScriptsSucceed(es, w.ifaces.Keys);
    CommandsAreCommands(es);
    AllSucceedRunsAll(w.ifaces.Keys, FlipCommands(es), env.flip.results);
  }

  lemma GoodTakesOver(t: Tracked) returns (env: Env)
    requires Inv(t) && t.world.backup.Good? && HasServers(t.base)
    ensures Plausible(t, env) && FlipsAt(t, env, 0)
  {
    env := Smooth([], |FlipCommands(t.world.backup.entries)|, 0, true);
    SetFlips(t.world, env, t.base);
    RunSplits(t.world, env);
    assert ApplyAll(t.world, []) == t.world;
  }

  lemma SavedWorld(w: World, es: seq<Saved>)
    ensures ApplyAll(w, [Truncate, Complete(es)]) == World(w.ifaces, Good(es))
  {
    assert [Truncate][..0] == [];
    assert ApplyAll(w, [Truncate]) == w.(backup := Corrupt);
    assert [Truncate, Complete(es)][..1] == [Truncate];
  }

  lemma AbsentTakesOver(t: Tracked) returns (env: Env)
    requires t.world.backup.Absent? && HasServers(t.world.ifaces)
    ensures Plausible(t, env) && FlipsAt(t, env, 2)
  {
    var order := SomeOrder(t.world.ifaces.Keys);
    var es := Snapshot(t.world.ifaces, order, true);
    env := Smooth(order, |FlipCommands(es)|, 0, true);
    SnapshotDescribes(t.world.ifaces, order, true);
    var saved := Saving(t.world, env);
    var w1 := ApplyAll(t.world, saved);
    SavedWorld(t.world, es);
    assert w1 == World(t.world.ifaces, Good(es));
    SetFlips(w1, env, t.world.ifaces);
    RunSplits(t.world, env);
  }

  /** In every state a history leads to, some Run begun now can take an interface over exactly when the backup
      is not cut short and some interface saved, or to be saved, has servers. */
  lemma NextRunMayTakeOverIff(t: Tracked)
    requires Inv(t)
    ensures NextRunMayTakeOver(t) <==> !t.world.backup.Corrupt? && HasServers(ToSave(t))
  {
    if !t.world.backup.Corrupt? && HasServers(ToSave(t)) {
      if t.world.backup.Good? {
        var env := GoodTakesOver(t);
      } else {
        var env := AbsentTakesOver(t);
      }
    }
    forall env, i | Plausible(t, env) && FlipsAt(t, env, i)
      ensures !t.world.backup.Corrupt? && HasServers(ToSave(t))
    {
      FlipNeedsServers(t, env, i);
    }
  }

  // ----- over whole histories

  /** Some history takes an interface over. */
  ghost predicate MayTakeOver(t: Tracked) {
    exists sessions, u :: Leads(t, sessions, u) && u.taken != {}
  }

  lemma OneSession(t: Tracked, s: Session, rest: seq<Session>, u: Tracked)
    requires Possible(t, s) && Leads(After(t, s), rest, u)
    ensures Leads(t, [s] + rest, u)
  {
    assert ([s] + rest)[1..] == rest;
  }

  /** Without a backup file, after the machine was set up with a server by hand. */
  lemma AbsentMayTakeOver(t: Tracked)
    requires Inv(t) && t.world.backup.Absent?
    ensures MayTakeOver(t)
  {
    var ifaces := map["lan" := Iface(true, Some(["9.9.9.9"]), [])];
    var t1 := After(t, Outside(ifaces));
    assert "lan" in ifaces && ServersOf(ifaces["lan"]) != [];
    assert HasServers(t1.world.ifaces);
    var env := AbsentTakesOver(t1);
    var es := RunEffects(t1.world, env);
    var s := Ran(env, 3);
    var u := After(t1, s);
    TakenAfterFlip(t1, es, 2);
    assert Leads(u, [], u);
    OneSession(t1, s, [], u);
    OneSession(t, Outside(ifaces), [s] + [], u);
  }

  lemma TakenAfterFlip(t: Tracked, es: seq<Effect>, i: nat)
    requires i < |es| && es[i].Flip?
    ensures es[i].alias in TrackAll(t, es[..i + 1]).taken
  {
    TrackThrough(t, es[..i], [es[i]]);
    assert es[..i] + [es[i]] == es[..i + 1];
    assert [es[i]][1..] == [];
    assert TrackAll(TrackAll(t, es[..i]), [es[i]]) == Track(TrackAll(t, es[..i]), es[i]);
  }

  /** A smooth restore deletes an intact backup. */
  lemma GoodMayEnd(t: Tracked) returns (s: Session)
    requires Inv(t) && t.world.backup.Good?
    ensures Possible(t, s) && After(t, s).world.backup.Absent?
  {
    var es := t.world.backup.entries;
    var env := Smooth([], 0, |RestoreCommands(es)|, false);
    forall j | 0 <= j < |es| ensures es[j].alias in t.world.ifaces.Keys {
      assert Find(es, es[j].alias) == Some(es[j]);
    }
    ScriptsSucceed(es, t.world.ifaces.Keys);
    RunSplits(t.world, env);
    assert ApplyAll(t.world, []) == t.world;
    var all := RunEffects(t.world, env);
    assert all == RestoreEffects(t.world, env);
    s := Ran(env, |all|);
    assert all[..|all|] == all;
    RestoreTracks(t, env);
  }

  /** In every state a history leads to, the takeover can still happen some day exactly when the backup is
      not cut short. */
  lemma MayTakeOverIff(t: Tracked)
    requires Inv(t)
    ensures MayTakeOver(t) <==> !t.world.backup.Corrupt?
  {
    match t.world.backup
    case Absent => AbsentMayTakeOver(t);
    case Good(_) =>
      var s := GoodMayEnd(t);
      OneHistory(t, s);
    case Corrupt =>
      forall sessions, u | Leads(t, sessions, u) ensures u.taken == {} {
        CorruptBackupIsFinal(t, sessions, u);
      }
  }

  lemma OneHistory(t: Tracked, s: Session)
    requires Inv(t) && Possible(t, s) && After(t, s).world.backup.Absent?
    ensures MayTakeOver(t)
  {
    var t1 := After(t, s);
    assert Leads(t1, [], t1);
    OneSession(t, s, [], t1);
    HistoryKeepsInv(t, [s] + [], t1);
    AbsentMayTakeOver(t1);
    var sessions, u :| Leads(t1, sessions, u) && u.taken != {};
    OneSession(t, s, sessions, u);
  }
}
