/** How far a takeover and a restore reach: every interface that has servers is taken over,
    and a Run that goes well gives every interface back. */
module TakeoverScope {
  import opened Wrappers
  import opened SystemDns
  import opened SystemDnsHistory
  import opened BackupFate

  /** The interface has servers, set by hand or offered by DHCP. */
  predicate InUse(i: Iface) {
    match i.manual
    case Some(servers) => servers != []
    case None => i.leased != []
  }

  // ----- the takeover

  lemma {:induction false} FlipsTake(t: Tracked, es: seq<Saved>)
    ensures var u := TrackAll(t, FlipCommands(es));
            && (forall a :: a in u.taken <==> a in t.taken || SavedWithServers(es, a))
            && u.base == t.base
    decreases es
  {
    if es != [] {
      var rest := FlipCommands(es[1..]);
      forall a ensures SavedWithServers(es, a) <==>
                       SavedWithServers(es[1..], a) || (es[0].alias == a && es[0].servers != [])
      {
        SavedFirst(es, a);
      }
      if es[0].servers == [] {
        FlipsTake(t, es[1..]);
        assert [] + rest == rest;
      } else {
        FlipsTake(Track(t, Flip(es[0].alias)), es[1..]);
        assert ([Flip(es[0].alias)] + rest)[1..] == rest;
      }
    }
  }

  /** The backup has servers for exactly the interfaces that had some. */
  lemma SavedWithServersIff(es: seq<Saved>, base: map<string, Iface>, a: string)
    requires Describes(es, base)
    ensures SavedWithServers(es, a) <==> a in base && InUse(base[a])
  {
    if a in base {
      FindIsMember(es, a);
      var e := Find(es, a).value;
      assert Original(e, a, base[a]);
      var i :| 0 <= i < |es| && es[i] == e;
      assert SavedWithServers(es, a) <== e.servers != [];
    }
    if i :| 0 <= i < |es| && es[i].alias == a && es[i].servers != [] {
      assert Find(es, es[i].alias) == Some(es[i]);
    }
  }

  /** No line of the takeover script reported an error. */
  predicate TakesAll(t: Tracked, env: Env) {
    t.world.backup.Good?
    && AllSucceed(t.world.ifaces.Keys, FlipCommands(t.world.backup.entries), env.flip.results)
  }

  /** Exactly the interfaces that had servers are taken over, and they point at 127.0.0.1. */
  ghost predicate AllTaken(u: Tracked, was: map<string, Iface>) {
    && (forall a :: a in u.taken <==> a in was && InUse(was[a]))
    && (forall a :: a in u.taken ==>
          a in u.world.ifaces && u.world.ifaces[a] == was[a].(manual := Some(["127.0.0.1"])))
  }

  /** After any history, a takeover script without errors takes over exactly the saved interfaces that had servers. */
  lemma TakeoverIsComplete(ifaces: map<string, Iface>, sessions: seq<Session>, t: Tracked, env: Env)
    requires Leads(Fresh(ifaces), sessions, t) && TakesAll(t, env)
    ensures AllTaken(TrackAll(t, SetEffects(t.world, env)), t.base)
  {
    HistoryKeepsInv(Fresh(ifaces), sessions, t);
    TakesThemAll(t, env);
  }

  lemma TakenPointHere(u: Tracked)
    requires Inv(u)
    ensures forall a :: a in u.taken ==>
              && a in u.base && a in u.world.ifaces
              && u.world.ifaces[a] == u.base[a].(manual := Some(["127.0.0.1"]))
  {}

  lemma FlipsKeepBackup(t: Tracked, env: Env)
    requires Inv(t) && t.world.backup.Good?
    ensures var u := TrackAll(t, SetEffects(t.world, env));
            Inv(u) && u.base == t.base && u.world.backup == t.world.backup
  {
    var es := t.world.backup.entries;
    SetIsLegal(t, env);
    LegalAllKeepsInv(t, SetEffects(t.world, env));
    ScriptCommands(es, es);
    SucceedingAreCommands(es, t.world.ifaces.Keys, FlipCommands(es), env.flip.results);
    ScriptsAreLegal(t, SetEffects(t.world, env));
  }

  lemma TakenSoFar(t: Tracked, a: string)
    requires Inv(t) && a in t.taken && t.world.backup.Good?
    ensures a in t.base && InUse(t.base[a])
  {
    assert Original(Find(t.world.backup.entries, a).value, a, t.base[a]);
  }

  lemma TakenExactly(t: Tracked, env: Env)
    requires Inv(t) && TakesAll(t, env)
    ensures forall a :: a in TrackAll(t, SetEffects(t.world, env)).taken <==> a in t.base && InUse(t.base[a])
  {
    var es := t.world.backup.entries;
    AllSucceedRunsAll(t.world.ifaces.Keys, FlipCommands(es), env.flip.results);
    FlipsTake(t, es);
    forall a ensures a in t.taken || SavedWithServers(es, a) <==> a in t.base && InUse(t.base[a]) {
      SavedWithServersIff(es, t.base, a);
      if a in t.taken { TakenSoFar(t, a); }
    }
  }

  lemma TakesThemAll(t: Tracked, env: Env)
    requires Inv(t) && TakesAll(t, env)
    ensures AllTaken(TrackAll(t, SetEffects(t.world, env)), t.base)
  {
    FlipsKeepBackup(t, env);
    TakenExactly(t, env);
    TakenPointHere(TrackAll(t, SetEffects(t.world, env)));
  }

  // ----- a whole Run

  /** The settings in the backup a Run works from: the one there is, or the one it makes. */
  function SettingsSaved(t: Tracked): map<string, Iface> {
    if t.world.backup.Absent? then t.world.ifaces else t.base
  }

  function EntriesUsed(t: Tracked, env: Env): seq<Saved> {
    if t.world.backup.Good? then t.world.backup.entries else Snapshot(t.world.ifaces, env.order, env.annotated)
  }

  /** The Run has an intact backup to work from, or can make one. */
  ghost predicate HasBackup(t: Tracked, env: Env) {
    && env.enabled
    && match t.world.backup
       case Good(_) => true
       case Corrupt => false
       case Absent => env.readable && env.write.Written? && Lists(env.order, t.world.ifaces.Keys)
  }

  /** The script ran to its end without an error in its first n lines. */
  predicate GoesWell(script: Script, n: nat) {
    script.finished && n <= |script.results| && forall i :: 0 <= i < n ==> script.results[i]
  }

  lemma {:induction false} CommandsFit(es: seq<Saved>, aliases: set<string>)
    requires forall i :: 0 <= i < |es| ==> es[i].alias in aliases
    ensures var cmds := FlipCommands(es);
            |cmds| <= |es| && forall i :: 0 <= i < |cmds| ==> AliasOf(cmds[i]) in aliases
    ensures var cmds := RestoreCommands(es);
            |cmds| == |es| && forall i :: 0 <= i < |cmds| ==> AliasOf(cmds[i]) in aliases
  {
    if es != [] { CommandsFit(es[1..], aliases); }
  }

  lemma WellMeansAll(t: Tracked, env: Env)
    requires Inv(t) && t.world.backup.Good?
    ensures GoesWell(env.flip, |t.world.backup.entries|) ==> TakesAll(t, env)
    ensures GoesWell(env.restore, |t.world.backup.entries|) ==> RestoresAll(t, env)
  {
    var es, aliases := t.world.backup.entries, t.world.ifaces.Keys;
    forall i | 0 <= i < |es| ensures es[i].alias in aliases {
      assert Find(es, es[i].alias) == Some(es[i]);
    }
    CommandsFit(es, aliases);
    AllSucceedIff(aliases, FlipCommands(es), env.flip.results);
    AllSucceedIff(aliases, RestoreCommands(es), env.restore.results);
  }

  lemma TrackTwo(t: Tracked, a: Effect, b: Effect)
    ensures TrackAll(t, [a, b]) == Track(Track(t, a), b)
  {
    assert [a, b][1..] == [b] && [b][1..] == [];
    assert TrackAll(Track(t, a), [b]) == TrackAll(Track(Track(t, a), b), []);
  }

  /** After the saving step the Run has its backup, and nothing else has changed. */
  lemma AfterTheSave(t: Tracked, env: Env)
    requires Inv(t) && HasBackup(t, env)
    ensures var u := TrackAll(t, Saving(t.world, env));
            && Inv(u) && u.base == SettingsSaved(t) && u.taken == t.taken
            && u.world == World(t.world.ifaces, Good(EntriesUsed(t, env)))
  {
    var saved := Saving(t.world, env);
    if t.world.backup.Absent? {
      SaveIsLegal(t, env);
      var es := EntriesUsed(t, env);
      TrackTwo(t, Truncate, Complete(es));
    }
    LegalAllKeepsInv(t, saved);
  }

  /** After any history, a Run that can save and serve, and whose takeover script goes well, comes to a state in
      which exactly the interfaces that had servers are taken over. */
  lemma RunTakesOver(ifaces: map<string, Iface>, sessions: seq<Session>, t: Tracked, env: Env) returns (k: nat)
    requires Leads(Fresh(ifaces), sessions, t) && HasBackup(t, env)
    requires env.serves && GoesWell(env.flip, |EntriesUsed(t, env)|)
    ensures k <= |RunEffects(t.world, env)| && AllTaken(TrackAll(t, RunEffects(t.world, env)[..k]), SettingsSaved(t))
  {
    HistoryKeepsInv(Fresh(ifaces), sessions, t);
    var saved := Saving(t.world, env);
    var u := TrackAll(t, saved);
    AfterTheSave(t, env);
    TrackFollowsApply(t, saved);
    WellMeansAll(u, env);
    TakesThemAll(u, env);
    var flipped := SetEffects(u.world, env);
    TrackThrough(t, saved, flipped);
    RunSplits(t.world, env);
    k := |saved + flipped|;
    assert RunEffects(t.world, env)[..k] == saved + flipped;
  }

  /** The setting an interface is given back. */
  function GivenBackAs(i: Iface, annotated: bool): Option<seq<string>> {
    if i.dhcp && annotated then None
    else
      match i.manual
      case Some(servers) => if servers == [] then None else Some(servers)
      case None => if i.leased == [] then None else Some(i.leased)
  }

  /** Whether the backup a Run works from says of an interface if its address comes from DHCP. */
  predicate Annotated(t: Tracked, env: Env, a: string) {
    match t.world.backup
    case Good(es) => Find(es, a).Some? && Find(es, a).value.dhcp != ""
    case _ => env.annotated
  }

  /** After any history, a Run that has a backup, however its takeover goes and whether or not it serves, ends with
      every interface given back and the backup deleted, if its restore script goes well. */
  lemma RunGivesBack(ifaces: map<string, Iface>, sessions: seq<Session>, t: Tracked, env: Env)
    requires Leads(Fresh(ifaces), sessions, t) && HasBackup(t, env)
    requires GoesWell(env.restore, |EntriesUsed(t, env)|) && env.removes
    ensures var u, was := TrackAll(t, RunEffects(t.world, env)), SettingsSaved(t);
            && u.world.backup.Absent? && u.taken == {} && u.world.ifaces.Keys == was.Keys
            && forall a :: a in was ==>
                 u.world.ifaces[a] == was[a].(manual := GivenBackAs(was[a], Annotated(t, env, a)))
  {
    HistoryKeepsInv(Fresh(ifaces), sessions, t);
    var v := ComesToRestore(t, env);
    WellMeansAll(v, env);
    RestoresThemAll(v, env);
    var u := TrackAll(t, RunEffects(t.world, env));
    forall a | a in SettingsSaved(t)
      ensures u.world.ifaces[a] ==
              SettingsSaved(t)[a].(manual := GivenBackAs(SettingsSaved(t)[a], Annotated(t, env, a)))
    {
      NormalOfEntry(t, env, a);
    }
  }

  lemma RestoresThemAll(v: Tracked, env: Env)
    requires Inv(v) && RestoresAll(v, env) && env.removes
    ensures var u := TrackAll(v, RestoreEffects(v.world, env));
            && u.world.backup.Absent? && u.taken == {} && u.world.ifaces.Keys == v.base.Keys
            && forall a :: a in v.base ==>
                 && Find(v.world.backup.entries, a).Some?
                 && u.world.ifaces[a] == v.base[a].(manual := Normal(Find(v.world.backup.entries, a).value))
  {
    RestoreTracks(v, env);
    BackWithoutBackup(TrackAll(v, RestoreCommands(v.world.backup.entries)));
  }

  lemma BackWithoutBackup(t: Tracked)
    requires GivenBack(t)
    ensures var u, es := Track(t, Remove), t.world.backup.entries;
            && u.world.backup.Absent? && u.taken == {} && u.world.ifaces.Keys == t.base.Keys
            && forall a :: a in t.base ==>
                 Find(es, a).Some? && u.world.ifaces[a] == t.base[a].(manual := Normal(Find(es, a).value))
  {}

  /** A Run that has a backup always comes to restore from it. */
  lemma ComesToRestore(t: Tracked, env: Env) returns (v: Tracked)
    requires Inv(t) && HasBackup(t, env)
    ensures Inv(v) && v.base == SettingsSaved(t) && v.world.backup == Good(EntriesUsed(t, env))
    ensures TrackAll(t, RunEffects(t.world, env)) == TrackAll(v, RestoreEffects(v.world, env))
  {
    var saved := Saving(t.world, env);
    var u := TrackAll(t, saved);
    AfterTheSave(t, env);
    TrackFollowsApply(t, saved);
    var flipped := if env.serves then SetEffects(u.world, env) else [];
    v := TrackAll(u, flipped);
    FlipsKeepBackup(u, env);
    TrackFollowsApply(u, flipped);
    RunSplits(t.world, env);
    TrackThrough(u, flipped, RestoreEffects(v.world, env));
    TrackThrough(t, saved, flipped + RestoreEffects(v.world, env));
  }

  lemma NormalOfEntry(t: Tracked, env: Env, a: string)
    requires Inv(t) && HasBackup(t, env) && a in SettingsSaved(t)
    ensures Find(EntriesUsed(t, env), a).Some?
    ensures Normal(Find(EntriesUsed(t, env), a).value) == GivenBackAs(SettingsSaved(t)[a], Annotated(t, env, a))
  {
    if t.world.backup.Absent? {
      SnapshotFinds(t.world.ifaces, env.order, env.annotated, a);
    } else {
      assert Original(Find(t.world.backup.entries, a).value, a, t.base[a]);
    }
  }
}
