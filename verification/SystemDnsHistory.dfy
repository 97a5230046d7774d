/** Crash and restart safety of the DNS takeover: any number of runs, each cut short
    after any number of its effects, with outside changes of the settings allowed
    while no backup file exists. */
module SystemDnsHistory {
  import opened Wrappers
  import opened SystemDns

  /** The machine, with two history variables: the settings when the present backup was begun,
      and the interfaces the program has pointed at 127.0.0.1 and not given back. */
  datatype Tracked = Tracked(world: World, base: map<string, Iface>, taken: set<string>)

  function Track(t: Tracked, e: Effect): Tracked {
    var w := Apply(t.world, e);
    match e
    case Truncate => Tracked(w, t.world.ifaces, t.taken)
    case Flip(a) => Tracked(w, t.base, t.taken + {a})
    case Restore(a, _) => Tracked(w, t.base, t.taken - {a})
    case _ => Tracked(w, t.base, t.taken)
  }

  function TrackAll(t: Tracked, es: seq<Effect>): Tracked
    decreases es
  {
    if es == [] then t else TrackAll(Track(t, es[0]), es[1..])
  }

  lemma {:induction false} TrackFollowsApply(t: Tracked, es: seq<Effect>)
    ensures TrackAll(t, es).world == ApplyAll(t.world, es)
    decreases es
  {
    if es != [] {
      TrackFollowsApply(Track(t, es[0]), es[1..]);
      ApplyThrough(t.world, [es[0]], es[1..]);
      assert [es[0]] + es[1..] == es;
      assert [es[0]][..0] == [];
      assert ApplyAll(t.world, [es[0]]) == Apply(t.world, es[0]);
    }
  }

  lemma {:induction false} TrackThrough(t: Tracked, a: seq<Effect>, b: seq<Effect>)
    ensures TrackAll(t, a + b) == TrackAll(TrackAll(t, a), b)
    decreases a
  {
    if a == [] {
      assert a + b == b;
    } else {
      TrackThrough(Track(t, a[0]), a[1..], b);
      assert (a + b)[1..] == a[1..] + b;
    }
  }

  /** The entry saved for an interface. */
  function Find(es: seq<Saved>, a: string): Option<Saved> {
    if es == [] then None else if es[0].alias == a then Some(es[0]) else Find(es[1..], a)
  }

  /** The listing names every interface once. */
  ghost predicate Lists(order: seq<string>, aliases: set<string>) {
    && (forall a :: a in aliases <==> a in order)
    && (forall i, j :: 0 <= i < j < |order| ==> order[i] != order[j])
  }

  // ----- the invariant

  predicate Original(e: Saved, a: string, i: Iface) {
    e == EntryOf(a, i, true) || e == EntryOf(a, i, false)
  }

  /** The backup describes these settings: one entry per interface, each its original. */
  ghost predicate Describes(es: seq<Saved>, base: map<string, Iface>) {
    && (forall a :: a in base <==> Find(es, a).Some?)
    && (forall a :: a in base ==> Original(Find(es, a).value, a, base[a]))
    && (forall i :: 0 <= i < |es| ==> Find(es, es[i].alias) == Some(es[i]))
  }

  /** An interface is taken over, untouched or given back. */
  predicate Accounted(i: Iface, was: Iface, e: Saved, taken: bool) {
    if taken then i == was.(manual := Some([LOOPBACK])) && e.servers != []
    else i == was || i == was.(manual := Normal(e))
  }

  ghost predicate Inv(t: Tracked) {
    match t.world.backup
    case Absent => t.taken == {}
    case Corrupt => t.taken == {} && t.world.ifaces == t.base
    case Good(es) =>
      && Describes(es, t.base)
      && t.world.ifaces.Keys == t.base.Keys
      && t.taken <= t.base.Keys
      && (forall a :: a in t.base ==> Accounted(t.world.ifaces[a], t.base[a], Find(es, a).value, a in t.taken))
  }

  /** Every interface has its normalised original setting back. */
  ghost predicate GivenBack(t: Tracked) {
    && t.world.backup.Good?
    && t.taken == {}
    && t.world.ifaces.Keys == t.base.Keys
    && forall a :: a in t.base ==>
         Find(t.world.backup.entries, a).Some?
         && t.world.ifaces[a] == t.base[a].(manual := Normal(Find(t.world.backup.entries, a).value))
  }

  /** What the program does, and in which states. */
  ghost predicate Legal(t: Tracked, e: Effect) {
    match e
    case Truncate => t.world.backup.Absent?
    case Complete(es) => t.world.backup.Corrupt? && Describes(es, t.base)
    case Flip(a) =>
      && t.world.backup.Good? && Find(t.world.backup.entries, a).Some?
      && Find(t.world.backup.entries, a).value.servers != []
    case Restore(a, m) =>
      && t.world.backup.Good? && Find(t.world.backup.entries, a).Some?
      && m == Normal(Find(t.world.backup.entries, a).value)
    case Remove => GivenBack(t)
  }

  ghost predicate LegalAll(t: Tracked, es: seq<Effect>)
    decreases es
  {
    es == [] || (Legal(t, es[0]) && LegalAll(Track(t, es[0]), es[1..]))
  }

  lemma LegalKeepsInv(t: Tracked, e: Effect)
    requires Inv(t) && Legal(t, e)
    ensures Inv(Track(t, e))
  {}

  lemma {:induction false} LegalAllKeepsInv(t: Tracked, es: seq<Effect>)
    requires Inv(t) && LegalAll(t, es)
    ensures Inv(TrackAll(t, es))
    decreases es
  {
    if es != [] {
      LegalKeepsInv(t, es[0]);
      LegalAllKeepsInv(Track(t, es[0]), es[1..]);
    }
  }

  lemma {:induction false} LegalPrefix(t: Tracked, es: seq<Effect>, k: nat)
    requires LegalAll(t, es) && k <= |es|
    ensures LegalAll(t, es[..k])
    decreases es
  {
    if k > 0 {
      LegalPrefix(Track(t, es[0]), es[1..], k - 1);
      assert es[..k][1..] == es[1..][..k - 1];
    }
  }

  lemma {:induction false} LegalThrough(t: Tracked, a: seq<Effect>, b: seq<Effect>)
    requires LegalAll(t, a) && LegalAll(TrackAll(t, a), b)
    ensures LegalAll(t, a + b)
    decreases a
  {
    if a == [] {
      assert a + b == b;
    } else {
      LegalThrough(Track(t, a[0]), a[1..], b);
      assert (a + b)[1..] == a[1..] + b;
    }
  }

  // ----- the snapshot describes the settings

  lemma {:induction false} SnapshotFinds(ifaces: map<string, Iface>, order: seq<string>, annotated: bool, a: string)
    ensures Find(Snapshot(ifaces, order, annotated), a) ==
            if a in order && a in ifaces then Some(EntryOf(a, ifaces[a], annotated)) else None
  {
    if order != [] {
      SnapshotFinds(ifaces, order[1..], annotated, a);
      if order[0] in ifaces {
        assert Snapshot(ifaces, order, annotated)[1..] == Snapshot(ifaces, order[1..], annotated);
      } else {
        assert Snapshot(ifaces, order, annotated) == Snapshot(ifaces, order[1..], annotated);
      }
    }
  }

  lemma {:induction false} SnapshotEntry(ifaces: map<string, Iface>, order: seq<string>, annotated: bool, i: nat)
    requires i < |Snapshot(ifaces, order, annotated)|
    ensures var e := Snapshot(ifaces, order, annotated)[i];
            e.alias in order && e.alias in ifaces && e == EntryOf(e.alias, ifaces[e.alias], annotated)
    decreases order
  {
    var skip := if order[0] in ifaces then 1 else 0;
    if i >= skip { SnapshotEntry(ifaces, order[1..], annotated, i - skip); }
  }

  lemma SnapshotDescribes(ifaces: map<string, Iface>, order: seq<string>, annotated: bool)
    requires Lists(order, ifaces.Keys)
    ensures Describes(Snapshot(ifaces, order, annotated), ifaces)
  {
    var es := Snapshot(ifaces, order, annotated);
    forall a ensures Find(es, a) == if a in ifaces then Some(EntryOf(a, ifaces[a], annotated)) else None {
      SnapshotFinds(ifaces, order, annotated, a);
    }
    forall i | 0 <= i < |es| ensures Find(es, es[i].alias) == Some(es[i]) {
      SnapshotEntry(ifaces, order, annotated, i);
    }
  }

  // ----- everything Run does is legal

  lemma SaveIsLegal(t: Tracked, env: Env)
    requires t.world.backup.Absent? && Lists(env.order, t.world.ifaces.Keys)
    ensures LegalAll(t, SaveEffects(t.world, env))
  {
    SnapshotDescribes(t.world.ifaces, env.order, env.annotated);
    var es := SaveEffects(t.world, env);
    if |es| == 2 {
      var u := Track(t, es[0]);
      assert es[1..] == [es[1]];
      assert [es[1]][1..] == [];
      assert LegalAll(Track(u, es[1]), []);
    } else if |es| == 1 {
      assert es[1..] == [];
    }
  }

  /** A command of one of the two scripts for this backup. */
  ghost predicate CommandFor(entries: seq<Saved>, e: Effect) {
    match e
    case Flip(a) => Find(entries, a).Some? && Find(entries, a).value.servers != []
    case Restore(a, m) => Find(entries, a).Some? && m == Normal(Find(entries, a).value)
    case _ => false
  }

  ghost predicate Commands(entries: seq<Saved>, cmds: seq<Effect>) {
    cmds == [] || (CommandFor(entries, cmds[0]) && Commands(entries, cmds[1..]))
  }

  lemma {:induction false} ScriptsAreLegal(t: Tracked, es: seq<Effect>)
    requires t.world.backup.Good?
    requires Commands(t.world.backup.entries, es)
    ensures LegalAll(t, es) && TrackAll(t, es).world.backup == t.world.backup
    ensures TrackAll(t, es).world.ifaces.Keys == t.world.ifaces.Keys && TrackAll(t, es).base == t.base
    decreases es
  {
    if es != [] {
      ScriptsAreLegal(Track(t, es[0]), es[1..]);
    }
  }

  lemma {:induction false} SucceedingAreCommands(entries: seq<Saved>, aliases: set<string>,
                                                 cmds: seq<Effect>, results: seq<bool>)
    requires Commands(entries, cmds)
    ensures Commands(entries, Succeeding(aliases, cmds, results))
    decreases cmds
  {
    if cmds != [] && results != [] {
      var rest := Succeeding(aliases, cmds[1..], results[1..]);
      SucceedingAreCommands(entries, aliases, cmds[1..], results[1..]);
      assert ([cmds[0]] + rest)[1..] == rest && [] + rest == rest;
    }
  }

  lemma {:induction false} ScriptCommands(entries: seq<Saved>, rest: seq<Saved>)
    requires forall i :: 0 <= i < |rest| ==> Find(entries, rest[i].alias) == Some(rest[i])
    ensures Commands(entries, FlipCommands(rest)) && Commands(entries, RestoreCommands(rest))
    decreases rest
  {
    if rest != [] {
      assert Find(entries, rest[0].alias) == Some(rest[0]);
      var flips, restores := FlipCommands(rest[1..]), RestoreCommands(rest[1..]);
      ScriptCommands(entries, rest[1..]);
      assert ([Flip(rest[0].alias)] + flips)[1..] == flips && [] + flips == flips;
      assert RestoreCommands(rest)[1..] == restores;
    }
  }

  // ----- restoring

  predicate Back(t: Tracked, e: Saved) {
    && e.alias !in t.taken
    && e.alias in t.world.ifaces && e.alias in t.base
    && t.world.ifaces[e.alias] == t.base[e.alias].(manual := Normal(e))
  }

  /** Restoring one entry puts it back, and leaves the others back. */
  lemma RestoreOne(t: Tracked, entries: seq<Saved>, e: Saved, f: Saved)
    requires Inv(t) && t.world.backup == Good(entries)
    requires Find(entries, e.alias) == Some(e) && Find(entries, f.alias) == Some(f)
    ensures var u := Track(t, Restore(e.alias, Normal(e))); Back(u, e) && (Back(t, f) ==> Back(u, f))
  {}

  lemma {:induction false} RestoreAll(t: Tracked, entries: seq<Saved>, k: nat, f: Saved)
    requires Inv(t) && t.world.backup == Good(entries) && k <= |entries| && Find(entries, f.alias) == Some(f)
    requires f in entries[k..] || Back(t, f)
    ensures Back(TrackAll(t, RestoreCommands(entries[k..])), f)
    decreases |entries| - k
  {
    var rest := entries[k..];
    if rest != [] {
      var e := rest[0];
      assert e == entries[k] && rest[1..] == entries[k + 1..];
      assert Find(entries, entries[k].alias) == Some(entries[k]);
      var cmd := Restore(e.alias, Normal(e));
      RestoreOne(t, entries, e, f);
      LegalKeepsInv(t, cmd);
      assert RestoreCommands(rest)[1..] == RestoreCommands(rest[1..]);
      RestoreAll(Track(t, cmd), entries, k + 1, f);
    }
  }

  lemma {:induction false} FindIsMember(es: seq<Saved>, a: string)
    requires Find(es, a).Some?
    ensures Find(es, a).value in es && Find(es, a).value.alias == a
  {
    if es[0].alias != a { FindIsMember(es[1..], a); }
  }

  /** A complete restore script gives every saved interface back. */
  lemma {:induction false} ScriptGivesBack(t: Tracked)
    requires Inv(t) && t.world.backup.Good?
    ensures GivenBack(TrackAll(t, RestoreCommands(t.world.backup.entries)))
  {
    var entries := t.world.backup.entries;
    var u := TrackAll(t, RestoreCommands(entries));
    ScriptCommands(entries, entries);
    ScriptsAreLegal(t, RestoreCommands(entries));
    LegalAllKeepsInv(t, RestoreCommands(entries));
    forall a | a in t.base
      ensures Find(entries, a).Some? && Back(u, Find(entries, a).value) && Find(entries, a).value.alias == a
    {
      SavedIsBack(t, entries, a);
    }
  }

  lemma {:induction false} SavedIsBack(t: Tracked, entries: seq<Saved>, a: string)
    requires Inv(t) && t.world.backup == Good(entries) && a in t.base
    ensures Find(entries, a).Some? && Find(entries, a).value.alias == a
    ensures Back(TrackAll(t, RestoreCommands(entries)), Find(entries, a).value)
  {
    FindIsMember(entries, a);
    assert entries[0..] == entries;
    RestoreAll(t, entries, 0, Find(entries, a).value);
  }

  lemma RestoreIsLegal(t: Tracked, env: Env)
    requires Inv(t)
    ensures LegalAll(t, RestoreEffects(t.world, env))
  {
    if t.world.backup.Good? {
      var entries := t.world.backup.entries;
      var cmds := RestoreCommands(entries);
      var done := Succeeding(t.world.ifaces.Keys, cmds, env.restore.results);
      ScriptCommands(entries, entries);
      SucceedingAreCommands(entries, t.world.ifaces.Keys, cmds, env.restore.results);
      ScriptsAreLegal(t, done);
      if env.restore.finished && AllSucceed(t.world.ifaces.Keys, cmds, env.restore.results) && env.removes {
        AllSucceedRunsAll(t.world.ifaces.Keys, cmds, env.restore.results);
        ScriptGivesBack(t);
        var u := TrackAll(t, done);
        assert [Remove][1..] == [];
        assert LegalAll(Track(u, Remove), []);
        assert LegalAll(u, [Remove]);
        LegalThrough(t, done, [Remove]);
      } else {
        assert done + [] == done;
      }
    }
  }

  lemma SetIsLegal(t: Tracked, env: Env)
    requires Inv(t)
    ensures LegalAll(t, SetEffects(t.world, env))
  {
    if t.world.backup.Good? {
      var entries := t.world.backup.entries;
      ScriptCommands(entries, entries);
      SucceedingAreCommands(entries, t.world.ifaces.Keys, FlipCommands(entries), env.flip.results);
      ScriptsAreLegal(t, SetEffects(t.world, env));
    }
  }

  lemma RunIsLegal(t: Tracked, env: Env)
    requires Inv(t)
    requires t.world.backup.Absent? ==> Lists(env.order, t.world.ifaces.Keys)
    ensures LegalAll(t, RunEffects(t.world, env))
  {
    if env.enabled {
      var saved := if t.world.backup.Absent? then SaveEffects(t.world, env) else [];
      if t.world.backup.Absent? { SaveIsLegal(t, env); }
      LegalAllKeepsInv(t, saved);
      TrackFollowsApply(t, saved);
      var t1 := TrackAll(t, saved);
      var flipped := if env.serves then SetEffects(t1.world, env) else [];
      SetIsLegal(t1, env);
      LegalAllKeepsInv(t1, flipped);
      TrackFollowsApply(t1, flipped);
      var t2 := TrackAll(t1, flipped);
      RestoreIsLegal(t2, env);
      LegalThrough(t, saved, flipped);
      TrackThrough(t, saved, flipped);
      LegalThrough(t, saved + flipped, RestoreEffects(t2.world, env));
    }
  }

  // ----- histories

  /** A Run stopped after `k` of its effects, or a change of the settings by someone else. */
  datatype Session = Ran(env: Env, k: nat) | Outside(ifaces: map<string, Iface>)

  ghost predicate Possible(t: Tracked, s: Session) {
    match s
    case Ran(env, k) =>
      k <= |RunEffects(t.world, env)| && (t.world.backup.Absent? ==> Lists(env.order, t.world.ifaces.Keys))
    case Outside(_) => t.world.backup.Absent?
  }

  ghost function After(t: Tracked, s: Session): Tracked
    requires Possible(t, s)
  {
    match s
    case Ran(env, k) => TrackAll(t, RunEffects(t.world, env)[..k])
    case Outside(ifaces) => t.(world := t.world.(ifaces := ifaces))
  }

  ghost predicate Leads(t: Tracked, sessions: seq<Session>, u: Tracked)
    decreases sessions
  {
    if sessions == [] then t == u
    else Possible(t, sessions[0]) && Leads(After(t, sessions[0]), sessions[1..], u)
  }

  function Fresh(ifaces: map<string, Iface>): Tracked {
    Tracked(World(ifaces, Absent), ifaces, {})
  }

  lemma {:induction false} HistoryKeepsInv(t: Tracked, sessions: seq<Session>, u: Tracked)
    requires Inv(t) && Leads(t, sessions, u)
    ensures Inv(u)
    decreases sessions
  {
    if sessions != [] {
      var s := sessions[0];
      if s.Ran? {
        var es := RunEffects(t.world, s.env);
        RunIsLegal(t, s.env);
        LegalPrefix(t, es, s.k);
        LegalAllKeepsInv(t, es[..s.k]);
      }
      HistoryKeepsInv(After(t, s), sessions[1..], u);
    }
  }

  /** In every state any history leads to, an interface taken over points at 127.0.0.1 and an intact
      backup holds its original entry; and whenever a new snapshot can be taken, none is taken over. */
  lemma TakeoverIsBackedUp(ifaces: map<string, Iface>, sessions: seq<Session>, u: Tracked, a: string)
    requires Leads(Fresh(ifaces), sessions, u)
    ensures a in u.taken ==>
              && u.world.backup.Good? && a in u.base && a in u.world.ifaces
              && u.world.ifaces[a] == u.base[a].(manual := Some([LOOPBACK]))
              && Find(u.world.backup.entries, a).Some?
              && Original(Find(u.world.backup.entries, a).value, a, u.base[a])
    ensures u.world.backup.Absent? ==> u.taken == {}
  {
    HistoryKeepsInv(Fresh(ifaces), sessions, u);
  }

  /** No line of the restore script reported an error. */
  predicate RestoresAll(t: Tracked, env: Env) {
    t.world.backup.Good? && env.restore.finished
    && AllSucceed(t.world.ifaces.Keys, RestoreCommands(t.world.backup.entries), env.restore.results)
  }

  /** What a restore amounts to. */
  lemma RestoreTracks(t: Tracked, env: Env)
    requires Inv(t) && t.world.backup.Good?
    ensures var u := TrackAll(t, RestoreEffects(t.world, env));
            var all := TrackAll(t, RestoreCommands(t.world.backup.entries));
            if RestoresAll(t, env) then
              && GivenBack(all) && all.base == t.base && all.world.backup == t.world.backup
              && u == (if env.removes then Track(all, Remove) else all)
            else u.world.backup == t.world.backup
  {
    var es := t.world.backup.entries;
    var cmds := RestoreCommands(es);
    var done := Succeeding(t.world.ifaces.Keys, cmds, env.restore.results);
    ScriptCommands(es, es);
    if RestoresAll(t, env) {
      AllSucceedRunsAll(t.world.ifaces.Keys, cmds, env.restore.results);
      ScriptGivesBack(t);
      ScriptsAreLegal(t, cmds);
    } else {
      SucceedingAreCommands(es, t.world.ifaces.Keys, cmds, env.restore.results);
      ScriptsAreLegal(t, done);
    }
    if RestoresAll(t, env) && env.removes {
      TrackThrough(t, done, [Remove]);
      assert [Remove][1..] == [];
      assert TrackAll(TrackAll(t, done), [Remove]) == Track(TrackAll(t, done), Remove);
    } else {
      assert done + [] == done;
    }
  }

  /** After any history, a restore without an interface error gives every saved interface its original
      setting, normalised; the backup is deleted exactly then (if the file system lets it). */
  lemma RestoreOutcome(ifaces: map<string, Iface>, sessions: seq<Session>, t: Tracked, env: Env)
    requires Leads(Fresh(ifaces), sessions, t) && t.world.backup.Good?
    ensures var es := t.world.backup.entries;
            var u := TrackAll(t, RestoreEffects(t.world, env));
            && (u.world.backup == if RestoresAll(t, env) && env.removes then Absent else t.world.backup)
            && (RestoresAll(t, env) ==> u.taken == {} && u.world.ifaces.Keys == t.base.Keys)
            && (RestoresAll(t, env) ==> forall a :: a in t.base ==>
                  && Find(es, a).Some? && Original(Find(es, a).value, a, t.base[a])
                  && u.world.ifaces[a] == t.base[a].(manual := Normal(Find(es, a).value)))
  {
    HistoryKeepsInv(Fresh(ifaces), sessions, t);
    RestoreTracks(t, env);
  }

  predicate OnlyRestores(es: seq<Effect>) {
    es == [] || (es[0].Restore? && OnlyRestores(es[1..]))
  }

  lemma {:induction false} SucceedingRestores(aliases: set<string>, entries: seq<Saved>, results: seq<bool>)
    ensures OnlyRestores(Succeeding(aliases, RestoreCommands(entries), results))
    decreases entries
  {
    if entries != [] && results != [] {
      var cmds := RestoreCommands(entries);
      SucceedingRestores(aliases, entries[1..], results[1..]);
      assert cmds[1..] == RestoreCommands(entries[1..]);
      var rest := Succeeding(aliases, cmds[1..], results[1..]);
      assert ([cmds[0]] + rest)[1..] == rest && [] + rest == rest;
    }
  }

  lemma {:induction false} RestoresChangeNothing(t: Tracked, es: seq<Effect>)
    requires GivenBack(t) && Commands(t.world.backup.entries, es) && OnlyRestores(es)
    ensures TrackAll(t, es) == t
    decreases es
  {
    if es != [] {
      var a := es[0].alias;
      var ifaces := t.world.ifaces;
      assert a in ifaces ==> ifaces[a := ifaces[a].(manual := es[0].manual)] == ifaces by {
        if a in t.world.ifaces { assert a in t.base; }
      }
      assert Track(t, es[0]) == t;
      RestoresChangeNothing(t, es[1..]);
    }
  }

  /** Once everything is given back but the file could not be deleted, restoring again, however it
      goes, changes no interface. */
  lemma RestoringAgainChangesNothing(t: Tracked, env: Env)
    requires Inv(t) && GivenBack(t)
    ensures ApplyAll(t.world, RestoreEffects(t.world, env)).ifaces == t.world.ifaces
  {
    var es := t.world.backup.entries;
    var cmds := RestoreCommands(es);
    var done := Succeeding(t.world.ifaces.Keys, cmds, env.restore.results);
    ScriptCommands(es, es);
    SucceedingAreCommands(es, t.world.ifaces.Keys, cmds, env.restore.results);
    SucceedingRestores(t.world.ifaces.Keys, es, env.restore.results);
    RestoresChangeNothing(t, done);
    TrackFollowsApply(t, done);
    var all := RestoreEffects(t.world, env);
    if all != done {
      assert all[..|all| - 1] == done;
    } else {
      assert done + [] == done;
    }
  }

  /** A backup write cut short stops the takeover for good: no later history changes anything. */
  lemma {:induction false} CorruptBackupIsFinal(t: Tracked, sessions: seq<Session>, u: Tracked)
    requires t.world.backup.Corrupt? && Leads(t, sessions, u)
    ensures u == t
    decreases sessions
  {
    if sessions != [] {
      if sessions[0].Ran? {
        var env := sessions[0].env;
        assert RunEffects(t.world, env) == [];
        assert After(t, sessions[0]) == t;
      }
      CorruptBackupIsFinal(After(t, sessions[0]), sessions[1..], u);
    }
  }

  /** A restored setting is the original one exactly when the interface was automatic and is known to be
      so (or had no servers), or had servers set by hand without DHCP being recorded. */
  lemma FaithfulIff(alias: string, i: Iface, annotated: bool)
    ensures Normal(EntryOf(alias, i, annotated)) == i.manual <==>
            if i.manual.None? then (i.dhcp && annotated) || i.leased == []
            else i.manual.value != [] && !(i.dhcp && annotated)
  {}

  /** After any history, what such a restore leaves is the very setting the interface had when it was saved
      exactly in these cases: it was automatic and the DHCP state was saved with it, or it had no servers;
      or it had servers set by hand, and DHCP was off or not saved. */
  lemma RestoredIsOriginalIff(ifaces: map<string, Iface>, sessions: seq<Session>, t: Tracked, env: Env, a: string)
    requires Leads(Fresh(ifaces), sessions, t) && RestoresAll(t, env) && a in t.base
    ensures var i, u := t.base[a], TrackAll(t, RestoreEffects(t.world, env));
            && a in u.world.ifaces && Find(t.world.backup.entries, a).Some?
            && var annotated := Find(t.world.backup.entries, a).value.dhcp != "";
               (u.world.ifaces[a] == i <==>
                if i.manual.None? then (i.dhcp && annotated) || i.leased == []
                else i.manual.value != [] && !(i.dhcp && annotated))
  {
    RestoreOutcome(ifaces, sessions, t, env);
    var e := Find(t.world.backup.entries, a).value;
    FaithfulIff(a, t.base[a], e.dhcp != "");
  }
}
