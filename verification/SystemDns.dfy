/** Taking over the machine's DNS settings and giving them back: save, point every
    interface at 127.0.0.1, serve, restore, delete the backup. Each method changes
    the interfaces and the backup file one durable effect at a time and reports the
    effects in order, so that a crash is a prefix of them. */
module SystemDns {
  import opened Wrappers

  const LOOPBACK: string := "127.0.0.1"

  /** An interface: whether its address comes from DHCP, the servers set on it by hand
      (None when they are automatic) and the servers DHCP offered. */
  datatype Iface = Iface(dhcp: bool, manual: Option<seq<string>>, leased: seq<string>)

  /** One entry of prev_dns.json. */
  datatype Saved = Saved(alias: string, servers: seq<string>, dhcp: string)

  /** The backup file; the write is not atomic, and an incomplete file does not load. */
  datatype Backup = Absent | Good(entries: seq<Saved>) | Corrupt

  datatype World = World(ifaces: map<string, Iface>, backup: Backup)

  datatype Effect =
    | Truncate                                             // the backup file is created, still incomplete
    | Complete(entries: seq<Saved>)                        // its content is complete
    | Flip(alias: string)                                  // an interface now points at 127.0.0.1
    | Restore(alias: string, manual: Option<seq<string>>)  // an interface is given back
    | Remove                                               // the backup file is deleted

  function Apply(w: World, e: Effect): World {
    match e
    case Truncate => w.(backup := Corrupt)
    case Complete(es) => w.(backup := Good(es))
    case Flip(a) => w.(ifaces := SetManual(w.ifaces, a, Some([LOOPBACK])))
    case Restore(a, manual) => w.(ifaces := SetManual(w.ifaces, a, manual))
    case Remove => w.(backup := Absent)
  }

  function SetManual(ifaces: map<string, Iface>, a: string, manual: Option<seq<string>>): map<string, Iface> {
    if a in ifaces then ifaces[a := ifaces[a].(manual := manual)] else ifaces
  }

  function ApplyAll(w: World, es: seq<Effect>): World {
    if es == [] then w else Apply(ApplyAll(w, es[..|es| - 1]), es[|es| - 1])
  }

  lemma {:induction false} ApplyThrough(w: World, a: seq<Effect>, b: seq<Effect>)
    ensures ApplyAll(w, a + b) == ApplyAll(ApplyAll(w, a), b)
    decreases b
  {
    if b == [] {
      assert a + b == a;
    } else {
      ApplyThrough(w, a, b[..|b| - 1]);
      assert (a + b)[..|a + b| - 1] == a + b[..|b| - 1];
    }
  }

  // ----- what the program computes

  function ServersOf(i: Iface): seq<string> {
    if i.manual.Some? then i.manual.value else i.leased
  }

  /** What is saved about an interface; the DHCP state may be unavailable. */
  function EntryOf(alias: string, i: Iface, annotated: bool): Saved {
    Saved(alias, ServersOf(i), if !annotated then "" else if i.dhcp then "Enabled" else "Disabled")
  }

  /** The entries of all interfaces, in the order the system lists them. */
  function Snapshot(ifaces: map<string, Iface>, order: seq<string>, annotated: bool): (es: seq<Saved>)
    ensures |es| <= |order|
  {
    if order == [] then []
    else
      (if order[0] in ifaces then [EntryOf(order[0], ifaces[order[0]], annotated)] else [])
      + Snapshot(ifaces, order[1..], annotated)
  }

  /** The setting a saved entry is restored to. */
  function Normal(e: Saved): Option<seq<string>> {
    if e.dhcp == "Enabled" || e.servers == [] then None else Some(e.servers)
  }

  function FlipCommands(es: seq<Saved>): seq<Effect> {
    if es == [] then [] else (if es[0].servers == [] then [] else [Flip(es[0].alias)]) + FlipCommands(es[1..])
  }

  function RestoreCommands(es: seq<Saved>): seq<Effect> {
    if es == [] then [] else [Restore(es[0].alias, Normal(es[0]))] + RestoreCommands(es[1..])
  }

  /** How a PowerShell script went: the result of each line, and whether it ran to its end. */
  datatype Script = Script(results: seq<bool>, finished: bool)

  function AliasOf(cmd: Effect): string {
    match cmd
    case Flip(a) => a
    case Restore(a, _) => a
    case _ => ""
  }

  /** The lines that took effect; a line for an unknown interface never does. */
  function Succeeding(aliases: set<string>, cmds: seq<Effect>, results: seq<bool>): seq<Effect> {
    if cmds == [] || results == [] then []
    else
      (if results[0] && AliasOf(cmds[0]) in aliases then [cmds[0]] else [])
      + Succeeding(aliases, cmds[1..], results[1..])
  }

  /** No line reported an error. */
  predicate AllSucceed(aliases: set<string>, cmds: seq<Effect>, results: seq<bool>) {
    cmds == [] ||
    (results != [] && results[0] && AliasOf(cmds[0]) in aliases && AllSucceed(aliases, cmds[1..], results[1..]))
  }

  /** What one line adds. */
  lemma LineOf(aliases: set<string>, cmds: seq<Effect>, results: seq<bool>, i: nat, log: seq<Effect>)
    requires i < |cmds| && i < |results|
    ensures var hit := results[i] && AliasOf(cmds[i]) in aliases;
            && log + Succeeding(aliases, cmds[i..], results[i..]) ==
               (if hit then log + [cmds[i]] else log) + Succeeding(aliases, cmds[i + 1..], results[i + 1..])
            && (AllSucceed(aliases, cmds[i..], results[i..]) <==>
                hit && AllSucceed(aliases, cmds[i + 1..], results[i + 1..]))
  {
    assert cmds[i..][1..] == cmds[i + 1..] && results[i..][1..] == results[i + 1..];
  }

  datatype Write = Written | Failed(truncated: bool)

  /** Everything that goes well or wrong during one Run. */
  datatype Env = Env(
    enabled: bool,        // the configuration asks for the takeover
    order: seq<string>,   // how the system lists the interfaces
    readable: bool,       // reading the current settings works
    annotated: bool,      // the DHCP state is available
    write: Write,
    serves: bool,         // the server is built and its ports are bound
    flip: Script,
    restore: Script,
    removes: bool)        // deleting the backup file works

  function SaveEffects(w: World, env: Env): seq<Effect> {
    if !env.readable then []
    else
      match env.write
      case Written => [Truncate, Complete(Snapshot(w.ifaces, env.order, env.annotated))]
      case Failed(truncated) => if truncated then [Truncate] else []
  }

  function SetEffects(w: World, env: Env): seq<Effect> {
    if w.backup.Good? then Succeeding(w.ifaces.Keys, FlipCommands(w.backup.entries), env.flip.results) else []
  }

  function RestoreEffects(w: World, env: Env): seq<Effect> {
    if !w.backup.Good? then []
    else
      var cmds := RestoreCommands(w.backup.entries);
      Succeeding(w.ifaces.Keys, cmds, env.restore.results)
      + if env.restore.finished && AllSucceed(w.ifaces.Keys, cmds, env.restore.results) && env.removes then [Remove]
        else []
  }

  function RunEffects(w: World, env: Env): seq<Effect> {
    if !env.enabled then []
    else
      var saved := if w.backup.Absent? then SaveEffects(w, env) else [];
      var w1 := ApplyAll(w, saved);
      var flipped := if env.serves then SetEffects(w1, env) else [];
      var w2 := ApplyAll(w1, flipped);
      saved + flipped + RestoreEffects(w2, env)
  }

  // ----- what the scripts amount to

  /** No line reported an error: there is a result for every line, each of them good, and each interface exists. */
  lemma {:induction false} AllSucceedIff(aliases: set<string>, cmds: seq<Effect>, results: seq<bool>)
    ensures AllSucceed(aliases, cmds, results) <==>
            |cmds| <= |results| && forall i :: 0 <= i < |cmds| ==> results[i] && AliasOf(cmds[i]) in aliases
  {
    if cmds != [] && results != [] {
      AllSucceedIff(aliases, cmds[1..], results[1..]);
      assert cmds == [cmds[0]] + cmds[1..] && results == [results[0]] + results[1..];
    }
  }

  lemma {:induction false} AllSucceedRunsAll(aliases: set<string>, cmds: seq<Effect>, results: seq<bool>)
    requires AllSucceed(aliases, cmds, results)
    ensures Succeeding(aliases, cmds, results) == cmds
    decreases cmds
  {
    if cmds != [] { AllSucceedRunsAll(aliases, cmds[1..], results[1..]); }
  }

  /** A line takes effect if its own result is good, whatever became of the others. */
  lemma {:induction false} LinesAreIndependent(aliases: set<string>, cmds: seq<Effect>, results: seq<bool>, e: Effect)
    ensures e in Succeeding(aliases, cmds, results) <==>
            exists i :: 0 <= i < |cmds| && i < |results| && results[i] && AliasOf(cmds[i]) in aliases && cmds[i] == e
  {
    if cmds != [] && results != [] {
      LinesAreIndependent(aliases, cmds[1..], results[1..], e);
      assert cmds == [cmds[0]] + cmds[1..] && results == [results[0]] + results[1..];
      if i :| 0 <= i < |cmds| && i < |results| && results[i] && AliasOf(cmds[i]) in aliases && cmds[i] == e {
        if i > 0 { assert cmds[1..][i - 1] == e && results[1..][i - 1]; }
      }
    }
  }

  /** Some saved entry of this interface has servers. */
  ghost predicate SavedWithServers(es: seq<Saved>, a: string) {
    exists i :: 0 <= i < |es| && es[i].alias == a && es[i].servers != []
  }

  /** Exactly the interfaces saved with servers have been pointed at 127.0.0.1. */
  ghost predicate TakenOver(es: seq<Saved>, before: map<string, Iface>, after: map<string, Iface>) {
    && after.Keys == before.Keys
    && forall a :: a in before ==>
         after[a] == if SavedWithServers(es, a) then before[a].(manual := Some(["127.0.0.1"])) else before[a]
  }

  lemma {:induction false} FlipsTakeOver(w: World, es: seq<Saved>)
    ensures TakenOver(es, w.ifaces, ApplyAll(w, FlipCommands(es)).ifaces)
    ensures ApplyAll(w, FlipCommands(es)).backup == w.backup
    decreases es
  {
    if es != [] {
      var flip := if es[0].servers == [] then [] else [Flip(es[0].alias)];
      var u := ApplyAll(w, flip);
      if flip != [] { assert flip[..|flip| - 1] == []; }
      ApplyThrough(w, flip, FlipCommands(es[1..]));
      FlipsTakeOver(u, es[1..]);
      forall a ensures SavedWithServers(es, a) <==>
                       SavedWithServers(es[1..], a) || (es[0].alias == a && es[0].servers != [])
      {
        SavedFirst(es, a);
      }
    }
  }

  lemma SavedFirst(es: seq<Saved>, a: string)
    requires es != []
    ensures SavedWithServers(es, a) <==> SavedWithServers(es[1..], a) || (es[0].alias == a && es[0].servers != [])
  {
    if i :| 0 <= i < |es[1..]| && es[1..][i].alias == a && es[1..][i].servers != [] {
      assert es[i + 1] == es[1..][i];
    }
    if i :| 0 <= i < |es| && es[i].alias == a && es[i].servers != [] {
      if i > 0 { assert es[1..][i - 1] == es[i]; }
    }
  }

  // ----- the program

  class Machine {
    var ifaces: map<string, Iface>
    var backup: Backup

    function View(): World
      reads this
    {
      World(ifaces, backup)
    }

    /** SaveSystemDNS */
    method SaveSystemDNS(env: Env) returns (ok: bool, ghost log: seq<Effect>)
      modifies this
      ensures log == SaveEffects(old(View()), env) && View() == ApplyAll(old(View()), log)
      ensures ok <==> env.readable && env.write.Written?
    {
      log := [];
      if !env.readable {
        return false, log;
      }
      var entries := Snapshot(ifaces, env.order, env.annotated);
      if env.write.Failed? {
        if env.write.truncated {
          backup := Corrupt;
          log := [Truncate];
        }
        return false, log;
      }
      ghost var w := View();
      backup := Corrupt;
      log := [Truncate];
      assert View() == ApplyAll(w, log);
      backup := Good(entries);
      log := [Truncate, Complete(entries)];
      assert log[..1] == [Truncate];
      return true, log;
    }

    /** One generated script: every line in its own try block, errors collected. */
    method RunScript(cmds: seq<Effect>, script: Script) returns (ok: bool, ghost log: seq<Effect>)
      requires forall c :: c in cmds ==> c.Flip? || c.Restore?
      modifies this`ifaces
      ensures log == Succeeding(old(ifaces).Keys, cmds, script.results) && View() == ApplyAll(old(View()), log)
      ensures ok <==> script.finished && AllSucceed(old(ifaces).Keys, cmds, script.results)
    {
      ghost var start, aliases := View(), ifaces.Keys;
      log := [];
      ok := script.finished;
      var i := 0;
      while i < |cmds| && i < |script.results|
        invariant 0 <= i <= |cmds| && i <= |script.results|
        invariant ifaces.Keys == aliases && View() == ApplyAll(start, log)
        invariant log + Succeeding(aliases, cmds[i..], script.results[i..]) == Succeeding(aliases, cmds, script.results)
        invariant ok && AllSucceed(aliases, cmds[i..], script.results[i..]) <==>
                  script.finished && AllSucceed(aliases, cmds, script.results)
      {
        ghost var before := log;
        LineOf(aliases, cmds, script.results, i, log);
        if script.results[i] && AliasOf(cmds[i]) in ifaces {
          ifaces := SetManual(ifaces, AliasOf(cmds[i]), if cmds[i].Flip? then Some([LOOPBACK]) else cmds[i].manual);
          log := log + [cmds[i]];
          assert log[..|log| - 1] == before;
        } else {
          ok := false;
        }
        i := i + 1;
      }
      ok := ok && i == |cmds|;
      assert log + [] == log;
    }

    /** SetSystemDNS("127.0.0.1") */
    method SetSystemDNS(env: Env) returns (ok: bool, ghost log: seq<Effect>)
      modifies this`ifaces
      ensures log == SetEffects(old(View()), env) && View() == ApplyAll(old(View()), log)
      ensures ok ==> backup.Good? && TakenOver(backup.entries, old(ifaces), ifaces)
      ensures ok <==> backup.Good? && var cmds := FlipCommands(backup.entries);
                      cmds == [] || (env.flip.finished && AllSucceed(old(ifaces).Keys, cmds, env.flip.results))
    {
      log := [];
      if !backup.Good? {
        return false, log;
      }
      var cmds := FlipCommands(backup.entries);
      CommandsAreCommands(backup.entries);
      FlipsTakeOver(View(), backup.entries);
      if |cmds| == 0 {
        return true, log;
      }
      if AllSucceed(ifaces.Keys, cmds, env.flip.results) {
        AllSucceedRunsAll(ifaces.Keys, cmds, env.flip.results);
      }
      ok, log := RunScript(cmds, env.flip);
    }

    /** RestoreSystemDNS */
    method RestoreSystemDNS(env: Env) returns (ok: bool, ghost log: seq<Effect>)
      modifies this
      ensures log == RestoreEffects(old(View()), env) && View() == ApplyAll(old(View()), log)
      ensures ok <==>
                || old(backup).Absent?
                || (old(backup).Good? && env.restore.finished
                    && AllSucceed(old(ifaces).Keys, RestoreCommands(old(backup).entries), env.restore.results))
    {
      log := [];
      if !backup.Good? {
        return backup.Absent?, log;
      }
      var cmds := RestoreCommands(backup.entries);
      CommandsAreCommands(backup.entries);
      ok, log := RunScript(cmds, env.restore);
      if ok && env.removes {
        ghost var w, done := View(), log;
        backup := Absent;
        log := log + [Remove];
        assert log[..|log| - 1] == done;
      } else {
        assert log + [] == log;
      }
    }

    /** Run, from its DNS side: save unless a backup exists, flip once listening, restore at the end. */
    method Run(env: Env) returns (ghost log: seq<Effect>)
      modifies this
      ensures log == RunEffects(old(View()), env) && View() == ApplyAll(old(View()), log)
    {
      log := [];
      if !env.enabled {
        return;
      }
      ghost var w := View();
      ghost var saved, flipped: seq<Effect>, restored := [], [], [];
      var ok;
      if backup.Absent? {
        ok, saved := SaveSystemDNS(env);
      }
      ghost var w1 := View();
      if env.serves {
        ok, flipped := SetSystemDNS(env);
      }
      ok, restored := RestoreSystemDNS(env);
      ApplyThrough(w, saved, flipped);
      ApplyThrough(w, saved + flipped, restored);
      log := saved + flipped + restored;
    }
  }

  lemma {:induction false} CommandsAreCommands(es: seq<Saved>)
    ensures forall c :: c in FlipCommands(es) ==> c.Flip?
    ensures forall c :: c in RestoreCommands(es) ==> c.Restore?
  {
    if es != [] { CommandsAreCommands(es[1..]); }
  }
}
