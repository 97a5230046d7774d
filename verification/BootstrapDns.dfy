/** The servers used to resolve the upstreams' own names, which must never lead back
    to this forwarder. */
module BootstrapDns {
  import opened Wrappers
  import opened SystemDns

  const PUBLIC_BOOTSTRAP: seq<string> := ["1.1.1.1", "8.8.8.8", "9.9.9.9"]

  function AllServers(entries: seq<Saved>): seq<string> {
    if entries == [] then [] else AllServers(entries[..|entries| - 1]) + entries[|entries| - 1].servers
  }

  /** The usable servers, each at its first occurrence. */
  function FirstUses(servers: seq<string>, usable: string -> bool): seq<string> {
    if servers == [] then []
    else
      var rest, s := FirstUses(servers[..|servers| - 1], usable), servers[|servers| - 1];
      if usable(s) && s !in rest then rest + [s] else rest
  }

  lemma OneMoreServer(before: seq<string>, servers: seq<string>, j: nat, usable: string -> bool)
    requires j < |servers|
    ensures var rest := FirstUses(before + servers[..j], usable);
            FirstUses(before + servers[..j + 1], usable) ==
            if usable(servers[j]) && servers[j] !in rest then rest + [servers[j]] else rest
  {
    var all := before + servers[..j + 1];
    assert all[..|all| - 1] == before + servers[..j] && all[|all| - 1] == servers[j];
  }

  /** GetBootstrapDNS; `usable` stands for parsing and for the address classes excluded. */
  method GetBootstrapDNS(listing: Option<seq<Saved>>, usable: string -> bool) returns (ips: seq<string>)
    ensures ips == var found := if listing.None? then [] else FirstUses(AllServers(listing.value), usable);
                   if found == [] then PUBLIC_BOOTSTRAP else found
  {
    if listing.None? {
      return PUBLIC_BOOTSTRAP;
    }
    var entries := listing.value;
    var seen: set<string> := {};
    ips := [];
    for i := 0 to |entries|
      invariant ips == FirstUses(AllServers(entries[..i]), usable)
      invariant forall s :: s in seen <==> s in ips
    {
      var servers := entries[i].servers;
      ghost var before := AllServers(entries[..i]);
      assert before + servers[..0] == before;
      for j := 0 to |servers|
        invariant ips == FirstUses(before + servers[..j], usable)
        invariant forall s :: s in seen <==> s in ips
      {
        var s := servers[j];
        OneMoreServer(before, servers, j, usable);
        if usable(s) && s !in seen {
          seen := seen + {s};
          ips := ips + [s];
        }
      }
      assert servers[..|servers|] == servers;
      assert entries[..i + 1][..i] == entries[..i];
    }
    assert entries[..|entries|] == entries;
    if |ips| == 0 {
      ips := PUBLIC_BOOTSTRAP;
    }
  }

  /** The list holds exactly the usable servers, without repeats. */
  lemma {:induction false} FirstUsesHoldsUsable(servers: seq<string>, usable: string -> bool, s: string)
    ensures s in FirstUses(servers, usable) <==> s in servers && usable(s)
    ensures var r := FirstUses(servers, usable); forall i, j :: 0 <= i < j < |r| ==> r[i] != r[j]
  {
    if servers != [] {
      var rest := servers[..|servers| - 1];
      FirstUsesHoldsUsable(rest, usable, s);
      assert servers == rest + [servers[|servers| - 1]];
    }
  }

  /** The servers of all interfaces, one after another. */
  lemma {:induction false} AllServersAdd(a: seq<Saved>, b: seq<Saved>)
    ensures AllServers(a + b) == AllServers(a) + AllServers(b)
    ensures |a| == 1 ==> AllServers(a) == a[0].servers
    decreases b
  {
    if |a| == 1 { assert a[..0] == []; }
    if b == [] {
      assert a + b == a;
    } else {
      AllServersAdd(a, b[..|b| - 1]);
      assert (a + b)[..|a + b| - 1] == a + b[..|b| - 1];
    }
  }

  predicate Lists(entries: seq<Saved>, i: int, s: string) {
    0 <= i < |entries| && s in entries[i].servers
  }

  lemma {:induction false} AllServersAreListed(entries: seq<Saved>, s: string)
    ensures s in AllServers(entries) <==> exists i :: Lists(entries, i, s)
  {
    if entries != [] {
      var k := |entries| - 1;
      AllServersAreListed(entries[..k], s);
      if i :| Lists(entries, i, s) && i < k { assert Lists(entries[..k], i, s); }
      if i :| Lists(entries[..k], i, s) { assert Lists(entries, i, s); }
      if s in entries[k].servers { assert Lists(entries, k, s); }
    }
  }

  /** The place where a server is first listed. */
  predicate FirstAt(servers: seq<string>, s: string, i: nat) {
    i < |servers| && servers[i] == s && s !in servers[..i]
  }

  /** They are in the order in which they are first listed. */
  lemma {:induction false} FirstUsesInOrder(servers: seq<string>, usable: string -> bool,
                                            m: nat, n: nat, i: nat, j: nat)
    requires m < n < |FirstUses(servers, usable)|
    requires FirstAt(servers, FirstUses(servers, usable)[m], i) && FirstAt(servers, FirstUses(servers, usable)[n], j)
    ensures i < j
    decreases servers
  {
    var k := |servers| - 1;
    var rest := FirstUses(servers[..k], usable);
    FirstUsesHoldsUsable(servers[..k], usable, rest[m]);
    if n < |rest| {
      FirstUsesHoldsUsable(servers[..k], usable, rest[n]);
      FirstInPrefix(servers, rest[m], i);
      FirstInPrefix(servers, rest[n], j);
      FirstUsesInOrder(servers[..k], usable, m, n, i, j);
    } else {
      FirstInPrefix(servers, rest[m], i);
      FirstUsesHoldsUsable(servers[..k], usable, servers[k]);
      if j < k { assert servers[j] in servers[..k]; }
    }
  }

  lemma FirstInPrefix(servers: seq<string>, s: string, i: nat)
    requires servers != [] && FirstAt(servers, s, i) && s in servers[..|servers| - 1]
    ensures i < |servers| - 1 && FirstAt(servers[..|servers| - 1], s, i)
  {
    var rest := servers[..|servers| - 1];
    if i < |rest| { assert rest[..i] == servers[..i]; }
  }

  /** Exactly the usable servers of some interface are found. */
  lemma FoundIff(entries: seq<Saved>, usable: string -> bool, s: string)
    ensures s in FirstUses(AllServers(entries), usable) <==>
            usable(s) && exists i :: Lists(entries, i, s)
  {
    FirstUsesHoldsUsable(AllServers(entries), usable, s);
    AllServersAreListed(entries, s);
  }

  /** Whatever the system reports, even after a crash left interfaces at 127.0.0.1: the bootstrap
      list is never empty and never leads to an address that is excluded, loopback included. */
  lemma BootstrapNeverLoops(listing: Option<seq<Saved>>, usable: string -> bool, s: string)
    requires usable(PUBLIC_BOOTSTRAP[0]) && usable(PUBLIC_BOOTSTRAP[1]) && usable(PUBLIC_BOOTSTRAP[2])
    requires !usable(LOOPBACK)
    ensures var found := if listing.None? then [] else FirstUses(AllServers(listing.value), usable);
            var ips := if found == [] then PUBLIC_BOOTSTRAP else found;
            ips != [] && LOOPBACK !in ips && (s in ips ==> usable(s))
  {
    if listing.Some? {
      FirstUsesHoldsUsable(AllServers(listing.value), usable, s);
      FirstUsesHoldsUsable(AllServers(listing.value), usable, LOOPBACK);
    }
  }
}
