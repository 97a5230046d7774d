/** How long a response may be kept: the minimum record TTL, the negative-answer TTL
    (sections 3 and 5 of RFC 2308) and the 30 s .. 1 h clamp. */
module CacheTtl {
  import opened DnsMessages

  /** When an entry stored now for so many seconds expires, in nanoseconds. */
  function ExpiryAfter(now: int, ttl: uint32): int {
    now + 1_000_000_000 * ttl
  }

  const TTL_FLOOR: uint32 := 30
  const TTL_CEILING: uint32 := 3600

  function Clamp(ttl: uint32): uint32 {
    if ttl < TTL_FLOOR then TTL_FLOOR else if ttl > TTL_CEILING then TTL_CEILING else ttl
  }

  /** The TTL fields minTTL looks at: every section, OPT pseudo-records included. */
  function Records(r: Msg): seq<RR> {
    r.answer + r.ns + r.extra
  }

  function MinTtlOf(rrs: seq<RR>): uint32 {
    if rrs == [] then 0
    else
      var last, rest := rrs[|rrs| - 1].ttl, rrs[..|rrs| - 1];
      if rest == [] || last < MinTtlOf(rest) then last else MinTtlOf(rest)
  }

  /** minTTL */
  method MinTtl(r: Msg) returns (min: uint32)
    ensures min == MinTtlOf(Records(r))
  {
    var all := r.answer + r.ns + r.extra;
    var first := true;
    min := 0;
    for i := 0 to |all|
      invariant first <==> i == 0
      invariant min == MinTtlOf(all[..i])
    {
      assert all[..i + 1][..i] == all[..i];
      if first || all[i].ttl < min {
        min := all[i].ttl;
        first := false;
      }
    }
    assert all[..|all|] == all;
  }

  lemma {:induction false} MinTtlIsLeast(rrs: seq<RR>)
    ensures rrs == [] ==> MinTtlOf(rrs) == 0
    ensures forall rr :: rr in rrs ==> MinTtlOf(rrs) <= rr.ttl
    ensures rrs != [] ==> exists rr :: rr in rrs && rr.ttl == MinTtlOf(rrs)
  {
    if rrs != [] {
      var last, rest := rrs[|rrs| - 1], rrs[..|rrs| - 1];
      MinTtlIsLeast(rest);
      assert rrs == rest + [last];
      assert last in rrs;
    }
  }

  predicate IsFirstSoa(rrs: seq<RR>, i: int) {
    0 <= i < |rrs| && rrs[i].data.Soa? && forall j :: 0 <= j < i ==> !rrs[j].data.Soa?
  }

  function NegativeTtlOf(rrs: seq<RR>): uint32 {
    if rrs == [] then 0
    else if rrs[0].data.Soa? then
      Clamp(if rrs[0].data.minttl < rrs[0].ttl then rrs[0].data.minttl else rrs[0].ttl)
    else NegativeTtlOf(rrs[1..])
  }

  /** negativeTTL */
  method NegativeTtl(r: Msg) returns (ttl: uint32)
    ensures ttl == NegativeTtlOf(r.ns)
  {
    for i := 0 to |r.ns|
      invariant NegativeTtlOf(r.ns) == NegativeTtlOf(r.ns[i..])
    {
      if r.ns[i].data.Soa? {
        ttl := r.ns[i].ttl;
        if r.ns[i].data.minttl < ttl {
          ttl := r.ns[i].data.minttl;
        }
        if ttl < TTL_FLOOR {
          ttl := TTL_FLOOR;
        }
        if ttl > TTL_CEILING {
          ttl := TTL_CEILING;
        }
        return;
      }
      assert r.ns[i..][1..] == r.ns[i + 1..];
    }
    ttl := 0;
  }

  /** The negative TTL comes from the first SOA of the authority section: the smaller of its
      TTL and its MINIMUM field, clamped; it is 0 exactly when there is no SOA. */
  lemma {:induction false} NegativeTtlFromFirstSoa(rrs: seq<RR>)
    ensures forall i :: IsFirstSoa(rrs, i) ==>
              var low := if rrs[i].data.minttl < rrs[i].ttl then rrs[i].data.minttl else rrs[i].ttl;
              30 <= NegativeTtlOf(rrs) <= 3600
              && (30 <= low <= 3600 ==> NegativeTtlOf(rrs) == low)
              && (low < 30 ==> NegativeTtlOf(rrs) == 30)
              && (low > 3600 ==> NegativeTtlOf(rrs) == 3600)
    ensures NegativeTtlOf(rrs) == 0 <==> forall rr :: rr in rrs ==> !rr.data.Soa?
  {
    if rrs != [] {
      NegativeTtlFromFirstSoa(rrs[1..]);
      assert rrs == [rrs[0]] + rrs[1..];
      forall i | IsFirstSoa(rrs, i) && i > 0
        ensures IsFirstSoa(rrs[1..], i - 1) && !rrs[0].data.Soa?
      {}
    }
  }

  /** Seconds a response is kept, 0 when it is not stored at all. */
  function Lifetime(r: Msg): uint32 {
    if r.rcode != RCODE_SUCCESS && r.rcode != RCODE_NAME_ERROR then 0
    else
      var ttl := if r.rcode == RCODE_NAME_ERROR || r.answer == [] then NegativeTtlOf(r.ns) else MinTtlOf(Records(r));
      if ttl == 0 then 0 else Clamp(ttl)
  }

  /** `low` seconds, but at least half a minute and at most an hour. */
  predicate Bounded(low: uint32, ttl: uint32) {
    && (30 <= low <= 3600 ==> ttl == low)
    && (low < 30 ==> ttl == 30)
    && (low > 3600 ==> ttl == 3600)
  }

  /** Some record has this TTL and none a smaller one. */
  ghost predicate LeastTtl(rrs: seq<RR>, low: uint32) {
    (exists rr :: rr in rrs && rr.ttl == low) && forall rr :: rr in rrs ==> low <= rr.ttl
  }

  /** The smaller of the TTL and the MINIMUM field of the section's first SOA. */
  ghost predicate SoaTtl(rrs: seq<RR>, low: uint32) {
    exists i ::
      && IsFirstSoa(rrs, i)
      && low <= rrs[i].ttl && low <= rrs[i].data.minttl && (low == rrs[i].ttl || low == rrs[i].data.minttl)
  }

  /** Name errors, and successes without an answer. */
  predicate Negative(r: Msg) {
    r.rcode == 3 || (r.rcode == 0 && r.answer == [])
  }

  /** How many seconds a response is kept, 0 for not at all: a negative one as its first SOA says, a positive
      one as long as the record of the three sections that lives shortest, unless that has TTL 0. */
  ghost predicate KeptFor(r: Msg, ttl: uint32) {
    if Negative(r) then
      (forall low :: SoaTtl(r.ns, low) ==> Bounded(low, ttl)) && ((forall low :: !SoaTtl(r.ns, low)) ==> ttl == 0)
    else if r.rcode == 0 then
      forall low :: LeastTtl(r.answer + r.ns + r.extra, low) ==> if low == 0 then ttl == 0 else Bounded(low, ttl)
    else
      ttl == 0
  }

  lemma SoaDecides(rrs: seq<RR>, ttl: uint32)
    requires ttl == NegativeTtlOf(rrs)
    ensures forall low :: SoaTtl(rrs, low) ==> Bounded(low, ttl)
    ensures (forall low :: !SoaTtl(rrs, low)) ==> ttl == 0
  {
    NegativeTtlFromFirstSoa(rrs);
    if ttl != 0 {
      var i := FirstSoa(rrs);
      assert SoaTtl(rrs, if rrs[i].data.minttl < rrs[i].ttl then rrs[i].data.minttl else rrs[i].ttl);
    }
  }

  lemma {:induction false} FirstSoa(rrs: seq<RR>) returns (i: int)
    requires exists rr :: rr in rrs && rr.data.Soa?
    ensures IsFirstSoa(rrs, i)
  {
    if rrs[0].data.Soa? {
      i := 0;
    } else {
      assert rrs == [rrs[0]] + rrs[1..];
      var j := FirstSoa(rrs[1..]);
      i := j + 1;
    }
  }

  lemma LifetimeIsKept(r: Msg)
    ensures KeptFor(r, Lifetime(r))
  {
    if Negative(r) {
      SoaDecides(r.ns, NegativeTtlOf(r.ns));
      NegativeTtlFromFirstSoa(r.ns);
    } else if r.rcode == RCODE_SUCCESS {
      MinTtlIsLeast(Records(r));
      forall low | LeastTtl(Records(r), low) ensures low == MinTtlOf(Records(r)) {}
    }
  }

  /** There is only one such number. */
  lemma KeptForOne(r: Msg, ttl: uint32)
    ensures KeptFor(r, ttl) <==> ttl == Lifetime(r)
  {
    LifetimeIsKept(r);
    if KeptFor(r, ttl) {
      if Negative(r) && exists low :: SoaTtl(r.ns, low) {
        var low :| SoaTtl(r.ns, low);
      } else if r.answer != [] {
        MinTtlIsLeast(Records(r));
        assert r.answer[0] in Records(r);
        assert LeastTtl(Records(r), MinTtlOf(Records(r)));
      }
    }
  }

  /** The TTL part of Put. */
  method StoreTtl(r: Msg) returns (ttl: uint32)
    ensures ttl == Lifetime(r) && KeptFor(r, ttl)
  {
    LifetimeIsKept(r);
    if r.rcode != RCODE_SUCCESS && r.rcode != RCODE_NAME_ERROR {
      return 0;
    }
    if r.rcode == RCODE_NAME_ERROR || |r.answer| == 0 {
      ttl := NegativeTtl(r);
    } else {
      ttl := MinTtl(r);
    }
    if ttl == 0 {
      return;
    }
    if ttl < TTL_FLOOR {
      ttl := TTL_FLOOR;
    }
    if ttl > TTL_CEILING {
      ttl := TTL_CEILING;
    }
  }

  lemma LeastIsZeroIff(rrs: seq<RR>)
    requires rrs != []
    ensures MinTtlOf(rrs) != 0 <==> forall rr :: rr in rrs ==> rr.ttl != 0
  {
    MinTtlIsLeast(rrs);
  }

  /** When a response is stored at all. A positive answer needs a nonzero TTL field in every
      record of all three sections; a negative one needs an SOA. */
  lemma StoredIff(r: Msg)
    ensures Lifetime(r) != 0 <==>
            if r.rcode == RCODE_NAME_ERROR || (r.rcode == RCODE_SUCCESS && r.answer == [])
            then exists rr :: rr in r.ns && rr.data.Soa?
            else r.rcode == RCODE_SUCCESS && forall rr :: rr in Records(r) ==> rr.ttl != 0
    ensures Lifetime(r) != 0 ==> 30 <= Lifetime(r) <= 3600
  {
    if Negative(r) {
      NegativeTtlFromFirstSoa(r.ns);
    } else if r.rcode == RCODE_SUCCESS {
      assert Records(r)[0] == r.answer[0];
      LeastIsZeroIff(Records(r));
    }
  }

  /** Because the OPT record's TTL field is counted too, a positive answer carrying an OPT
      record with no extended RCODE, version 0 and no flags is never stored. */
  lemma PlainOptBlocksStoring(r: Msg, opt: RR)
    requires r.answer != [] && r.rcode == RCODE_SUCCESS
    requires opt in r.extra && opt.data.Opt? && opt.ttl == 0
    ensures Lifetime(r) == 0
  {
    StoredIff(r);
    assert opt in Records(r);
  }
}
