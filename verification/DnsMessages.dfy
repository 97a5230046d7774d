/** DNS messages as values, and the parts of the miekg/dns message API that the
    forwarder relies on. */
module DnsMessages {
  import opened Wrappers

  type uint16 = x: int | 0 <= x < 0x1_0000
  type uint32 = x: int | 0 <= x < 0x1_0000_0000

  const RCODE_SUCCESS: nat := 0
  const RCODE_FORMAT_ERROR: nat := 1
  const RCODE_SERVER_FAILURE: nat := 2
  const RCODE_NAME_ERROR: nat := 3
  const RCODE_REFUSED: nat := 5

  datatype RData = Soa(minttl: uint32) | Opt | Other(text: string)

  /** A resource record. An OPT pseudo-record reuses the header: its class is the
      UDP payload size and its TTL holds the extended RCODE, version and flags
      (section 6.1.3 of RFC 6891). */
  datatype RR = RR(name: string, class_: uint16, ttl: uint32, data: RData)

  datatype Question = Question(name: string, qtype: uint16, qclass: uint16)

  datatype Msg = Msg(
    id: uint16,
    recursionDesired: bool,
    truncated: bool,
    rcode: nat,
    question: seq<Question>,
    answer: seq<RR>,
    ns: seq<RR>,
    extra: seq<RR>)

  /** The last OPT record of a section, which is the one the library reports. */
  function LastOpt(rrs: seq<RR>): Option<RR> {
    if rrs == [] then None
    else if rrs[|rrs| - 1].data.Opt? then Some(rrs[|rrs| - 1])
    else LastOpt(rrs[..|rrs| - 1])
  }

  predicate IsLastOpt(rrs: seq<RR>, i: int) {
    0 <= i < |rrs| && rrs[i].data.Opt? && forall j :: i < j < |rrs| ==> !rrs[j].data.Opt?
  }

  lemma {:induction false} LastOptIs(rrs: seq<RR>, i: int)
    ensures IsLastOpt(rrs, i) ==> LastOpt(rrs) == Some(rrs[i])
    ensures LastOpt(rrs).None? <==> forall rr :: rr in rrs ==> !rr.data.Opt?
  {
    if rrs != [] {
      var rest := rrs[..|rrs| - 1];
      assert rrs == rest + [rrs[|rrs| - 1]];
      LastOptIs(rest, i);
    }
  }

  lemma {:induction false} SomeLastOpt(rrs: seq<RR>) returns (i: int)
    ensures LastOpt(rrs).Some? ==> IsLastOpt(rrs, i)
  {
    i := |rrs| - 1;
    if rrs != [] && !rrs[i].data.Opt? { i := SomeLastOpt(rrs[..|rrs| - 1]); }
  }

  /** DNSSEC OK: bit 15 of the OPT record's TTL field. */
  predicate DnssecOk(q: Msg) {
    match LastOpt(q.extra)
    case None => false
    case Some(opt) => opt.ttl / 0x8000 % 2 == 1
  }

  /** An error reply as the library builds it from a query: same Id, first question, no records. */
  function ErrorReply(q: Msg, rcode: nat): Msg {
    Msg(q.id, q.recursionDesired, false, rcode, if q.question == [] then [] else [q.question[0]], [], [], [])
  }

  /** What a client can tell of an error reply: its own Id and question, the code, and nothing else. */
  predicate IsErrorReply(q: Msg, rcode: nat, m: Msg) {
    && m.id == q.id && m.rcode == rcode && m.recursionDesired == q.recursionDesired && !m.truncated
    && m.answer == [] && m.ns == [] && m.extra == []
    && (if q.question == [] then m.question == [] else |m.question| == 1 && m.question[0] == q.question[0])
  }

  lemma ErrorReplyIs(q: Msg, rcode: nat, m: Msg)
    ensures IsErrorReply(q, rcode, m) <==> m == ErrorReply(q, rcode)
  {
    if IsErrorReply(q, rcode, m) && q.question != [] { assert m.question == [q.question[0]]; }
  }

  // ----- canonical names

  function TrailingBackslashes(s: string): nat {
    if s == "" || s[|s| - 1] != '\\' then 0 else 1 + TrailingBackslashes(s[..|s| - 1])
  }

  /** Ends in a dot that is not escaped by an odd run of backslashes. */
  predicate IsFqdn(s: string) {
    s != "" && s[|s| - 1] == '.' && TrailingBackslashes(s[..|s| - 1]) % 2 == 0
  }

  function LowerChar(c: char): char {
    if 'A' <= c <= 'Z' then c - 'A' + 'a' else c
  }

  function Lower(s: string): (r: string)
    ensures |r| == |s|
    ensures forall i :: 0 <= i < |s| ==> r[i] == LowerChar(s[i])
  {
    seq(|s|, i requires 0 <= i < |s| => LowerChar(s[i]))
  }

  function CanonicalName(s: string): (r: string)
    ensures r != "" && r[|r| - 1] == '.'
  {
    Lower(if IsFqdn(s) then s else s + ".")
  }
}
