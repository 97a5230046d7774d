/** The response cache as a list of entries, most recently used first: the
    specification the linked-list-and-map implementation is proved against. */
module Recency {
  import opened Wrappers
  import opened DnsMessages
  import opened CacheKeys
  import opened CacheTtl

  datatype Entry = Entry(key: string, msg: Msg, expiry: int)

  // ----- recency lists

  function Keys(s: seq<Entry>): set<string> {
    if s == [] then {} else {s[0].key} + Keys(s[1..])
  }

  predicate Distinct(s: seq<Entry>) {
    s == [] || (s[0].key !in Keys(s[1..]) && Distinct(s[1..]))
  }

  function Find(s: seq<Entry>, key: string): (e: Option<Entry>)
    ensures e.Some? <==> key in Keys(s)
    ensures e.Some? ==> e.value.key == key
  {
    if s == [] then None
    else if s[0].key == key then Some(s[0])
    else Find(s[1..], key)
  }

  function Without(s: seq<Entry>, key: string): (t: seq<Entry>)
    ensures Keys(t) == Keys(s) - {key}
    ensures |t| <= |s|
  {
    if s == [] then [] else if s[0].key == key then Without(s[1..], key) else [s[0]] + Without(s[1..], key)
  }

  /** The keys used more recently than the given one. */
  function Before(s: seq<Entry>, key: string): set<string> {
    if s == [] || s[0].key == key then {} else {s[0].key} + Before(s[1..], key)
  }

  /** Lookup: a live entry moves to the front, an expired one is dropped. */
  function Look(s: seq<Entry>, key: string, now: int): (seq<Entry>, Option<Msg>) {
    match Find(s, key)
    case None => (s, None)
    case Some(e) =>
      if now > e.expiry then (Without(s, key), None) else ([e] + Without(s, key), Some(e.msg))
  }

  /** Store at the front; the last entry goes when the list outgrows the size. */
  function Insert(s: seq<Entry>, size: int, e: Entry): seq<Entry> {
    var t := [e] + Without(s, e.key);
    if |t| > size then t[..|t| - 1] else t
  }

  // ----- cache operations

  datatype Op =
    | Lookup(key: Option<string>, id: uint16, now: int)
    | Store(entry: Option<Entry>, now: int)

  function Step(size: int, s: seq<Entry>, op: Op): seq<Entry> {
    if size <= 0 then s
    else
      match op
      case Lookup(None, _, _) => s
      case Lookup(Some(key), _, now) => Look(s, key, now).0
      case Store(None, _) => s
      case Store(Some(e), _) => Insert(s, size, e)
  }

  /** What a lookup answers: the stored message under the query's Id. */
  function Answer(size: int, s: seq<Entry>, op: Op): Option<Msg> {
    if size <= 0 || !op.Lookup? || op.key.None? then None
    else
      match Look(s, op.key.value, op.now).1
      case None => None
      case Some(m) => Some(m.(id := op.id))
  }

  /** The list after a whole history of operations on an empty cache. */
  function After(size: int, ops: seq<Op>): seq<Entry> {
    if ops == [] then [] else Step(size, After(size, ops[..|ops| - 1]), ops[|ops| - 1])
  }

  /** Get on a query. */
  function GetOp(q: Msg, now: int): Op {
    Lookup(CacheKey(q), q.id, now)
  }

  /** Put of a response: an entry only if there is a key and the response has a lifetime. */
  function PutOp(q: Msg, r: Option<Msg>, now: int): Op {
    Store(if r.None? then None else EntryFor(q, r.value, now), now)
  }

  function EntryFor(q: Msg, r: Msg, now: int): Option<Entry> {
    match CacheKey(q)
    case None => None
    case Some(key) => if Lifetime(r) == 0 then None else Some(Entry(key, r, ExpiryAfter(now, Lifetime(r))))
  }

  // ----- list facts

  lemma {:induction false} KeysOfMember(s: seq<Entry>, i: nat)
    requires i < |s|
    ensures s[i].key in Keys(s)
    ensures Distinct(s) ==> Find(s, s[i].key) == Some(s[i])
  {
    if i > 0 { KeysOfMember(s[1..], i - 1); }
  }

  lemma {:induction false} WithoutIsDistinct(s: seq<Entry>, key: string)
    requires Distinct(s)
    ensures Distinct(Without(s, key))
    ensures |Without(s, key)| == |s| - if key in Keys(s) then 1 else 0
    ensures key !in Keys(s) ==> Without(s, key) == s
  {
    if s != [] {
      WithoutIsDistinct(s[1..], key);
    }
  }

  lemma {:induction false} FindWithout(s: seq<Entry>, key: string, other: string)
    requires key != other
    ensures Find(Without(s, key), other) == Find(s, other)
  {
    if s != [] {
      FindWithout(s[1..], key, other);
      if s[0].key != key {
        assert Without(s, key)[1..] == Without(s[1..], key);
      }
    }
  }

  /** Dropping the last entry of a distinct list. */
  lemma {:induction false} DropLast(s: seq<Entry>, key: string)
    requires s != [] && Distinct(s)
    ensures Distinct(s[..|s| - 1])
    ensures Keys(s[..|s| - 1]) == Keys(s) - {s[|s| - 1].key}
    ensures key != s[|s| - 1].key ==> Find(s[..|s| - 1], key) == Find(s, key)
    ensures key in Keys(s[..|s| - 1]) ==> Before(s[..|s| - 1], key) == Before(s, key)
  {
    var t := s[..|s| - 1];
    if |s| > 1 {
      DropLast(s[1..], key);
      KeysOfMember(s[1..], |s| - 2);
      assert t[1..] == s[1..][..|s| - 2];
      assert t[0] == s[0];
    } else {
      assert t == [];
    }
  }

  /** Every operation keeps keys distinct and the list within its size. */
  lemma StepKeepsBound(size: int, s: seq<Entry>, op: Op)
    requires size >= 1 && Distinct(s) && |s| <= size
    ensures Distinct(Step(size, s, op)) && |Step(size, s, op)| <= size
  {
    match op
    case Lookup(Some(key), _, now) =>
      WithoutIsDistinct(s, key);
      if Find(s, key).Some? {
        assert ([Find(s, key).value] + Without(s, key))[1..] == Without(s, key);
      }
    case Store(Some(e), _) =>
      WithoutIsDistinct(s, e.key);
      var t := [e] + Without(s, e.key);
      assert t[1..] == Without(s, e.key);
      DropLast(t, e.key);
    case _ =>
  }

  lemma {:induction false} AfterIsBounded(size: int, ops: seq<Op>)
    requires size >= 1
    ensures Distinct(After(size, ops)) && |After(size, ops)| <= size
  {
    if ops != [] {
      AfterIsBounded(size, ops[..|ops| - 1]);
      StepKeepsBound(size, After(size, ops[..|ops| - 1]), ops[|ops| - 1]);
    }
  }
}
