/** The bounded LRU cache: a map of keys to list elements and a recency list, both
    updated in place, proved equal to the recency lists of module Recency. */
module Cache {
  import opened Wrappers
  import opened DnsMessages
  import opened MessageObjects
  import opened CacheKeys
  import opened CacheTtl
  import opened Recency
  import opened LinkedList

  // ----- the map and the list

  /** The operation a Put amounts to, by its key and lifetime. */
  function PlannedOp(key: Option<string>, ttl: uint32, r: Msg, now: int): Op {
    Store(if key.None? || ttl == 0 then None else Some(Entry(key.value, r, ExpiryAfter(now, ttl))), now)
  }

  /** Every key leads to an element holding that very key. */
  ghost predicate Keyed(m: map<string, Element>) {
    forall key :: key in m ==> m[key].value != null && m[key].value.key == key
  }

  /** The elements the map gives for these entries, in order. */
  ghost function ElemsOf(m: map<string, Element>, s: seq<Entry>): seq<Element>
    requires Keys(s) <= m.Keys
  {
    if s == [] then [] else [m[s[0].key]] + ElemsOf(m, s[1..])
  }

  lemma {:induction false} ElemsAreMapped(m: map<string, Element>, s: seq<Entry>, key: string)
    requires Keys(s) <= m.Keys && Keyed(m) && key in m
    ensures m[key] in ElemsOf(m, s) <==> key in Keys(s)
  {
    if s != [] { ElemsAreMapped(m, s[1..], key); }
  }

  lemma {:induction false} ElemsWithout(m: map<string, Element>, s: seq<Entry>, key: string)
    requires Keys(s) <= m.Keys && Keyed(m) && Distinct(s) && key in m
    ensures ElemsOf(m, Without(s, key)) == Minus(ElemsOf(m, s), m[key])
  {
    if s != [] {
      ElemsWithout(m, s[1..], key);
      if s[0].key == key {
        WithoutIsDistinct(s[1..], key);
      }
    }
  }

  lemma {:induction false} ElemsAgree(m: map<string, Element>, m': map<string, Element>, s: seq<Entry>)
    requires Keys(s) <= m.Keys && Keys(s) <= m'.Keys
    requires forall key :: key in Keys(s) ==> m[key] == m'[key]
    ensures ElemsOf(m, s) == ElemsOf(m', s)
  {
    if s != [] { ElemsAgree(m, m', s[1..]); }
  }

  /** An entry put at the front. */
  lemma FrontFacts(m: map<string, Element>, e: Entry, s: seq<Entry>, key: string)
    requires Keys(s) <= m.Keys && e.key in m
    ensures Keys([e] + s) == {e.key} + Keys(s)
    ensures Find([e] + s, key) == if e.key == key then Some(e) else Find(s, key)
    ensures ElemsOf(m, [e] + s) == [m[e.key]] + ElemsOf(m, s)
  {
    assert ([e] + s)[1..] == s;
  }

  /** Map, list elements and entries name the same keys, in the same order. */
  ghost predicate Indexed(m: map<string, Element>, elems: seq<Element>, s: seq<Entry>) {
    m.Keys == Keys(s) && Keyed(m) && elems == ElemsOf(m, s)
  }

  /** An entry taken out. */
  lemma DropFacts(m: map<string, Element>, elems: seq<Element>, s: seq<Entry>, key: string)
    requires Indexed(m, elems, s) && Distinct(s) && key in m
    ensures m[key] in elems
    ensures Indexed(m - {key}, Minus(elems, m[key]), Without(s, key))
    ensures forall k :: k in m && k != key ==> Find(Without(s, key), k) == Find(s, k)
  {
    ElemsAreMapped(m, s, key);
    ElemsWithout(m, s, key);
    ElemsAgree(m, m - {key}, Without(s, key));
    forall k | k in m && k != key ensures Find(Without(s, key), k) == Find(s, k) {
      FindWithout(s, key, k);
    }
  }

  /** An entry moved to the front. */
  lemma PromoteFacts(m: map<string, Element>, elems: seq<Element>, s: seq<Entry>, key: string)
    requires Indexed(m, elems, s) && Distinct(s) && key in m
    ensures m[key] in elems
    ensures Indexed(m, [m[key]] + Minus(elems, m[key]), [Find(s, key).value] + Without(s, key))
    ensures forall k :: k in m ==> Find([Find(s, key).value] + Without(s, key), k) == Find(s, k)
  {
    var e := Find(s, key).value;
    DropFacts(m, elems, s, key);
    ElemsWithout(m, s, key);
    FrontFacts(m, e, Without(s, key), key);
    forall k | k in m ensures Find([e] + Without(s, key), k) == Find(s, k) {
      FrontFacts(m, e, Without(s, key), k);
    }
  }

  /** An entry added under a new key. */
  lemma AddFacts(m: map<string, Element>, elems: seq<Element>, s: seq<Entry>, el: Element, e: Entry)
    requires Indexed(m, elems, s) && e.key !in m
    requires el.value != null && el.value.key == e.key
    ensures Indexed(m[e.key := el], [el] + elems, [e] + s)
    ensures forall k :: k in m ==> Find([e] + s, k) == Find(s, k)
    ensures Find([e] + s, e.key) == Some(e)
  {
    var m' := m[e.key := el];
    ElemsAgree(m, m', s);
    FrontFacts(m', e, s, e.key);
    forall k | k in m ensures Find([e] + s, k) == Find(s, k) {
      FrontFacts(m', e, s, k);
    }
  }

  /** The list with the entry of e's key replaced by e, in place. */
  ghost function Replace(s: seq<Entry>, e: Entry): (t: seq<Entry>)
    ensures Keys(t) == Keys(s)
  {
    if s == [] then [] else [if s[0].key == e.key then e else s[0]] + Replace(s[1..], e)
  }

  lemma {:induction false} ReplaceFacts(m: map<string, Element>, s: seq<Entry>, e: Entry, key: string)
    requires Keys(s) <= m.Keys
    ensures ElemsOf(m, Replace(s, e)) == ElemsOf(m, s)
    ensures Without(Replace(s, e), e.key) == Without(s, e.key)
    ensures Distinct(s) ==> Distinct(Replace(s, e))
    ensures Find(Replace(s, e), key) == if key == e.key && key in Keys(s) then Some(e) else Find(s, key)
  {
    if s != [] {
      ReplaceFacts(m, s[1..], e, key);
    }
  }

  lemma RefreshFacts(m: map<string, Element>, elems: seq<Element>, s: seq<Entry>, e: Entry)
    requires Indexed(m, elems, s) && e.key in m
    ensures Indexed(m, elems, Replace(s, e))
    ensures Without(Replace(s, e), e.key) == Without(s, e.key)
    ensures Distinct(s) ==> Distinct(Replace(s, e))
    ensures forall k :: k in m ==> Find(Replace(s, e), k) == if k == e.key then Some(e) else Find(s, k)
  {
    forall k | k in m ensures Find(Replace(s, e), k) == if k == e.key then Some(e) else Find(s, k) {
      ReplaceFacts(m, s, e, k);
    }
    ReplaceFacts(m, s, e, e.key);
  }

  lemma {:induction false} RenewFacts(m: map<string, Element>, elems: seq<Element>, s: seq<Entry>, size: int, e: Entry)
    requires Indexed(m, elems, s) && e.key in m && Distinct(s) && |s| <= size
    ensures Distinct(Replace(s, e))
    ensures Find(Replace(s, e), e.key) == Some(e)
    ensures Insert(s, size, e) == [e] + Without(Replace(s, e), e.key)
  {
    RefreshFacts(m, elems, s, e);
    WithoutIsDistinct(s, e.key);
  }

  lemma AdmitFacts(m: map<string, Element>, elems: seq<Element>, s: seq<Entry>, size: int, e: Entry)
    requires Indexed(m, elems, s) && e.key !in m && Distinct(s)
    ensures Distinct([e] + s)
    ensures Insert(s, size, e) == if |[e] + s| > size then ([e] + s)[..|[e] + s| - 1] else [e] + s
  {
    WithoutIsDistinct(s, e.key);
    assert ([e] + s)[1..] == s;
  }

  /** The list's last element is the one mapped from the last entry's key. */
  lemma BackFacts(m: map<string, Element>, elems: seq<Element>, s: seq<Entry>)
    requires Indexed(m, elems, s) && Distinct(s)
    ensures |elems| == |s|
    ensures s != [] ==> s[|s| - 1].key in m && elems[|s| - 1] == m[s[|s| - 1].key]
    ensures s != [] ==> Without(s, s[|s| - 1].key) == s[..|s| - 1]
  {
    ElemsLength(m, s);
    if s != [] {
      KeysOfMember(s, |s| - 1);
      WithoutLast(s);
    }
  }

  lemma {:induction false} ElemsLength(m: map<string, Element>, s: seq<Entry>)
    requires Keys(s) <= m.Keys
    ensures |ElemsOf(m, s)| == |s|
    ensures s != [] ==> s[|s| - 1].key in m && ElemsOf(m, s)[|s| - 1] == m[s[|s| - 1].key]
  {
    if s != [] {
      ElemsLength(m, s[1..]);
    }
  }

  lemma {:induction false} WithoutLast(s: seq<Entry>)
    requires s != [] && Distinct(s)
    ensures Without(s, s[|s| - 1].key) == s[..|s| - 1]
  {
    if |s| > 1 {
      KeysOfMember(s[1..], |s| - 2);
      WithoutLast(s[1..]);
      assert s[..|s| - 1] == [s[0]] + s[1..][..|s| - 2];
    }
  }

  lemma Extends(size: int, ops: seq<Op>, op: Op)
    ensures After(size, ops + [op]) == Step(size, After(size, ops), op)
  {
    assert (ops + [op])[..|ops|] == ops;
  }

  class Cache {
    const size: int
    var m: map<string, Element>
    const ll: List   // stays empty, like the map, in a cache of size 0 or less

    ghost var boxes: set<CacheEntry> // the entry objects this cache has made
    ghost var msgs: set<Message>     // the message objects it has stored

    /** The cache holds the entries `s`, most recently used first. */
    ghost predicate Valid(s: seq<Entry>)
      reads this, ll, ll.nodes, boxes, msgs
    {
      Distinct(s) && |s| <= (if size > 0 then size else 0) && Represents(s, boxes, msgs)
    }

    /** Map, list and entry objects agree with this recency list. */
    ghost predicate Represents(s: seq<Entry>, bs: set<CacheEntry>, ms: set<Message>)
      reads this`m, ll, ll.nodes, bs, ms
    {
      && ll.Valid()
      && Indexed(m, ll.elems, s) && Keyed(m)
      && Backed(s, bs, ms)
    }

    /** Each mapped element holds the entry of its key, in objects of the cache's own. */
    ghost predicate Backed(s: seq<Entry>, bs: set<CacheEntry>, ms: set<Message>)
      requires Keyed(m)
      reads this`m, bs, ms
    {
      && (forall key :: key in m ==> m[key].value in bs && m[key].value.msg in ms)
      && (forall key :: key in m ==>
            Find(s, key) == Some(Entry(key, m[key].value.msg.value, m[key].value.expiry)))
    }

    /** NewCache */
    constructor (size: int)
      ensures Valid([]) && this.size == size
      ensures fresh(ll) && fresh(ll.nodes) && boxes == {} && msgs == {}
    {
      this.size := size;
      m := map[];
      boxes, msgs := {}, {};
      ll := new List();
    }

    /** Makes a key lead nowhere, its element being out of the list. */
    method Unbind(key: string, ghost s: seq<Entry>, ghost bs: set<CacheEntry>, ghost ms: set<Message>)
      requires ll.Valid() && key in m && Keyed(m) && Backed(s, bs, ms)
      requires Indexed(m - {key}, ll.elems, Without(s, key))
      requires forall k :: k in m && k != key ==> Find(Without(s, key), k) == Find(s, k)
      modifies this`m
      ensures Represents(Without(s, key), bs, ms)
    {
      m := m - {key};
    }

    method Drop(el: Element, key: string, ghost s: seq<Entry>, ghost bs: set<CacheEntry>, ghost ms: set<Message>)
      requires Represents(s, bs, ms) && Distinct(s)
      requires key in m && m[key] == el
      modifies this`m, ll, ll.nodes
      ensures Represents(Without(s, key), bs, ms) && ll.nodes == old(ll.nodes)
    {
      DropFacts(m, ll.elems, s, key);
      ll.Remove(el);
      Unbind(key, s, bs, ms);
    }

    method Promote(el: Element, key: string, ghost s: seq<Entry>, ghost bs: set<CacheEntry>, ghost ms: set<Message>)
      requires Represents(s, bs, ms) && Distinct(s)
      requires key in m && m[key] == el
      modifies ll, ll.nodes
      ensures Represents([Find(s, key).value] + Without(s, key), bs, ms) && ll.nodes == old(ll.nodes)
    {
      PromoteFacts(m, ll.elems, s, key);
      ll.MoveToFront(el);
    }

    /** A copy of a stored message under a query's Id; the cache does not notice. */
    method CopyFor(el: Element, id: uint16, ghost s: seq<Entry>, ghost bs: set<CacheEntry>, ghost ms: set<Message>)
      returns (out: Message)
      requires Represents(s, bs, ms) && el.value != null
      ensures fresh(out) && out.value == el.value.msg.value.(id := id)
      ensures Represents(s, bs, ms)
    {
      out := el.value.msg.Copy();
      out.value := out.value.(id := id);
    }

    /** The part of Get that runs once a live entry is found. */
    method Hit(el: Element, key: string, id: uint16,
               ghost s: seq<Entry>, ghost bs: set<CacheEntry>, ghost ms: set<Message>)
      returns (out: Message)
      requires Represents(s, bs, ms) && Distinct(s)
      requires key in m && m[key] == el
      modifies ll, ll.nodes
      ensures Represents([Find(s, key).value] + Without(s, key), bs, ms) && ll.nodes == old(ll.nodes)
      ensures fresh(out) && out.value == Find(s, key).value.msg.(id := id)
    {
      ghost var e := Find(s, key).value;
      Promote(el, key, s, bs, ms);
      out := CopyFor(el, id, [e] + Without(s, key), bs, ms);
    }

    /** The part of Get that runs once the key is known. */
    method Fetch(key: string, id: uint16, now: int,
                 ghost s: seq<Entry>, ghost bs: set<CacheEntry>, ghost ms: set<Message>)
      returns (out: Message?, ghost t: seq<Entry>)
      requires Represents(s, bs, ms) && Distinct(s)
      modifies this`m, ll, ll.nodes
      ensures t == Look(s, key, now).0
      ensures Represents(t, bs, ms) && ll.nodes == old(ll.nodes)
      ensures out != null ==> fresh(out)
      ensures var answer := Look(s, key, now).1;
              if out == null then answer == None else answer.Some? && out.value == answer.value.(id := id)
    {
      if key !in m {
        return null, s;
      }
      var el := m[key];
      assert Find(s, key).value.expiry == el.value.expiry;
      if now > el.value.expiry {
        Drop(el, key, s, bs, ms);
        return null, Without(s, key);
      }
      out := Hit(el, key, id, s, bs, ms);
      t := [Find(s, key).value] + Without(s, key);
    }

    /** Get, once the query is read. */
    method GetKeyed(key: Option<string>, id: uint16, now: int, ghost s: seq<Entry>) returns (out: Message?)
      requires Valid(s)
      modifies this`m, ll, ll.nodes
      ensures Valid(Step(size, s, Lookup(key, id, now))) && ll.nodes == old(ll.nodes)
      ensures out != null ==> fresh(out)
      ensures (if out == null then None else Some(out.value)) == Answer(size, s, Lookup(key, id, now))
    {
      if size <= 0 || key.None? {
        return null;
      }
      StepKeepsBound(size, s, Lookup(key, id, now));
      ghost var t;
      out, t := Fetch(key.value, id, now, s, boxes, msgs);
    }

    method Get(q: Message, now: int, ghost s: seq<Entry>) returns (out: Message?)
      requires Valid(s)
      modifies this`m, ll, ll.nodes
      ensures Valid(Step(size, s, GetOp(q.value, now))) && ll.nodes == old(ll.nodes)
      ensures out != null ==> fresh(out)
      ensures (if out == null then None else Some(out.value)) == Answer(size, s, GetOp(q.value, now))
    {
      var key := CacheKey(q.value);
      out := GetKeyed(key, q.value.id, now, s);
    }

    /** Writes a new message and expiry into the entry of a key already present. */
    method Refresh(el: Element, entry: CacheEntry, key: string, r: Message, expiry: int,
                   ghost s: seq<Entry>, ghost bs: set<CacheEntry>, ghost ms: set<Message>)
      requires Represents(s, bs, ms)
      requires key in m && m[key] == el && el.value == entry
      modifies entry
      ensures fresh(entry.msg)
      ensures Represents(Replace(s, Entry(key, r.value, expiry)), bs + {entry}, ms + {entry.msg})
    {
      RefreshFacts(m, ll.elems, s, Entry(key, r.value, expiry));
      entry.Overwrite(r, expiry);
    }

    /** Storing under a key already present. */
    method Renew(el: Element, entry: CacheEntry, key: string, r: Message, expiry: int,
                 ghost s: seq<Entry>, ghost bs: set<CacheEntry>, ghost ms: set<Message>)
      requires Represents(s, bs, ms) && Distinct(s) && |s| <= size
      requires key in m && m[key] == el && el.value == entry
      modifies entry, ll, ll.nodes
      ensures fresh(entry.msg) && ll.nodes == old(ll.nodes)
      ensures Represents(Insert(s, size, Entry(key, r.value, expiry)), bs + {entry}, ms + {entry.msg})
    {
      RenewFacts(m, ll.elems, s, size, Entry(key, r.value, expiry));
      Refresh(el, entry, key, r, expiry, s, bs, ms);
      Promote(el, key, Replace(s, Entry(key, r.value, expiry)), bs + {entry}, ms + {entry.msg});
    }

    /** Links a new element holding a copy of the message at the front of the list. */
    method LinkNew(key: string, r: Message, expiry: int) returns (el: Element, entry: CacheEntry)
      requires ll.Valid()
      modifies ll`len, ll`elems, ll`nodes, ll.nodes`next, ll.nodes`prev
      ensures ll.Valid() && ll.elems == [el] + old(ll.elems)
      ensures forall n :: n in ll.nodes && n !in old(ll.nodes) ==> fresh(n)
      ensures el.value == entry && fresh(entry) && entry.key == key && entry.expiry == expiry
      ensures fresh(entry.msg) && entry.msg.value == r.value
    {
      var copy := r.Copy();
      entry := new CacheEntry(key, copy, expiry);
      el := ll.PushFront(entry);
    }

    /** Makes a key lead to a newly linked element. */
    method Bind(key: string, el: Element, entry: CacheEntry, ghost elems: seq<Element>,
                ghost s: seq<Entry>, ghost bs: set<CacheEntry>, ghost ms: set<Message>)
      requires ll.Valid() && ll.elems == [el] + elems
      requires Indexed(m, elems, s) && Keyed(m) && Backed(s, bs, ms)
      requires key !in m && el.value == entry && entry.key == key
      modifies this`m
      ensures Represents([Entry(key, entry.msg.value, entry.expiry)] + s, bs + {entry}, ms + {entry.msg})
    {
      AddFacts(m, elems, s, el, Entry(key, entry.msg.value, entry.expiry));
      m := m[key := el];
    }

    /** Puts an entry under a key not yet present. */
    method Add(key: string, r: Message, expiry: int,
               ghost s: seq<Entry>, ghost bs: set<CacheEntry>, ghost ms: set<Message>)
      returns (entry: CacheEntry)
      requires Represents(s, bs, ms)
      requires key !in m
      modifies this`m, ll, ll.nodes
      ensures fresh(entry) && fresh(entry.msg)
      ensures forall n :: n in ll.nodes && n !in old(ll.nodes) ==> fresh(n)
      ensures Represents([Entry(key, r.value, expiry)] + s, bs + {entry}, ms + {entry.msg})
    {
      ghost var elems := ll.elems;
      var el;
      el, entry := LinkNew(key, r, expiry);
      Bind(key, el, entry, elems, s, bs, ms);
    }

    /** Evicts the least recently used entry of an overfull cache. */
    method Evict(ghost s: seq<Entry>, ghost bs: set<CacheEntry>, ghost ms: set<Message>)
      requires Represents(s, bs, ms) && Distinct(s) && size > 0
      modifies this`m, ll, ll.nodes
      ensures Represents(if |s| > size then s[..|s| - 1] else s, bs, ms) && ll.nodes == old(ll.nodes)
    {
      BackFacts(m, ll.elems, s);
      if ll.len > size {
        var back := ll.Back();
        if back != null {
          Drop(back, back.value.key, s, bs, ms);
        }
      }
    }

    /** Storing under a new key. */
    method Admit(key: string, r: Message, expiry: int,
                 ghost s: seq<Entry>, ghost bs: set<CacheEntry>, ghost ms: set<Message>)
      returns (entry: CacheEntry)
      requires Represents(s, bs, ms) && Distinct(s) && size > 0
      requires key !in m
      modifies this`m, ll, ll.nodes
      ensures fresh(entry) && fresh(entry.msg)
      ensures forall n :: n in ll.nodes && n !in old(ll.nodes) ==> fresh(n)
      ensures Represents(Insert(s, size, Entry(key, r.value, expiry)), bs + {entry}, ms + {entry.msg})
    {
      AdmitFacts(m, ll.elems, s, size, Entry(key, r.value, expiry));
      entry := Add(key, r, expiry, s, bs, ms);
      Evict([Entry(key, r.value, expiry)] + s, bs + {entry}, ms + {entry.msg});
    }

    /** The part of Put that runs once the key and the expiry are known. */
    method Keep(key: string, r: Message, expiry: int,
                ghost s: seq<Entry>, ghost bs: set<CacheEntry>, ghost ms: set<Message>)
      returns (entry: CacheEntry)
      requires Represents(s, bs, ms) && Distinct(s) && |s| <= size && size > 0
      modifies this`m, ll, ll.nodes, bs
      ensures entry in bs || fresh(entry)
      ensures fresh(entry.msg)
      ensures forall n :: n in ll.nodes && n !in old(ll.nodes) ==> fresh(n)
      ensures Represents(Insert(s, size, Entry(key, r.value, expiry)), bs + {entry}, ms + {entry.msg})
    {
      if key in m {
        entry := m[key].value;
        Renew(m[key], entry, key, r, expiry, s, bs, ms);
      } else {
        entry := Admit(key, r, expiry, s, bs, ms);
      }
    }

    /** Notes the objects made. */
    ghost method Own(entry: CacheEntry, s: seq<Entry>)
      requires Represents(s, boxes + {entry}, msgs + {entry.msg})
      modifies this`boxes, this`msgs
      ensures Represents(s, boxes, msgs)
      ensures boxes == old(boxes) + {entry} && msgs == old(msgs) + {entry.msg}
    {
      boxes, msgs := boxes + {entry}, msgs + {entry.msg};
    }

    /** Keep, noting the objects made. */
    method Accept(key: string, r: Message, expiry: int, ghost s: seq<Entry>)
      requires Represents(s, boxes, msgs) && Distinct(s) && |s| <= size && size > 0
      modifies this`m, this`boxes, this`msgs, ll, ll.nodes, boxes
      ensures forall b :: b in boxes && b !in old(boxes) ==> fresh(b)
      ensures forall c :: c in msgs && c !in old(msgs) ==> fresh(c)
      ensures forall n :: n in ll.nodes && n !in old(ll.nodes) ==> fresh(n)
      ensures Represents(Insert(s, size, Entry(key, r.value, expiry)), boxes, msgs)
    {
      ghost var t := Insert(s, size, Entry(key, r.value, expiry));
      var entry := Keep(key, r, expiry, s, boxes, msgs);
      Own(entry, t);
    }

    /** Put, once the query and the response are read. */
    method PutPlanned(key: Option<string>, ttl: uint32, r: Message, now: int, ghost s: seq<Entry>)
      requires Valid(s) && size > 0
      modifies this`m, this`boxes, this`msgs, ll, ll.nodes, boxes
      ensures Valid(Step(size, s, PlannedOp(key, ttl, r.value, now)))
      ensures forall b :: b in boxes && b !in old(boxes) ==> fresh(b)
      ensures forall c :: c in msgs && c !in old(msgs) ==> fresh(c)
      ensures forall n :: n in ll.nodes && n !in old(ll.nodes) ==> fresh(n)
    {
      if key.Some? && ttl != 0 {
        StepKeepsBound(size, s, PlannedOp(key, ttl, r.value, now));
        Accept(key.value, r, ExpiryAfter(now, ttl), s);
      }
    }

    /** Put of a non-nil response on an enabled cache. */
    method PutMessage(q: Message, r: Message, now: int, ghost s: seq<Entry>)
      requires Valid(s) && size > 0
      modifies this`m, this`boxes, this`msgs, ll, ll.nodes, boxes
      ensures Valid(Step(size, s, PutOp(q.value, Some(r.value), now)))
      ensures forall b :: b in boxes && b !in old(boxes) ==> fresh(b)
      ensures forall c :: c in msgs && c !in old(msgs) ==> fresh(c)
      ensures forall n :: n in ll.nodes && n !in old(ll.nodes) ==> fresh(n)
    {
      var key, ttl := Plan(q.value, r.value, now);
      PutPlanned(key, ttl, r, now, s);
    }

    method Put(q: Message, r: Message?, now: int, ghost s: seq<Entry>)
      requires Valid(s)
      modifies this`m, this`boxes, this`msgs, ll, ll.nodes, boxes
      ensures Valid(Step(size, s, PutOp(q.value, if r == null then None else Some(r.value), now)))
      ensures forall b :: b in boxes && b !in old(boxes) ==> fresh(b)
      ensures forall c :: c in msgs && c !in old(msgs) ==> fresh(c)
      ensures forall n :: n in ll.nodes && n !in old(ll.nodes) ==> fresh(n)
    {
      if size > 0 && r != null {
        PutMessage(q, r, now, s);
      }
    }
  }

  /** Key and lifetime of a response to be stored. */
  method Plan(q: Msg, r: Msg, ghost now: int) returns (key: Option<string>, ttl: uint32)
    ensures PutOp(q, Some(r), now) == PlannedOp(key, ttl, r, now)
  {
    key := CacheKey(q);
    ttl := StoreTtl(r);
  }
}
