/** What a bounded cache answers, told from the history of operations and of what they
    did (a lookup hits, drops or misses): the message of the latest accepted store, unless
    it has expired or enough other keys have been used since. */
module LruHistory {
  import opened Wrappers
  import opened DnsMessages
  import opened CacheKeys
  import opened CacheTtl
  import opened Recency

  datatype Event =
    | Quiet
    | Touched(key: string)   // an accepted store, or a hit
    | Dropped(key: string)   // a lookup found the entry expired

  /** What an operation did to the recency order. */
  function EventOf(s: seq<Entry>, op: Op): Event {
    match op
    case Lookup(Some(key), _, now) =>
      (match Find(s, key)
       case None => Quiet
       case Some(e) => if now > e.expiry then Dropped(key) else Touched(key))
    case Store(Some(e), _) => Touched(e.key)
    case _ => Quiet
  }

  function Events(size: int, ops: seq<Op>): seq<Event> {
    if ops == [] then []
    else
      var prefix := ops[..|ops| - 1];
      Events(size, prefix) + [EventOf(After(size, prefix), ops[|ops| - 1])]
  }

  predicate Stores(op: Op, key: string) {
    op.Store? && op.entry.Some? && op.entry.value.key == key
  }

  /** The entry made by the latest accepted store of a key; it depends on the inputs only. */
  function LastStored(ops: seq<Op>, key: string): Option<Entry> {
    if ops == [] then None
    else if Stores(ops[|ops| - 1], key) then ops[|ops| - 1].entry
    else LastStored(ops[..|ops| - 1], key)
  }

  /** The distinct other keys used since `key` was, leaving out those dropped meanwhile. */
  function UsedSince(h: seq<Event>, key: string): set<string> {
    if h == [] then {}
    else
      var since := UsedSince(h[..|h| - 1], key);
      match h[|h| - 1]
      case Quiet => since
      case Touched(k) => if k == key then {} else since + {k}
      case Dropped(k) => if k == key then since else since - {k}
  }

  /** At some moment since `key` was last used, `size` other keys had been used more recently. */
  predicate CrowdedOut(h: seq<Event>, key: string, size: int) {
    h != [] &&
    if h[|h| - 1] == Touched(key) then false
    else CrowdedOut(h[..|h| - 1], key, size) || |UsedSince(h, key)| >= size
  }

  /** All other keys used since `key` was. */
  function OthersTouched(h: seq<Event>, key: string): set<string> {
    if h == [] || h[|h| - 1] == Touched(key) then {}
    else
      OthersTouched(h[..|h| - 1], key) + match h[|h| - 1] case Touched(k) => {k} case _ => {}
  }

  /** Clock readings in the history never exceed the current one. */
  predicate NotAfter(ops: seq<Op>, now: int) {
    forall i :: 0 <= i < |ops| ==> ops[i].now <= now
  }

  // ----- position in the list

  lemma {:induction false} BeforeWithout(s: seq<Entry>, gone: string, key: string)
    requires gone != key
    ensures Before(Without(s, gone), key) == Before(s, key) - {gone}
  {
    if s != [] && s[0].key != key {
      BeforeWithout(s[1..], gone, key);
      if s[0].key != gone {
        assert Without(s, gone)[1..] == Without(s[1..], gone);
      }
    }
  }

  lemma {:induction false} BeforeIsShort(s: seq<Entry>, key: string)
    requires Distinct(s) && key in Keys(s)
    ensures |Before(s, key)| < |s|
    ensures |Before(s, key)| == |s| - 1 <==> s[|s| - 1].key == key
    ensures Before(s, key) <= Keys(s)
  {
    if s[0].key != key {
      BeforeIsShort(s[1..], key);
      assert s[0].key !in Before(s[1..], key);
    } else if |s| > 1 {
      KeysOfMember(s[1..], |s| - 2);
    }
  }

  /** The link between the list and the history, for one key. */
  ghost predicate Tracks(size: int, ops: seq<Op>, s: seq<Entry>, h: seq<Event>, key: string) {
    && (key in Keys(s) ==>
          Find(s, key) == LastStored(ops, key) && !CrowdedOut(h, key, size) && UsedSince(h, key) == Before(s, key))
    && (key !in Keys(s) && LastStored(ops, key).Some? && !CrowdedOut(h, key, size) ==>
          SeenLaterThan(ops, LastStored(ops, key).value.expiry))
  }

  /** How one more event changes the two history notions. */
  lemma Extend(h: seq<Event>, ev: Event, key: string, size: int)
    ensures var since := UsedSince(h, key);
            UsedSince(h + [ev], key) ==
            match ev
            case Quiet => since
            case Touched(k) => (if k == key then {} else since + {k})
            case Dropped(k) => if k == key then since else since - {k}
    ensures CrowdedOut(h + [ev], key, size) <==>
            ev != Touched(key) && (CrowdedOut(h, key, size) || |UsedSince(h + [ev], key)| >= size)
  {
    assert (h + [ev])[..|h|] == h;
  }

  /** Inserting at the front, for the key inserted. */
  lemma {:induction false} InsertOwn(s: seq<Entry>, size: int, e: Entry)
    requires size >= 1 && Distinct(s) && |s| <= size
    ensures var t := Insert(s, size, e);
            Distinct(t) && e.key in Keys(t) && Find(t, e.key) == Some(e) && Before(t, e.key) == {}
  {
    var full := [e] + Without(s, e.key);
    assert full[1..] == Without(s, e.key);
    WithoutIsDistinct(s, e.key);
    DropLast(full, e.key);
    assert Insert(s, size, e)[0] == e;
  }

  lemma PushOther(s: seq<Entry>, e: Entry, key: string)
    requires Distinct(s) && key != e.key
    ensures var full := [e] + Without(s, e.key);
            && Distinct(full)
            && (key in Keys(full) <==> key in Keys(s)) && Keys(full) <= Keys(s) + {e.key}
            && Before(full, key) == Before(s, key) + {e.key} && Find(full, key) == Find(s, key)
  {
    var full := [e] + Without(s, e.key);
    assert full[1..] == Without(s, e.key);
    WithoutIsDistinct(s, e.key);
    FindWithout(s, e.key, key);
    BeforeWithout(s, e.key, key);
  }

  /** Inserting at the front, for another key: it moves back, and falls off exactly when
      `size` keys are then ahead of it. */
  lemma InsertOther(s: seq<Entry>, size: int, e: Entry, key: string)
    requires size >= 1 && Distinct(s) && |s| <= size && key != e.key
    ensures var t := Insert(s, size, e);
            && Keys(t) <= Keys(s) + {e.key}
            && (key in Keys(s) ==> (key in Keys(t) <==> |Before(s, key) + {e.key}| < size))
            && (key in Keys(t) ==> Before(t, key) == Before(s, key) + {e.key} && Find(t, key) == Find(s, key))
  {
    var full := [e] + Without(s, e.key);
    PushOther(s, e, key);
    WithoutIsDistinct(s, e.key);
    DropLast(full, key);
    if key in Keys(s) { BeforeIsShort(full, key); }
  }

  lemma TracksTouch(size: int, s: seq<Entry>, e: Entry, h: seq<Event>, key: string)
    requires size >= 1 && Distinct(s) && |s| <= size
    requires key in Keys(s) ==> !CrowdedOut(h, key, size) && UsedSince(h, key) == Before(s, key)
    ensures var t := Insert(s, size, e);
            var h' := h + [Touched(e.key)];
            && e.key in Keys(t)
            && (key in Keys(t) ==> !CrowdedOut(h', key, size) && UsedSince(h', key) == Before(t, key))
            && (key in Keys(t) ==> Find(t, key) == if key == e.key then Some(e) else Find(s, key))
            && (key in Keys(s) && key !in Keys(t) ==> CrowdedOut(h', key, size))
            && (key !in Keys(s) && key != e.key ==> key !in Keys(t))
            && (key != e.key && CrowdedOut(h, key, size) ==> CrowdedOut(h', key, size))
  {
    Extend(h, Touched(e.key), key, size);
    InsertOwn(s, size, e);
    if key != e.key { InsertOther(s, size, e, key); }
  }

  lemma TracksDrop(size: int, s: seq<Entry>, gone: string, h: seq<Event>, key: string)
    requires size >= 1 && Distinct(s) && |s| <= size && gone in Keys(s)
    requires key in Keys(s) ==> !CrowdedOut(h, key, size) && UsedSince(h, key) == Before(s, key)
    ensures var t := Without(s, gone);
            var h' := h + [Dropped(gone)];
            && (key in Keys(t) ==>
                  !CrowdedOut(h', key, size) && UsedSince(h', key) == Before(t, key) && Find(t, key) == Find(s, key))
            && (CrowdedOut(h, key, size) ==> CrowdedOut(h', key, size))
  {
    Extend(h, Dropped(gone), key, size);
    WithoutIsDistinct(s, gone);
    if key != gone {
      FindWithout(s, gone, key);
      BeforeWithout(s, gone, key);
      if key in Keys(Without(s, gone)) { BeforeIsShort(Without(s, gone), key); }
    }
  }

  lemma QuietLeavesList(size: int, s: seq<Entry>, op: Op)
    requires EventOf(s, op) == Quiet
    ensures Step(size, s, op) == s
  {
    match op
    case Lookup(Some(key), _, _) => assert Find(s, key) == None;
    case _ =>
  }

  lemma QuietStep(size: int, s: seq<Entry>, op: Op, h: seq<Event>, key: string)
    requires size >= 1 && Distinct(s) && |s| <= size
    requires EventOf(s, op) == Quiet
    requires key in Keys(s) ==> !CrowdedOut(h, key, size) && UsedSince(h, key) == Before(s, key)
    ensures Step(size, s, op) == s
    ensures var h' := h + [Quiet];
            && (key in Keys(s) ==> !CrowdedOut(h', key, size) && UsedSince(h', key) == Before(s, key))
            && (CrowdedOut(h, key, size) ==> CrowdedOut(h', key, size))
  {
    QuietLeavesList(size, s, op);
    Extend(h, Quiet, key, size);
    if key in Keys(s) { BeforeIsShort(s, key); }
  }

  /** A hit reorders the list exactly as storing the same entry again would. */
  lemma {:induction false} HitIsInsert(s: seq<Entry>, size: int, key: string)
    requires Distinct(s) && |s| <= size && key in Keys(s)
    ensures Insert(s, size, Find(s, key).value) == [Find(s, key).value] + Without(s, key)
  {
    WithoutIsDistinct(s, key);
  }

  /** An expired clock reading in a prefix is one in the whole history. */
  ghost predicate SeenLaterThan(ops: seq<Op>, t: int) {
    exists op :: op in ops && op.now > t
  }

  lemma SeenInPrefix(ops: seq<Op>, t: int)
    requires ops != []
    ensures SeenLaterThan(ops[..|ops| - 1], t) || ops[|ops| - 1].now > t ==> SeenLaterThan(ops, t)
  {
    assert ops[|ops| - 1] in ops;
  }

  lemma {:induction false} HistoryTracksList(size: int, ops: seq<Op>, key: string)
    requires size >= 1
    ensures Tracks(size, ops, After(size, ops), Events(size, ops), key)
  {
    if ops == [] { return; }
    var prefix, op := ops[..|ops| - 1], ops[|ops| - 1];
    HistoryTracksList(size, prefix, key);
    AfterIsBounded(size, prefix);
    TracksStep(size, ops, key);
  }

  /** An operation acts on the list as its event says. */
  lemma {:induction false} StepByEvent(size: int, s: seq<Entry>, op: Op, key: string) returns (e: Option<Entry>)
    requires size >= 1 && Distinct(s) && |s| <= size
    ensures var ev := EventOf(s, op);
            && (ev == Quiet ==> Step(size, s, op) == s)
            && (ev.Dropped? ==>
                  ev.key in Keys(s) && Step(size, s, op) == Without(s, ev.key) && op.now > Find(s, ev.key).value.expiry)
            && (ev.Touched? ==> e.Some? && e.value.key == ev.key && Step(size, s, op) == Insert(s, size, e.value))
            && (ev.Touched? ==> e == if op.Lookup? then Find(s, ev.key) else op.entry)
            && (Stores(op, key) <==> op.Store? && ev == Touched(key))
  {
    match op {
      case Lookup(Some(k), _, now) =>
        e := Find(s, k);
        if e.Some? { HitIsInsert(s, size, k); }
      case Store(_, _) => e := op.entry;
      case _ => e := None;
    }
  }

  lemma TracksStep(size: int, ops: seq<Op>, key: string)
    requires size >= 1 && ops != []
    requires var prefix := ops[..|ops| - 1];
             var s := After(size, prefix);
             Distinct(s) && |s| <= size && Tracks(size, prefix, s, Events(size, prefix), key)
    ensures Tracks(size, ops, After(size, ops), Events(size, ops), key)
  {
    var prefix, op := ops[..|ops| - 1], ops[|ops| - 1];
    var s, h := After(size, prefix), Events(size, prefix);
    var e := StepByEvent(size, s, op, key);
    if LastStored(prefix, key).Some? { SeenInPrefix(ops, LastStored(prefix, key).value.expiry); }
    match EventOf(s, op) {
      case Quiet => QuietStep(size, s, op, h, key);
      case Touched(k) => TracksTouch(size, s, e.value, h, key);
      case Dropped(k) => TracksDrop(size, s, k, h, key);
    }
  }

  /** The exact answer of a lookup after any history with a monotone clock. */
  lemma {:induction false} AnswerFromHistory(size: int, ops: seq<Op>, key: string, id: uint16, now: int)
    requires size >= 1 && NotAfter(ops, now)
    ensures var stored := LastStored(ops, key);
            Answer(size, After(size, ops), Lookup(Some(key), id, now)) ==
            if stored.Some? && now <= stored.value.expiry && !CrowdedOut(Events(size, ops), key, size)
            then Some(stored.value.msg.(id := id))
            else None
  {
    HistoryTracksList(size, ops, key);
  }

  lemma {:induction false} LastStoredIsLast(ops: seq<Op>, key: string) returns (i: nat)
    requires LastStored(ops, key).Some?
    ensures i < |ops| && Stores(ops[i], key) && LastStored(ops, key) == ops[i].entry
    ensures forall j :: i < j < |ops| ==> !Stores(ops[j], key)
  {
    if Stores(ops[|ops| - 1], key) {
      i := |ops| - 1;
    } else {
      i := LastStoredIsLast(ops[..|ops| - 1], key);
    }
  }

  /** Being crowded out takes at least `size` distinct other keys since the last use. */
  lemma {:induction false} CrowdedOutNeedsOthers(h: seq<Event>, key: string, size: int)
    ensures UsedSince(h, key) <= OthersTouched(h, key)
    ensures CrowdedOut(h, key, size) ==> |OthersTouched(h, key)| >= size
    ensures key !in OthersTouched(h, key)
  {
    if h != [] {
      CrowdedOutNeedsOthers(h[..|h| - 1], key, size);
      CardinalityMonotone(UsedSince(h, key), OthersTouched(h, key));
      CardinalityMonotone(OthersTouched(h[..|h| - 1], key), OthersTouched(h, key));
    }
  }

  lemma {:induction false} CardinalityMonotone(a: set<string>, b: set<string>)
    ensures a <= b ==> |a| <= |b|
  {
    if a <= b && a != {} {
      var x :| x in a;
      CardinalityMonotone(a - {x}, b - {x});
    }
  }

  // ----- the same, told of queries and responses

  datatype Call =
    | Get(q: Msg, now: int)
    | Put(q: Msg, r: Option<Msg>, now: int)

  function OpOf(call: Call): Op {
    match call
    case Get(q, now) => GetOp(q, now)
    case Put(q, r, now) => PutOp(q, r, now)
  }

  function OpsOf(calls: seq<Call>): (ops: seq<Op>)
    ensures |ops| == |calls| && forall i :: 0 <= i < |calls| ==> ops[i] == OpOf(calls[i])
  {
    seq(|calls|, i requires 0 <= i < |calls| => OpOf(calls[i]))
  }

  /** A Put of a response to this very question, with a time to be kept. */
  ghost predicate AcceptedPut(call: Call, q: Msg) {
    && call.Put? && call.r.Some? && call.q.question != [] && q.question != [] && SameQuestion(call.q, q)
    && !KeptFor(call.r.value, 0)
  }

  /** The time the response is kept has not run out, in nanoseconds. */
  ghost predicate Alive(call: Call, now: int) {
    call.Put? && call.r.Some? && exists ttl: uint32 ::
      KeptFor(call.r.value, ttl) && now <= call.now + 1_000_000_000 * ttl
  }

  ghost predicate IsLatestPut(q: Msg, calls: seq<Call>, i: nat)
    requires i < |calls|
  {
    AcceptedPut(calls[i], q) && forall j :: i < j < |calls| ==> !AcceptedPut(calls[j], q)
  }

  lemma AcceptedPutStores(call: Call, q: Msg)
    requires q.question != []
    ensures Stores(OpOf(call), CacheKey(q).value) <==> AcceptedPut(call, q)
  {
    if call.Put? && call.r.Some? {
      SameKeyIffSameQuestion(call.q, q);
      KeptForOne(call.r.value, 0);
    }
  }

  lemma StoredEntry(call: Call, q: Msg, now: int)
    requires AcceptedPut(call, q)
    ensures var e := OpOf(call).entry;
            && e.Some? && e.value.key == CacheKey(q).value && e.value.msg == call.r.value
            && (now <= e.value.expiry <==> Alive(call, now))
            && (Alive(call, now) ==> now <= call.now + 3600_000_000_000)
  {
    var r := call.r.value;
    SameKeyIffSameQuestion(call.q, q);
    KeptForOne(r, 0);
    LifetimeIsKept(r);
    StoredIff(r);
    forall ttl | KeptFor(r, ttl) ensures ttl == Lifetime(r) {
      KeptForOne(r, ttl);
    }
  }

  /** The latest accepted Put made the latest stored entry of the key. */
  lemma {:induction false} LatestPut(calls: seq<Call>, q: Msg) returns (i: nat)
    requires q.question != []
    ensures var stored := LastStored(OpsOf(calls), CacheKey(q).value);
            if stored.None? then forall j :: 0 <= j < |calls| ==> !AcceptedPut(calls[j], q)
            else i < |calls| && IsLatestPut(q, calls, i) && stored == OpOf(calls[i]).entry
  {
    var ops, key := OpsOf(calls), CacheKey(q).value;
    i := 0;
    if LastStored(ops, key).Some? { i := LastStoredIsLast(ops, key); }
    forall j | 0 <= j < |calls| ensures Stores(ops[j], key) <==> AcceptedPut(calls[j], q) {
      AcceptedPutStores(calls[j], q);
    }
    if LastStored(ops, key).None? {
      forall j | 0 <= j < |calls| ensures !AcceptedPut(calls[j], q) {
        NeverStored(ops, key, j);
      }
    }
  }

  /** A hit is the message of the latest accepted Put for that question, still to be kept and at most an hour old. */
  lemma {:induction false} HitExplained(size: int, calls: seq<Call>, q: Msg, now: int) returns (i: nat)
    requires size >= 1 && q.question != []
    requires forall i :: 0 <= i < |calls| ==> calls[i].now <= now
    requires Answer(size, After(size, OpsOf(calls)), GetOp(q, now)).Some?
    ensures i < |calls| && IsLatestPut(q, calls, i)
    ensures Answer(size, After(size, OpsOf(calls)), GetOp(q, now)) == Some(calls[i].r.value.(id := q.id))
    ensures Alive(calls[i], now) && now <= calls[i].now + 3600_000_000_000
  {
    AnswerFromHistory(size, OpsOf(calls), CacheKey(q).value, q.id, now);
    i := LatestPut(calls, q);
    StoredEntry(calls[i], q, now);
  }

  /** Why a query can miss: its response was never accepted, the latest accepted one is no longer to be kept,
      or `size` distinct other keys were stored or hit since its own was last used. */
  lemma {:induction false} MissExplained(size: int, calls: seq<Call>, q: Msg, now: int)
    requires size >= 1 && q.question != []
    requires forall i :: 0 <= i < |calls| ==> calls[i].now <= now
    requires Answer(size, After(size, OpsOf(calls)), GetOp(q, now)).None?
    ensures || (forall i :: 0 <= i < |calls| ==> !AcceptedPut(calls[i], q))
            || (exists i :: 0 <= i < |calls| && IsLatestPut(q, calls, i) && !Alive(calls[i], now))
            || |OthersTouched(Events(size, OpsOf(calls)), CacheKey(q).value)| >= size
  {
    var ops, key := OpsOf(calls), CacheKey(q).value;
    AnswerFromHistory(size, ops, key, q.id, now);
    CrowdedOutNeedsOthers(Events(size, ops), key, size);
    var i := LatestPut(calls, q);
    if LastStored(ops, key).Some? { StoredEntry(calls[i], q, now); }
  }

  lemma {:induction false} NeverStored(ops: seq<Op>, key: string, i: nat)
    requires LastStored(ops, key).None? && i < |ops|
    ensures !Stores(ops[i], key)
  {
    if i < |ops| - 1 { NeverStored(ops[..|ops| - 1], key, i); }
  }
}
