/** The history of a bounded cache without the cache: which lookups hit, and what is crowded
    out, computed from the operations and their clock readings alone. */
module LruInputs {
  import opened Wrappers
  import opened DnsMessages
  import opened CacheKeys
  import opened Recency
  import opened LruHistory

  /** What an operation does after these operations, whose events are `h`. */
  function InputEvent(size: int, before: seq<Op>, h: seq<Event>, op: Op): Event {
    match op
    case Lookup(Some(key), _, now) =>
      (match LastStored(before, key)
       case None => Quiet
       case Some(e) =>
         if CrowdedOut(h, key, size) then Quiet else if now > e.expiry then Dropped(key) else Touched(key))
    case Store(Some(e), _) => Touched(e.key)
    case _ => Quiet
  }

  function InputEvents(size: int, ops: seq<Op>): seq<Event> {
    if ops == [] then []
    else
      var before := ops[..|ops| - 1];
      var h := InputEvents(size, before);
      h + [InputEvent(size, before, h, ops[|ops| - 1])]
  }

  predicate Monotone(ops: seq<Op>) {
    forall i, j :: 0 <= i < j < |ops| ==> ops[i].now <= ops[j].now
  }

  // ----- what is gone

  /** The last that happened to this key is that it was dropped. */
  predicate Gone(h: seq<Event>, key: string) {
    h != [] && h[|h| - 1] != Touched(key) && (h[|h| - 1] == Dropped(key) || Gone(h[..|h| - 1], key))
  }

  lemma GoneExtends(h: seq<Event>, ev: Event, key: string)
    ensures Gone(h + [ev], key) <==> ev != Touched(key) && (ev == Dropped(key) || Gone(h, key))
  {
    assert (h + [ev])[..|h|] == h;
  }

  lemma {:induction false} GoneIsNotUsed(h: seq<Event>, gone: string, key: string)
    requires Gone(h, gone) && gone != key
    ensures gone !in UsedSince(h, key)
  {
    if h[|h| - 1] != Dropped(gone) { GoneIsNotUsed(h[..|h| - 1], gone, key); }
  }

  /** A stored key that is not in the list, though not crowded out, has been dropped since. */
  ghost predicate GoneIfMissing(size: int, ops: seq<Op>, s: seq<Entry>, h: seq<Event>, key: string) {
    key !in Keys(s) && LastStored(ops, key).Some? && !CrowdedOut(h, key, size) ==> Gone(h, key)
  }

  lemma GoneIfMissingStep(size: int, ops: seq<Op>, key: string)
    requires size >= 1 && ops != []
    requires var before := ops[..|ops| - 1];
             var s := After(size, before);
             && Distinct(s) && |s| <= size
             && Tracks(size, before, s, Events(size, before), key)
             && GoneIfMissing(size, before, s, Events(size, before), key)
    ensures GoneIfMissing(size, ops, After(size, ops), Events(size, ops), key)
  {
    var before, op := ops[..|ops| - 1], ops[|ops| - 1];
    var s, h := After(size, before), Events(size, before);
    var ev := EventOf(s, op);
    var e := StepByEvent(size, s, op, key);
    GoneExtends(h, ev, key);
    match ev {
      case Quiet => Extend(h, Quiet, key, size);
      case Touched(_) => TracksTouch(size, s, e.value, h, key);
      case Dropped(k) => TracksDrop(size, s, k, h, key);
    }
  }

  lemma {:induction false} MissingIsGone(size: int, ops: seq<Op>, key: string)
    requires size >= 1
    ensures GoneIfMissing(size, ops, After(size, ops), Events(size, ops), key)
  {
    if ops != [] {
      var before := ops[..|ops| - 1];
      MissingIsGone(size, before, key);
      HistoryTracksList(size, before, key);
      AfterIsBounded(size, before);
      GoneIfMissingStep(size, ops, key);
    }
  }

  // ----- both histories agree

  /** The two histories tell the same of a key. */
  predicate Agree(size: int, g: seq<Event>, h: seq<Event>, key: string) {
    && UsedSince(g, key) == UsedSince(h, key)
    && CrowdedOut(g, key, size) == CrowdedOut(h, key, size)
    && OthersTouched(g, key) == OthersTouched(h, key)
  }

  /** Two events that count alike: the same, or a drop of what is gone already. */
  predicate Alike(h: seq<Event>, a: Event, b: Event) {
    a == b || (a.Dropped? && b == Quiet && Gone(h, a.key))
  }

  lemma AgreeExtends(size: int, g: seq<Event>, h: seq<Event>, a: Event, b: Event, key: string)
    requires Agree(size, g, h, key) && Alike(h, a, b)
    ensures Agree(size, g + [a], h + [b], key)
  {
    Extend(g, a, key, size);
    Extend(h, b, key, size);
    assert (g + [a])[..|g|] == g && (h + [b])[..|h|] == h;
    if a != b && a.key != key { GoneIsNotUsed(h, a.key, key); }
  }

  lemma EventsAlike(size: int, ops: seq<Op>, g: seq<Event>)
    requires size >= 1 && ops != [] && Monotone(ops)
    requires var before, op := ops[..|ops| - 1], ops[|ops| - 1];
             op.Lookup? && op.key.Some? ==> Agree(size, g, Events(size, before), op.key.value)
    ensures var before, op := ops[..|ops| - 1], ops[|ops| - 1];
            Alike(Events(size, before), InputEvent(size, before, g, op), EventOf(After(size, before), op))
  {
    var before, op := ops[..|ops| - 1], ops[|ops| - 1];
    if op.Lookup? && op.key.Some? {
      var key := op.key.value;
      HistoryTracksList(size, before, key);
      MissingIsGone(size, before, key);
      if LastStored(before, key).Some? && SeenLaterThan(before, LastStored(before, key).value.expiry) {
        SeenMeansExpired(ops, LastStored(before, key).value.expiry);
      }
    }
  }

  lemma SeenMeansExpired(ops: seq<Op>, t: int)
    requires ops != [] && Monotone(ops) && SeenLaterThan(ops[..|ops| - 1], t)
    ensures ops[|ops| - 1].now > t
  {
    var before := ops[..|ops| - 1];
    var op :| op in before && op.now > t;
    var i :| 0 <= i < |before| && before[i] == op;
    assert ops[i] == op;
  }

  lemma {:induction false} InputsAgree(size: int, ops: seq<Op>, key: string)
    requires size >= 1 && Monotone(ops)
    ensures Agree(size, InputEvents(size, ops), Events(size, ops), key)
    decreases ops
  {
    if ops != [] {
      var before := ops[..|ops| - 1];
      var op := ops[|ops| - 1];
      InputsAgree(size, before, key);
      if op.Lookup? && op.key.Some? { InputsAgree(size, before, op.key.value); }
      EventsAlike(size, ops, InputEvents(size, before));
      AgreeExtends(size, InputEvents(size, before), Events(size, before),
                   InputEvent(size, before, InputEvents(size, before), op), EventOf(After(size, before), op), key);
    }
  }

  /** The exact answer of a lookup, from the operations before it alone. */
  lemma AnswerFromInputs(size: int, ops: seq<Op>, key: string, id: uint16, now: int)
    requires size >= 1 && Monotone(ops) && NotAfter(ops, now)
    ensures var stored := LastStored(ops, key);
            Answer(size, After(size, ops), Lookup(Some(key), id, now)) ==
            if stored.Some? && now <= stored.value.expiry && !CrowdedOut(InputEvents(size, ops), key, size)
            then Some(stored.value.msg.(id := id))
            else None
  {
    InputsAgree(size, ops, key);
    AnswerFromHistory(size, ops, key, id, now);
  }

  /** Exactly when a query is answered, from the calls before it alone. */
  lemma AnsweredIff(size: int, calls: seq<Call>, q: Msg, now: int)
    requires q.question != [] && Monotone(OpsOf(calls))
    requires forall i :: 0 <= i < |calls| ==> calls[i].now <= now
    ensures Answer(size, After(size, OpsOf(calls)), GetOp(q, now)).Some? <==>
            && size >= 1 && !CrowdedOut(InputEvents(size, OpsOf(calls)), CacheKey(q).value, size)
            && exists i :: 0 <= i < |calls| && IsLatestPut(q, calls, i) && Alive(calls[i], now)
  {
    var ops, key := OpsOf(calls), CacheKey(q).value;
    if size >= 1 {
      AnswerFromInputs(size, ops, key, q.id, now);
      var i := LatestPut(calls, q);
      if LastStored(ops, key).Some? {
        StoredEntry(calls[i], q, now);
        forall j | 0 <= j < |calls| && IsLatestPut(q, calls, j) ensures j == i {}
      }
    }
  }

  /** Why a query can miss, from the calls before it alone. */
  lemma MissFromInputs(size: int, calls: seq<Call>, q: Msg, now: int)
    requires size >= 1 && q.question != [] && Monotone(OpsOf(calls))
    requires forall i :: 0 <= i < |calls| ==> calls[i].now <= now
    requires Answer(size, After(size, OpsOf(calls)), GetOp(q, now)).None?
    ensures || (forall i :: 0 <= i < |calls| ==> !AcceptedPut(calls[i], q))
            || (exists i :: 0 <= i < |calls| && IsLatestPut(q, calls, i) && !Alive(calls[i], now))
            || |OthersTouched(InputEvents(size, OpsOf(calls)), CacheKey(q).value)| >= size
  {
    MissExplained(size, calls, q, now);
    InputsAgree(size, OpsOf(calls), CacheKey(q).value);
  }

  // ----- what was used lately is still there

  function KeyOf(op: Op): Option<string> {
    match op
    case Lookup(key, _, _) => key
    case Store(Some(e), _) => Some(e.key)
    case Store(None, _) => None
  }

  /** The other keys looked up or stored after the j-th operation. */
  function Mentioned(ops: seq<Op>, j: nat, key: string): set<string> {
    set i | j < i < |ops| && KeyOf(ops[i]).Some? && KeyOf(ops[i]).value != key :: KeyOf(ops[i]).value
  }

  /** The operation stored this key, or found it. */
  predicate Uses(size: int, ops: seq<Op>, j: nat, key: string)
    requires j < |ops|
  {
    Stores(ops[j], key)
    || (ops[j].Lookup? && ops[j].key == Some(key) && Answer(size, After(size, ops[..j]), ops[j]).Some?)
  }

  lemma UseTouches(size: int, ops: seq<Op>, key: string)
    requires size >= 1 && ops != [] && Uses(size, ops, |ops| - 1, key)
    ensures OthersTouched(Events(size, ops), key) == {} && LastStored(ops, key).Some?
  {
    var before, h := ops[..|ops| - 1], Events(size, ops);
    HistoryTracksList(size, before, key);
    assert h[|h| - 1] == EventOf(After(size, before), ops[|ops| - 1]) == Touched(key);
  }

  lemma OneMoreMentioned(ops: seq<Op>, j: nat, key: string)
    requires j < |ops| - 1
    ensures var before, other := ops[..|ops| - 1], KeyOf(ops[|ops| - 1]);
            Mentioned(ops, j, key) ==
            Mentioned(before, j, key) + if other.Some? && other.value != key then {other.value} else {}
  {
    var before, other := ops[..|ops| - 1], KeyOf(ops[|ops| - 1]);
    forall k | k in Mentioned(ops, j, key)
      ensures k in Mentioned(before, j, key) || (other == Some(k) && k != key)
    {
      var i :| j < i < |ops| && KeyOf(ops[i]) == Some(k) && k != key;
      if i < |before| { assert before[i] == ops[i]; }
    }
    forall k | k in Mentioned(before, j, key) ensures k in Mentioned(ops, j, key) {
      var i :| j < i < |before| && KeyOf(before[i]) == Some(k) && k != key;
      assert ops[i] == before[i];
    }
  }

  lemma OneMoreTouched(size: int, ops: seq<Op>, key: string)
    requires ops != []
    ensures var before, other := ops[..|ops| - 1], KeyOf(ops[|ops| - 1]);
            OthersTouched(Events(size, ops), key) <=
            OthersTouched(Events(size, before), key) + if other.Some? && other.value != key then {other.value} else {}
    ensures LastStored(ops[..|ops| - 1], key).Some? ==> LastStored(ops, key).Some?
  {
    var before := ops[..|ops| - 1];
    var h, ev := Events(size, before), EventOf(After(size, before), ops[|ops| - 1]);
    assert (h + [ev])[..|h|] == h;
    assert ev.Touched? ==> KeyOf(ops[|ops| - 1]) == Some(ev.key);
  }

  lemma {:induction false} OthersAreMentioned(size: int, ops: seq<Op>, j: nat, key: string)
    requires size >= 1 && j < |ops| && Uses(size, ops, j, key)
    ensures OthersTouched(Events(size, ops), key) <= Mentioned(ops, j, key) && LastStored(ops, key).Some?
  {
    var k := |ops| - 1;
    var before := ops[..k];
    if j < k {
      assert before[..j] == ops[..j];
      OthersAreMentioned(size, before, j, key);
      OneMoreMentioned(ops, j, key);
      OneMoreTouched(size, ops, key);
    } else {
      UseTouches(size, ops, key);
    }
  }

  /** A key stored or found with fewer than `size` other keys mentioned since is found again, as long as its
      latest entry has not expired. */
  lemma RecentlyUsedIsFound(size: int, ops: seq<Op>, j: nat, key: string, id: uint16, now: int)
    requires size >= 1 && j < |ops| && Uses(size, ops, j, key) && |Mentioned(ops, j, key)| < size
    requires NotAfter(ops, now)
    ensures var stored := LastStored(ops, key);
            && stored.Some?
            && (now <= stored.value.expiry ==>
                  Answer(size, After(size, ops), Lookup(Some(key), id, now)) == Some(stored.value.msg.(id := id)))
  {
    OthersAreMentioned(size, ops, j, key);
    CrowdedOutNeedsOthers(Events(size, ops), key, size);
    CardinalityMonotone(OthersTouched(Events(size, ops), key), Mentioned(ops, j, key));
    AnswerFromHistory(size, ops, key, id, now);
  }
}
