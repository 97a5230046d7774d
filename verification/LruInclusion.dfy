/** Inclusion across sizes: on the same history, a smaller cache holds a subsequence of
    what a larger one holds, so growing the cache never loses a hit. */
module LruInclusion {
  import opened Recency

  predicate Subsequence(s: seq<Entry>, l: seq<Entry>) {
    s == [] || (l != [] && if s[0] == l[0] then Subsequence(s[1..], l[1..]) else Subsequence(s, l[1..]))
  }

  lemma {:induction false} SubsequenceSkip(s: seq<Entry>, x: Entry, l: seq<Entry>)
    requires Subsequence(s, l)
    ensures Subsequence(s, [x] + l)
    decreases |l|, 1
  {
    if s != [] {
      assert ([x] + l)[1..] == l;
      if s[0] == x {
        SubsequenceTail(s, l);
      }
    }
  }

  lemma {:induction false} SubsequenceTail(s: seq<Entry>, l: seq<Entry>)
    requires s != [] && Subsequence(s, l)
    ensures Subsequence(s[1..], l)
    decreases |l|, 0
  {
    if s[0] == l[0] {
      SubsequenceSkip(s[1..], l[0], l[1..]);
      assert [l[0]] + l[1..] == l;
    } else {
      SubsequenceTail(s, l[1..]);
      SubsequenceSkip(s[1..], l[0], l[1..]);
      assert [l[0]] + l[1..] == l;
    }
  }

  lemma SubsequenceCons(s: seq<Entry>, x: Entry, l: seq<Entry>)
    requires Subsequence(s, l)
    ensures Subsequence([x] + s, [x] + l)
  {
    assert ([x] + s)[1..] == s;
    assert ([x] + l)[1..] == l;
  }

  lemma {:induction false} SubsequenceInKeys(s: seq<Entry>, l: seq<Entry>)
    requires Subsequence(s, l)
    ensures Keys(s) <= Keys(l)
    ensures |s| <= |l|
  {
    if s != [] {
      if s[0] == l[0] { SubsequenceInKeys(s[1..], l[1..]); } else { SubsequenceInKeys(s, l[1..]); }
    }
  }

  /** Entries of a subsequence are the very entries of the longer list. */
  lemma {:induction false} SubsequenceFind(s: seq<Entry>, l: seq<Entry>, key: string)
    requires Subsequence(s, l) && Distinct(l) && key in Keys(s)
    ensures Find(l, key) == Find(s, key)
  {
    if s[0] == l[0] {
      if s[0].key != key { SubsequenceFind(s[1..], l[1..], key); }
    } else {
      SubsequenceInKeys(s, l[1..]);
      SubsequenceFind(s, l[1..], key);
    }
  }

  lemma {:induction false} SubsequenceWithout(s: seq<Entry>, l: seq<Entry>, key: string)
    requires Subsequence(s, l)
    ensures Subsequence(Without(s, key), Without(l, key))
  {
    if s != [] {
      if s[0] == l[0] {
        SubsequenceWithout(s[1..], l[1..], key);
        if s[0].key != key { SubsequenceCons(Without(s[1..], key), s[0], Without(l[1..], key)); }
      } else {
        SubsequenceWithout(s, l[1..], key);
        if l[0].key != key { SubsequenceSkip(Without(s, key), l[0], Without(l[1..], key)); }
      }
    }
  }

  lemma {:induction false} SubsequenceDropLast(s: seq<Entry>, l: seq<Entry>)
    requires Subsequence(s, l) && s != []
    ensures Subsequence(s[..|s| - 1], l[..|l| - 1])
  {
    SubsequenceInKeys(s, l);
    var s', l' := s[..|s| - 1], l[..|l| - 1];
    if |s| > 1 {
      if s[0] == l[0] {
        SubsequenceDropLast(s[1..], l[1..]);
        SubsequenceInKeys(s[1..], l[1..]);
        assert s'[1..] == s[1..][..|s| - 2];
        assert l'[1..] == l[1..][..|l| - 2];
        assert s'[0] == l'[0];
      } else {
        SubsequenceDropLast(s, l[1..]);
        SubsequenceInKeys(s, l[1..]);
        assert l'[1..] == l[1..][..|l| - 2];
        SubsequenceSkip(s', l[0], l'[1..]);
        assert [l[0]] + l'[1..] == l';
      }
    }
  }

  lemma {:induction false} SubsequenceDropLastShort(s: seq<Entry>, l: seq<Entry>)
    requires Subsequence(s, l) && s != []
    ensures Subsequence(s[..|s| - 1], l)
  {
    SubsequenceDropLast(s, l);
    SubsequenceExtend(s[..|s| - 1], l[..|l| - 1], l);
  }

  lemma {:induction false} SubsequenceExtend(s: seq<Entry>, l: seq<Entry>, m: seq<Entry>)
    requires Subsequence(s, l) && l <= m
    ensures Subsequence(s, m)
  {
    if s != [] {
      if s[0] == l[0] { SubsequenceExtend(s[1..], l[1..], m[1..]); } else { SubsequenceExtend(s, l[1..], m[1..]); }
    }
  }

  /** What two caches of sizes small <= large have in common after the same history. */
  predicate Included(small: int, large: int, s: seq<Entry>, l: seq<Entry>) {
    && 1 <= small <= large
    && Distinct(s) && Distinct(l)
    && |s| <= small && |l| <= large
    && Subsequence(s, l)
    && |l| - |s| <= large - small
  }

  lemma LookKeepsInclusion(small: int, large: int, s: seq<Entry>, l: seq<Entry>, key: string, now: int)
    requires Included(small, large, s, l)
    ensures Included(small, large, Look(s, key, now).0, Look(l, key, now).0)
    ensures Look(s, key, now).1.Some? ==> Look(l, key, now).1 == Look(s, key, now).1
  {
    SubsequenceWithout(s, l, key);
    SubsequenceInKeys(s, l);
    WithoutIsDistinct(s, key);
    WithoutIsDistinct(l, key);
    if key in Keys(s) {
      SubsequenceFind(s, l, key);
      var e := Find(s, key).value;
      SubsequenceCons(Without(s, key), e, Without(l, key));
      assert ([e] + Without(s, key))[1..] == Without(s, key);
      assert ([e] + Without(l, key))[1..] == Without(l, key);
    } else if key in Keys(l) {
      var e := Find(l, key).value;
      SubsequenceSkip(Without(s, key), e, Without(l, key));
      assert ([e] + Without(l, key))[1..] == Without(l, key);
    }
  }

  lemma InsertKeepsInclusion(small: int, large: int, s: seq<Entry>, l: seq<Entry>, e: Entry)
    requires Included(small, large, s, l)
    ensures Included(small, large, Insert(s, small, e), Insert(l, large, e))
  {
    var s', l' := [e] + Without(s, e.key), [e] + Without(l, e.key);
    assert s'[1..] == Without(s, e.key) && l'[1..] == Without(l, e.key);
    WithoutIsDistinct(s, e.key);
    WithoutIsDistinct(l, e.key);
    SubsequenceWithout(s, l, e.key);
    SubsequenceCons(Without(s, e.key), e, Without(l, e.key));
    SubsequenceInKeys(s, l);
    DropLast(s', e.key);
    DropLast(l', e.key);
    if |l'| > large {
      SubsequenceDropLast(s', l');
    } else if |s'| > small {
      SubsequenceDropLastShort(s', l');
    }
  }

  lemma StepKeepsInclusion(small: int, large: int, s: seq<Entry>, l: seq<Entry>, op: Op)
    requires Included(small, large, s, l)
    ensures Included(small, large, Step(small, s, op), Step(large, l, op))
  {
    match op
    case Lookup(Some(key), _, now) => LookKeepsInclusion(small, large, s, l, key, now);
    case Store(Some(e), _) => InsertKeepsInclusion(small, large, s, l, e);
    case _ =>
  }

  /** Inclusion over whole histories, whatever the clock readings. */
  lemma {:induction false} Inclusion(small: int, large: int, ops: seq<Op>)
    requires 1 <= small <= large
    ensures Included(small, large, After(small, ops), After(large, ops))
  {
    if ops != [] {
      Inclusion(small, large, ops[..|ops| - 1]);
      StepKeepsInclusion(small, large, After(small, ops[..|ops| - 1]), After(large, ops[..|ops| - 1]), ops[|ops| - 1]);
    }
  }

  /** Every hit in the smaller cache is a hit in the larger one, with the same message. */
  lemma HitsAreMonotoneInSize(small: int, large: int, ops: seq<Op>, op: Op)
    requires 1 <= small <= large
    requires Answer(small, After(small, ops), op).Some?
    ensures Answer(large, After(large, ops), op) == Answer(small, After(small, ops), op)
  {
    Inclusion(small, large, ops);
    LookKeepsInclusion(small, large, After(small, ops), After(large, ops), op.key.value, op.now);
  }
}
