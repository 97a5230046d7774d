/** The text key under which a response is cached and a resolution is coalesced. */
module CacheKeys {
  import opened Wrappers
  import opened DnsMessages

  function Digit(d: nat): char
    requires d < 10
  {
    '0' + d as char
  }

  function Decimal(n: nat): string {
    if n < 10 then [Digit(n)] else Decimal(n / 10) + [Digit(n % 10)]
  }

  function KeyText(qclass: nat, qtype: nat, name: string, dnssec: bool): string {
    Decimal(qclass) + ":" + (Decimal(qtype) + ":" + (name + if dnssec then ":do" else ""))
  }

  /** cacheKey: no key for a message without a question. */
  function CacheKey(q: Msg): Option<string> {
    if q.question == [] then None
    else
      var qu := q.question[0];
      Some(KeyText(qu.qclass, qu.qtype, CanonicalName(qu.name), DnssecOk(q)))
  }

  // ----- reading a key back

  datatype KeyParts = KeyParts(qclass: nat, qtype: nat, name: string, dnssec: bool)

  function DigitValue(c: char): nat {
    if '0' <= c <= '9' then (c - '0') as nat else 0
  }

  function Undecimal(s: string): nat {
    if s == "" then 0 else 10 * Undecimal(s[..|s| - 1]) + DigitValue(s[|s| - 1])
  }

  /** Everything before the first colon. */
  function UpToColon(s: string): (r: string)
    ensures |r| <= |s|
  {
    if s == "" || s[0] == ':' then "" else [s[0]] + UpToColon(s[1..])
  }

  function AfterColon(s: string): string {
    var n := |UpToColon(s)|;
    if n < |s| then s[n + 1..] else ""
  }

  function ReadKey(key: string): KeyParts {
    var rest := AfterColon(key);
    var tail := AfterColon(rest);
    var dnssec := |tail| >= 3 && tail[|tail| - 3..] == ":do";
    KeyParts(
      Undecimal(UpToColon(key)),
      Undecimal(UpToColon(rest)),
      if dnssec then tail[..|tail| - 3] else tail,
      dnssec)
  }

  lemma {:induction false} DecimalReadsBack(n: nat)
    ensures Undecimal(Decimal(n)) == n
    ensures ':' !in Decimal(n)
  {
    if n >= 10 {
      DecimalReadsBack(n / 10);
      var s := Decimal(n);
      assert s[..|s| - 1] == Decimal(n / 10);
    } else {
      assert Decimal(n)[..0] == "";
    }
  }

  lemma {:induction false} SplitsAtColon(a: string, b: string)
    requires ':' !in a
    ensures UpToColon(a + ":" + b) == a
    ensures AfterColon(a + ":" + b) == b
  {
    var s := a + ":" + b;
    if a != "" {
      SplitsAtColon(a[1..], b);
      assert s[1..] == a[1..] + ":" + b;
      assert a == [a[0]] + a[1..];
    }
  }

  /** A key determines its parts: names end in a dot, so ":do" can only be the flag. */
  lemma KeyReadsBack(qclass: nat, qtype: nat, name: string, dnssec: bool)
    requires name != "" && name[|name| - 1] == '.'
    ensures ReadKey(KeyText(qclass, qtype, name, dnssec)) == KeyParts(qclass, qtype, name, dnssec)
  {
    var tail := name + if dnssec then ":do" else "";
    DecimalReadsBack(qclass);
    DecimalReadsBack(qtype);
    SplitsAtColon(Decimal(qclass), Decimal(qtype) + ":" + tail);
    SplitsAtColon(Decimal(qtype), tail);
    if dnssec {
      assert tail[|tail| - 3..] == ":do";
      assert tail[..|tail| - 3] == name;
    } else {
      assert tail == name;
      if |tail| >= 3 {
        assert tail[|tail| - 3..][2] == '.';
      }
    }
  }

  // ----- when two queries share a key

  /** Exactly n backslashes stand before the last character. */
  predicate BackslashesBeforeLast(s: string, n: nat) {
    && n < |s|
    && (forall i :: |s| - 1 - n <= i < |s| - 1 ==> s[i] == '\\')
    && (n + 1 < |s| ==> s[|s| - 2 - n] != '\\')
  }

  /** The name ends in a dot that is not itself escaped. */
  ghost predicate EndsInDot(s: string) {
    s != "" && s[|s| - 1] == '.' && exists n: nat :: n % 2 == 0 && BackslashesBeforeLast(s, n)
  }

  /** The name, with the final dot it may lack. */
  ghost function Dotted(s: string): string {
    if EndsInDot(s) then s else s + "."
  }

  predicate SameLetter(a: char, b: char) {
    || a == b
    || ('A' <= a <= 'Z' && b as int == a as int + 32)
    || ('A' <= b <= 'Z' && a as int == b as int + 32)
  }

  ghost predicate SameName(a: string, b: string) {
    |Dotted(a)| == |Dotted(b)| && forall i :: 0 <= i < |Dotted(a)| ==> SameLetter(Dotted(a)[i], Dotted(b)[i])
  }

  /** The last OPT record has the DO bit (bit 15 of its TTL field). */
  ghost predicate WantsDnssec(q: Msg) {
    exists i :: IsLastOpt(q.extra, i) && q.extra[i].ttl / 32768 % 2 == 1
  }

  ghost predicate SameQuestion(q1: Msg, q2: Msg)
    requires q1.question != [] && q2.question != []
  {
    && q1.question[0].qclass == q2.question[0].qclass
    && q1.question[0].qtype == q2.question[0].qtype
    && SameName(q1.question[0].name, q2.question[0].name)
    && (WantsDnssec(q1) <==> WantsDnssec(q2))
  }

  lemma {:induction false} TrailingAreBackslashes(s: string)
    requires s != ""
    ensures BackslashesBeforeLast(s, TrailingBackslashes(s[..|s| - 1]))
  {
    var t := s[..|s| - 1];
    if t != "" && t[|t| - 1] == '\\' {
      TrailingAreBackslashes(t);
      assert t[..|t| - 1] == s[..|s| - 2];
    }
  }

  lemma TooFew(s: string, m: nat, n: nat)
    requires BackslashesBeforeLast(s, n) && m < n
    ensures !BackslashesBeforeLast(s, m)
  {
    assert s[|s| - 2 - m] == '\\';
  }

  lemma FqdnIff(s: string)
    ensures IsFqdn(s) <==> EndsInDot(s)
  {
    if s != "" {
      var n := TrailingBackslashes(s[..|s| - 1]);
      TrailingAreBackslashes(s);
      forall m: nat | BackslashesBeforeLast(s, m) ensures m == n {
        if m < n { TooFew(s, m, n); } else if n < m { TooFew(s, n, m); }
      }
    }
  }

  lemma SameLetterIff(a: char, b: char)
    ensures LowerChar(a) == LowerChar(b) <==> SameLetter(a, b)
  {}

  lemma SameNameIff(a: string, b: string)
    ensures CanonicalName(a) == CanonicalName(b) <==> SameName(a, b)
  {
    FqdnIff(a);
    FqdnIff(b);
    var x, y := Dotted(a), Dotted(b);
    assert CanonicalName(a) == Lower(x) && CanonicalName(b) == Lower(y);
    if Lower(x) == Lower(y) {
      assert |x| == |Lower(x)| == |Lower(y)| == |y|;
      forall i | 0 <= i < |x| ensures SameLetter(x[i], y[i]) {
        assert Lower(x)[i] == Lower(y)[i];
        SameLetterIff(x[i], y[i]);
      }
    }
    if SameName(a, b) {
      forall i | 0 <= i < |x| ensures Lower(x)[i] == Lower(y)[i] {
        SameLetterIff(x[i], y[i]);
      }
    }
  }

  lemma DnssecIff(q: Msg)
    ensures DnssecOk(q) <==> WantsDnssec(q)
  {
    var i := SomeLastOpt(q.extra);
    LastOptIs(q.extra, i);
    forall j | IsLastOpt(q.extra, j) ensures LastOpt(q.extra) == Some(q.extra[j]) {
      LastOptIs(q.extra, j);
    }
  }

  /** Only messages without a question have no key. Two queries share one exactly when class, type and DO bit
      agree and the names, each with its final dot, are letter by letter the same up to ASCII case. */
  lemma SameKeyIffSameQuestion(q1: Msg, q2: Msg)
    ensures CacheKey(q1).None? <==> q1.question == []
    ensures q1.question != [] && q2.question != [] ==> (CacheKey(q1) == CacheKey(q2) <==> SameQuestion(q1, q2))
  {
    if q1.question != [] && q2.question != [] {
      var a, b := q1.question[0], q2.question[0];
      KeyReadsBack(a.qclass, a.qtype, CanonicalName(a.name), DnssecOk(q1));
      KeyReadsBack(b.qclass, b.qtype, CanonicalName(b.name), DnssecOk(q2));
      SameNameIff(a.name, b.name);
      DnssecIff(q1);
      DnssecIff(q2);
    }
  }
}
