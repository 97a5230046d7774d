/** Finding an asset's digest in a SHA256SUMS file. */
module Checksums {
  import opened Wrappers
  import opened DnsMessages
  import opened CacheKeys

  // ----- strings

  /** unicode.IsSpace */
  predicate IsSpace(c: char) {
    c in "\t\n\U{0B}\U{0C}\r \U{85}\U{A0}\U{1680}\U{2028}\U{2029}\U{202F}\U{205F}\U{3000}"
    || '\U{2000}' <= c <= '\U{200A}'
  }

  predicate NoSpace(s: string) {
    forall c :: c in s ==> !IsSpace(c)
  }

  function TrimLeft(s: string): string {
    if s != "" && IsSpace(s[0]) then TrimLeft(s[1..]) else s
  }

  function TrimRight(s: string): string {
    if s != "" && IsSpace(s[|s| - 1]) then TrimRight(s[..|s| - 1]) else s
  }

  function Trim(s: string): string {
    TrimRight(TrimLeft(s))
  }

  /** Position of the first occurrence of a two-character separator. */
  function IndexOf(s: string, a: char, b: char): Option<nat> {
    if |s| < 2 then None
    else if s[0] == a && s[1] == b then Some(0)
    else
      match IndexOf(s[1..], a, b)
      case None => None
      case Some(i) => Some(i + 1)
  }

  function SplitLines(s: string): (lines: seq<string>)
    ensures lines != []
  {
    if s == "" then [""]
    else
      var rest := SplitLines(s[1..]);
      if s[0] == '\n' then [""] + rest else [[s[0]] + rest[0]] + rest[1..]
  }

  function JoinLines(lines: seq<string>): string
    requires lines != []
  {
    if |lines| == 1 then lines[0] else lines[0] + "\n" + JoinLines(lines[1..])
  }

  predicate IsHexDigit(c: char) {
    '0' <= c <= '9' || 'a' <= c <= 'f' || 'A' <= c <= 'F'
  }

  predicate Hex(s: string) {
    s != "" && forall c :: c in s ==> IsHexDigit(c)
  }

  /** isHex */
  method IsHex(s: string) returns (ok: bool)
    ensures ok <==> Hex(s)
  {
    if |s| == 0 {
      return false;
    }
    for i := 0 to |s|
      invariant forall j :: 0 <= j < i ==> IsHexDigit(s[j])
    {
      if !IsHexDigit(s[i]) {
        return false;
      }
    }
    return true;
  }

  // ----- file names

  predicate IsSeparator(c: char) {
    c == '\\' || c == '/'
  }

  function StripSeparators(p: string): string {
    if p != "" && IsSeparator(p[|p| - 1]) then StripSeparators(p[..|p| - 1]) else p
  }

  function StripVolume(p: string): string {
    if |p| >= 2 && p[1] == ':' then p[2..] else p
  }

  function LastElement(p: string): string {
    if p == "" || IsSeparator(p[|p| - 1]) then "" else LastElement(p[..|p| - 1]) + [p[|p| - 1]]
  }

  /** filepath.Base on Windows, for names without a UNC or device prefix. */
  function Base(p: string): string {
    if p == "" then "."
    else
      var last := LastElement(StripVolume(StripSeparators(p)));
      if last == "" then "\\" else last
  }

  predicate Matches(name: string, asset: string) {
    Lower(name) == Lower(asset) || Lower(Base(name)) == Lower(asset)
  }

  // ----- scanning

  datatype Entry = Entry(hash: string, name: string)

  /** Two spaces separate digest and name, else a space and an asterisk. */
  function SeparatorAt(line: string): Option<nat> {
    var wide := IndexOf(line, ' ', ' ');
    if wide.Some? then wide else IndexOf(line, ' ', '*')
  }

  lemma {:induction false} IndexFits(s: string, a: char, b: char)
    ensures IndexOf(s, a, b).Some? ==> IndexOf(s, a, b).value + 2 <= |s|
  {
    if |s| >= 2 { IndexFits(s[1..], a, b); }
  }

  /** The entry on one line, if it has one. */
  function ParseLine(raw: string): Option<Entry> {
    var line := Trim(raw);
    IndexFits(line, ' ', ' ');
    IndexFits(line, ' ', '*');
    match SeparatorAt(line)
    case None => None
    case Some(at) =>
      var hash := Trim(line[..at]);
      if |hash| == 64 && Hex(hash) then Some(Entry(hash, Trim(line[at + 2..]))) else None
  }

  function FirstMatch(lines: seq<string>, asset: string): string {
    if lines == [] then ""
    else
      match ParseLine(lines[0])
      case Some(e) => if Matches(e.name, asset) then e.hash else FirstMatch(lines[1..], asset)
      case None => FirstMatch(lines[1..], asset)
  }

  /** Reading one line: two spaces, else a space and an asterisk, separate digest and name. */
  method ReadLine(raw: string) returns (e: Option<Entry>)
    ensures e == ParseLine(raw)
  {
    var line := Trim(raw);
    if line == "" {
      return None;
    }
    var at := SeparatorAt(line);
    if at.None? {
      return None;
    }
    var idx := at.value;
    IndexFits(line, ' ', ' ');
    IndexFits(line, ' ', '*');
    var hash := Trim(line[..idx]);
    var hex := IsHex(hash);
    if |hash| != 64 || !hex {
      return None;
    }
    return Some(Entry(hash, Trim(line[idx + 2..])));
  }

  /** The scan of verifyCandidate. */
  method Scan(body: string, asset: string) returns (expected: string)
    ensures expected == FirstMatch(SplitLines(body), asset)
  {
    var lines := SplitLines(body);
    expected := "";
    for i := 0 to |lines|
      invariant FirstMatch(lines, asset) == FirstMatch(lines[i..], asset)
    {
      assert lines[i..][0] == lines[i] && lines[i..][1..] == lines[i + 1..];
      var e := ReadLine(lines[i]);
      if e.Some? && Matches(e.value.name, asset) {
        return e.value.hash;
      }
    }
  }

  /** A well-formed line whose name matches. */
  predicate HasMatch(line: string, asset: string) {
    ParseLine(line).Some? && Matches(ParseLine(line).value.name, asset)
  }

  /** The line chosen: the first of these. */
  ghost predicate Chosen(lines: seq<string>, asset: string, i: int) {
    0 <= i < |lines| && HasMatch(lines[i], asset) && forall j :: 0 <= j < i ==> !HasMatch(lines[j], asset)
  }

  ghost predicate NoneMatches(lines: seq<string>, asset: string) {
    forall i :: 0 <= i < |lines| ==> !HasMatch(lines[i], asset)
  }

  lemma FirstLineChosen(lines: seq<string>, asset: string)
    requires lines != [] && HasMatch(lines[0], asset)
    ensures var hash := FirstMatch(lines, asset); hash == ParseLine(lines[0]).value.hash && |hash| == 64 && Hex(hash)
    ensures Chosen(lines, asset, 0) && !NoneMatches(lines, asset)
  {}

  lemma NotTheFirst(lines: seq<string>, asset: string, j: int)
    requires lines != [] && !HasMatch(lines[0], asset)
    ensures FirstMatch(lines, asset) == FirstMatch(lines[1..], asset)
    ensures NoneMatches(lines, asset) <==> NoneMatches(lines[1..], asset)
    ensures Chosen(lines[1..], asset, j) ==> Chosen(lines, asset, j + 1) && lines[j + 1] == lines[1..][j]
  {
    var rest := lines[1..];
    assert forall m :: 0 <= m < |rest| ==> rest[m] == lines[m + 1];
    if NoneMatches(rest, asset) {
      forall m | 0 <= m < |lines| ensures !HasMatch(lines[m], asset) {
        if m > 0 { assert lines[m] == rest[m - 1]; }
      }
    }
    if Chosen(rest, asset, j) {
      forall m | 0 <= m < j + 1 ensures !HasMatch(lines[m], asset) {
        if m > 0 { assert lines[m] == rest[m - 1]; }
      }
    }
  }

  /** Whatever the body: no digest is found exactly when no well-formed line matches; otherwise it is
      64 hex digits, from the first that does. */
  lemma {:induction false} ScanIsFirstMatch(lines: seq<string>, asset: string) returns (i: int)
    ensures FirstMatch(lines, asset) == "" <==> NoneMatches(lines, asset)
    ensures FirstMatch(lines, asset) != "" ==>
              Chosen(lines, asset, i) && FirstMatch(lines, asset) == ParseLine(lines[i]).value.hash
    ensures FirstMatch(lines, asset) != "" ==> |FirstMatch(lines, asset)| == 64 && Hex(FirstMatch(lines, asset))
  {
    i := 0;
    if lines != [] {
      if HasMatch(lines[0], asset) {
        FirstLineChosen(lines, asset);
      } else {
        var j := ScanIsFirstMatch(lines[1..], asset);
        NotTheFirst(lines, asset, j);
        i := j + 1;
      }
    }
  }

  // ----- printing and reading back

  datatype Line = Text(digest: string, name: string) | Binary(digest: string, name: string) | Junk(text: string)

  /** One line of a SHA256SUMS file; `cr` is a carriage return or nothing. */
  function Render(l: Line, cr: string): string {
    match l
    case Text(d, n) => d + "  " + n + cr
    case Binary(d, n) => d + " *" + n + cr
    case Junk(t) => t + cr
  }

  function RenderAll(lines: seq<Line>, cr: string): (r: seq<string>)
    ensures |r| == |lines|
    ensures forall i :: 0 <= i < |lines| ==> r[i] == Render(lines[i], cr)
  {
    seq(|lines|, i requires 0 <= i < |lines| => Render(lines[i], cr))
  }

  predicate Printable(l: Line, cr: string) {
    match l
    case Junk(t) => '\n' !in t && ParseLine(t + cr).None?
    case _ => |l.digest| == 64 && Hex(l.digest) && l.name != "" && NoSpace(l.name)
  }

  lemma {:induction false} TrimLeftSolid(s: string)
    requires s != "" && !IsSpace(s[0])
    ensures TrimLeft(s) == s
  {}

  lemma {:induction false} TrimRightSolid(s: string)
    requires s != "" && !IsSpace(s[|s| - 1])
    ensures TrimRight(s) == s && TrimRight(s + "\r") == s
  {
    assert (s + "\r")[..|s|] == s;
  }

  lemma HexIsSolid(s: string)
    requires Hex(s)
    ensures NoSpace(s) && Trim(s) == s && ' ' !in s
  {
    assert s[0] in s && s[|s| - 1] in s;
    TrimRightSolid(s);
  }

  lemma NameIsSolid(s: string)
    requires NoSpace(s) && s != ""
    ensures Trim(s) == s && ' ' !in s
  {
    assert s[0] in s && s[|s| - 1] in s;
    assert IsSpace(' ');
    TrimRightSolid(s);
  }

  lemma {:induction false} IndexAfter(a: string, x: char, y: char, rest: string)
    requires x !in a
    ensures IndexOf(a + [x, y] + rest, x, y) == Some(|a|)
  {
    var s := a + [x, y] + rest;
    if a != "" {
      assert s[0] == a[0] && a[0] in a;
      assert s[1..] == a[1..] + [x, y] + rest;
      IndexAfter(a[1..], x, y, rest);
    }
  }

  lemma {:induction false} NoIndex(a: string, y: char, rest: string)
    requires ' ' !in a && ' ' !in rest && y != ' '
    ensures IndexOf(a + [' ', y] + rest, ' ', ' ') == None
  {
    var s := a + [' ', y] + rest;
    if a != "" {
      assert s[0] == a[0] && a[0] in a;
      assert s[1..] == a[1..] + [' ', y] + rest;
      NoIndex(a[1..], y, rest);
    } else {
      NoSpaceNoIndex([y] + rest);
      assert s[1..] == [y] + rest;
    }
  }

  lemma {:induction false} NoSpaceNoIndex(s: string)
    requires ' ' !in s
    ensures IndexOf(s, ' ', ' ') == None
  {
    if |s| >= 2 {
      assert s[0] in s;
      NoSpaceNoIndex(s[1..]);
    }
  }

  /** A printed entry parses back to its digest and name. */
  lemma EntryParses(l: Line, cr: string)
    requires !l.Junk? && Printable(l, cr) && (cr == "" || cr == "\r")
    ensures ParseLine(Render(l, cr)) == Some(Entry(l.digest, l.name))
  {
    var second := if l.Text? then ' ' else '*';
    var core := l.digest + [' ', second] + l.name;
    HexIsSolid(l.digest);
    NameIsSolid(l.name);
    assert Render(l, cr) == core + cr;
    CoreTrims(l.digest, [' ', second], l.name, cr);
    IndexAfter(l.digest, ' ', second, l.name);
    if l.Binary? { NoIndex(l.digest, '*', l.name); }
    assert core[..64] == l.digest && core[66..] == l.name;
  }

  lemma CoreTrims(a: string, sep: string, b: string, cr: string)
    requires a != "" && b != "" && NoSpace(a) && NoSpace(b) && (cr == "" || cr == "\r")
    ensures Trim(a + sep + b + cr) == a + sep + b
  {
    var core := a + sep + b;
    assert core[0] == a[0] && a[0] in a;
    assert core[|core| - 1] == b[|b| - 1] && b[|b| - 1] in b;
    assert (core + cr)[0] == core[0];
    TrimLeftSolid(core + cr);
    TrimRightSolid(core);
    assert core + "" == core;
  }

  lemma {:induction false} SplitNone(a: string)
    requires '\n' !in a
    ensures SplitLines(a) == [a]
  {
    if a != "" {
      assert a[0] in a;
      SplitNone(a[1..]);
      assert a == [a[0]] + a[1..];
    }
  }

  lemma {:induction false} SplitFirst(a: string, rest: string)
    requires '\n' !in a
    ensures SplitLines(a + "\n" + rest) == [a] + SplitLines(rest)
  {
    var s := a + "\n" + rest;
    if a == "" {
      assert s[1..] == rest;
    } else {
      assert a[0] in a && s[0] == a[0];
      assert s[1..] == a[1..] + "\n" + rest;
      SplitFirst(a[1..], rest);
      var r := SplitLines(s[1..]);
      assert r[0] == a[1..] && r[1..] == SplitLines(rest);
      assert a == [a[0]] + a[1..];
    }
  }

  lemma {:induction false} SplitJoins(lines: seq<string>)
    requires lines != [] && forall i :: 0 <= i < |lines| ==> '\n' !in lines[i]
    ensures SplitLines(JoinLines(lines)) == lines
  {
    if |lines| == 1 {
      SplitNone(lines[0]);
    } else {
      SplitJoins(lines[1..]);
      SplitFirst(lines[0], JoinLines(lines[1..]));
    }
  }

  lemma NoNewline(l: Line, cr: string)
    requires Printable(l, cr) && (cr == "" || cr == "\r")
    ensures '\n' !in Render(l, cr)
  {
    if !l.Junk? {
      HexIsSolid(l.digest);
      assert IsSpace('\n');
    }
  }

  lemma ChosenLater(lines: seq<string>, asset: string, k: nat)
    requires Chosen(lines, asset, k) && k > 0
    ensures Chosen(lines[1..], asset, k - 1)
    ensures FirstMatch(lines, asset) == FirstMatch(lines[1..], asset) && lines[1..][k - 1] == lines[k]
  {
    var rest := lines[1..];
    forall j | 0 <= j < k - 1 ensures !HasMatch(rest[j], asset) {
      assert rest[j] == lines[j + 1];
    }
  }

  lemma {:induction false} FirstMatchAt(lines: seq<string>, asset: string, k: nat)
    requires Chosen(lines, asset, k)
    ensures FirstMatch(lines, asset) == ParseLine(lines[k]).value.hash
  {
    if k > 0 {
      ChosenLater(lines, asset, k);
      FirstMatchAt(lines[1..], asset, k - 1);
    }
  }

  // ----- names that differ

  lemma {:induction false} LastElementFolds(p: string)
    ensures Lower(LastElement(p)) == LastElement(Lower(p))
  {
    if p != "" {
      LastElementFolds(p[..|p| - 1]);
      assert Lower(p)[..|p| - 1] == Lower(p[..|p| - 1]);
      if !IsSeparator(p[|p| - 1]) {
        assert LastElement(p) == LastElement(p[..|p| - 1]) + [p[|p| - 1]];
        assert Lower(LastElement(p)) == Lower(LastElement(p[..|p| - 1])) + [LowerChar(p[|p| - 1])];
      }
    }
  }

  lemma {:induction false} StripSeparatorsFolds(p: string)
    ensures Lower(StripSeparators(p)) == StripSeparators(Lower(p))
  {
    if p != "" {
      StripSeparatorsFolds(p[..|p| - 1]);
      assert Lower(p)[..|p| - 1] == Lower(p[..|p| - 1]);
    }
  }

  lemma StripVolumeFolds(p: string)
    ensures Lower(StripVolume(p)) == StripVolume(Lower(p))
  {
    if |p| >= 2 && p[1] == ':' { assert Lower(p)[2..] == Lower(p[2..]); }
  }

  lemma BaseOfLower(p: string)
    ensures Lower(Base(p)) == Base(Lower(p))
  {
    StripSeparatorsFolds(p);
    StripVolumeFolds(StripSeparators(p));
    LastElementFolds(StripVolume(StripSeparators(p)));
    assert Lower(".") == "." && Lower("\\") == "\\";
    assert |Lower(p)| == |p|;
    assert |Lower(LastElement(StripVolume(StripSeparators(p))))| == |LastElement(StripVolume(StripSeparators(p)))|;
  }

  /** Base names are equal up to case when the names are. */
  lemma BaseFolds(p: string, q: string)
    requires Lower(p) == Lower(q)
    ensures Lower(Base(p)) == Lower(Base(q))
  {
    BaseOfLower(p);
    BaseOfLower(q);
  }

  /** Matching disregards ASCII case: assets whose names differ in nothing else have the same digest. */
  lemma {:induction false} CaseIsIgnored(lines: seq<string>, a: string, b: string)
    requires |a| == |b| && forall i :: 0 <= i < |a| ==> SameLetter(a[i], b[i])
    ensures FirstMatch(lines, a) == FirstMatch(lines, b)
  {
    forall i | 0 <= i < |a| ensures Lower(a)[i] == Lower(b)[i] {
      SameLetterIff(a[i], b[i]);
    }
    assert Lower(a) == Lower(b);
    if lines != [] { CaseIsIgnored(lines[1..], a, b); }
  }

  lemma {:induction false} LastElementIsPlain(p: string)
    ensures forall c :: c in LastElement(p) ==> c in p && !IsSeparator(c)
  {
    if p != "" && !IsSeparator(p[|p| - 1]) { LastElementIsPlain(p[..|p| - 1]); }
  }

  lemma {:induction false} PlainIsLast(p: string)
    requires forall c :: c in p ==> !IsSeparator(c)
    ensures LastElement(p) == p && StripSeparators(p) == p
  {
    if p != "" {
      assert p[|p| - 1] in p;
      PlainIsLast(p[..|p| - 1]);
    }
  }

  lemma {:induction false} StripKeepsChars(p: string)
    ensures forall c :: c in StripSeparators(p) ==> c in p
  {
    if p != "" && IsSeparator(p[|p| - 1]) { StripKeepsChars(p[..|p| - 1]); }
  }

  lemma BaseOfPlain(f: string)
    requires f != "" && ':' !in f && forall c :: c in f ==> !IsSeparator(c)
    ensures Base(f) == f
  {
    PlainIsLast(f);
    if |f| >= 2 { assert f[1] in f; }
  }

  lemma BaseOfRoot()
    ensures Base("\\") == "\\" && Base(".") == "."
  {
    PlainIsLast(".");
    assert StripSeparators("\\") == "";
  }

  /** Taking the base name twice is taking it once, unless a drive prefix hides behind a separator. */
  lemma BaseTwice(p: string)
    requires ':' !in p
    ensures Base(Base(p)) == Base(p)
  {
    BaseOfRoot();
    if p != "" {
      var last := LastElement(StripVolume(StripSeparators(p)));
      StripKeepsChars(p);
      LastElementIsPlain(StripVolume(StripSeparators(p)));
      if last != "" { BaseOfPlain(last); }
    }
  }

  /** A SHA256SUMS body: printable lines whose entries differ by case-folded base name. */
  ghost predicate WellPrinted(lines: seq<Line>, cr: string) {
    && (cr == "" || cr == "\r")
    && (forall i :: 0 <= i < |lines| ==> Printable(lines[i], cr))
    && (forall i, j :: 0 <= i < j < |lines| && !lines[i].Junk? && !lines[j].Junk? ==>
          Lower(Base(lines[i].name)) != Lower(Base(lines[j].name)))
  }

  /** The body these lines make. */
  function Body(lines: seq<Line>, cr: string): string
    requires lines != []
  {
    JoinLines(RenderAll(lines, cr))
  }

  /** No earlier entry has this very name as its base name. */
  ghost predicate Unshadowed(lines: seq<Line>, k: nat)
    requires k < |lines| && !lines[k].Junk?
  {
    forall j :: 0 <= j < k && !lines[j].Junk? ==> Lower(Base(lines[j].name)) != Lower(lines[k].name)
  }

  lemma PrintedMatch(lines: seq<Line>, cr: string, j: nat, k: nat)
    requires WellPrinted(lines, cr) && j < |lines| && k < |lines| && !lines[k].Junk? && j != k
    ensures var e := ParseLine(Render(lines[j], cr));
            if lines[j].Junk? then e == None
            else e == Some(Entry(lines[j].digest, lines[j].name))
                 && (Matches(lines[j].name, lines[k].name) <==> Lower(Base(lines[j].name)) == Lower(lines[k].name))
  {
    if !lines[j].Junk? {
      EntryParses(lines[j], cr);
      if Lower(lines[j].name) == Lower(lines[k].name) { BaseFolds(lines[j].name, lines[k].name); }
    }
  }

  lemma BodySplits(lines: seq<Line>, cr: string)
    requires WellPrinted(lines, cr) && lines != []
    ensures SplitLines(Body(lines, cr)) == RenderAll(lines, cr)
  {
    forall i | 0 <= i < |lines| ensures '\n' !in RenderAll(lines, cr)[i] {
      NoNewline(lines[i], cr);
    }
    SplitJoins(RenderAll(lines, cr));
  }

  /** Looking up a printed name returns its own digest, among text and binary lines, blank and malformed
      lines, with either line ending, unless an earlier entry has it as its base name. */
  lemma {:induction false} EachNameFindsItsDigest(lines: seq<Line>, cr: string, k: nat)
    requires WellPrinted(lines, cr) && k < |lines| && !lines[k].Junk? && Unshadowed(lines, k)
    ensures FirstMatch(SplitLines(Body(lines, cr)), lines[k].name) == lines[k].digest
  {
    var printed := RenderAll(lines, cr);
    BodySplits(lines, cr);
    forall j | 0 <= j < k ensures !HasMatch(printed[j], lines[k].name) {
      PrintedMatch(lines, cr, j, k);
    }
    EntryParses(lines[k], cr);
    assert Chosen(printed, lines[k].name, k);
    FirstMatchAt(printed, lines[k].name, k);
  }

  lemma {:induction false} ShadowedNameFindsAnother(lines: seq<Line>, cr: string, k: nat)
    requires WellPrinted(lines, cr) && k < |lines| && !lines[k].Junk? && !Unshadowed(lines, k)
    requires forall j :: 0 <= j < k && !lines[j].Junk? ==> lines[j].digest != lines[k].digest
    ensures FirstMatch(SplitLines(Body(lines, cr)), lines[k].name) != lines[k].digest
  {
    var printed := RenderAll(lines, cr);
    BodySplits(lines, cr);
    var j :| 0 <= j < k && !lines[j].Junk? && Lower(Base(lines[j].name)) == Lower(lines[k].name);
    PrintedMatch(lines, cr, j, k);
    assert ParseLine(printed[j]).Some?;
    var i := ScanIsFirstMatch(printed, lines[k].name);
    if FirstMatch(printed, lines[k].name) != "" {
      assert i <= j;
      PrintedMatch(lines, cr, i, k);
    }
  }

  /** Exactly when a lookup returns the name's own digest, if the digests before it are others. */
  lemma {:induction false} FindsOwnDigestIff(lines: seq<Line>, cr: string, k: nat)
    requires WellPrinted(lines, cr) && k < |lines| && !lines[k].Junk?
    requires forall j :: 0 <= j < k && !lines[j].Junk? ==> lines[j].digest != lines[k].digest
    ensures FirstMatch(SplitLines(Body(lines, cr)), lines[k].name) == lines[k].digest <==> Unshadowed(lines, k)
  {
    if Unshadowed(lines, k) { EachNameFindsItsDigest(lines, cr, k); } else { ShadowedNameFindsAnother(lines, cr, k); }
  }

  /** Names without a colon, hence without a drive prefix, are never shadowed. */
  lemma {:induction false} ColonFreeNamesAreUnshadowed(lines: seq<Line>, cr: string, k: nat)
    requires WellPrinted(lines, cr) && k < |lines| && !lines[k].Junk?
    requires forall i :: 0 <= i < k && !lines[i].Junk? ==> ':' !in lines[i].name
    ensures Unshadowed(lines, k)
  {
    forall j | 0 <= j < k && !lines[j].Junk? ensures Lower(Base(lines[j].name)) != Lower(lines[k].name) {
      if Lower(Base(lines[j].name)) == Lower(lines[k].name) {
        BaseFolds(Base(lines[j].name), lines[k].name);
        BaseTwice(lines[j].name);
      }
    }
  }

  /** A plain file name: visible ASCII without separators. */
  predicate Plain(f: string) {
    f != "" && forall i :: 0 <= i < |f| ==> '!' <= f[i] <= '~' && !IsSeparator(f[i])
  }

  lemma AsciiIsSolid(s: string)
    requires forall i :: 0 <= i < |s| ==> '!' <= s[i] <= '~'
    ensures NoSpace(s)
  {}

  lemma {:induction false} LastAfterSeparator(p: string, f: string)
    requires p != "" && IsSeparator(p[|p| - 1]) && forall i :: 0 <= i < |f| ==> !IsSeparator(f[i])
    ensures LastElement(p + f) == f
  {
    if f == "" {
      assert p + f == p;
    } else {
      var g := f[..|f| - 1];
      LastAfterSeparator(p, g);
      assert (p + f)[..|p + f| - 1] == p + g;
    }
  }

  lemma LastOfPlain(f: string)
    requires Plain(f)
    ensures LastElement(f) == f
  {
    forall c | c in f ensures !IsSeparator(c) {}
    PlainIsLast(f);
  }

  lemma BaseBehindSeparator(p: string, q: string)
    requires p == "x/" + q && q != "" && forall i :: 0 <= i < |q| ==> !IsSeparator(q[i])
    ensures Base(p) == q
  {
    LastAfterSeparator("x/", q);
    assert p[|p| - 1] == q[|q| - 1] && p[1] == '/';
    assert StripSeparators(p) == p && StripVolume(p) == p;
  }

  lemma BaseOfDrive(q: string, f: string)
    requires q == "c:" + f && Plain(f)
    ensures Base(q) == f
  {
    assert q[|q| - 1] == f[|f| - 1] && q[1] == ':' && q[2..] == f;
    assert StripSeparators(q) == q && StripVolume(q) == f;
    LastOfPlain(f);
  }

  lemma DriveNames(f: string, p: string, q: string)
    requires Plain(f) && p == "x/" + ("c:" + f) && q == "c:" + f
    ensures p != "" && q != "" && NoSpace(p) && NoSpace(q)
    ensures Base(p) == q && Base(q) == f && |q| == |f| + 2
  {
    AsciiIsSolid(p);
    AsciiIsSolid(q);
    BaseBehindSeparator(p, q);
    BaseOfDrive(q, f);
  }

  lemma BaseUnderDirectory(dir: string, sep: char, f: string, p: string)
    requires IsSeparator(sep) && Plain(f) && ':' !in f && p == dir + [sep] + f
    ensures Base(p) == f
  {
    assert p[|p| - 1] == f[|f| - 1];
    assert StripSeparators(p) == p;
    var cut := if |dir| >= 2 && dir[1] == ':' then dir[2..] + [sep] else dir + [sep];
    if dir == "" { assert p[1] == f[0] && f[0] in f; }
    assert StripVolume(p) == cut + f;
    LastAfterSeparator(cut, f);
  }

  /** An entry is found by its file name also if it lists the file in some directory. */
  lemma DirectoryIsIgnored(dir: string, sep: char, f: string, l: Line, cr: string)
    requires IsSeparator(sep) && Plain(f) && ':' !in f && !l.Junk? && l.name == dir + [sep] + f
    requires Printable(l, cr) && (cr == "" || cr == "\r")
    ensures HasMatch(Render(l, cr), f) && ParseLine(Render(l, cr)).value.hash == l.digest
  {
    EntryParses(l, cr);
    BaseUnderDirectory(dir, sep, f, l.name);
  }

  /** Of two entries, the first hides the second if its base name is the second's name. */
  lemma FirstHidesSecond(a: Line, b: Line)
    requires a.Text? && b.Text? && Printable(a, "") && Printable(b, "") && a.digest != b.digest
    requires Base(a.name) == b.name && |Base(b.name)| != |b.name|
    ensures WellPrinted([a, b], "") && FirstMatch(SplitLines(Body([a, b], "")), b.name) != b.digest
  {
    TwoLines(a, b);
    ShadowedNameFindsAnother([a, b], "", 1);
  }

  lemma TwoLines(a: Line, b: Line)
    requires a.Text? && b.Text? && Printable(a, "") && Printable(b, "")
    requires Base(a.name) == b.name && |Base(b.name)| != |b.name|
    ensures WellPrinted([a, b], "") && !Unshadowed([a, b], 1)
  {
    LengthsDiffer(Base(b.name), b.name);
    var lines := [a, b];
    assert lines[0] == a && lines[1] == b;
    assert Lower(Base(lines[0].name)) == Lower(lines[1].name);
  }

  lemma LengthsDiffer(s: string, t: string)
    requires |s| != |t|
    ensures Lower(s) != Lower(t)
  {
    assert |Lower(s)| == |s| && |Lower(t)| == |t|;
  }

  predicate Contains(s: string, part: string) {
    |part| <= |s| && (s[..|part|] == part || (s != "" && Contains(s[1..], part)))
  }

  /** What findAsset asks of a release asset's name. */
  predicate Eligible(name: string, arch: string) {
    Contains(Lower(name), "windows") && Contains(Lower(name), arch)
  }

  lemma {:induction false} ContainsLater(head: string, s: string, part: string)
    requires Contains(s, part)
    ensures Contains(head + s, part)
  {
    if head == "" {
      assert head + s == s;
    } else {
      ContainsLater(head[1..], s, part);
      assert (head + s)[1..] == head[1..] + s;
    }
  }

  /** A drive prefix does not keep findAsset from choosing a name. */
  lemma DriveNameIsEligible(f: string, arch: string)
    requires Eligible(f, arch)
    ensures Eligible("c:" + f, arch)
  {
    var q := "c:" + f;
    assert Lower(q) == Lower("c:") + Lower(f);
    ContainsLater(Lower("c:"), Lower(f), "windows");
    ContainsLater(Lower("c:"), Lower(f), arch);
  }

  lemma {:induction false} LowerCase(s: string)
    requires forall i :: 0 <= i < |s| ==> !('A' <= s[i] <= 'Z')
    ensures Lower(s) == s
  {}

  lemma StartsWith(part: string, rest: string)
    ensures Contains(part + rest, part)
  {
    assert (part + rest)[..|part|] == part;
  }

  /** The usual names of release assets, such as zeusdns_windows_amd64.zip, are such names. */
  lemma UsualNameIsEligible(f: string, head: string, mid: string, arch: string, tail: string)
    requires f == head + ("windows" + (mid + (arch + tail)))
    requires forall i :: 0 <= i < |f| ==> !('A' <= f[i] <= 'Z')
    ensures Eligible(f, arch)
  {
    var end := arch + tail;
    var rest := mid + end;
    LowerCase(f);
    StartsWith("windows", rest);
    ContainsLater(head, "windows" + rest, "windows");
    StartsWith(arch, tail);
    ContainsLater(mid, end, arch);
    ContainsLater("windows", rest, arch);
    ContainsLater(head, "windows" + rest, arch);
  }

  /** A drive prefix behind a separator does shadow, for every plain name, so also for names of release assets:
      the base name of x/c:f is c:f, whose own is f. */
  lemma DrivePrefixShadows(f: string, p: string, q: string, a: string, b: string, arch: string)
    requires Plain(f) && p == "x/" + ("c:" + f) && q == "c:" + f
    requires |a| == 64 && Hex(a) && |b| == 64 && Hex(b) && a != b
    ensures WellPrinted([Text(a, p), Text(b, q)], "")
    ensures FirstMatch(SplitLines(Body([Text(a, p), Text(b, q)], "")), q) != b
    ensures Eligible(f, arch) ==> Eligible(q, arch)
  {
    DriveNames(f, p, q);
    FirstHidesSecond(Text(a, p), Text(b, q));
    if Eligible(f, arch) { DriveNameIsEligible(f, arch); }
  }
}
