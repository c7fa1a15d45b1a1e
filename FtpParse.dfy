/**
 * Text parsing of the FTP client: the three-character reply code of a server line, the
 * `h1,h2,h3,h4,p1,p2` address of a PASV reply (section 4.1.2 of RFC 959) and Java's
 * `Integer.parseInt` as the client uses it for a port number.
 */
module FtpParse {
  import opened Common
  import opened FtpMessages

  // ---------------------------------------------------------------------------
  // String.trim and readCode
  // ---------------------------------------------------------------------------

  /** The characters `String.trim` removes: every code point up to and including the space. */
  predicate IsBlank(c: char) { c <= ' ' }

  /** The text left after dropping the leading blanks: a suffix of `s`. */
  function TrimStart(s: string): (r: string)
    ensures |r| <= |s| && r == s[|s| - |r|..]
    ensures r == [] || !IsBlank(r[0])
    decreases |s|
  {
    if s != [] && IsBlank(s[0]) then TrimStart(s[1..]) else s
  }

  /** The text left after dropping the trailing blanks: a prefix of `s`. */
  function TrimEnd(s: string): (r: string)
    ensures |r| <= |s| && r == s[..|r|]
    ensures r == [] || !IsBlank(r[|r| - 1])
    decreases |s|
  {
    if s != [] && IsBlank(s[|s| - 1]) then TrimEnd(s[..|s| - 1]) else s
  }

  /** Every character `TrimStart` drops is blank. */
  lemma {:induction false} TrimStartDropsBlanks(s: string, i: int)
    requires 0 <= i < |s| - |TrimStart(s)|
    ensures IsBlank(s[i])
    decreases |s|
  {
    if i > 0 {
      TrimStartDropsBlanks(s[1..], i - 1);
    }
  }

  /** Every character `TrimEnd` drops is blank. */
  lemma {:induction false} TrimEndDropsBlanks(s: string, i: int)
    requires |TrimEnd(s)| <= i < |s|
    ensures IsBlank(s[i])
    decreases |s|
  {
    if i < |s| - 1 {
      TrimEndDropsBlanks(s[..|s| - 1], i);
    }
  }

  function Trim(s: string): string
  {
    TrimEnd(TrimStart(s))
  }

  /**
   * `Parse.readCode`: the first three characters of the trimmed reply. A trimmed reply shorter
   * than three characters makes `substring` throw, modelled as `None`.
   */
  function ReadCode(reply: string): (r: Option<string>)
    ensures r.Some? <==> |Trim(reply)| >= 3
    ensures r.Some? ==> |r.value| == 3 && r.value == Trim(reply)[..3]
  {
    var t := Trim(reply);
    if |t| < 3 then None else Some(t[..3])
  }

  /** A reply line that starts with its code, as RFC 959 replies do, yields that code. */
  lemma {:induction false} ReplyLineCode(code: string, rest: string)
    requires |code| == 3 && !IsBlank(code[0]) && !IsBlank(code[2])
    ensures ReadCode(code + rest) == Some(code)
  {
    var s := code + rest;
    assert TrimStart(s) == s;
    if |TrimEnd(s)| <= 2 {
      TrimEndDropsBlanks(s, 2);
      assert false;
    }
    assert TrimEnd(s)[..3] == s[..3] == code;
  }

  /** Leading blanks never change the trimmed text. */
  lemma {:induction false} TrimStartSkipsBlanks(blanks: string, reply: string)
    requires forall i :: 0 <= i < |blanks| ==> IsBlank(blanks[i])
    ensures TrimStart(blanks + reply) == TrimStart(reply)
    decreases |blanks|
  {
    if blanks != [] {
      assert (blanks + reply)[1..] == blanks[1..] + reply;
      TrimStartSkipsBlanks(blanks[1..], reply);
    } else {
      assert blanks + reply == reply;
    }
  }

  /** Leading blanks never change the code: ` 220 ok` and `220 ok` have the same code. */
  lemma {:induction false} ReadCodeSkipsLeadingBlanks(blanks: string, reply: string)
    requires forall i :: 0 <= i < |blanks| ==> IsBlank(blanks[i])
    ensures ReadCode(blanks + reply) == ReadCode(reply)
  {
    TrimStartSkipsBlanks(blanks, reply);
  }

  // ---------------------------------------------------------------------------
  // The PASV address: the pattern (\d{1,3},){5}\d{1,3} and Matcher.find
  // ---------------------------------------------------------------------------

  datatype HostPort = HostPort(host: string, port: int)

  /** A match of the pattern: its comma-separated numbers and its length. */
  datatype Match = Match(fields: seq<string>, len: nat)

  /** A match found by `find`: where it starts in the searched text. */
  datatype Found = Found(start: nat, m: Match)

  function Min(a: nat, b: nat): nat { if a <= b then a else b }

  /** The length of the run of ASCII digits at the front of `t` (Java's `\d` is ASCII only). */
  function DigitRun(t: string): (n: nat)
    ensures n <= |t|
    ensures n == |t| || !IsDigit(t[n])
    decreases |t|
  {
    if t != [] && IsDigit(t[0]) then 1 + DigitRun(t[1..]) else 0
  }

  /** Each number written out: one to three digits. */
  predicate NumberFields(fs: seq<string>)
    decreases |fs|
  {
    fs == [] || (1 <= |fs[0]| <= 3 && AllDigits(fs[0]) && NumberFields(fs[1..]))
  }

  /** What `Integer.parseInt` gives for a matched number (its digits are all ASCII). */
  function Value(d: string): nat
  {
    if AllDigits(d) then DecimalValue(d) else 0
  }

  /**
   * Whether `(\d{1,3},){k}\d{1,3}` matches at the front of `t`, and with which numbers. A
   * comma-terminated number must be a whole digit run of one to three digits: backtracking
   * to fewer digits leaves a digit, not a comma, next. The last number takes at most three
   * digits of its run.
   */
  function Fields(t: string, k: nat): Option<Match>
    decreases k
  {
    var n := DigitRun(t);
    if n == 0 then None
    else if k == 0 then
      Some(Match([t[..Min(n, 3)]], Min(n, 3)))
    else if 3 < n || n == |t| || t[n] != ',' then None
    else match Fields(t[n + 1..], k - 1)
      case None => None
      case Some(m) => Some(Match([t[..n]] + m.fields, n + 1 + m.len))
  }

  /** A match has one number per comma plus one, and lies inside `t`. */
  lemma {:induction false} FieldsSound(t: string, k: nat)
    ensures Fields(t, k).Some? ==> |Fields(t, k).value.fields| == k + 1
    ensures Fields(t, k).Some? ==> 0 < Fields(t, k).value.len <= |t|
    ensures Fields(t, k).Some? ==> 2 * k + 1 <= Fields(t, k).value.len
    decreases k
  {
    var n := DigitRun(t);
    if n > 0 && k > 0 && n <= 3 && n < |t| && t[n] == ',' {
      FieldsSound(t[n + 1..], k - 1);
    }
  }

  /** `Matcher.find` over `t`: the leftmost position where the six-number pattern matches. */
  function Find(t: string): Option<Found>
    decreases |t|
  {
    match Fields(t, 5)
    case Some(m) => Some(Found(0, m))
    case None =>
      if t == [] then None
      else match Find(t[1..])
        case None => None
        case Some(f) => Some(Found(f.start + 1, f.m))
  }

  /** What `find` returns is a match of the pattern lying inside the searched text. */
  lemma {:induction false} FindSound(t: string)
    ensures Find(t).Some? ==> Find(t).value.start + Find(t).value.m.len <= |t|
    ensures Find(t).Some? ==> Fields(t[Find(t).value.start..], 5) == Some(Find(t).value.m)
    decreases |t|
  {
    if Fields(t, 5).None? && t != [] {
      FindSound(t[1..]);
      if Find(t[1..]).Some? {
        var f := Find(t[1..]).value;
        assert t[1..][f.start..] == t[f.start + 1..];
      }
    }
  }

  /** What `find` returns holds six numbers and lies inside the searched text. */
  lemma {:induction false} FoundShape(t: string, f: Found)
    requires Find(t) == Some(f)
    ensures |f.m.fields| == 6 && 0 < f.m.len && f.start + f.m.len <= |t|
  {
    FindSound(t);
    FieldsSound(t[f.start..], 5);
  }

  /** Text shorter than `0,0,0,0,0,0` holds no address. */
  lemma {:induction false} ShortTextHasNoAddress(t: string)
    requires |t| < 11
    ensures Find(t) == None
  {
    if Find(t).Some? {
      var f := Find(t).value;
      FindSound(t);
      FieldsSound(t[f.start..], 5);
      assert false;
    }
  }

  /** `find` returns the leftmost match: no position before it matches. */
  lemma {:induction false} FindLeftmost(t: string, q: nat)
    requires Find(t).Some? ==> q < Find(t).value.start
    requires q <= |t|
    ensures Fields(t[q..], 5).None?
    decreases |t|
  {
    if q > 0 {
      assert t[1..][q - 1..] == t[q..];
      FindLeftmost(t[1..], q - 1);
    }
  }

  /** A position where the pattern matches, with none before it, is what `find` returns. */
  lemma {:induction false} FindFirst(t: string, q: nat, m: Match)
    requires q <= |t| && Fields(t[q..], 5) == Some(m)
    requires forall p :: 0 <= p < q ==> Fields(t[p..], 5).None?
    ensures Find(t) == Some(Found(q, m))
  {
    FindSound(t);
    if Find(t).None? || q < Find(t).value.start {
      FindLeftmost(t, q);
      assert false;
    }
    var f := Find(t).value;
    if f.start < q {
      assert false;
    }
  }

  /** Every number in range for an octet. */
  predicate Octets(fs: seq<string>)
  {
    forall i :: 0 <= i < |fs| ==> Value(fs[i]) <= 255
  }

  /** The first `i` numbers, each followed by a dot. */
  function Dotted(fs: seq<string>, i: nat): string
    requires i <= |fs|
  {
    if i == 0 then "" else Dotted(fs, i - 1) + fs[i - 1] + "."
  }

  /** The host the client builds: the four digit strings as written, joined by dots. */
  function HostOf(fs: seq<string>): string
    requires |fs| == 6
  {
    Dotted(fs, 3) + fs[3]
  }

  function PortOf(fs: seq<string>): (port: int)
    requires |fs| == 6 && Octets(fs)
    ensures 0 <= port <= 65535
  {
    Value(fs[4]) * 256 + Value(fs[5])
  }

  const NO_HOST_PORT: Failure := Coded(999, ["Server did not return a host/port for data connection"])

  /**
   * `Parse.getHostPort`: matches are tried in order; one holding a number above 255 is
   * skipped and the search resumes where that match ended.
   */
  function HostPortIn(t: string): Result<HostPort, Failure>
  {
    HostPortAfter(t, Find(t))
  }

  /** `getHostPort` once `find` over `t` has answered `found`. */
  function HostPortAfter(t: string, found: Option<Found>): Result<HostPort, Failure>
    decreases |t|
  {
    match found
    case None => Err(NO_HOST_PORT)
    case Some(f) =>
      // never taken for what `find` returns: see FoundShape
      if |f.m.fields| != 6 || f.m.len == 0 || f.start + f.m.len > |t| then Err(NO_HOST_PORT)
      else if Octets(f.m.fields) then Ok(HostPort(HostOf(f.m.fields), PortOf(f.m.fields)))
      else
        var u := t[f.start + f.m.len..];
        HostPortAfter(u, Find(u))
  }

  /** `getHostPort` returns a port in 0..65535, or fails with the "no host/port" message. */
  lemma {:induction false} HostPortInRange(t: string)
    ensures HostPortIn(t).Ok? ==> 0 <= HostPortIn(t).value.port <= 65535
    ensures HostPortIn(t).Err? ==> HostPortIn(t).error == NO_HOST_PORT
    decreases |t|
  {
    match Find(t)
    case None =>
      HostPortInNone(t);
    case Some(f) =>
      FindSound(t);
      assert |f.m.fields| == 6 && 0 < f.m.len by { FieldsSound(t[f.start..], 5); }
      if Octets(f.m.fields) {
        HostPortInTakes(t, f);
      } else {
        HostPortInSkips(t, f);
        HostPortInRange(t[f.start + f.m.len..]);
      }
  }

  /** The inner loop: whether every number of the match is at most 255. */
  method InOctetRange(fs: seq<string>) returns (correct: bool)
    requires |fs| == 6
    ensures correct <==> Octets(fs)
  {
    correct := true;
    var i := 0;
    while i < 6
      invariant 0 <= i <= 6
      invariant correct <==> forall j :: 0 <= j < i ==> Value(fs[j]) <= 255
    {
      var n := Value(fs[i]);
      if !(0 <= n && n <= 255) {
        correct := false;
        break;
      }
      i := i + 1;
    }
  }

  /** The host string built as the client builds it: three numbers each with a dot, then one. */
  method BuildHost(fs: seq<string>) returns (host: string)
    requires |fs| == 6
    ensures host == HostOf(fs)
  {
    host := "";
    var i := 0;
    while i < 3
      invariant 0 <= i <= 3
      invariant host == Dotted(fs, i)
    {
      host := host + fs[i] + ".";
      i := i + 1;
    }
    host := host + fs[3];
  }

  /** `Parse.getHostPort`, loop by loop. */
  method GetHostPort(reply: string) returns (r: Result<HostPort, Failure>)
    ensures r == HostPortIn(reply)
  {
    var rest := reply;  // the text `find` has not yet passed over
    while true
      invariant HostPortIn(rest) == HostPortIn(reply)
      decreases |rest|
    {
      var found := Find(rest);
      if found.None? {
        HostPortInNone(rest);
        return Err(NO_HOST_PORT);
      }
      var f := found.value;
      FoundShape(rest, f);
      var correct := InOctetRange(f.m.fields);
      if correct {
        var host := BuildHost(f.m.fields);
        HostPortInTakes(rest, f);
        return Ok(HostPort(host, PortOf(f.m.fields)));
      }
      HostPortInSkips(rest, f);
      rest := rest[f.start + f.m.len..];
    }
  }

  // ---------------------------------------------------------------------------
  // What a PASV reply decodes to
  // ---------------------------------------------------------------------------

  /** The numbers written with commas between them, followed by `rest`. */
  function Group(fs: seq<string>, rest: string): (g: string)
    requires |fs| > 0
    ensures |g| >= |rest|
    decreases |fs|
  {
    if |fs| == 1 then fs[0] + rest else fs[0] + "," + Group(fs[1..], rest)
  }

  /** The text after the numbers is a suffix of the group. */
  lemma {:induction false} GroupEndsWith(fs: seq<string>, rest: string)
    requires |fs| > 0
    ensures Group(fs, rest)[|Group(fs, rest)| - |rest|..] == rest
    decreases |fs|
  {
    if |fs| > 1 {
      GroupEndsWith(fs[1..], rest);
    }
  }

  /** Text that cannot continue a digit run. */
  predicate NoDigitFirst(t: string) { t == [] || !IsDigit(t[0]) }

  lemma {:induction false} DigitRunOf(d: string, rest: string)
    requires AllDigits(d) && NoDigitFirst(rest)
    ensures DigitRun(d + rest) == |d|
    decreases |d|
  {
    if d != [] {
      assert (d + rest)[1..] == d[1..] + rest;
      DigitRunOf(d[1..], rest);
    } else {
      assert d + rest == rest;
    }
  }

  /** The last number of a match: its digits, then text that is not a digit. */
  lemma {:induction false} FieldsLast(d: string, rest: string)
    requires 1 <= |d| <= 3 && AllDigits(d) && NoDigitFirst(rest)
    ensures Fields(d + rest, 0) == Some(Match([d], |d|))
  {
    DigitRunOf(d, rest);
    assert (d + rest)[..|d|] == d;
  }

  /** A number of at most three digits and a comma in front of a match of the remaining numbers. */
  lemma {:induction false} FieldsCons(t: string, k: nat, n: nat, m: Match)
    requires 0 < n <= 3 && n < |t| && DigitRun(t) == n && t[n] == ',' && k > 0
    requires Fields(t[n + 1..], k - 1) == Some(m)
    ensures Fields(t, k) == Some(Match([t[..n]] + m.fields, n + 1 + m.len))
  {
  }

  /** g is the numbers fs written with commas between them, followed by rest, read slice by slice. */
  predicate Grouped(g: string, fs: seq<string>, rest: string)
    requires |fs| > 0
    decreases |fs|
  {
    if |fs| == 1 then g == fs[0] + rest
    else |fs[0]| < |g| && g[..|fs[0]|] == fs[0] && g[|fs[0]|] == ',' && Grouped(g[|fs[0]| + 1..], fs[1..], rest)
  }

  lemma {:induction false} GroupGrouped(fs: seq<string>, rest: string)
    requires |fs| > 0
    ensures Grouped(Group(fs, rest), fs, rest)
    decreases |fs|
  {
    if |fs| > 1 {
      GroupGrouped(fs[1..], rest);
      GroupCons(fs, rest);
      var d, u := fs[0], Group(fs[1..], rest);
      assert Group(fs, rest) == d + ("," + u);
      assert Group(fs, rest)[..|d|] == d && Group(fs, rest)[|d| + 1..] == u;
    }
  }

  /** Written-out numbers followed by a non-digit match as exactly those numbers. */
  lemma {:induction false} FieldsOfGroup(fs: seq<string>, rest: string, k: nat)
    requires |fs| == k + 1 && NumberFields(fs) && NoDigitFirst(rest)
    ensures Fields(Group(fs, rest), k) == Some(Match(fs, |Group(fs, rest)| - |rest|))
  {
    var g := Group(fs, rest);
    assert Grouped(g, fs, rest) by {
      GroupGrouped(fs, rest);
    }
    FieldsOfGrouped(g, fs, rest, k);
    assert Fields(g, k) == Some(Match(fs, |g| - |rest|));
  }

  lemma {:induction false} FieldsOfGrouped(g: string, fs: seq<string>, rest: string, k: nat)
    requires |fs| == k + 1 && NumberFields(fs) && NoDigitFirst(rest) && Grouped(g, fs, rest)
    ensures |g| >= |rest| && Fields(g, k) == Some(Match(fs, |g| - |rest|))
    decreases k
  {
    var d := fs[0];
    if k == 0 {
      assert fs == [d];
      FieldsLast(d, rest);
    } else {
      var u := g[|d| + 1..];
      FieldsOfGrouped(u, fs[1..], rest, k - 1);
      FieldsOfHead(g, fs, u, rest, k);
    }
  }

  /** The digit run of text that starts with digits d and a comma is d. */
  lemma {:induction false} DigitsThenComma(g: string, d: string)
    requires AllDigits(d) && |d| < |g| && g[..|d|] == d && g[|d|] == ','
    ensures DigitRun(g) == |d|
  {
    assert g == d + g[|d|..];
    DigitRunOf(d, g[|d|..]);
  }

  /** Text that starts with the first number and a comma, followed by a match of the others. */
  lemma {:induction false} FieldsOfHead(g: string, fs: seq<string>, u: string, rest: string, k: nat)
    requires |fs| >= 2 && 0 < |fs[0]| <= 3 && |fs[0]| < |g| && k > 0 && |u| >= |rest|
    requires AllDigits(fs[0]) && g[..|fs[0]|] == fs[0] && g[|fs[0]|] == ',' && g[|fs[0]| + 1..] == u
    requires Fields(u, k - 1) == Some(Match(fs[1..], |u| - |rest|))
    ensures Fields(g, k) == Some(Match(fs, |g| - |rest|))
  {
    DigitsThenComma(g, fs[0]);
    FieldsCons(g, k, |fs[0]|, Match(fs[1..], |u| - |rest|));
    assert [fs[0]] + fs[1..] == fs;
  }

  lemma {:induction false} GroupCons(fs: seq<string>, rest: string)
    requires |fs| >= 2
    ensures Group(fs, rest) == fs[0] + "," + Group(fs[1..], rest)
  {
  }

  /** A digit run that starts inside text ending in a non-digit stays inside it. */
  lemma {:induction false} DigitRunStaysIn(a: string, b: string)
    requires a != [] && !IsDigit(a[|a| - 1])
    ensures DigitRun(a + b) == DigitRun(a) < |a|
    decreases |a|
  {
    if |a| > 1 && IsDigit(a[0]) {
      assert (a + b)[1..] == a[1..] + b;
      DigitRunStaysIn(a[1..], b);
    }
  }

  /** Text before the numbers that holds no comma and does not end in a digit. */
  predicate QuietPrefix(prefix: string)
  {
    (forall i :: 0 <= i < |prefix| ==> prefix[i] != ',') && (prefix == [] || !IsDigit(prefix[|prefix| - 1]))
  }

  /** No match can start inside a quiet prefix. */
  lemma {:induction false} NoMatchInPrefix(prefix: string, u: string, q: nat)
    requires QuietPrefix(prefix) && q < |prefix|
    ensures Fields((prefix + u)[q..], 5).None?
  {
    var t := (prefix + u)[q..];
    assert t == prefix[q..] + u;
    DigitRunStaysIn(prefix[q..], u);
    var n := DigitRun(t);
    assert n > 0 ==> t[n] == prefix[q + n] != ',';
  }

  lemma {:induction false} NothingInPrefix(prefix: string, u: string)
    requires QuietPrefix(prefix)
    ensures forall p :: 0 <= p < |prefix| ==> Fields((prefix + u)[p..], 5).None?
  {
    forall p | 0 <= p < |prefix|
      ensures Fields((prefix + u)[p..], 5).None?
    {
      NoMatchInPrefix(prefix, u, p);
    }
  }

  /** A match right after a quiet prefix is the first one found. */
  lemma {:induction false} FindAfterQuiet(prefix: string, g: string, m: Match)
    requires QuietPrefix(prefix) && Fields(g, 5) == Some(m)
    ensures Find(prefix + g) == Some(Found(|prefix|, m))
  {
    var s := prefix + g;
    assert s[|prefix|..] == g;
    NothingInPrefix(prefix, g);
    FindFirst(s, |prefix|, m);
  }

  /** The match found after a quiet prefix is the written-out group g. */
  lemma {:induction false} FindAfterPrefix(prefix: string, fs: seq<string>, rest: string, g: string)
    requires QuietPrefix(prefix) && |fs| == 6 && NumberFields(fs) && NoDigitFirst(rest)
    requires g == Group(fs, rest)
    ensures Find(prefix + g) == Some(Found(|prefix|, Match(fs, |g| - |rest|)))
  {
    WholeGroupMatches(fs, rest, g, 5);
    FindAfterQuiet(prefix, g, Match(fs, |g| - |rest|));
  }

  /** No match: no address. */
  lemma {:induction false} HostPortInNone(t: string)
    requires Find(t) == None
    ensures HostPortIn(t) == Err(NO_HOST_PORT)
  {
  }

  /** A first match whose numbers are octets is the address. */
  lemma {:induction false} HostPortInTakes(t: string, f: Found)
    requires Find(t) == Some(f) && |f.m.fields| == 6 && 0 < f.m.len && f.start + f.m.len <= |t|
    requires Octets(f.m.fields)
    ensures HostPortIn(t) == Ok(HostPort(HostOf(f.m.fields), PortOf(f.m.fields)))
  {
  }

  /** A first match holding a number above 255 is skipped. */
  lemma {:induction false} HostPortInSkips(t: string, f: Found)
    requires Find(t) == Some(f) && |f.m.fields| == 6 && 0 < f.m.len && f.start + f.m.len <= |t|
    requires !Octets(f.m.fields)
    ensures HostPortIn(t) == HostPortIn(t[f.start + f.m.len..])
  {
    assert HostPortIn(t) == HostPortAfter(t, Some(f));
    AfterSkips(t, f);
  }

  /** The skip once `find`'s answer is known. */
  lemma {:induction false} AfterSkips(t: string, f: Found)
    requires |f.m.fields| == 6 && 0 < f.m.len && f.start + f.m.len <= |t|
    requires !Octets(f.m.fields)
    ensures HostPortAfter(t, Some(f)) == HostPortIn(t[f.start + f.m.len..])
  {
  }

  /** A valid group after a quiet prefix is the address `getHostPort` returns. */
  lemma {:induction false} ValidGroupTaken(prefix: string, fs: seq<string>, rest: string, g: string)
    requires QuietPrefix(prefix) && |fs| == 6 && NumberFields(fs) && NoDigitFirst(rest)
    requires g == Group(fs, rest) && Octets(fs)
    ensures HostPortIn(prefix + g) == Ok(HostPort(HostOf(fs), PortOf(fs)))
  {
    var t, f := prefix + g, Found(|prefix|, Match(fs, |g| - |rest|));
    assert Find(t) == Some(f) by {
      FindAfterPrefix(prefix, fs, rest, g);
    }
    GroupLength(fs, rest, g);
    HostPortInTakes(t, f);
  }

  /** The group ends with `rest`. */
  lemma {:induction false} GroupLength(fs: seq<string>, rest: string, g: string)
    requires |fs| >= 2 && g == Group(fs, rest)
    ensures |g| - |rest| > 0 && g[|g| - |rest|..] == rest
  {
    GroupEndsWith(fs, rest);
  }

  /** A group holding a number above 255 is skipped: the search goes on after it. */
  lemma {:induction false} InvalidGroupSkipped(prefix: string, fs: seq<string>, rest: string, g: string)
    requires QuietPrefix(prefix) && |fs| == 6 && NumberFields(fs) && NoDigitFirst(rest)
    requires g == Group(fs, rest) && !Octets(fs)
    ensures HostPortIn(prefix + g) == HostPortIn(rest)
  {
    var t, f := prefix + g, Found(|prefix|, Match(fs, |g| - |rest|));
    assert Find(t) == Some(f) by {
      FindAfterPrefix(prefix, fs, rest, g);
    }
    GroupLength(fs, rest, g);
    assert t[f.start + f.m.len..] == rest;
    HostPortInSkips(t, f);
  }

  lemma {:induction false} DecimalAtMostThree(n: nat)
    requires n < 1000
    ensures 1 <= |NatToDecimal(n)| <= 3
  {
    if n >= 10 {
      assert |NatToDecimal(n)| == |NatToDecimal(n / 10)| + 1;
      if n / 10 >= 10 {
        assert |NatToDecimal(n / 10)| == |NatToDecimal(n / 100)| + 1;
      }
    }
  }

  /** The six numbers of an address written in decimal. */
  function Written(h1: nat, h2: nat, h3: nat, h4: nat, p1: nat, p2: nat): seq<string>
  {
    [NatToDecimal(h1), NatToDecimal(h2), NatToDecimal(h3), NatToDecimal(h4), NatToDecimal(p1), NatToDecimal(p2)]
  }

  lemma {:induction false} WrittenNumbers(h1: nat, h2: nat, h3: nat, h4: nat, p1: nat, p2: nat)
    requires h1 < 1000 && h2 < 1000 && h3 < 1000 && h4 < 1000 && p1 < 1000 && p2 < 1000
    ensures NumberFields(Written(h1, h2, h3, h4, p1, p2))
    ensures var fs := Written(h1, h2, h3, h4, p1, p2);
            && Value(fs[0]) == h1 && Value(fs[1]) == h2 && Value(fs[2]) == h3
            && Value(fs[3]) == h4 && Value(fs[4]) == p1 && Value(fs[5]) == p2
  {
    var fs := Written(h1, h2, h3, h4, p1, p2);
    assert NumberFields(fs) by {
      DecimalAtMostThree(h1); DecimalAtMostThree(h2); DecimalAtMostThree(h3);
      DecimalAtMostThree(h4); DecimalAtMostThree(p1); DecimalAtMostThree(p2);
      forall i | 0 <= i < |fs|
        ensures 1 <= |fs[i]| <= 3 && AllDigits(fs[i])
      {
        if i == 0 {} else if i == 1 {} else if i == 2 {} else if i == 3 {} else if i == 4 {}
      }
      ShortDigitRunsAreNumbers(fs);
    }
    DecimalRoundTrip(h1); DecimalRoundTrip(h2); DecimalRoundTrip(h3);
    DecimalRoundTrip(h4); DecimalRoundTrip(p1); DecimalRoundTrip(p2);
  }

  /** A list of one- to three-digit strings is a list of matched numbers. */
  lemma {:induction false} ShortDigitRunsAreNumbers(fs: seq<string>)
    requires forall i :: 0 <= i < |fs| ==> 1 <= |fs[i]| <= 3 && AllDigits(fs[i])
    ensures NumberFields(fs)
    decreases |fs|
  {
    if fs != [] {
      ShortDigitRunsAreNumbers(fs[1..]);
    }
  }

  /** Six written numbers are an address exactly when each is below 256. */
  lemma {:induction false} WrittenOctets(h1: nat, h2: nat, h3: nat, h4: nat, p1: nat, p2: nat)
    requires h1 < 1000 && h2 < 1000 && h3 < 1000 && h4 < 1000 && p1 < 1000 && p2 < 1000
    ensures Octets(Written(h1, h2, h3, h4, p1, p2))
        <==> h1 < 256 && h2 < 256 && h3 < 256 && h4 < 256 && p1 < 256 && p2 < 256
  {
    var fs := Written(h1, h2, h3, h4, p1, p2);
    WrittenNumbers(h1, h2, h3, h4, p1, p2);
    if h1 < 256 && h2 < 256 && h3 < 256 && h4 < 256 && p1 < 256 && p2 < 256 {
      forall i | 0 <= i < |fs|
        ensures Value(fs[i]) <= 255
      {
        if i == 0 {} else if i == 1 {} else if i == 2 {} else if i == 3 {} else if i == 4 {}
      }
    }
  }

  /** Six valid numbers after a quiet prefix are read as host `a.b.c.d` and port p1 * 256 + p2. */
  lemma {:induction false} GroupDecodes(prefix: string, fs: seq<string>, suffix: string, reply: string)
    requires QuietPrefix(prefix) && NoDigitFirst(suffix)
    requires |fs| == 6 && NumberFields(fs) && Octets(fs)
    requires reply == prefix + Group(fs, suffix)
    ensures HostPortIn(reply) == Ok(HostPort(fs[0] + "." + fs[1] + "." + fs[2] + "." + fs[3],
                                             Value(fs[4]) * 256 + Value(fs[5])))
  {
    assert HostPortIn(reply) == Ok(HostPort(HostOf(fs), PortOf(fs))) by {
      ValidGroupTaken(prefix, fs, suffix, Group(fs, suffix));
    }
    HostIsDotted(fs);
    assert PortOf(fs) == Value(fs[4]) * 256 + Value(fs[5]);
    assert HostPort(HostOf(fs), PortOf(fs)) == HostPort(fs[0] + "." + fs[1] + "." + fs[2] + "." + fs[3],
                                             Value(fs[4]) * 256 + Value(fs[5]));
  }

  lemma {:induction false} HostIsDotted(fs: seq<string>)
    requires |fs| == 6
    ensures HostOf(fs) == fs[0] + "." + fs[1] + "." + fs[2] + "." + fs[3]
  {
    assert Dotted(fs, 1) == fs[0] + ".";
    assert Dotted(fs, 2) == fs[0] + "." + fs[1] + ".";
  }

  /**
   * A PASV reply such as `227 Entering Passive Mode (h1,h2,h3,h4,p1,p2).` decodes to host
   * `h1.h2.h3.h4` and port p1 * 256 + p2.
   */
  lemma {:induction false} PasvReplyDecodes(prefix: string, h1: nat, h2: nat, h3: nat, h4: nat, p1: nat, p2: nat, suffix: string, reply: string)
    requires QuietPrefix(prefix) && NoDigitFirst(suffix)
    requires h1 < 256 && h2 < 256 && h3 < 256 && h4 < 256 && p1 < 256 && p2 < 256
    requires reply == prefix + Group(Written(h1, h2, h3, h4, p1, p2), suffix)
    ensures HostPortIn(reply)
         == Ok(HostPort(NatToDecimal(h1) + "." + NatToDecimal(h2) + "." + NatToDecimal(h3) + "."
                        + NatToDecimal(h4), p1 * 256 + p2))
  {
    var fs := Written(h1, h2, h3, h4, p1, p2);
    WrittenNumbers(h1, h2, h3, h4, p1, p2);
    WrittenOctets(h1, h2, h3, h4, p1, p2);
    GroupDecodes(prefix, fs, suffix, reply);
    var host := NatToDecimal(h1) + "." + NatToDecimal(h2) + "." + NatToDecimal(h3) + "." + NatToDecimal(h4);
    assert fs[0] + "." + fs[1] + "." + fs[2] + "." + fs[3] == host;
    assert Value(fs[4]) * 256 + Value(fs[5]) == p1 * 256 + p2;
    assert HostPort(fs[0] + "." + fs[1] + "." + fs[2] + "." + fs[3], Value(fs[4]) * 256 + Value(fs[5]))
        == HostPort(host, p1 * 256 + p2);
  }

  /** Numbers followed by a comma and one more number are the longer group. */
  lemma {:induction false} GroupExtend(fs: seq<string>, x: string, rest: string)
    requires |fs| > 0
    ensures Group(fs, "," + x + rest) == Group(fs + [x], rest)
    decreases |fs|
  {
    assert (fs + [x])[0] == fs[0];
    if |fs| == 1 {
      assert (fs + [x])[1..] == [x];
    } else {
      assert (fs + [x])[1..] == fs[1..] + [x];
      GroupExtend(fs[1..], x, rest);
    }
  }

  /**
   * The search resumes after a skipped match, so a valid group overlapping it is missed:
   * in `256,1,2,3,4,5,6)` the match `256,1,2,3,4,5` is rejected, the search goes on at
   * `,6)`, and the group `1,2,3,4,5,6` written after the first comma is never tried
   * (`WholeGroupMatches` shows such a group matches where it starts).
   */
  lemma {:induction false} OverlappingGroupMissed(bad: seq<string>, d: string, suffix: string, s: string)
    requires |bad| == 6 && NumberFields(bad) && !Octets(bad)
    requires 1 <= |d| <= 3 && AllDigits(d) && NoDigitFirst(suffix) && |suffix| < 7
    requires s == Group(bad, "," + d + suffix)
    ensures HostPortIn(s) == Err(NO_HOST_PORT)
    ensures |bad[0]| + 1 <= |s| && s[|bad[0]| + 1..] == Group(bad[1..] + [d], suffix)
    ensures NumberFields(bad[1..] + [d])
  {
    RejectedGroupLeavesNothing(bad, "," + d + suffix, s);
    GroupAfterFirst(bad, d, suffix, bad[1..] + [d], s);
    NumberFieldsSnoc(bad[1..], d);
  }

  /** A number below 1000 may be appended to a list of matched numbers. */
  lemma {:induction false} NumberFieldsSnoc(fs: seq<string>, d: string)
    requires NumberFields(fs) && 1 <= |d| <= 3 && AllDigits(d)
    ensures NumberFields(fs + [d])
    decreases |fs|
  {
    if fs == [] {
      assert ([] + [d])[1..] == [];
    } else {
      NumberFieldsSnoc(fs[1..], d);
      assert (fs + [d])[1..] == fs[1..] + [d];
    }
  }

  /** Six numbers and the text after them match from the front. */
  lemma {:induction false} WholeGroupMatches(fs: seq<string>, rest: string, g: string, k: nat)
    requires |fs| == k + 1 && NumberFields(fs) && NoDigitFirst(rest) && g == Group(fs, rest)
    ensures Fields(g, k) == Some(Match(fs, |g| - |rest|))
  {
    FieldsOfGroup(fs, rest, k);
  }

  /** A rejected group followed by text too short for another leaves no address. */
  lemma {:induction false} RejectedGroupLeavesNothing(bad: seq<string>, rest: string, s: string)
    requires |bad| == 6 && NumberFields(bad) && !Octets(bad)
    requires NoDigitFirst(rest) && |rest| < 11 && s == Group(bad, rest)
    ensures HostPortIn(s) == Err(NO_HOST_PORT)
  {
    assert "" + s == s;
    InvalidGroupSkipped("", bad, rest, s);
    ShortTextHasNoAddress(rest);
  }

  /** After the first number and its comma, a group ending in `,d` is the group of the rest and d. */
  lemma {:induction false} GroupAfterFirst(fs: seq<string>, d: string, rest: string, good: seq<string>, s: string)
    requires |fs| >= 2 && good == fs[1..] + [d] && s == Group(fs, "," + d + rest)
    ensures |fs[0]| + 1 <= |s| && s[|fs[0]| + 1..] == Group(good, rest)
  {
    GroupCons(fs, "," + d + rest);
    GroupExtend(fs[1..], d, rest);
  }

  // ---------------------------------------------------------------------------
  // Integer.parseInt
  // ---------------------------------------------------------------------------

  /**
   * `Integer.parseInt` on ASCII text: an optional sign, then at least one digit, with the
   * value in the 32-bit range; anything else throws `NumberFormatException` (`None`).
   */
  function ParseInt(s: string): (r: Option<int>)
    ensures r.Some? ==> IsInt32(r.value)
    ensures r.Some? ==> |s| > 0
  {
    if |s| > 0 && (s[0] == '-' || s[0] == '+') then
      var d := s[1..];
      if |d| == 0 || !AllDigits(d) then None
      else
        var m: int := DecimalValue(d);
        var v := if s[0] == '-' then -m else m;
        if IsInt32(v) then Some(v) else None
    else if |s| == 0 || !AllDigits(s) then None
    else if IsInt32(DecimalValue(s)) then Some(DecimalValue(s))
    else None
  }

  /** Decimal text of a value in range parses back to that value. */
  lemma {:induction false} ParseIntOfDecimal(n: nat)
    requires n < 0x8000_0000
    ensures ParseInt(NatToDecimal(n)) == Some(n)
  {
    DecimalRoundTrip(n);
  }

  /** Text with a character other than a sign or a digit does not parse. */
  lemma {:induction false} ParseIntRejects(s: string, i: nat)
    requires i < |s| && !IsDigit(s[i]) && (i > 0 || (s[0] != '-' && s[0] != '+'))
    ensures ParseInt(s) == None
  {
    if s[0] == '-' || s[0] == '+' {
      assert !IsDigit(s[1..][i - 1]);
    }
  }
}
