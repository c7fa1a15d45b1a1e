/**
 * The request side of the proxy's parser: the pointer scanners over a
 * NUL-terminated request, `check_GET_and_get_resource`,
 * `read_to_after_empty_line` and `get_port`.
 *
 * A C string is modelled by the memory it occupies: its characters and the
 * terminating NUL (`z`, with `Terminated(z)`). A pointer is an index into
 * `z`. An index at |z| or beyond, or below 0, is a read outside the string;
 * the functions modelled as written report such a read instead of making it.
 */
module HttpRequest {
  import opened Common
  import HttpReader

  /** The memory of the C string s: its characters, then the terminating NUL. */
  function Z(s: string): string { s + ['\0'] }

  /** Memory that ends at a NUL, so that every scan below stops inside it. */
  predicate Terminated(z: string) { |z| > 0 && z[|z| - 1] == '\0' }

  // ---------------------------------------------------------------------------
  // Pointer scanners
  // ---------------------------------------------------------------------------

  /**
   * What a scanner stops at: `read_till_space` at a blank or the NUL,
   * `read_till_non_space` at anything but a blank (the NUL included),
   * `read_to_new_line` at a line feed or the NUL.
   */
  datatype Halt = AtBlank | AtNonBlank | AtLineEnd

  predicate Halts(c: char, h: Halt)
  {
    match h
    case AtBlank => HttpReader.IsSpace(c) || c == '\0'
    case AtNonBlank => !HttpReader.IsSpace(c)
    case AtLineEnd => c == '\n' || c == '\0'
  }

  /** No character of w stops the scan h. */
  predicate NoHalt(w: string, h: Halt) { forall k :: 0 <= k < |w| ==> !Halts(w[k], h) }

  /** Where a scan for h from index i stops: the first stopping character, at the NUL at the latest. */
  function Scan(z: string, i: nat, h: Halt): (j: nat)
    requires Terminated(z) && i < |z|
    ensures i <= j < |z| && Halts(z[j], h)
    decreases |z| - i
  {
    if Halts(z[i], h) then i else Scan(z, i + 1, h)
  }

  /** Nothing the scan passes over stops it: the stop `Scan` reports is the first one. */
  lemma {:induction false} ScanFirst(z: string, i: nat, h: Halt, k: nat)
    requires Terminated(z) && i < |z| && i <= k < Scan(z, i, h)
    ensures !Halts(z[k], h)
    decreases k - i
  {
    if k > i {
      ScanFirst(z, i + 1, h, k);
    }
  }

  /** A scan from index i, where w is found, holds no stop and is followed by one, stops right after w. */
  lemma {:induction false} ScanOver(z: string, i: nat, w: string, h: Halt)
    requires Terminated(z) && i + |w| < |z| && z[i..i + |w|] == w
    requires NoHalt(w, h) && Halts(z[i + |w|], h)
    ensures Scan(z, i, h) == i + |w|
    decreases |w|
  {
    if |w| > 0 {
      assert z[i] == w[0];
      assert z[i + 1..i + |w|] == w[1..];
      ScanOver(z, i + 1, w[1..], h);
    }
  }

  /** `read_till_space`: the index of the first blank or the NUL from i. */
  method ReadTillSpace(z: string, i: nat) returns (j: nat)
    requires Terminated(z) && i < |z|
    ensures j == Scan(z, i, AtBlank)
  {
    j := i;
    while !HttpReader.IsSpace(z[j]) && z[j] != '\0'
      invariant i <= j < |z| && Scan(z, j, AtBlank) == Scan(z, i, AtBlank)
      decreases |z| - j
    {
      j := j + 1;
    }
  }

  /** `read_till_non_space`: the index of the first character from i that is not a blank. */
  method ReadTillNonSpace(z: string, i: nat) returns (j: nat)
    requires Terminated(z) && i < |z|
    ensures j == Scan(z, i, AtNonBlank)
  {
    j := i;
    while HttpReader.IsSpace(z[j]) && z[j] != '\0'
      invariant i <= j < |z| && Scan(z, j, AtNonBlank) == Scan(z, i, AtNonBlank)
      decreases |z| - j
    {
      j := j + 1;
    }
  }

  /**
   * `read_to_new_line`: one past the first line feed or NUL from i. Past a
   * NUL it points outside the string.
   */
  method ReadToNewLine(z: string, i: nat) returns (j: nat)
    requires Terminated(z) && i < |z|
    ensures j == Scan(z, i, AtLineEnd) + 1
  {
    j := i;
    while z[j] != '\n' && z[j] != '\0'
      invariant i <= j < |z| && Scan(z, j, AtLineEnd) == Scan(z, i, AtLineEnd)
      decreases |z| - j
    {
      j := j + 1;
    }
    j := j + 1;
  }

  // ---------------------------------------------------------------------------
  // Request text
  // ---------------------------------------------------------------------------

  /** Header lines, each ended by CRLF. */
  function Lines(hs: seq<string>): (r: string)
    ensures |hs| > 0 ==> |r| >= 2 && r[|r| - 1] == '\n'
  {
    if |hs| == 0 then [] else hs[0] + "\r\n" + Lines(hs[1..])
  }

  /**
   * A header line that neither ends the header block nor names the host:
   * not empty, not starting with CR, no line feed or NUL, and not a "Host:" line.
   */
  predicate PlainLine(h: string)
  {
    |h| > 0 && h[0] != '\r' && NoHalt(h, AtLineEnd) && !IsPrefix("Host:", h)
  }

  /** The resource of a request line: a non-empty token with no blank, CR at its start, line feed or NUL. */
  predicate Token(r: string)
  {
    |r| > 0 && r[0] != '\r' && NoHalt(r, AtBlank) && NoHalt(r, AtLineEnd)
  }

  /** A GET request: the request line, then header lines, then the rest. */
  function Request(resource: string, version: string, hs: seq<string>, rest: string): string
  {
    "GET " + resource + " " + version + "\r\n" + Lines(hs) + rest
  }

  /** The lines of Lines(hs) carry no NUL. */
  lemma {:induction false} LinesNoNul(hs: seq<string>)
    requires forall i :: 0 <= i < |hs| ==> NoHalt(hs[i], AtLineEnd)
    ensures NoNul(Lines(hs))
    decreases |hs|
  {
    if |hs| > 0 {
      LinesNoNul(hs[1..]);
      var h := hs[0];
      assert NoNul(h) by {
        forall k | 0 <= k < |h| ensures h[k] != '\0' {
          assert !Halts(h[k], AtLineEnd);
        }
      }
    }
  }

  /** A line that does not start with "Host:" does not start it once CRLF and more follow. */
  lemma NotHostLine(h: string, rest: string)
    requires !IsPrefix("Host:", h)
    ensures !IsPrefix("Host:", h + "\r\n" + rest)
  {
    var t := h + "\r\n" + rest;
    if |h| >= 5 {
      assert t[..5] == h[..5];
    } else if |t| >= 5 {
      assert t[|h|] == '\r';
      assert t[..5][|h|] == '\r';
    }
  }

  // ---------------------------------------------------------------------------
  // check_GET_and_get_resource
  // ---------------------------------------------------------------------------

  /**
   * The outcome of `check_GET_and_get_resource`: the host and resource, or
   * IS_NOT_GET, or NO_HOST; `PastEnd` when, as written, it reads beyond the
   * terminating NUL.
   */
  datatype GetResult = Got(host: string, resource: string) | NotGet | NoHost | PastEnd

  /** Where the search for the "Host:" line ends: at the line found, with none, or past the terminator. */
  datatype HostSearch = HostAt(line: nat) | NoHostLine | RanPastEnd

  /** The line at p ends the header block: an empty line (LF or CRLF), or the end of the string. */
  predicate EndsHeaders(z: string, p: nat)
    requires Terminated(z) && p < |z|
  {
    z[p] == '\n' || z[p] == '\0' || (z[p] == '\r' && z[p + 1] == '\n')
  }

  /**
   * The host-line search from the line at p (first the request line), in
   * the corrected form: it stops at the empty line that ends the headers
   * and at the terminator, and otherwise checks the next line for "Host:".
   */
  function FindHost(z: string, p: nat): (r: HostSearch)
    requires Terminated(z) && p < |z|
    ensures r != RanPastEnd
    decreases |z| - p, 0
  {
    if EndsHeaders(z, p) then NoHostLine
    else
      var q := Scan(z, p, AtLineEnd) + 1;
      if z[q - 1] == '\0' then NoHostLine else HostCheck(z, q)
  }

  /** The check at the start q of a line: a "Host:" line ends the search; any other line continues it. */
  function HostCheck(z: string, q: nat): (r: HostSearch)
    requires Terminated(z) && 0 < q <= |z| && z[q - 1] == '\n'
    ensures r != RanPastEnd
    decreases |z| - q, 1
  {
    if IsPrefix("Host:", z[q..]) then HostAt(q) else FindHost(z, q)
  }

  /**
   * The search as written: a CRLF empty line is not recognised (the test
   * is for CR CR), the terminator is not either, and the pointer one past
   * a NUL is read.
   */
  function FindHostAsWritten(z: string, p: nat): HostSearch
    requires Terminated(z) && p < |z|
    decreases |z| - p, 0
  {
    if z[p] == '\n' || (z[p] == '\r' && z[p + 1] == '\r') then NoHostLine
    else HostCheckAsWritten(z, Scan(z, p, AtLineEnd) + 1)
  }

  function HostCheckAsWritten(z: string, q: nat): HostSearch
    requires Terminated(z) && 0 < q <= |z|
    decreases |z| - q, 1
  {
    if q == |z| then RanPastEnd
    else if IsPrefix("Host:", z[q..]) then HostAt(q)
    else FindHostAsWritten(z, q)
  }

  /** Either search, when it finds a line, finds a "Host:" line after p. */
  lemma {:induction false} SearchFound(z: string, p: nat)
    requires Terminated(z) && p < |z|
    ensures var r := FindHost(z, p); r.HostAt? ==> p < r.line < |z| && IsPrefix("Host:", z[r.line..])
    ensures var r := FindHostAsWritten(z, p); r.HostAt? ==> p < r.line < |z| && IsPrefix("Host:", z[r.line..])
    decreases |z| - p
  {
    var q := Scan(z, p, AtLineEnd) + 1;
    if q < |z| && !IsPrefix("Host:", z[q..]) {
      SearchFound(z, q);
    }
  }

  /** The character before the value of a "Host:" line is ':' or a blank, never CR. */
  lemma BeforeValue(z: string, q: nat)
    requires Terminated(z) && q < |z| && IsPrefix("Host:", z[q..])
    ensures q + 5 < |z| && q + 5 <= Scan(z, q + 5, AtNonBlank)
    ensures z[Scan(z, q + 5, AtNonBlank) - 1] != '\r'
  {
    assert z[q + 4] == z[q..][..5][4] == ':';
    var a := Scan(z, q + 5, AtNonBlank);
    if a > q + 5 {
      ScanFirst(z, q + 5, AtNonBlank, a - 1);
    }
  }

  /**
   * The host named by the "Host:" line at q: after the name and any
   * blanks, up to the line feed, less one CR before it.
   */
  function HostValue(z: string, q: nat): string
    requires Terminated(z) && q < |z| && IsPrefix("Host:", z[q..])
  {
    BeforeValue(z, q);
    var a := Scan(z, q + 5, AtNonBlank);
    var e := Scan(z, a, AtLineEnd);
    var end := if z[e - 1] == '\r' then e - 1 else e;
    z[a..end]
  }

  /**
   * `check_GET_and_get_resource`, corrected: IS_NOT_GET unless the request
   * starts "GET "; otherwise the resource is the token after it and the
   * host the value of the first "Host:" line before the end of the headers,
   * or NO_HOST when there is none.
   */
  function GetRequest(s: string): (r: GetResult)
    requires NoNul(s)
    ensures r == NotGet <==> !IsPrefix("GET ", s)
    ensures r != PastEnd
  {
    if !IsPrefix("GET ", s) then NotGet
    else
      var z := Z(s);
      var a := Scan(z, 4, AtNonBlank);
      var resource := z[a..Scan(z, a, AtBlank)];
      SearchFound(z, a);
      var found := FindHost(z, a);
      if found.HostAt? then Got(HostValue(z, found.line), resource) else NoHost
  }

  /** A slice of a terminated request that ends before the terminator holds no NUL. */
  lemma SliceNoNul(s: string, a: nat, b: nat)
    requires NoNul(s) && a <= b <= |s|
    ensures NoNul(Z(s)[a..b])
  {
    forall k | 0 <= k < b - a
      ensures Z(s)[a..b][k] != '\0'
    {
      assert Z(s)[a..b][k] == s[a + k];
    }
  }

  /** The host and the resource found in a request without NUL hold no NUL. */
  lemma GotNoNul(s: string)
    requires NoNul(s)
    ensures GetRequest(s).Got? ==> NoNul(GetRequest(s).host) && NoNul(GetRequest(s).resource)
  {
    if IsPrefix("GET ", s) {
      var z := Z(s);
      var a := Scan(z, 4, AtNonBlank);
      SliceNoNul(s, a, Scan(z, a, AtBlank));
      SearchFound(z, a);
      var found := FindHost(z, a);
      if found.HostAt? {
        var q := found.line;
        BeforeValue(z, q);
        var b := Scan(z, q + 5, AtNonBlank);
        var e := Scan(z, b, AtLineEnd);
        SliceNoNul(s, b, if z[e - 1] == '\r' then e - 1 else e);
      }
    }
  }

  /** `check_GET_and_get_resource` as written: the host search of `FindHostAsWritten`. */
  function GetRequestAsWritten(s: string): GetResult
    requires NoNul(s)
  {
    if !IsPrefix("GET ", s) then NotGet
    else
      var z := Z(s);
      var a := Scan(z, 4, AtNonBlank);
      var resource := z[a..Scan(z, a, AtBlank)];
      SearchFound(z, a);
      var found := FindHostAsWritten(z, a);
      if found.HostAt? then Got(HostValue(z, found.line), resource)
      else if found.NoHostLine? then NoHost
      else PastEnd
  }

  /** The host value copied out of the "Host:" line at q. */
  method ReadHostValue(z: string, q: nat) returns (host: string)
    requires Terminated(z) && q < |z| && IsPrefix("Host:", z[q..])
    ensures host == HostValue(z, q)
  {
    BeforeValue(z, q);
    var a := ReadTillNonSpace(z, q + 5);
    var e := ReadToNewLine(z, a);
    e := e - 1;
    if z[e - 1] == '\r' {
      e := e - 1;
    }
    host := z[a..e];
  }

  /** `check_GET_and_get_resource`, corrected: it stops at a CRLF empty line and at the terminator. */
  method CheckGet(s: string) returns (r: GetResult)
    requires NoNul(s)
    ensures r == GetRequest(s)
  {
    var z := s + ['\0'];
    if !IsPrefix("GET ", s) {
      return NotGet;
    }
    var start := ReadTillNonSpace(z, 4);
    var end := ReadTillSpace(z, start);
    var resource := z[start..end];
    assert z == Z(s);
    var p := start;
    while !EndsHeaders(z, p)
      invariant p < |z| && FindHost(z, p) == FindHost(z, start)
      decreases |z| - p
    {
      var q := ReadToNewLine(z, p);
      if z[q - 1] == '\0' {
        assert FindHost(z, start) == NoHostLine;
        return NoHost;
      }
      assert FindHost(z, p) == HostCheck(z, q);
      if IsPrefix("Host:", z[q..]) {
        assert FindHost(z, start) == HostAt(q);
        var host := ReadHostValue(z, q);
        return Got(host, resource);
      }
      p := q;
    }
    assert FindHost(z, start) == NoHostLine;
    return NoHost;
  }

  /**
   * `check_GET_and_get_resource` as written: the loop ends at a line feed
   * or at CR CR; reading at the pointer one past a NUL is reported as `PastEnd`.
   */
  method CheckGetAsWritten(s: string) returns (r: GetResult)
    requires NoNul(s)
    ensures r == GetRequestAsWritten(s)
  {
    var z := s + ['\0'];
    if !IsPrefix("GET ", s) {
      return NotGet;
    }
    var start := ReadTillNonSpace(z, 4);
    var end := ReadTillSpace(z, start);
    var resource := z[start..end];
    assert z == Z(s);
    var p := start;
    while !(z[p] == '\n' || (z[p] == '\r' && z[p + 1] == '\r'))
      invariant p < |z| && FindHostAsWritten(z, p) == FindHostAsWritten(z, start)
      decreases |z| - p
    {
      var q := ReadToNewLine(z, p);
      assert FindHostAsWritten(z, p) == HostCheckAsWritten(z, q);
      if q == |z| {
        assert FindHostAsWritten(z, start) == RanPastEnd;
        return PastEnd;
      }
      if IsPrefix("Host:", z[q..]) {
        assert FindHostAsWritten(z, start) == HostAt(q);
        var host := ReadHostValue(z, q);
        return Got(host, resource);
      }
      p := q;
    }
    assert FindHostAsWritten(z, start) == NoHostLine;
    return NoHost;
  }

  /**
   * A line at p that does not end the headers, w up to its line feed, is
   * passed over by both searches to the check of the next line.
   */
  lemma LineStep(z: string, p: nat, w: string)
    requires Terminated(z) && p + |w| < |z| && z[p..p + |w|] == w && z[p + |w|] == '\n'
    requires |w| > 0 && w[0] != '\r' && NoHalt(w, AtLineEnd)
    ensures FindHost(z, p) == HostCheck(z, p + |w| + 1)
    ensures FindHostAsWritten(z, p) == HostCheckAsWritten(z, p + |w| + 1)
  {
    ScanOver(z, p, w, AtLineEnd);
    assert z[p] == w[0];
  }

  /** One plain header line at q is passed over by both searches. */
  lemma HostStep(z: string, q: nat, h: string)
    requires Terminated(z) && 0 < q && q + |h| + 2 < |z| && z[q - 1] == '\n'
    requires z[q..q + |h| + 2] == h + "\r\n" && PlainLine(h)
    ensures z[q + |h| + 1] == '\n'
    ensures HostCheck(z, q) == HostCheck(z, q + |h| + 2)
    ensures HostCheckAsWritten(z, q) == HostCheckAsWritten(z, q + |h| + 2)
  {
    var w := h + "\r";
    assert z[q..q + |w|] == w by {
      assert z[q..q + |w|] == z[q..q + |h| + 2][..|w|];
    }
    assert z[q + |w|] == z[q..q + |h| + 2][|w|] == '\n';
    assert NoHalt(w, AtLineEnd);
    LineStep(z, q, w);
    assert z[q..] == h + "\r\n" + z[q + |h| + 2..];
    NotHostLine(h, z[q + |h| + 2..]);
  }

  /** Plain header lines are passed over, by both searches, without a result. */
  lemma SkipPlain(z: string, q: nat, hs: seq<string>, e: nat)
    requires e == q + |Lines(hs)|
    requires Terminated(z) && 0 < q && e < |z| && z[q - 1] == '\n'
    requires z[q..e] == Lines(hs)
    requires forall i :: 0 <= i < |hs| ==> PlainLine(hs[i])
    ensures z[e - 1] == '\n'
    ensures HostCheck(z, q) == HostCheck(z, e)
    ensures HostCheckAsWritten(z, q) == HostCheckAsWritten(z, e)
  {
    AllPlainLines(hs);
    SkipPlainLines(z, q, hs, e);
  }

  /** Every line of hs is plain, one after another. */
  predicate AllPlain(hs: seq<string>)
    decreases |hs|
  {
    |hs| == 0 || (PlainLine(hs[0]) && AllPlain(hs[1..]))
  }

  lemma {:induction false} AllPlainLines(hs: seq<string>)
    requires forall i :: 0 <= i < |hs| ==> PlainLine(hs[i])
    ensures AllPlain(hs)
    decreases |hs|
  {
    if |hs| > 0 {
      var more := hs[1..];
      forall i | 0 <= i < |more| ensures PlainLine(more[i]) {
        assert more[i] == hs[i + 1];
      }
      AllPlainLines(more);
    }
  }

  lemma {:induction false} SkipPlainLines(z: string, q: nat, hs: seq<string>, e: nat)
    requires e == q + |Lines(hs)|
    requires Terminated(z) && 0 < q && e < |z| && z[q - 1] == '\n'
    requires z[q..e] == Lines(hs)
    requires AllPlain(hs)
    ensures z[e - 1] == '\n'
    ensures HostCheck(z, q) == HostCheck(z, e)
    ensures HostCheckAsWritten(z, q) == HostCheckAsWritten(z, e)
    decreases |hs|
  {
    if |hs| == 0 {
      assert Lines(hs) == [];
    } else {
      PlainStep(z, q, hs, e);
      SkipPlainLines(z, q + |hs[0]| + 2, hs[1..], e);
    }
  }

  /** The first of the plain lines at q is passed over by both searches. */
  lemma PlainStep(z: string, q: nat, hs: seq<string>, e: nat)
    requires e == q + |Lines(hs)|
    requires Terminated(z) && 0 < q && e < |z| && z[q - 1] == '\n'
    requires z[q..e] == Lines(hs)
    requires |hs| > 0 && PlainLine(hs[0])
    ensures var q', more := q + |hs[0]| + 2, hs[1..];
            && e == q' + |Lines(more)| && 0 < q' && z[q' - 1] == '\n' && z[q'..e] == Lines(more)
            && HostCheck(z, q) == HostCheck(z, q')
            && HostCheckAsWritten(z, q) == HostCheckAsWritten(z, q')
  {
    var q' := q + |hs[0]| + 2;
    assert e == q' + |Lines(hs[1..])| && z[q'..e] == Lines(hs[1..]) && z[q..q'] == hs[0] + "\r\n" by {
      FirstLine(z, q, hs);
    }
    HostStep(z, q, hs[0]);
  }

  /** The first of the lines found at q, and the rest of them after it. */
  lemma FirstLine(z: string, q: nat, hs: seq<string>)
    requires |hs| > 0 && q + |Lines(hs)| <= |z| && z[q..q + |Lines(hs)|] == Lines(hs)
    ensures |Lines(hs)| == |hs[0]| + 2 + |Lines(hs[1..])|
    ensures z[q..q + |hs[0]| + 2] == hs[0] + "\r\n"
    ensures z[q + |hs[0]| + 2..q + |Lines(hs)|] == Lines(hs[1..])
  {
    var n := |hs[0]| + 2;
    var lines := Lines(hs);
    assert lines == hs[0] + "\r\n" + Lines(hs[1..]);
    assert z[q..q + n] == z[q..q + |lines|][..n];
    assert z[q + n..q + |lines|] == z[q..q + |lines|][n..];
  }

  /** Where the parts of a request lie in its memory. */
  lemma RequestParts(r: string, v: string, hs: seq<string>, rest: string)
    requires Token(r) && NoHalt(v, AtLineEnd) && NoNul(rest)
    requires forall i :: 0 <= i < |hs| ==> PlainLine(hs[i])
    ensures NoNul(Request(r, v, hs, rest))
    ensures var z := Z(Request(r, v, hs, rest));
            var q := 7 + |r| + |v| + |Lines(hs)|;
            && Terminated(z) && |z| == q + |rest| + 1 && IsPrefix("GET ", Request(r, v, hs, rest))
            && z[4..4 + |r|] == r && z[4 + |r|] == ' '
            && z[4..6 + |r| + |v|] == r + " " + v + "\r" && z[6 + |r| + |v|] == '\n'
            && z[7 + |r| + |v|..q] == Lines(hs) && z[q..] == rest + ['\0']
  {
    RequestNoNul(r, v, hs, rest);
    RequestLayout(r, v, Lines(hs), rest);
  }

  /** A request built from parts without NUL has none. */
  lemma RequestNoNul(r: string, v: string, hs: seq<string>, rest: string)
    requires Token(r) && NoHalt(v, AtLineEnd) && NoNul(rest)
    requires forall i :: 0 <= i < |hs| ==> PlainLine(hs[i])
    ensures NoNul(Request(r, v, hs, rest))
  {
    assert forall i :: 0 <= i < |hs| ==> NoHalt(hs[i], AtLineEnd);
    LinesNoNul(hs);
    assert NoNul(r) by {
      forall k | 0 <= k < |r| ensures r[k] != '\0' {
        assert !Halts(r[k], AtBlank);
      }
    }
    assert NoNul(v) by {
      forall k | 0 <= k < |v| ensures v[k] != '\0' {
        assert !Halts(v[k], AtLineEnd);
      }
    }
  }

  /** Where the parts of a request, with header block lines, lie in its memory. */
  lemma RequestLayout(r: string, v: string, lines: string, rest: string)
    ensures var z := ("GET " + r + " " + v + "\r\n" + lines + rest) + ['\0'];
            var q := 7 + |r| + |v| + |lines|;
            && Terminated(z) && |z| == q + |rest| + 1
            && IsPrefix("GET ", "GET " + r + " " + v + "\r\n" + lines + rest)
            && z[4..4 + |r|] == r && z[4 + |r|] == ' '
            && z[4..6 + |r| + |v|] == r + " " + v + "\r" && z[6 + |r| + |v|] == '\n'
            && z[7 + |r| + |v|..q] == lines && z[q..] == rest + ['\0']
  {
    var s := "GET " + r + " " + v + "\r\n" + lines + rest;
    var z := s + ['\0'];
    var line := r + " " + v + "\r";
    var head := "GET " + line + "\n";
    var body := head + lines;
    assert |head| == 7 + |r| + |v|;
    assert z == body + (rest + ['\0']);
    assert z[|body|..] == rest + ['\0'];
    assert s[..4] == "GET ";
    assert z[..|body|] == body;
    assert body[4..4 + |r|] == r;
    assert body[4..4 + |line|] == line;
    assert body[|head|..] == lines;
  }

  /** The request line, up to the start of the header lines, is passed over by both searches. */
  lemma RequestSearch(z: string, r: string, v: string, hs: seq<string>, q: nat)
    requires Token(r) && NoHalt(v, AtLineEnd)
    requires forall i :: 0 <= i < |hs| ==> PlainLine(hs[i])
    requires q == 7 + |r| + |v| + |Lines(hs)|
    requires Terminated(z) && q < |z|
    requires z[4..4 + |r|] == r && z[4 + |r|] == ' '
    requires z[4..6 + |r| + |v|] == r + " " + v + "\r" && z[6 + |r| + |v|] == '\n'
    requires z[7 + |r| + |v|..q] == Lines(hs)
    ensures Scan(z, 4, AtNonBlank) == 4 && Scan(z, 4, AtBlank) == 4 + |r|
    ensures z[q - 1] == '\n'
    ensures FindHost(z, 4) == HostCheck(z, q)
    ensures FindHostAsWritten(z, 4) == HostCheckAsWritten(z, q)
  {
    assert Scan(z, 4, AtNonBlank) == 4 && Scan(z, 4, AtBlank) == 4 + |r| by {
      ScanOver(z, 4, r, AtBlank);
      assert z[4] == r[0];
    }
    var q0 := 7 + |r| + |v|;
    assert FindHost(z, 4) == HostCheck(z, q0) && FindHostAsWritten(z, 4) == HostCheckAsWritten(z, q0) by {
      var line := r + " " + v + "\r";
      assert NoHalt(line, AtLineEnd);
      assert q0 == 4 + |line| + 1;
      assert z[4] == r[0];
      LineStep(z, 4, line);
    }
    SkipPlain(z, q0, hs, q);
  }

  /** A "Host:" line at q, with a value that does not start with a blank, names that value. */
  lemma HostLineValue(z: string, q: nat, host: string)
    requires Terminated(z) && q + |host| + 8 < |z|
    requires z[q..q + |host| + 8] == "Host: " + host + "\r\n"
    requires NoHalt(host, AtLineEnd) && (|host| > 0 ==> !HttpReader.IsSpace(host[0]))
    ensures IsPrefix("Host:", z[q..]) && HostValue(z, q) == host
  {
    var line := "Host: " + host + "\r\n";
    SubSlice(z, q, line, 0, 5);
    assert line[..5] == "Host:";
    assert z[q..][..5] == z[q..q + 5];
    HostValueBounds(z, q, host);
  }

  /** Where the value of the line "Host: h\r\n" at q starts and ends. */
  lemma HostValueBounds(z: string, q: nat, host: string)
    requires Terminated(z) && q + |host| + 8 < |z|
    requires z[q..q + |host| + 8] == "Host: " + host + "\r\n"
    requires NoHalt(host, AtLineEnd) && (|host| > 0 ==> !HttpReader.IsSpace(host[0]))
    ensures Scan(z, q + 5, AtNonBlank) == q + 6
    ensures Scan(z, q + 6, AtLineEnd) == q + 7 + |host|
    ensures z[q + 6 + |host|] == '\r' && z[q + 6..q + 6 + |host|] == host
  {
    var line := "Host: " + host + "\r\n";
    var w := host + "\r";
    SubSlice(z, q, line, 5, 6);
    SubSlice(z, q, line, 6, 6 + |w|);
    SubSlice(z, q, line, 6, 6 + |host|);
    SubSlice(z, q, line, 6 + |w|, 7 + |w|);
    assert line[5..6] == " " && line[6..6 + |w|] == w;
    assert line[6..6 + |host|] == host && line[6 + |w|..7 + |w|] == "\n";
    assert z[q + 6] == w[0];
    ScanOver(z, q + 5, " ", AtNonBlank);
    assert NoHalt(w, AtLineEnd);
    assert z[q + 6 + |w|] == z[q + 6 + |w|..q + 7 + |w|][0];
    ScanOver(z, q + 6, w, AtLineEnd);
    assert z[q + 6 + |host|] == w[|host|];
  }

  /**
   * What both searches return for a GET request whose resource r has been
   * scanned and whose header search has reached the line at q.
   */
  lemma SearchOutcome(s: string, z: string, r: string, q: nat)
    requires NoNul(s) && IsPrefix("GET ", s) && z == Z(s)
    requires 4 + |r| < |z| && z[4..4 + |r|] == r
    requires Scan(z, 4, AtNonBlank) == 4 && Scan(z, 4, AtBlank) == 4 + |r|
    requires 0 < q < |z| && z[q - 1] == '\n'
    requires FindHost(z, 4) == HostCheck(z, q)
    requires FindHostAsWritten(z, 4) == HostCheckAsWritten(z, q)
    ensures IsPrefix("Host:", z[q..]) ==>
              GetRequest(s) == Got(HostValue(z, q), r) && GetRequestAsWritten(s) == Got(HostValue(z, q), r)
    ensures q + 1 < |z| && z[q] == '\r' && z[q + 1] == '\n' ==> GetRequest(s) == NoHost
    ensures z[q..] == "\r\n\0" ==> GetRequestAsWritten(s) == PastEnd
  {
    if z[q..] == "\r\n\0" {
      RanPastAt(z, q);
    }
  }

  /** At a final CRLF, the search as written reads on past the NUL. */
  lemma RanPastAt(z: string, q: nat)
    requires 0 < q < |z| && z[q..] == "\r\n\0"
    ensures Terminated(z) && HostCheckAsWritten(z, q) == RanPastEnd
  {
    assert z[q] == z[q..][0] && z[q + 1] == z[q..][1] && z[q + 2] == z[q..][2];
    assert |z| == q + 3;
    assert Scan(z, q, AtLineEnd) == q + 1;
    assert Scan(z, q + 2, AtLineEnd) == q + 2;
    assert HostCheckAsWritten(z, q + 3) == RanPastEnd;
    assert FindHostAsWritten(z, q + 2) == RanPastEnd;
    assert HostCheckAsWritten(z, q + 2) == RanPastEnd;
    assert FindHostAsWritten(z, q) == RanPastEnd;
  }

  /** Both searches, having reached a line "Host: h", give back h with the resource. */
  lemma HostOutcome(s: string, z: string, r: string, q: nat, host: string)
    requires NoNul(s) && IsPrefix("GET ", s) && z == Z(s)
    requires 4 + |r| < |z| && z[4..4 + |r|] == r
    requires Scan(z, 4, AtNonBlank) == 4 && Scan(z, 4, AtBlank) == 4 + |r|
    requires 0 < q && q + |host| + 8 < |z| && z[q - 1] == '\n'
    requires FindHost(z, 4) == HostCheck(z, q)
    requires FindHostAsWritten(z, 4) == HostCheckAsWritten(z, q)
    requires z[q..q + |host| + 8] == "Host: " + host + "\r\n"
    requires NoHalt(host, AtLineEnd) && (|host| > 0 ==> !HttpReader.IsSpace(host[0]))
    ensures GetRequest(s) == Got(host, r) && GetRequestAsWritten(s) == Got(host, r)
  {
    HostLineValue(z, q, host);
    SearchOutcome(s, z, r, q);
  }

  /**
   * A GET request whose header lines include "Host: h" gives back the
   * resource and h, both as written and corrected.
   */
  lemma GetRoundTrip(r: string, v: string, hs: seq<string>, host: string, tail: string)
    requires Token(r) && NoHalt(v, AtLineEnd) && NoNul(tail)
    requires forall i :: 0 <= i < |hs| ==> PlainLine(hs[i])
    requires NoHalt(host, AtLineEnd) && (|host| > 0 ==> !HttpReader.IsSpace(host[0]))
    ensures NoNul(Request(r, v, hs, "Host: " + host + "\r\n" + tail))
    ensures GetRequest(Request(r, v, hs, "Host: " + host + "\r\n" + tail)) == Got(host, r)
    ensures GetRequestAsWritten(Request(r, v, hs, "Host: " + host + "\r\n" + tail)) == Got(host, r)
  {
    var rest := "Host: " + host + "\r\n" + tail;
    assert NoNul(host) by {
      forall k | 0 <= k < |host| ensures host[k] != '\0' {
        assert !Halts(host[k], AtLineEnd);
      }
    }
    RequestParts(r, v, hs, rest);
    var s := Request(r, v, hs, rest);
    var z := Z(s);
    var q := 7 + |r| + |v| + |Lines(hs)|;
    RequestSearch(z, r, v, hs, q);
    assert z[q..q + |host| + 8] == "Host: " + host + "\r\n" by {
      assert z[q..q + |host| + 8] == z[q..][..|host| + 8];
    }
    HostOutcome(s, z, r, q, host);
  }

  /** A GET request with no "Host:" line before a CRLF empty line: NO_HOST, corrected. */
  lemma NoHostRequest(r: string, v: string, hs: seq<string>, tail: string)
    requires Token(r) && NoHalt(v, AtLineEnd) && NoNul(tail)
    requires forall i :: 0 <= i < |hs| ==> PlainLine(hs[i])
    ensures NoNul(Request(r, v, hs, "\r\n" + tail))
    ensures GetRequest(Request(r, v, hs, "\r\n" + tail)) == NoHost
  {
    var rest := "\r\n" + tail;
    RequestParts(r, v, hs, rest);
    var s := Request(r, v, hs, rest);
    var z := Z(s);
    var q := 7 + |r| + |v| + |Lines(hs)|;
    RequestSearch(z, r, v, hs, q);
    assert z[q] == z[q..][0] == '\r';
    assert z[q + 1] == z[q..][1] == '\n';
    SearchOutcome(s, z, r, q);
  }

  /**
   * As written, a request that ends at its CRLF empty line with no
   * "Host:" line makes the search read past the terminating NUL.
   */
  lemma CrlfEndReadsPast(r: string, v: string, hs: seq<string>)
    requires Token(r) && NoHalt(v, AtLineEnd)
    requires forall i :: 0 <= i < |hs| ==> PlainLine(hs[i])
    ensures NoNul(Request(r, v, hs, "\r\n"))
    ensures GetRequestAsWritten(Request(r, v, hs, "\r\n")) == PastEnd
    ensures GetRequest(Request(r, v, hs, "\r\n")) == NoHost
  {
    NoHostRequest(r, v, hs, "");
    assert "\r\n" + "" == "\r\n";
    RequestParts(r, v, hs, "\r\n");
    var s := Request(r, v, hs, "\r\n");
    var z := Z(s);
    var q := 7 + |r| + |v| + |Lines(hs)|;
    RequestSearch(z, r, v, hs, q);
    assert z[q..] == "\r\n\0";
    SearchOutcome(s, z, r, q);
  }

  // ---------------------------------------------------------------------------
  // read_to_after_empty_line
  // ---------------------------------------------------------------------------

  /**
   * `read_to_after_empty_line` from the line at p: the index just past the
   * first empty line (LF or CRLF) after it, or None when the string ends first.
   */
  function AfterEmptyLine(z: string, p: nat): (r: Option<nat>)
    requires Terminated(z) && p < |z|
    ensures r.Some? ==> p + 2 <= r.value < |z| && z[r.value - 1] == '\n'
                        && (z[r.value - 2] == '\n' || (r.value >= 3 && z[r.value - 2] == '\r' && z[r.value - 3] == '\n'))
    decreases |z| - p
  {
    if z[p] == '\0' then None
    else
      var q := Scan(z, p, AtLineEnd) + 1;
      if z[q - 1] == '\0' then None
      else if z[q] == '\n' then Some(q + 1)
      else if z[q] == '\r' && z[q + 1] == '\n' then Some(q + 2)
      else AfterEmptyLine(z, q)
  }

  /** `read_to_after_empty_line`: the index just past the first empty line, or None (NULL). */
  method ReadToAfterEmptyLine(s: string) returns (r: Option<nat>)
    requires NoNul(s)
    ensures r == AfterEmptyLine(Z(s), 0)
  {
    var z := s + ['\0'];
    var p := 0;
    while z[p] != '\0'
      invariant p < |z| && AfterEmptyLine(z, p) == AfterEmptyLine(z, 0)
      decreases |z| - p
    {
      p := ReadToNewLine(z, p);
      if z[p - 1] == '\0' {
        return None;
      }
      if z[p] == '\n' {
        return Some(p + 1);
      } else if z[p] == '\r' && z[p + 1] == '\n' {
        return Some(p + 2);
      }
    }
    return None;
  }

  /** Every line of hs is a header line that is not empty, one after another. */
  predicate AllFilled(hs: seq<string>)
    decreases |hs|
  {
    |hs| == 0 || (|hs[0]| > 0 && NoHalt(hs[0], AtLineEnd) && AllFilled(hs[1..]))
  }

  lemma {:induction false} AllFilledLines(hs: seq<string>)
    requires forall i :: 0 <= i < |hs| ==> |hs[i]| > 0 && NoHalt(hs[i], AtLineEnd)
    ensures AllFilled(hs)
    decreases |hs|
  {
    if |hs| > 0 {
      var more := hs[1..];
      forall i | 0 <= i < |more| ensures |more[i]| > 0 && NoHalt(more[i], AtLineEnd) {
        assert more[i] == hs[i + 1];
      }
      AllFilledLines(more);
    }
  }

  /** Lines that are not empty, at p up to e, are passed over up to the CRLF empty line after them. */
  lemma {:induction false} AfterLines(z: string, p: nat, hs: seq<string>, e: nat)
    requires |hs| > 0 && AllFilled(hs) && e == p + |Lines(hs)|
    requires Terminated(z) && e + 2 < |z| && z[p..e] == Lines(hs)
    requires z[e] == '\r' && z[e + 1] == '\n'
    ensures AfterEmptyLine(z, p) == Some(e + 2)
    decreases |hs|
  {
    var h, q, more := hs[0], p + |hs[0]| + 2, hs[1..];
    assert e == q + |Lines(more)| && z[q..e] == Lines(more) && z[p..q] == h + "\r\n" by {
      FirstLine(z, p, hs);
    }
    if |more| > 0 {
      FilledMore(z, p, h, more, e);
      AfterLines(z, q, more, e);
    } else {
      AfterLast(z, p, h);
    }
  }

  /** A line that is not empty, followed by more such lines, is passed over. */
  lemma FilledMore(z: string, p: nat, h: string, more: seq<string>, e: nat)
    requires |h| > 0 && NoHalt(h, AtLineEnd) && |more| > 0 && AllFilled(more)
    requires Terminated(z) && e + 2 < |z| && p + |h| + 2 <= e
    requires z[p..p + |h| + 2] == h + "\r\n"
    requires e == p + |h| + 2 + |Lines(more)| && z[p + |h| + 2..e] == Lines(more)
    ensures AfterEmptyLine(z, p) == AfterEmptyLine(z, p + |h| + 2)
  {
    var q := p + |h| + 2;
    assert z[q..q + |more[0]| + 2] == more[0] + "\r\n" by {
      FirstLine(z, q, more);
    }
    FilledNext(z, p, h, more[0]);
  }

  /** A line that is not empty, followed by another that is not empty either, is passed over. */
  lemma FilledNext(z: string, p: nat, h: string, g: string)
    requires |h| > 0 && NoHalt(h, AtLineEnd) && |g| > 0 && NoHalt(g, AtLineEnd)
    requires Terminated(z) && p + |h| + |g| + 4 < |z|
    requires z[p..p + |h| + 2] == h + "\r\n" && z[p + |h| + 2..p + |h| + |g| + 4] == g + "\r\n"
    ensures AfterEmptyLine(z, p) == AfterEmptyLine(z, p + |h| + 2)
  {
    NotEmptyLine(z, p + |h| + 2, g);
    AfterStep(z, p, h);
  }

  /** One line that is not empty, followed by another, is passed over by the search for the empty line. */
  lemma AfterStep(z: string, p: nat, h: string)
    requires |h| > 0 && NoHalt(h, AtLineEnd)
    requires Terminated(z) && p + |h| + 2 < |z| && z[p..p + |h| + 2] == h + "\r\n"
    requires z[p + |h| + 2] != '\n' && !(z[p + |h| + 2] == '\r' && z[p + |h| + 3] == '\n')
    ensures AfterEmptyLine(z, p) == AfterEmptyLine(z, p + |h| + 2)
  {
    LineEnd(z, p, h);
  }

  /** One line that is not empty, followed by a CRLF empty line: the search ends after it. */
  lemma AfterLast(z: string, p: nat, h: string)
    requires |h| > 0 && NoHalt(h, AtLineEnd)
    requires Terminated(z) && p + |h| + 3 < |z| && z[p..p + |h| + 2] == h + "\r\n"
    requires z[p + |h| + 2] == '\r' && z[p + |h| + 3] == '\n'
    ensures AfterEmptyLine(z, p) == Some(p + |h| + 4)
  {
    LineEnd(z, p, h);
  }

  /** The line feed that ends a line that is not empty is found after it. */
  lemma LineEnd(z: string, p: nat, h: string)
    requires |h| > 0 && NoHalt(h, AtLineEnd)
    requires Terminated(z) && p + |h| + 2 < |z| && z[p..p + |h| + 2] == h + "\r\n"
    ensures z[p] != '\0' && Scan(z, p, AtLineEnd) == p + |h| + 1 && z[p + |h| + 1] == '\n'
  {
    var w := h + "\r";
    assert z[p..p + |w|] == w by {
      assert z[p..p + |w|] == z[p..p + |h| + 2][..|w|];
    }
    assert z[p + |w|] == (h + "\r\n")[|w|];
    assert z[p] == h[0];
    assert NoHalt(w, AtLineEnd);
    ScanOver(z, p, w, AtLineEnd);
  }

  /** A line that is not empty does not look like the empty line. */
  lemma NotEmptyLine(z: string, q: nat, g: string)
    requires |g| > 0 && NoHalt(g, AtLineEnd)
    requires q + |g| + 2 <= |z| && z[q..q + |g| + 2] == g + "\r\n"
    ensures z[q] != '\n' && !(z[q] == '\r' && z[q + 1] == '\n')
  {
    assert z[q] == (g + "\r\n")[0] == g[0];
    assert z[q + 1] == (g + "\r\n")[1];
    assert !Halts(g[0], AtLineEnd);
    if |g| > 1 {
      assert !Halts(g[1], AtLineEnd);
    }
  }

  /** Header lines, a CRLF empty line and a body: the index returned is where the body starts. */
  lemma AfterEmptyLineRoundTrip(hs: seq<string>, body: string)
    requires |hs| > 0 && forall i :: 0 <= i < |hs| ==> |hs[i]| > 0 && NoHalt(hs[i], AtLineEnd)
    requires NoNul(body)
    ensures NoNul(Lines(hs) + "\r\n" + body)
    ensures AfterEmptyLine(Z(Lines(hs) + "\r\n" + body), 0) == Some(|Lines(hs)| + 2)
    ensures (Lines(hs) + "\r\n" + body)[|Lines(hs)| + 2..] == body
  {
    var lines := Lines(hs);
    var n := |lines|;
    var t := lines + "\r\n" + body;
    assert NoNul(t) by {
      LinesNoNul(hs);
      assert t == lines + ("\r\n" + body);
    }
    assert t[n + 2..] == body;
    var z := Z(t);
    assert z[..n] == lines && z[n] == '\r' && z[n + 1] == '\n' && n + 2 < |z| by {
      assert z == lines + ("\r\n" + body + ['\0']);
    }
    assert AllFilled(hs) by {
      AllFilledLines(hs);
    }
    AfterLines(z, 0, hs, n);
  }

  // ---------------------------------------------------------------------------
  // get_port
  // ---------------------------------------------------------------------------

  /** The length of the run of digits that ends s. */
  function DigitTail(s: string): (d: nat)
    ensures d <= |s|
    decreases |s|
  {
    if |s| == 0 || !IsDigit(s[|s| - 1]) then 0 else DigitTail(s[..|s| - 1]) + 1
  }

  /** The digit run that ends s is all digits, and is preceded by a non-digit or the start. */
  lemma {:induction false} DigitTailRun(s: string)
    ensures AllDigits(s[|s| - DigitTail(s)..])
    ensures DigitTail(s) < |s| ==> !IsDigit(s[|s| - DigitTail(s) - 1])
    decreases |s|
  {
    if |s| > 0 && IsDigit(s[|s| - 1]) {
      var t := s[..|s| - 1];
      DigitTailRun(t);
      assert s[|s| - DigitTail(s)..] == t[|t| - DigitTail(t)..] + [s[|s| - 1]];
    }
  }

  /** A run of digits preceded by a non-digit (or the start) is the digit run that ends s. */
  lemma {:induction false} DigitTailAt(s: string, k: nat)
    requires k <= |s| && AllDigits(s[k..]) && (k > 0 ==> !IsDigit(s[k - 1]))
    ensures DigitTail(s) == |s| - k
    decreases |s|
  {
    if |s| > k {
      var t := s[..|s| - 1];
      assert s[|s| - 1] == s[k..][|s| - 1 - k];
      assert t[k..] == s[k..][..|s| - 1 - k];
      DigitTailAt(t, k);
    }
  }

  /**
   * Where the port of "name:port" starts: s ends in ':' and at least one
   * digit, and the port starts after that ':' (the name before it may be
   * empty, as in ":80"); None when s does not end in digits, or its
   * trailing digits are all of it or follow anything other than ':'.
   */
  function PortStart(s: string): (r: Option<nat>)
    ensures r.Some? ==> 0 < r.value < |s| && s[r.value - 1] == ':' && AllDigits(s[r.value..])
  {
    DigitTailRun(s);
    var d := DigitTail(s);
    if d == 0 || d == |s| || s[|s| - d - 1] != ':' then None else Some(|s| - d)
  }

  /** A host of the form name ":" digits splits into name and the digits. */
  lemma PortRoundTrip(name: string, port: string)
    requires |port| > 0 && AllDigits(port)
    ensures PortStart(name + ":" + port) == Some(|name| + 1)
  {
    var s := name + ":" + port;
    assert s[|name| + 1..] == port;
    DigitTailAt(s, |name| + 1);
  }

  /** The outcome of `get_port` as written: the port's index, NULL, or a read before the string. */
  datatype PortScan = PortFrom(at: nat) | NoPort | BeforeStart

  /**
   * `get_port` as written: on the empty string, and on one that is all
   * digits, it reads the character before the string.
   */
  function PortStartAsWritten(s: string): PortScan
  {
    var d := DigitTail(s);
    if |s| == 0 then BeforeStart
    else if d == 0 then NoPort
    else if d == |s| then BeforeStart
    else if s[|s| - d - 1] != ':' then NoPort
    else PortFrom(|s| - d)
  }

  /** The version as written reads before the string exactly on the strings of digits, the empty one included. */
  lemma PortBeforeStart(s: string)
    ensures PortStartAsWritten(s) == BeforeStart <==> AllDigits(s)
    ensures PortStartAsWritten(s) != BeforeStart ==>
              (PortStartAsWritten(s).PortFrom? <==> PortStart(s).Some?)
              && (PortStart(s).Some? ==> PortStartAsWritten(s).at == PortStart(s).value)
  {
    DigitTailRun(s);
    if AllDigits(s) {
      DigitTailAt(s, 0);
    }
  }

  /** The walk of `get_port` to the terminating NUL: the length of the string. */
  method StrLen(host: array<char>, ghost n: nat) returns (p: nat)
    requires n < host.Length && host[n] == '\0' && NoNul(host[..n])
    ensures p == n
  {
    p := 0;
    while host[p] != '\0'
      invariant p <= n
      decreases n - p
    {
      assert host[p] == host[..n][p];
      p := p + 1;
    }
  }

  /** The walk of `get_port` back over the digits that end host[..n]: the index where they start. */
  method DigitsFrom(host: array<char>, n: nat) returns (k: nat)
    requires n <= host.Length
    ensures k == n - DigitTail(host[..n])
  {
    var i: int := n - 1;
    while i >= 0 && IsDigit(host[i])
      invariant -1 <= i < n && AllDigits(host[i + 1..n])
      decreases i
    {
      assert host[i..n] == [host[i]] + host[i + 1..n];
      i := i - 1;
    }
    assert host[..n][i + 1..] == host[i + 1..n];
    DigitTailAt(host[..n], i + 1);
    k := i + 1;
  }

  /**
   * `get_port`, corrected: with the port found, the ':' becomes NUL (so
   * the host string ends before it) and its index plus one is returned;
   * otherwise the host is left as it was.
   */
  method GetPort(host: array<char>, ghost n: nat) returns (port: Option<nat>)
    requires n < host.Length && host[n] == '\0' && NoNul(host[..n])
    modifies host
    ensures port == PortStart(old(host[..n]))
    ensures port.Some? ==> host[..] == old(host[..])[port.value - 1 := '\0']
    ensures port.None? ==> host[..] == old(host[..])
  {
    var p := StrLen(host, n);
    var k := DigitsFrom(host, p);
    if k == p || k == 0 || host[k - 1] != ':' {
      return None;
    }
    assert host[k - 1] == host[..n][k - 1];
    host[k - 1] := '\0';
    return Some(k);
  }

  /** `get_port` as written, reporting the read before the string instead of making it. */
  method GetPortAsWritten(host: array<char>, ghost n: nat) returns (port: PortScan)
    requires n < host.Length && host[n] == '\0' && NoNul(host[..n])
    modifies host
    ensures port == PortStartAsWritten(old(host[..n]))
    ensures port.PortFrom? ==> host[..] == old(host[..])[port.at - 1 := '\0']
    ensures !port.PortFrom? ==> host[..] == old(host[..])
  {
    var p := StrLen(host, n);
    if p == 0 {
      return BeforeStart;
    }
    var k := DigitsFrom(host, p);
    if k == p {
      return NoPort;
    }
    if k == 0 {
      return BeforeStart;
    }
    assert host[k - 1] == host[..n][k - 1];
    if host[k - 1] != ':' {
      return NoPort;
    }
    host[k - 1] := '\0';
    return PortFrom(k);
  }
}
