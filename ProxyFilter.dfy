/**
 * The request handling of the filtering proxy (proxyFilter.c): reading the
 * client's request, the order of the checks in `process_request`, the
 * framing of the host's response in `recieve_data_and_pipe_to_client`, the
 * error responses of `handle_error_status`, and which responses are cached.
 *
 * Sockets are modelled as in the reader: the bytes a peer sends and the
 * sizes of the pieces in which `recv` delivers them. Connecting to the host
 * and sending the request to it (`proxy_get`, `send_message`) are not part
 * of this model: their outcome is a parameter.
 */
module ProxyFilter {
  import opened Common
  import opened HttpReader
  import HttpRequest
  import BanFilter
  import ProxyCache
  import ProxyResponse

  // ---------------------------------------------------------------------------
  // Status codes
  // ---------------------------------------------------------------------------

  /**
   * `code_has_no_body`: 0 for a code starting with '1' and for "204" and
   * "304" (compared on their first three bytes), -1 otherwise.
   */
  function CodeHasNoBody(code: string): (r: int)
    ensures r == 0 || r == -1
  {
    if |code| > 0 && code[0] == '1' then 0
    else if IsPrefix("204", code) || IsPrefix("304", code) then 0
    else -1
  }

  /** The value of a three-digit code, digit by digit. */
  lemma ThreeDigitValue(code: string)
    requires |code| == 3 && AllDigits(code)
    ensures DecimalValue(code) == 100 * DigitValue(code[0]) + 10 * DigitValue(code[1]) + DigitValue(code[2])
  {
    assert code[..2][..1] == code[..1] && code[..2][1] == code[1];
    assert DecimalValue(code[..1]) == DigitValue(code[0]) by {
      assert code[..1][..0] == [];
    }
    assert DecimalValue(code[..2]) == 10 * DecimalValue(code[..1]) + DigitValue(code[1]);
  }

  /**
   * For a three-digit status code, the codes without a body are exactly the
   * informational ones (1xx), 204 No Content and 304 Not Modified, the
   * responses that section 4.4 of RFC 2616 says end at the empty line.
   */
  lemma NoBodyCodes(code: string)
    requires |code| == 3 && AllDigits(code)
    ensures var v := DecimalValue(code);
            CodeHasNoBody(code) == 0 <==> 100 <= v < 200 || v == 204 || v == 304
  {
    ThreeDigitValue(code);
    assert code == [code[0], code[1], code[2]];
  }

  /** The statuses `handle_error_status` is given. */
  datatype ErrorStatus =
    | HostIoFailure     // HOST_IO_ERROR
    | HostTimedOut      // HOST_TIMEOUT_ERROR
    | NotGetRequest     // IS_NOT_GET
    | NoHostHeader      // NO_HOST
    | Unlisted          // any other status

  /** `handle_error_status`: the code of the response sent for a status; none for an unlisted one. */
  function ErrorResponse(status: ErrorStatus): (code: Option<string>)
    ensures code.Some? <==> !status.Unlisted?
  {
    match status
    case HostIoFailure => Some("500")
    case HostTimedOut => Some("504")
    case NotGetRequest => Some("405")
    case NoHostHeader => Some("400")
    case Unlisted => None
  }

  /**
   * Every response `handle_error_status` sends is one `send_response` knows:
   * its text starts with a status line carrying the code; and different
   * statuses get different responses.
   */
  lemma ErrorResponsesCanned(status: ErrorStatus, other: ErrorStatus)
    ensures var code := ErrorResponse(status);
            code.Some? ==> ProxyResponse.Known(code.value)
                           && ProxyResponse.CannedFor(code.value).Some?
                           && ProxyResponse.CannedFor(code.value).value.text[9..12] == code.value
    ensures ErrorResponse(status).Some? && status != other ==> ErrorResponse(status) != ErrorResponse(other)
  {
    var code := ErrorResponse(status);
    if code.Some? {
      ProxyResponse.CannedMatchesCode(code.value);
    }
  }

  /** The reader's error statuses as `handle_error_status` is given them. */
  function ReaderFailure(s: Status): (e: ErrorStatus)
    requires s != Fine
    ensures e == HostIoFailure || e == HostTimedOut
  {
    if s == HostTimeout then HostTimedOut else HostIoFailure
  }

  /** The response sent when the reader ends in error s: 504 for a timeout, 500 otherwise. */
  function ReaderErrorCode(s: Status): (code: string)
    requires s != Fine
    ensures code == (if s == HostTimeout then "504" else "500")
  {
    ErrorResponse(ReaderFailure(s)).value
  }

  // ---------------------------------------------------------------------------
  // read_request
  // ---------------------------------------------------------------------------

  /** The size of the buffer the request is read into (REQUEST_LENGTH). */
  const REQUEST_LENGTH := 6072

  /**
   * One `recv` of at most len bytes from a peer that still sends stream: the
   * next piece (sizes[0], or all that is left when the size is missing, 0 or
   * too large), cut to len. 0 when the peer has closed: all of stream has
   * been delivered.
   */
  function Received(stream: seq<char>, sizes: seq<nat>, len: nat): (n: nat)
    ensures n <= |stream| && n <= len
    ensures n == 0 <==> |stream| == 0 || len == 0
  {
    var k := if |sizes| > 0 && 0 < sizes[0] < |stream| then sizes[0] else |stream|;
    if k <= len then k else len
  }

  /** The piece sizes after one `recv`. */
  function Later(sizes: seq<nat>): seq<nat>
  {
    if |sizes| > 0 then sizes[1..] else []
  }

  /** The bytes read so far end the header block: they end in LF LF or in LF CR LF. */
  predicate EndsHead(got: seq<char>)
  {
    && |got| >= 2 && got[|got| - 1] == '\n'
    && (got[|got| - 2] == '\n' || (|got| >= 3 && got[|got| - 2] == '\r' && got[|got| - 3] == '\n'))
  }

  /**
   * The test of `read_request` as written, on the bytes read so far: it
   * reads one and two bytes before the last one whatever their number, so
   * it reads the byte before the buffer (None) when the first piece is LF
   * or CR LF.
   */
  function EndsHeadAsWritten(got: seq<char>): (r: Option<bool>)
    requires |got| > 0
    ensures r.None? <==> got == "\n" || got == "\r\n"
    ensures r.Some? ==> r.value == EndsHead(got)
  {
    if got[|got| - 1] != '\n' then Some(false)
    else if |got| < 2 then None
    else if got[|got| - 2] == '\n' then Some(true)
    else if got[|got| - 2] != '\r' then Some(false)
    else if |got| < 3 then None
    else Some(got[|got| - 3] == '\n')
  }

  /** A client whose first piece is an empty line makes the as-written test read before the buffer. */
  lemma EmptyFirstLineReadsBefore()
    ensures EndsHeadAsWritten("\n").None? && EndsHeadAsWritten("\r\n").None?
    ensures !EndsHead("\n") && !EndsHead("\r\n")
  {
  }

  /**
   * The request `read_request` reads after got: pieces until the peer
   * closes, len bytes have been read, or the bytes read end the header
   * block at the end of a piece.
   */
  function RequestFrom(stream: seq<char>, sizes: seq<nat>, len: nat, got: seq<char>): seq<char>
    decreases |stream|
  {
    var n := Received(stream, sizes, len);
    if n == 0 then got
    else
      var more := got + stream[..n];
      if EndsHead(more) then more else RequestFrom(stream[n..], Later(sizes), len - n, more)
  }

  /**
   * `read_request`: the bytes read, as a string, and their number. The
   * request ends where the client closes, where the buffer is full, or at
   * the end of the first piece after which the bytes read end in an empty
   * line.
   */
  method ReadRequest(stream: seq<char>, sizes: seq<nat>, len: nat) returns (request: seq<char>, count: int)
    ensures request == RequestFrom(stream, sizes, len, []) && count == |request|
  {
    ghost var result := RequestFrom(stream, sizes, len, []);
    request := [];
    var rest, pieces, left := stream, sizes, len;
    var done := false;
    var n := Received(rest, pieces, left);
    while n > 0 && left > 0 && !done
      invariant !done ==> n == Received(rest, pieces, left)
      invariant done ==> request == result
      invariant !done ==> RequestFrom(rest, pieces, left, request) == result
      decreases |rest|, if done then 0 else 1
    {
      request := request + rest[..n];
      rest, pieces, left := rest[n..], Later(pieces), left - n;
      if EndsHead(request) {
        done := true;
      } else {
        n := Received(rest, pieces, left);
      }
    }
    count := |request|;
  }

  /**
   * What `read_request` returns: the bytes it had, then a prefix of the
   * stream that fits the buffer, read until the client closes, the buffer
   * is full, or the bytes read end the header block.
   */
  lemma RequestBounds(stream: seq<char>, sizes: seq<nat>, len: nat, got: seq<char>)
    ensures var r := RequestFrom(stream, sizes, len, got);
            && |got| <= |r| && |r| - |got| <= |stream| && |r| - |got| <= len
            && r == got + stream[..|r| - |got|]
            && (|r| - |got| == |stream| || |r| - |got| == len || EndsHead(r))
  {
    RequestPrefix(stream, sizes, len, got);
    RequestStops(stream, sizes, len, got);
  }

  /** The bytes read are those before, then a prefix of the stream within the buffer. */
  lemma {:induction false} RequestPrefix(stream: seq<char>, sizes: seq<nat>, len: nat, got: seq<char>)
    ensures var r := RequestFrom(stream, sizes, len, got);
            && |got| <= |r| && |r| - |got| <= |stream| && |r| - |got| <= len
            && r == got + stream[..|r| - |got|]
    decreases |stream|
  {
    var n := Received(stream, sizes, len);
    if n == 0 {
      assert got + stream[..0] == got;
    } else {
      var more := got + stream[..n];
      if !EndsHead(more) {
        var rest := stream[n..];
        var r := RequestFrom(rest, Later(sizes), len - n, more);
        assert RequestFrom(stream, sizes, len, got) == r;
        RequestPrefix(rest, Later(sizes), len - n, more);
        PrefixStep(got, stream, n, r);
      }
    }
  }

  /** A prefix of what follows the first n elements, after them, is a prefix of the whole. */
  lemma PrefixStep<T>(got: seq<T>, stream: seq<T>, n: nat, r: seq<T>)
    requires n <= |stream| && |got| + n <= |r| && |r| - |got| <= |stream|
    requires r == (got + stream[..n]) + stream[n..][..|r| - |got| - n]
    ensures r == got + stream[..|r| - |got|]
  {
    var k := |r| - |got| - n;
    JoinSlices(stream, n, k);
    assert (got + stream[..n]) + stream[n..][..k] == got + (stream[..n] + stream[n..][..k]);
  }

  /** Reading stops at the close, at a full buffer, or after the end of the header block. */
  lemma {:induction false} RequestStops(stream: seq<char>, sizes: seq<nat>, len: nat, got: seq<char>)
    ensures var r := RequestFrom(stream, sizes, len, got);
            |r| - |got| == |stream| || |r| - |got| == len || EndsHead(r)
    decreases |stream|
  {
    var n := Received(stream, sizes, len);
    if n > 0 {
      var more := got + stream[..n];
      if !EndsHead(more) {
        var r := RequestFrom(stream[n..], Later(sizes), len - n, more);
        assert RequestFrom(stream, sizes, len, got) == r;
        RequestStops(stream[n..], Later(sizes), len - n, more);
      }
    }
  }

  /** The first n elements of s, then k of those after them, are the first n + k. */
  lemma JoinSlices<T>(s: seq<T>, n: nat, k: nat)
    requires n + k <= |s|
    ensures s[..n] + s[n..][..k] == s[..n + k]
  {
  }

  /** A client that sends its whole request in one piece, within the buffer, gets exactly that request read. */
  lemma OnePieceRequest(head: seq<char>, more: seq<char>, len: nat)
    requires EndsHead(head) && |head| <= len
    ensures RequestFrom(head + more, [|head|], len, []) == head
  {
    assert (head + more)[..|head|] == head;
  }

  /**
   * The test looks only at the end of each piece: a piece that holds the
   * empty line and more is read on until the client closes.
   */
  lemma EmptyLineInsidePiece()
    ensures RequestFrom("GET / HTTP/1.0\n\nX", [], REQUEST_LENGTH, []) == "GET / HTTP/1.0\n\nX"
  {
    var s := "GET / HTTP/1.0\n\nX";
    assert s[..|s|] == s && s[|s|..] == [];
  }

  // ---------------------------------------------------------------------------
  // process_request
  // ---------------------------------------------------------------------------

  /** What `process_request` does with a request. */
  datatype Reply =
    | Refused(code: Option<string>)              // the error response sent, if any
    | FromCache(body: string)                    // the cached response is sent
    | CacheError                                 // another cache error: nothing is sent
    | Forwarded(host: string, resource: string, ok: bool)  // fetched from the host; 500 when that fails

  /**
   * The checks of `process_request` in order: the request line and host
   * (the error status of `check_GET_and_get_resource`), the ban list (403),
   * the cache (a hit is served; no file or a conflict goes on to the host;
   * any other error ends the request), then the host, whose failure, given
   * as fetchOk, is answered with HOST_IO_ERROR. The parser reads the
   * buffer as a C string, so a NUL in the request ends it there.
   */
  function Served(banlist: seq<string>, request: string, cacheFile: Option<string>, fetchOk: bool): Reply
  {
    var g := RequestParse(request);
    if g.NotGet? then Refused(ErrorResponse(NotGetRequest))
    else if !g.Got? then Refused(ErrorResponse(NoHostHeader))
    else if BanFilter.BannedBy(banlist, g.host) then Refused(Some("403"))
    else
      match ProxyCache.LookUp(g.resource, cacheFile)
      case Hit(body) => FromCache(body)
      case NotExist => Forwarded(g.host, g.resource, fetchOk)
      case Conflict(_) => Forwarded(g.host, g.resource, fetchOk)
      case ShortHeader => CacheError
  }

  /** What `check_GET_and_get_resource` makes of the request buffer: the parse of its C string. */
  function RequestParse(request: string): HttpRequest.GetResult
  {
    HttpRequest.GetRequest(BanFilter.CString(request))
  }

  /**
   * A NUL in the request ends what the proxy reads of it: the request u NUL v
   * is served as u alone, whatever v holds.
   */
  lemma NulEndsRequest(banlist: seq<string>, u: string, v: string, cacheFile: Option<string>, fetchOk: bool)
    requires NoNul(u)
    ensures Served(banlist, u + ['\0'] + v, cacheFile, fetchOk) == Served(banlist, u, cacheFile, fetchOk)
  {
    BanFilter.CStringCut(u, v);
    BanFilter.CStringWhole(u);
  }

  /** The error responses `process_request` itself sends for a reply. */
  function RepliedCodes(reply: Reply): seq<string>
  {
    match reply
    case Refused(code) => if code.Some? then [code.value] else []
    case Forwarded(_, _, ok) => if ok then [] else [ErrorResponse(HostIoFailure).value]
    case _ => []
  }

  /**
   * `process_request`: the reply, as `Served` states it, and the blocks of
   * the cached response sent on a cache hit.
   */
  method ProcessRequest(f: BanFilter.Filter, request: string, cacheFile: Option<string>, fetchOk: bool)
    returns (reply: Reply, sent: seq<string>)
    ensures reply == Served(f.banlist, request, cacheFile, fetchOk)
    ensures reply.FromCache? ==> Concat(sent) == reply.body
    ensures !reply.FromCache? ==> sent == []
  {
    sent := [];
    var text := BanFilter.CString(request);
    var g := HttpRequest.CheckGet(text);
    if !g.Got? {
      reply := Refused(ErrorResponse(if g.NotGet? then NotGetRequest else NoHostHeader));
      return;
    }
    HttpRequest.GotNoNul(text);
    var banned := f.FilterHost(g.host);
    if banned == -1 {
      reply := Refused(Some("403"));
      return;
    }
    var lookup, blocks := ProxyCache.SendCached(g.resource, cacheFile);
    if lookup.Hit? {
      reply, sent := FromCache(lookup.body), blocks;
    } else if lookup.NotExist? || lookup.Conflict? {
      reply := Forwarded(g.host, g.resource, fetchOk);
    } else {
      reply := CacheError;
    }
  }

  /** A request that is not a GET is refused with 405, whatever the ban list and the cache hold. */
  lemma NotGetRefused(banlist: seq<string>, request: string, cacheFile: Option<string>, fetchOk: bool)
    requires !IsPrefix("GET ", request)
    ensures Served(banlist, request, cacheFile, fetchOk) == Refused(Some("405"))
  {
    var c := BanFilter.CString(request);
    assert !IsPrefix("GET ", c) by {
      assert IsPrefix(c, request);
    }
  }

  /**
   * A banned host is refused with 403 before the cache is looked at: a
   * banned resource is never served from the cache nor fetched.
   */
  lemma BannedRefused(banlist: seq<string>, request: string, cacheFile: Option<string>, fetchOk: bool)
    requires RequestParse(request).Got? && BanFilter.BannedBy(banlist, RequestParse(request).host)
    ensures Served(banlist, request, cacheFile, fetchOk) == Refused(Some("403"))
    ensures RepliedCodes(Served(banlist, request, cacheFile, fetchOk)) == ["403"]
  {
  }

  /**
   * A response cached for the requested resource is served from the cache
   * without contacting the host; a file that holds another resource sends
   * the request on to the host.
   */
  lemma CachedServed(banlist: seq<string>, request: string, stored: string, body: string, fetchOk: bool)
    requires RequestParse(request).Got? && !BanFilter.BannedBy(banlist, RequestParse(request).host)
    requires NoNul(stored) && '\n' !in stored
    ensures var g := RequestParse(request);
            var reply := Served(banlist, request, Some(ProxyCache.CacheFile(stored, body)), fetchOk);
            && (g.resource == stored ==> reply == FromCache(body))
            && (g.resource != stored ==> reply == Forwarded(g.host, g.resource, fetchOk))
  {
    var g := RequestParse(request);
    ProxyCache.CacheRoundTrip(stored, g.resource, body);
  }

  /** Every error response `process_request` sends is a known one, and a failed fetch is answered with 500. */
  lemma RepliedKnown(banlist: seq<string>, request: string, cacheFile: Option<string>, fetchOk: bool)
    ensures var codes := RepliedCodes(Served(banlist, request, cacheFile, fetchOk));
            forall i :: 0 <= i < |codes| ==> ProxyResponse.Known(codes[i])
    ensures Served(banlist, request, cacheFile, fetchOk).Forwarded? && !fetchOk ==>
              RepliedCodes(Served(banlist, request, cacheFile, fetchOk)) == ["500"]
  {
    var reply := Served(banlist, request, cacheFile, fetchOk);
    var g := RequestParse(request);
    if g.NotGet? {
      ErrorResponsesCanned(NotGetRequest, NotGetRequest);
    } else if !g.Got? {
      ErrorResponsesCanned(NoHostHeader, NoHostHeader);
    }
  }

  // ---------------------------------------------------------------------------
  // The framing of the host's response
  // ---------------------------------------------------------------------------

  /** `readline`: the bytes after the first LF, or None when the input runs out first. */
  function LineRest(u: seq<char>): (r: Option<seq<char>>)
    ensures r.Some? ==> |r.value| < |u|
  {
    if LineEnd(u) < |u| then Some(AfterLine(u)) else None
  }

  /** `advance` by n: the bytes after the first n, or None when there are fewer. */
  function Skipped(u: seq<char>, n: nat): (r: Option<seq<char>>)
    ensures r.Some? ==> |r.value| <= |u|
  {
    if n <= |u| then Some(u[n..]) else None
  }

  /** `read_hex`: the size at the head of u and the bytes after its digits, or None when the input runs out first. */
  function HexSize(u: seq<char>): (r: Option<Parsed<nat>>)
    ensures r.Some? ==> |r.value.rest| <= |u|
  {
    var d := DigitRun(u, 31, true);
    if d < |u| || d == 31 then Some(Parsed(RunValue(u, true), u[d..])) else None
  }

  /** The rest of the size line and the chunk's size bytes of data. */
  function ChunkData(u: seq<char>, size: nat): (r: Option<seq<char>>)
    ensures r.Some? ==> |r.value| < |u|
  {
    var v := LineRest(u);
    if v.None? then None else Skipped(v.value, size)
  }

  /** The line after a chunk's data and the size of the next chunk. */
  function NextSize(w: seq<char>): (r: Option<Parsed<nat>>)
    ensures r.Some? ==> |r.value.rest| < |w|
  {
    var x := LineRest(w);
    if x.None? then None else HexSize(x.value)
  }

  /**
   * One round of the chunk loop for a chunk of size bytes, after its size:
   * the rest of the size line, the data, the line after it, and the next
   * size.
   */
  function ChunkRound(u: seq<char>, size: nat): (r: Option<Parsed<nat>>)
    ensures r.Some? ==> |r.value.rest| < |u|
  {
    var w := ChunkData(u, size);
    if w.None? then None else NextSize(w.value)
  }

  /** The chunk loop from a chunk of size bytes: the input after the chunk of size 0. */
  function Chunks(u: seq<char>, size: nat): Option<seq<char>>
    decreases |u|
  {
    if size == 0 then Some(u)
    else
      var p := ChunkRound(u, size);
      if p.None? then None else Chunks(p.value.rest, p.value.value)
  }

  /** The rest of the line that gave the framing and the header lines up to the empty line. */
  function HeadersEnd(v: seq<char>): Option<seq<char>>
  {
    var w := LineRest(v);
    if w.None? then None else EmptyLineScan(w.value)
  }

  /** Content-Length framing after the length: the rest of the headers, then n bytes. */
  function LengthBody(v: seq<char>, n: nat): Option<seq<char>>
  {
    var x := HeadersEnd(v);
    if x.None? then None else Skipped(x.value, n)
  }

  /** Chunked framing after "chunked": the rest of the headers, then the chunks. */
  function ChunkedBody(v: seq<char>): Option<seq<char>>
  {
    var x := HeadersEnd(v);
    if x.None? then None else ChunkedTail(x.value)
  }

  /** The chunks after the headers: the chunk loop, then the lines up to the empty line after the last chunk. */
  function ChunkedTail(x: seq<char>): Option<seq<char>>
  {
    var y := AllChunks(x);
    if y.None? then None else EmptyLineScan(y.value)
  }

  /** The first size and the chunk loop from it. */
  function AllChunks(x: seq<char>): Option<seq<char>>
  {
    var p := HexSize(x);
    if p.None? then None else Chunks(p.value.rest, p.value.value)
  }

  /** How reading a response ends: at the end of its framing, reading to the close, or running out. */
  datatype Framed = Whole(rest: seq<char>) | Unbounded | RanOut

  function Ended(o: Option<seq<char>>): Framed
  {
    if o.Some? then Whole(o.value) else Framed.RanOut
  }

  /**
   * The framing decision of `recieve_data_and_pipe_to_client` on the input
   * u after the status code: a code without a body ends at the empty line;
   * otherwise the headers give a length, chunked coding, or neither, in
   * which case the body lasts until the host closes (rule 5 of section 4.4
   * of RFC 2616).
   */
  function Frame(code: string, u: seq<char>): Framed
  {
    if CodeHasNoBody(code) == 0 then Ended(EmptyLineScan(u))
    else
      var h := HeaderScan(u);
      if h.None? then Framed.RanOut
      else
        match h.value.value
        case Length(n) => Ended(LengthBody(h.value.rest, n))
        case Chunked => Ended(ChunkedBody(h.value.rest))
        case Unframed => Unbounded
  }

  /** Without any input left, every framing runs out. */
  lemma FrameOfNothing(code: string)
    ensures Frame(code, []) == Framed.RanOut
  {
  }

  /** A line that is just CRLF is read whole. */
  lemma CrlfLine(t: seq<char>)
    ensures LineRest("\r\n" + t) == Some(t)
  {
    var u := "\r\n" + t;
    assert u[1..][0] == '\n';
    assert LineEnd(u) == 1;
    assert u[2..] == t;
  }

  /** The size at the head of hex + rest is the value of hex, when rest starts with another byte. */
  lemma HexSizeOf(hex: seq<char>, rest: seq<char>)
    requires |hex| < 31 && forall i :: 0 <= i < |hex| ==> IsHexDigit(hex[i])
    requires |rest| > 0 && !IsHexDigit(rest[0])
    ensures HexSize(hex + rest) == Some(Parsed(HexValue(hex), rest))
  {
    var x := hex + rest;
    HexRun(hex, rest, 31);
    assert x[..|hex|] == hex && x[|hex|..] == rest;
  }

  /**
   * A chunk in its encoding (CRLF, the data, CRLF, the next size in hex
   * digits, then a byte that is not one) is read as one round: the data is
   * skipped whatever it holds, and the next size is the value of the digits.
   */
  lemma ChunkRoundDecodes(data: seq<char>, hex: seq<char>, rest: seq<char>)
    requires |hex| < 31 && forall i :: 0 <= i < |hex| ==> IsHexDigit(hex[i])
    requires |rest| > 0 && !IsHexDigit(rest[0])
    ensures ChunkRound("\r\n" + (data + ("\r\n" + (hex + rest))), |data|) == Some(Parsed(HexValue(hex), rest))
  {
    var x := hex + rest;
    var w := "\r\n" + x;
    var v := data + w;
    CrlfLine(v);
    assert Skipped(v, |data|) == Some(w) by {
      assert v[|data|..] == w;
    }
    CrlfLine(x);
    HexSizeOf(hex, rest);
    RoundOf("\r\n" + v, v, w, x, |data|, Parsed(HexValue(hex), rest));
  }

  /** A round is its four steps. */
  lemma RoundOf(u: seq<char>, v: seq<char>, w: seq<char>, x: seq<char>, size: nat, p: Parsed<nat>)
    requires LineRest(u) == Some(v) && Skipped(v, size) == Some(w) && LineRest(w) == Some(x) && HexSize(x) == Some(p)
    ensures ChunkRound(u, size) == Some(p)
  {
    assert ChunkData(u, size) == Some(w);
    assert NextSize(w) == Some(p);
  }

  /** The hex digit run at the head of hex + rest, up to max, is hex, when rest starts with another byte. */
  lemma {:induction false} HexRun(hex: seq<char>, rest: seq<char>, max: nat)
    requires |hex| < max && forall i :: 0 <= i < |hex| ==> IsHexDigit(hex[i])
    requires |rest| > 0 && !IsHexDigit(rest[0])
    ensures DigitRun(hex + rest, max, true) == |hex|
    decreases |hex|
  {
    var u := hex + rest;
    if |hex| == 0 {
      assert u == rest;
      assert !IsRunChar(u[0], true);
    } else {
      assert u[1..] == hex[1..] + rest;
      HexRun(hex[1..], rest, max - 1);
      assert IsRunChar(u[0], true);
    }
  }

  /** The last chunk, of size 0, ends the chunk loop right after its digit. */
  lemma LastChunkEnds(data: seq<char>, rest: seq<char>)
    requires |data| > 0 && |rest| > 0 && !IsHexDigit(rest[0])
    ensures Chunks("\r\n" + (data + ("\r\n" + ("0" + rest))), |data|) == Some(rest)
  {
    assert HexValue("0") == 0 by {
      assert "0"[..0] == [];
    }
    ChunkRoundDecodes(data, "0", rest);
  }

  // ---------------------------------------------------------------------------
  // Reading the response with the reader
  // ---------------------------------------------------------------------------

  /**
   * The reader after a framed part of the response: when the framing o
   * ends, the status is fine, everything received is queued, and at most
   * the input after the framing is unread; when it runs out, the status is
   * an error.
   */
  ghost predicate EndedAt(rd: Reader, o: Option<seq<char>>)
    reads rd, rd.buf
  {
    && rd.Valid()
    && (o.Some? ==> && rd.status == Fine && rd.flushed
                    && Concat(rd.data) + rd.Unread() == rd.input && |rd.Unread()| <= |o.value|)
    && (o.None? ==> rd.status != Fine)
  }

  /** Lines 300-301: a response without a body is read to the empty line, then flushed. */
  method ReadNoBody(rd: Reader)
    requires rd.Valid() && !rd.flushed
    modifies rd, rd.buf
    ensures EndedAt(rd, EmptyLineScan(old(rd.Unread())))
  {
    var _ := rd.ReadToEmptyLine();
    rd.Flush();
  }

  /**
   * The reader after a step that reads as o says from the input it had,
   * when its status was was: the rest when the step completes, an error
   * when it runs out or the status was already an error.
   */
  ghost predicate Reached(rd: Reader, was: Status, o: Option<seq<char>>)
    reads rd, rd.buf
  {
    && rd.Valid()
    && (was == Fine && o.Some? ==> rd.status == Fine && rd.Unread() == o.value)
    && (was != Fine || o.None? ==> rd.status != Fine)
  }

  /** `readline` then `read_to_empty_line`: the rest of the framing line and the headers. */
  method ReadHeadersEnd(rd: Reader)
    requires rd.Valid()
    modifies rd, rd.buf
    ensures Reached(rd, old(rd.status), HeadersEnd(old(rd.Unread()))) && rd.flushed == old(rd.flushed)
  {
    rd.ReadLine();
    var _ := rd.ReadToEmptyLine();
  }

  /** Lines 307-310: after the length, the rest of the headers, len bytes, then a flush. */
  method ReadLengthBody(rd: Reader, len: nat)
    requires rd.Valid() && !rd.flushed
    modifies rd, rd.buf
    ensures EndedAt(rd, LengthBody(old(rd.Unread()), len))
  {
    ReadHeadersEnd(rd);
    rd.Advance(len);
    rd.Flush();
  }

  /** `readline` then `advance`: the rest of the size line and the chunk's data (lines 318-319). */
  method ReadChunkData(rd: Reader, size: nat)
    requires rd.Valid()
    modifies rd, rd.buf
    ensures Reached(rd, old(rd.status), ChunkData(old(rd.Unread()), size)) && rd.flushed == old(rd.flushed)
  {
    rd.ReadLine();
    rd.Advance(size);
  }

  /** `readline` then `read_hex`: the line after the data and the next size (lines 320-321). */
  method ReadNextSize(rd: Reader) returns (next: nat)
    requires rd.Valid()
    modifies rd, rd.buf
    ensures rd.Valid() && rd.flushed == old(rd.flushed)
    ensures var p := NextSize(old(rd.Unread()));
            && (old(rd.status) == Fine && p.Some? ==> rd.status == Fine && rd.Unread() == p.value.rest && next == p.value.value)
            && (old(rd.status) != Fine || p.None? ==> rd.status != Fine)
            && (old(rd.status) != Fine ==> next == 0)
  {
    rd.ReadLine();
    next := rd.ReadRun(true);
  }

  /** One round of the chunk loop (lines 318-321). */
  method ChunkStep(rd: Reader, size: nat) returns (next: nat)
    requires rd.Valid()
    modifies rd, rd.buf
    ensures rd.Valid() && rd.flushed == old(rd.flushed)
    ensures var p := ChunkRound(old(rd.Unread()), size);
            && (old(rd.status) == Fine && p.Some? ==> rd.status == Fine && rd.Unread() == p.value.rest && next == p.value.value)
            && (old(rd.status) != Fine || p.None? ==> rd.status != Fine)
            && (old(rd.status) != Fine ==> next == 0)
  {
    ReadChunkData(rd, size);
    next := ReadNextSize(rd);
  }

  /** The chunk loop (lines 317-322): rounds until a size of 0. */
  method ReadChunks(rd: Reader, size: nat)
    requires rd.Valid()
    modifies rd, rd.buf
    ensures Reached(rd, old(rd.status), Chunks(old(rd.Unread()), size)) && rd.flushed == old(rd.flushed)
  {
    ghost var u := rd.Unread();
    var len := size;
    while len != 0
      invariant rd.Valid() && rd.flushed == old(rd.flushed)
      invariant rd.status == Fine ==> old(rd.status) == Fine && Chunks(rd.Unread(), len) == Chunks(u, size)
      invariant old(rd.status) == Fine && rd.status != Fine ==> Chunks(u, size).None?
      invariant old(rd.status) != Fine ==> rd.status != Fine
      decreases |rd.Unread()|, if rd.status == Fine then 1 else 0, len
    {
      len := ChunkStep(rd, len);
    }
  }

  /** Lines 314-324: chunked coding after "chunked", then a flush. */
  method ReadChunkedBody(rd: Reader)
    requires rd.Valid() && !rd.flushed
    modifies rd, rd.buf
    ensures EndedAt(rd, ChunkedBody(old(rd.Unread())))
  {
    ReadHeadersEnd(rd);
    ReadChunkedTail(rd);
    rd.Flush();
  }

  /** Lines 316-323: the chunk loop and the lines up to the empty line. */
  method ReadChunkedTail(rd: Reader)
    requires rd.Valid()
    modifies rd, rd.buf
    ensures Reached(rd, old(rd.status), ChunkedTail(old(rd.Unread()))) && rd.flushed == old(rd.flushed)
  {
    ReadAllChunks(rd);
    var _ := rd.ReadToEmptyLine();
  }

  /** Lines 316-322: the first size and the chunk loop. */
  method ReadAllChunks(rd: Reader)
    requires rd.Valid()
    modifies rd, rd.buf
    ensures Reached(rd, old(rd.status), AllChunks(old(rd.Unread()))) && rd.flushed == old(rd.flushed)
  {
    var size := rd.ReadRun(true);
    ReadChunks(rd, size);
  }

  /** Lines 331-334: `flush` and `peek` until the host closes the connection; all it sent is then received. */
  method Drain(rd: Reader)
    requires rd.Valid()
    modifies rd, rd.buf
    ensures rd.Valid() && rd.status != Fine && rd.Unread() == [] && rd.before == rd.input
  {
    while rd.status == Fine
      invariant rd.Valid()
      decreases |rd.Unread()|, if rd.status == Fine then 1 else 0, if rd.pos < rd.bytesInBuf then 0 else 1
    {
      rd.Flush();
      var _ := rd.Peek();
    }
    rd.Covered();
  }

  /**
   * Lines 298-343: reads the response after its status code as `Frame`
   * states; true when it had no framing and was read to the close.
   */
  method ReadBody(rd: Reader, code: string) returns (unbounded: bool)
    requires rd.Valid() && !rd.flushed
    modifies rd, rd.buf
    ensures rd.Valid()
    ensures var f := Frame(code, old(rd.Unread()));
            && (f.Whole? ==> !unbounded && EndedAt(rd, Some(f.rest)))
            && (f.RanOut? ==> !unbounded && rd.status != Fine)
            && (f.Unbounded? ==> unbounded)
  {
    if CodeHasNoBody(code) == 0 {
      ReadNoBody(rd);
      return false;
    }
    var framing := rd.ReadContentLength();
    if rd.status != Fine {
      return false;
    }
    match framing
    case Length(n) =>
      ReadLengthBody(rd, n);
      return false;
    case Chunked =>
      ReadChunkedBody(rd);
      return false;
    case Unframed =>
      Drain(rd);
      return true;
  }

  // ---------------------------------------------------------------------------
  // recieve_data_and_pipe_to_client
  // ---------------------------------------------------------------------------

  /** The size of the reader's buffer (DATA_LENGTH). */
  const DATA_LENGTH := 8096

  /** Whether `send_message` delivers the i-th block to the client. */
  predicate Delivered(ok: seq<bool>, i: nat)
  {
    i < |ok| && ok[i]
  }

  /**
   * The send loop (lines 352-357): the queued blocks in order, stopping
   * after the first that cannot be sent; 0 when all were sent.
   */
  method SendAll(blocks: seq<seq<char>>, ok: seq<bool>) returns (success: int, tried: seq<seq<char>>)
    ensures |tried| <= |blocks| && tried == blocks[..|tried|]
    ensures success == 0 || success == -1
    ensures success == 0 <==> |tried| == |blocks| && forall i :: 0 <= i < |blocks| ==> Delivered(ok, i)
    ensures success == -1 ==> |tried| > 0 && !Delivered(ok, |tried| - 1)
                              && forall i :: 0 <= i < |tried| - 1 ==> Delivered(ok, i)
  {
    success, tried := 0, [];
    var i := 0;
    while i < |blocks| && success == 0
      invariant 0 <= i <= |blocks| && tried == blocks[..i]
      invariant success == 0 || success == -1
      invariant success == 0 ==> forall j :: 0 <= j < i ==> Delivered(ok, j)
      invariant success == -1 ==> i > 0 && !Delivered(ok, i - 1) && forall j :: 0 <= j < i - 1 ==> Delivered(ok, j)
    {
      tried := tried + [blocks[i]];
      success := if Delivered(ok, i) then 0 else -1;
      i := i + 1;
    }
  }

  /** A cache file to write: its name and contents. */
  datatype CacheEntry = CacheEntry(name: string, contents: string)

  /**
   * `recieve_data_and_pipe_to_client` for a host that sends host, in pieces
   * of the given sizes, and then ends the connection as ending says; ok
   * says which blocks reach the client. Results: the return value, the
   * error responses sent, the blocks received, those sent, and the cache
   * file written.
   *
   * A response without a status line is answered with 502 (or, when the
   * input runs out inside the code, with the reader's error); one that runs
   * out is answered with the reader's error; one without framing is read to
   * the close and dropped. A framed one is sent block by block, and it is
   * cached, with the resource as its first line, exactly when its code is
   * "200", whether or not the sending succeeded.
   */
  method Pipe(host: seq<char>, sizes: seq<nat>, ending: Status, resource: string, ok: seq<bool>)
    returns (r: int, responses: seq<string>, received: seq<seq<char>>, sent: seq<seq<char>>, cache: Option<CacheEntry>)
    requires ending != Fine
    ensures r == 0 || r == -1
    ensures var line := StatusLine(host);
            line.None? ==> && r == -1 && sent == [] && cache.None?
                           && (responses == ["502"] || responses == [ReaderErrorCode(ending)])
    ensures var line := StatusLine(host);
            line.Some? ==>
              var f := Frame(line.value.value, line.value.rest);
              && (f.RanOut? ==> r == -1 && responses == [ReaderErrorCode(ending)] && sent == [] && cache.None?)
              && (f.Unbounded? ==> r == -1 && responses == [] && sent == [] && cache.None?)
              && (f.Whole? ==>
                    && responses == []
                    && IsPrefix(Concat(received), host) && |host| - |f.rest| <= |Concat(received)|
                    && |sent| <= |received| && sent == received[..|sent|]
                    && (r == 0 <==> |sent| == |received| && forall i :: 0 <= i < |received| ==> Delivered(ok, i))
                    && (cache.Some? <==> line.value.value == "200")
                    && (cache.Some? ==> cache.value == CacheEntry(ProxyCache.CacheName(resource),
                                                                   ProxyCache.CacheFile(resource, Concat(received)))))
  {
    var rd := new Reader(DATA_LENGTH, host, sizes, ending);
    received, sent, cache := [], [], None;
    var code := rd.ReadCode();
    if code.None? {
      r, responses := -1, ["502"];
      return;
    }
    if rd.status != Fine {
      FrameOfNothing(code.value);
    }
    var unbounded := ReadBody(rd, code.value);
    if unbounded {
      r, responses := -1, [];
      return;
    }
    if rd.status != Fine {
      r, responses := -1, [ReaderErrorCode(rd.status)];
      return;
    }
    received := rd.data;
    r, sent := SendAll(received, ok);
    responses := [];
    if code.value == "200" {
      cache := Some(CacheEntry(ProxyCache.CacheName(resource), ProxyCache.CacheFile(resource, Concat(received))));
    }
  }
}
