/**
 * The proxy's buffered reader over the host socket (`buffered_reader` and
 * its scanners): a fixed buffer refilled by `recv`, a cursor into it, a
 * status that turns to an error when the host closes, times out or fails,
 * and the queue of every block received, which is what the proxy later
 * sends to the client and writes to the cache.
 *
 * `recv` is modelled by the sequence of its results still to come. The
 * reader is modelled in the mode the proxy uses it in, storing blocks in
 * the queue (`client_sd < 0`); the queue is modelled by the sequence of its
 * buffers.
 *
 * Every scanner is specified against a function on the bytes not yet
 * consumed, `Unread()`: the rest of the current block followed by the
 * blocks still to come. Once the status is an error, `Unread()` is empty.
 */
module HttpReader {
  import opened Common

  /** The reader's status: fine, or the error that ended the reading. */
  datatype Status = Fine | HostTimeout | HostIoError

  /** What `read_content_length` found: a length, chunked transfer coding, or neither. */
  datatype Framing = Length(n: nat) | Chunked | Unframed

  /** A value scanned from the input, and the input after it. */
  datatype Parsed<T> = Parsed(value: T, rest: seq<char>)

  // ---------------------------------------------------------------------------
  // Character classes and scans over the unread bytes
  // ---------------------------------------------------------------------------

  /** `is_space`: a blank or a tab. */
  predicate IsSpace(c: char) { c == ' ' || c == '\t' }

  /** `is_hex_digit`. */
  predicate IsHexDigit(c: char) { IsDigit(c) || 'A' <= c <= 'F' || 'a' <= c <= 'f' }

  /** The byte classes the scanning loops test with `peek`. */
  datatype CharClass = NotLineFeed | Blank | Digit | HexDigit | Exactly(ch: char)

  /** The class `read_int` (decimal) and `read_hex` (hex) collect. */
  function RunClass(hex: bool): CharClass { if hex then HexDigit else Digit }

  /** The characters `read_int` (decimal) and `read_hex` (hex) collect. */
  predicate IsRunChar(c: char, hex: bool) { InClass(c, RunClass(hex)) }

  predicate InClass(c: char, cls: CharClass)
  {
    match cls
    case NotLineFeed => c != '\n'
    case Blank => IsSpace(c)
    case Digit => IsDigit(c)
    case HexDigit => IsHexDigit(c)
    case Exactly(ch) => c == ch
  }

  /** The index of the first line feed in u, or |u| when there is none. */
  function LineEnd(u: seq<char>): (k: nat)
    ensures k <= |u| && (k < |u| ==> u[k] == '\n')
    decreases |u|
  {
    if |u| == 0 || u[0] == '\n' then 0 else 1 + LineEnd(u[1..])
  }

  /** No line feed comes before LineEnd(u): it is the first. */
  lemma {:induction false} LineEndFirst(u: seq<char>, i: nat)
    requires i < LineEnd(u)
    ensures u[i] != '\n'
    decreases i
  {
    if i > 0 {
      LineEndFirst(u[1..], i - 1);
    }
  }

  /** The bytes after the first line feed; nothing when there is none. */
  function AfterLine(u: seq<char>): seq<char>
  {
    if LineEnd(u) < |u| then u[LineEnd(u) + 1..] else []
  }

  /** The number of leading blanks and tabs. */
  function SpaceRun(u: seq<char>): (k: nat)
    ensures k <= |u| && (k < |u| ==> !IsSpace(u[k]))
    decreases |u|
  {
    if |u| == 0 || !IsSpace(u[0]) then 0 else 1 + SpaceRun(u[1..])
  }

  /** Every byte before SpaceRun(u) is a blank. */
  lemma {:induction false} SpaceRunAll(u: seq<char>, i: nat)
    requires i < SpaceRun(u)
    ensures IsSpace(u[i])
    decreases i
  {
    if i > 0 {
      SpaceRunAll(u[1..], i - 1);
    }
  }

  /** A scan position inside the blank run that is still at a blank is not its end. */
  lemma {:induction false} SpaceGrows(u: seq<char>, k: nat)
    requires k <= SpaceRun(u) && k < |u| && IsSpace(u[k])
    ensures k + 1 <= SpaceRun(u)
  {
  }

  /** A scan position inside the blank run that has reached the end or a non-blank is its end. */
  lemma {:induction false} SpaceStops(u: seq<char>, k: nat)
    requires k <= SpaceRun(u) && (k == |u| || !IsSpace(u[k]))
    ensures k == SpaceRun(u)
  {
    if k < SpaceRun(u) {
      SpaceRunAll(u, k);
    }
  }

  /** A scan position before the first line feed that is not at one is not the line's end. */
  lemma {:induction false} LineGrows(u: seq<char>, k: nat)
    requires k <= LineEnd(u) && k < |u| && u[k] != '\n'
    ensures k + 1 <= LineEnd(u)
  {
  }

  /** A scan position before the first line feed that is at one is the line's end. */
  lemma {:induction false} LineStops(u: seq<char>, k: nat)
    requires k <= LineEnd(u) && k < |u| && u[k] == '\n'
    ensures k == LineEnd(u)
  {
    if k < LineEnd(u) {
      LineEndFirst(u, k);
    }
  }

  /** Extending a match by one agreeing character. */
  lemma MatchGrows(u: seq<char>, str: seq<char>, k: nat)
    requires k < |u| && k < |str| && u[..k] == str[..k] && u[k] == str[k]
    ensures u[..k + 1] == str[..k + 1]
  {
    assert u[..k + 1] == u[..k] + [u[k]];
    assert str[..k + 1] == str[..k] + [str[k]];
  }

  /** The number of leading characters of u that agree with str. */
  function MatchLen(u: seq<char>, str: seq<char>): (k: nat)
    ensures k <= |u| && k <= |str| && u[..k] == str[..k]
    ensures k < |u| && k < |str| ==> u[k] != str[k]
    decreases |str|
  {
    if |u| == 0 || |str| == 0 || u[0] != str[0] then 0
    else
      var k := 1 + MatchLen(u[1..], str[1..]);
      assert u[..k] == [u[0]] + u[1..][..k - 1];
      assert str[..k] == [str[0]] + str[1..][..k - 1];
      k
  }

  /** MatchLen is the one common prefix length at which the two sequences stop agreeing. */
  lemma {:induction false} MatchLenUnique(u: seq<char>, str: seq<char>, k: nat)
    requires k <= |u| && k <= |str| && u[..k] == str[..k]
    requires k == |u| || k == |str| || u[k] != str[k]
    ensures MatchLen(u, str) == k
  {
  }

  /** The number of leading digits (hex digits when hex), at most max. */
  function DigitRun(u: seq<char>, max: nat, hex: bool): (k: nat)
    ensures k <= |u| && k <= max
    ensures k < |u| && k < max ==> !IsRunChar(u[k], hex)
    decreases max
  {
    if |u| == 0 || max == 0 || !IsRunChar(u[0], hex) then 0 else 1 + DigitRun(u[1..], max - 1, hex)
  }

  /** Every byte before DigitRun(u, max, hex) is a digit (a hex digit when hex). */
  lemma {:induction false} DigitRunAll(u: seq<char>, max: nat, hex: bool, i: nat)
    requires i < DigitRun(u, max, hex)
    ensures IsRunChar(u[i], hex)
    decreases i
  {
    if i > 0 {
      DigitRunAll(u[1..], max - 1, hex, i - 1);
    }
  }

  /** The digit run is all digits (all hex digits when hex). */
  lemma RunDigits(u: seq<char>, hex: bool)
    ensures var d := DigitRun(u, 31, hex);
            forall i :: 0 <= i < d ==> IsRunChar(u[..d][i], hex)
  ensures !hex ==> AllDigits(u[..DigitRun(u, 31, hex)])
  {
    var d := DigitRun(u, 31, hex);
    forall i | 0 <= i < d
      ensures IsRunChar(u[..d][i], hex)
    {
      DigitRunAll(u, 31, hex, i);
    }
  }

  /** A scan position inside the digit run that is still at a digit, below the cap, is not its end. */
  lemma {:induction false} RunGrows(u: seq<char>, k: nat, hex: bool)
    requires k <= DigitRun(u, 31, hex) && k < |u| && k < 31 && IsRunChar(u[k], hex)
    ensures k + 1 <= DigitRun(u, 31, hex) && u[..k + 1] == u[..k] + [u[k]]
  {
    assert u[..k + 1] == u[..k] + [u[k]];
  }

  /** A scan position inside the digit run that has reached the end, the cap or a non-digit is its end. */
  lemma {:induction false} RunStops(u: seq<char>, k: nat, hex: bool)
    requires k <= DigitRun(u, 31, hex)
    requires k == |u| || k == 31 || !IsRunChar(u[k], hex)
    ensures k == DigitRun(u, 31, hex)
  {
    if k < DigitRun(u, 31, hex) {
      DigitRunAll(u, 31, hex, k);
    }
  }

  /** The value of a hex digit string, as `strtol` with base 16 reads it. */
  function HexValue(s: seq<char>): nat
    decreases |s|
  {
    if |s| == 0 then 0 else 16 * HexValue(s[..|s| - 1]) + HexDigitValue(s[|s| - 1])
  }

  function HexDigitValue(c: char): nat
  {
    if IsDigit(c) then DigitValue(c)
    else if 'A' <= c <= 'F' then c as nat - 'A' as nat + 10
    else if 'a' <= c <= 'f' then c as nat - 'a' as nat + 10
    else 0
  }

  /** The value of the digit run at the head of u, as `read_int` / `read_hex` return it. */
  function RunValue(u: seq<char>, hex: bool): nat
  {
    RunDigits(u, hex);
    var d := u[..DigitRun(u, 31, hex)];
    if hex then HexValue(d) else DecimalValue(d)
  }

  /** The collected string up to the 0 that ends it for `atoi` / `strtol`. */
  function StripNul(num: seq<char>): seq<char>
  {
    if |num| > 0 && num[|num| - 1] == '\0' then num[..|num| - 1] else num
  }

  /**
   * What the loop of `read_int` / `read_hex` collects, the digit run with or
   * without a trailing 0, reads as the value of the digit run.
   */
  lemma CollectedRun(u: seq<char>, num: seq<char>, hex: bool)
    requires var d := DigitRun(u, 31, hex); num == u[..d] || num == u[..d] + ['\0']
    ensures StripNul(num) == u[..DigitRun(u, 31, hex)]
    ensures !hex ==> AllDigits(StripNul(num))
  {
    RunDigits(u, hex);
    var d := DigitRun(u, 31, hex);
    if d > 0 {
      assert IsRunChar(u[..d][d - 1], hex);
    }
  }

  /** The version `read_code` accepts: "HTTP/1.1" or "HTTP/1.0". */
  predicate Version(u: seq<char>)
  {
    |u| >= 8 && u[..7] == "HTTP/1." && (u[7] == '1' || u[7] == '0')
  }

  /**
   * The status line `read_code` accepts: the version, one more byte (the
   * blank), any blanks and tabs, and three digits, which are the code; the
   * rest follows the third digit.
   */
  function StatusLine(u: seq<char>): Option<Parsed<string>>
  {
    if Version(u) then CodeAfterVersion(u[8..]) else None
  }

  /** The part of the status line after the version. */
  function CodeAfterVersion(w: seq<char>): Option<Parsed<string>>
  {
    if |w| >= 1 then
      var v := CodeStart(w);
      if |v| >= 3 && AllDigits(v[..3]) then Some(Parsed(v[..3], v[3..])) else None
    else None
  }

  /** Where `read_code` reads the code: past one byte and the blanks after it. */
  function CodeStart(w: seq<char>): seq<char>
    requires |w| >= 1
  {
    w[1..][SpaceRun(w[1..])..]
  }

  /**
   * One round of a line scan: it stops with a result, or goes on by skipping
   * the rest of the line from at, or the input runs out first (the reader's
   * status then turns to an error).
   */
  datatype Round<T> = Stop(value: T) | Skip(at: seq<char>) | RanOut

  /**
   * `try_match` of a line-start name: the input after it when all of name
   * matched, the input after the partial match when the input goes on, or
   * running out.
   */
  function NamedRound(u: seq<char>, name: string): (r: Round<seq<char>>)
    ensures r.Skip? ==> |r.at| <= |u|
  {
    var m := MatchLen(u, name);
    if m == |name| then Stop(u[m..])
    else if m == |u| then RanOut
    else Skip(u[m..])
  }

  /**
   * One round of `read_content_length` at the start of a line: an empty
   * line (LF, left unread, or CRLF) stops with no framing; "Content-Length:"
   * and "Transfer-Encoding:" (matched case-sensitively) stop with their
   * value; any other line is skipped.
   */
  function HeaderRound(u: seq<char>): (r: Round<Parsed<Framing>>)
    ensures r.Skip? ==> |r.at| <= |u|
  {
    if |u| == 0 then RanOut
    else if u[0] == '\n' then Stop(Parsed(Unframed, u))
    else if u[0] == '\r' then
      match NamedRound(u, "\r\n")
      case Stop(w) => Stop(Parsed(Unframed, w))
      case Skip(w) => Skip(w)
      case RanOut => RanOut
    else if u[0] == 'C' then LengthRound(NamedRound(u, "Content-Length:"))
    else if u[0] == 'T' then CodingRound(NamedRound(u, "Transfer-Encoding:"))
    else Skip(u)
  }

  /** After a "Content-Length:" match: the length that follows, if the input holds one. */
  function LengthRound(n: Round<seq<char>>): (r: Round<Parsed<Framing>>)
    ensures r.Skip? <==> n.Skip?
    ensures r.Skip? ==> r.at == n.at
  {
    match n
    case Stop(w) => if LengthValue(w).Some? then Stop(LengthValue(w).value) else RanOut
    case Skip(w) => Skip(w)
    case RanOut => RanOut
  }

  /** After a "Transfer-Encoding:" match: the coding that follows, if the input holds one. */
  function CodingRound(n: Round<seq<char>>): (r: Round<Parsed<Framing>>)
    ensures r.Skip? <==> n.Skip?
    ensures r.Skip? ==> r.at == n.at
  {
    match n
    case Stop(w) => if Coding(w).Some? then Stop(Coding(w).value) else RanOut
    case Skip(w) => Skip(w)
    case RanOut => RanOut
  }

  /**
   * The header scan of `read_content_length` from the start of a line: the
   * framing it reports and the input after what it consumed, or None when
   * the input runs out first.
   */
  function HeaderScan(u: seq<char>): Option<Parsed<Framing>>
    decreases |u|
  {
    match HeaderRound(u)
    case Stop(p) => Some(p)
    case RanOut => None
    case Skip(w) => if LineEnd(w) < |w| then HeaderScan(AfterLine(w)) else None
  }

  /** After "Content-Length:": blanks, then up to 31 digits, whose value is the length. */
  function LengthValue(w: seq<char>): Option<Parsed<Framing>>
  {
    var v := w[SpaceRun(w)..];
    var d := DigitRun(v, 31, false);
    if d == |v| && d < 31 then None
    else Some(Parsed(Length(RunValue(v, false)), v[d..]))
  }

  /** After "Transfer-Encoding:": blanks, then "chunked" or anything else. */
  function Coding(w: seq<char>): Option<Parsed<Framing>>
  {
    var v := w[SpaceRun(w)..];
    var k := MatchLen(v, "chunked");
    if k == 7 then Some(Parsed(Chunked, v[7..]))
    else if k == |v| then None
    else Some(Parsed(Unframed, v[k..]))
  }

  /** One round of `read_to_empty_line`: an empty line (LF, left unread, or CRLF) stops; any other line is skipped. */
  function EmptyRound(u: seq<char>): (r: Round<seq<char>>)
    ensures r.Skip? ==> |r.at| <= |u|
  {
    if |u| == 0 then RanOut
    else if u[0] == '\n' then Stop(u)
    else if u[0] == '\r' then NamedRound(u, "\r\n")
    else Skip(u)
  }

  /**
   * The scan of `read_to_empty_line` from the start of a line: the input at
   * the first empty line, or None when the input runs out first.
   */
  function EmptyLineScan(u: seq<char>): Option<seq<char>>
    decreases |u|
  {
    match EmptyRound(u)
    case Stop(w) => Some(w)
    case RanOut => None
    case Skip(w) => if LineEnd(w) < |w| then EmptyLineScan(AfterLine(w)) else None
  }

  // ---------------------------------------------------------------------------
  // The reader's bookkeeping, on values
  // ---------------------------------------------------------------------------

  /**
   * How the reader's status and queue relate to the bytes received before
   * the current block (before), the current block and the bytes the host
   * still sends (pending): input is everything the host sends and ending how
   * the connection ends once it is used up. Before a flush, the queue holds
   * every byte received before the current block.
   */
  ghost predicate Consistent(status: Status, block: seq<char>, pending: seq<char>, before: seq<char>,
                             data: seq<seq<char>>, flushed: bool, input: seq<char>, ending: Status)
  {
    && ending != Fine
    && (status != Fine ==> block == [] && status == ending && pending == [])
    && before + block + pending == input
    && (!flushed ==> Concat(data) == before)
  }

  /** The bytes not yet consumed: the rest of the block, then what the host still sends. */
  ghost function Rest(pos: int, status: Status, block: seq<char>, pending: seq<char>): seq<char>
    requires 0 <= pos <= |block| || status != Fine
  {
    if status == Fine then block[pos..] + pending else []
  }

  /** Consuming one byte of the current block. */
  lemma RestStep(pos: int, block: seq<char>, pending: seq<char>)
    requires 0 <= pos < |block|
    ensures Rest(pos, Fine, block, pending) != []
    ensures Rest(pos, Fine, block, pending)[0] == block[pos]
    ensures Rest(pos + 1, Fine, block, pending) == Rest(pos, Fine, block, pending)[1..]
  {
    assert block[pos..] == [block[pos]] + block[pos + 1..];
  }

  /** Skipping a bytes of the current block. */
  lemma RestSkip(pos: int, a: nat, block: seq<char>, pending: seq<char>)
    requires 0 <= pos && pos + a <= |block|
    ensures |Rest(pos, Fine, block, pending)| >= a
    ensures Rest(pos + a, Fine, block, pending) == Rest(pos, Fine, block, pending)[a..]
    ensures Rest(pos, Fine, block, pending)[..a] == block[pos..pos + a]
  {
    assert block[pos..] == block[pos..pos + a] + block[pos + a..];
  }

  /**
   * `flush` skipping the rest of the block and queueing it: the bookkeeping
   * holds with the flag set and, before any flush, the queue then holds every
   * received byte.
   */
  lemma FlushKeeps(pos: int, status: Status, block: seq<char>, pending: seq<char>, before: seq<char>,
                   data: seq<seq<char>>, flushed: bool, input: seq<char>, ending: Status)
    requires Consistent(status, block, pending, before, data, flushed, input, ending)
    requires status == Fine ==> 0 <= pos <= |block|
    ensures var data' := if status == Fine && |block| > 0 then data + [block] else data;
            && Consistent(status, block, pending, before, data', true, input, ending)
            && (!flushed ==> Concat(data') == before + block)
    ensures status == Fine ==> Rest(pos, status, block, pending) == block[pos..] + Rest(|block|, status, block, pending)
    ensures status == Fine ==> Rest(|block|, status, block, pending) == pending
  {
    if status == Fine {
      assert block[|block|..] == [];
    }
    if !flushed {
      if status == Fine && |block| > 0 {
        ConcatAppend(data, block);
      } else {
        assert before + block == before && data + [] == data;
      }
    }
  }

  /** `readbuf` queueing the current block: it moves from the block to the bytes received before it. */
  lemma QueueKeeps(block: seq<char>, pending: seq<char>, before: seq<char>, data: seq<seq<char>>,
                   flushed: bool, input: seq<char>, ending: Status)
    requires Consistent(Fine, block, pending, before, data, flushed, input, ending)
    ensures var data' := if |block| > 0 then data + [block] else data;
            && Consistent(Fine, [], pending, before + block, data', flushed, input, ending)
            && Rest(0, Fine, [], pending) == Rest(|block|, Fine, block, pending)
  {
    assert block[|block|..] == [] && [] + pending == pending;
    if |block| > 0 {
      ConcatAppend(data, block);
    } else {
      assert before + block == before;
    }
  }

  /** `readbuf` receiving the next n > 0 bytes into the empty block. */
  lemma ReceiveKeeps(pending: seq<char>, before: seq<char>, data: seq<seq<char>>,
                     flushed: bool, input: seq<char>, ending: Status, n: nat)
    requires Consistent(Fine, [], pending, before, data, flushed, input, ending)
    requires 0 < n <= |pending|
    ensures && Consistent(Fine, pending[..n], pending[n..], before, data, flushed, input, ending)
            && Rest(0, Fine, pending[..n], pending[n..]) == Rest(0, Fine, [], pending)
  {
    assert pending == pending[..n] + pending[n..];
    assert before + [] == before;
  }

  // ---------------------------------------------------------------------------
  // The reader
  // ---------------------------------------------------------------------------

  /** `buffered_reader` in store mode. */
  class Reader {
    /** The receive buffer; its length is `buflen`. */
    const buf: array<char>
    var pos: int
    var bytesInBuf: int
    var status: Status
    var totalBytes: int
    /** The buffers of the queue `data`, in order. */
    var data: seq<seq<char>>
    /**
     * The host socket: the bytes the host still sends, the sizes of the
     * pieces in which `recv` delivers them (a size of 0 or a missing size
     * delivers all that is left), and how the connection ends once they are
     * used up: closed or timed out (`recv` returns 0) or failed (less).
     */
    var pending: seq<char>
    var pieces: seq<nat>
    const ending: Status
    /** The current block: the first bytesInBuf bytes of the buffer. */
    ghost var block: seq<char>
    /** Every byte received before the current block. */
    ghost var before: seq<char>
    /** Whether `flush` has queued the current block. */
    ghost var flushed: bool
    /** All the bytes the host sends. */
    ghost const input: seq<char>

    /** The invariant: the bookkeeping, and the buffer starts with the current block. */
    ghost predicate Valid()
      reads this, buf
    {
      && Counted()
      && buf[..bytesInBuf] == block
    }

    /** The part of the invariant that does not look into the buffer. */
    ghost predicate Counted()
      reads this
    {
      && 0 < buf.Length && bytesInBuf == |block| <= buf.Length
      && 0 <= pos && (pos <= bytesInBuf || (status != Fine && pos == 1 && bytesInBuf == 0))
      && Consistent(status, block, pending, before, data, flushed, input, ending)
      && totalBytes == |before| + |block|
    }

    /** The bytes not yet consumed; none once the status is an error. */
    ghost function Unread(): seq<char>
      reads this
      requires Counted()
    {
      Rest(pos, status, block, pending)
    }

    /** `initialize`: an empty buffer of buflen bytes, status fine, an empty queue. */
    constructor (buflen: nat, pending: seq<char>, pieces: seq<nat>, ending: Status)
      requires 0 < buflen && ending != Fine
      ensures Valid() && fresh(buf) && buf.Length == buflen
      ensures Unread() == input == pending && this.ending == ending
      ensures status == Fine && data == [] && totalBytes == 0 && !flushed
    {
      buf := new char[buflen];
      pos, bytesInBuf, totalBytes := 0, 0, 0;
      status := Fine;
      data := [];
      this.pending := pending;
      this.pieces := pieces;
      this.ending := ending;
      block, before := [], [];
      flushed := false;
      input := pending;
    }

    /**
     * Every byte the host sends is received and consumed, or not yet
     * consumed; once the status is an error, all of it has been received.
     */
    lemma Covered()
      requires Valid()
      ensures status == Fine ==> input == before + block[..pos] + Unread()
      ensures status != Fine ==> input == before && Unread() == []
    {
      if status == Fine {
        assert block == block[..pos] + block[pos..];
      }
    }

    /** `readbuf`: queues the current block and receives the next one into the buffer. */
    method Refill()
      requires Valid() && status == Fine && pos == bytesInBuf
      modifies this, buf
      ensures Valid() && flushed == old(flushed) && pos == 0
      ensures Unread() == old(Unread())
      ensures status == Fine <==> old(Unread()) != []
      ensures status == Fine ==> bytesInBuf > 0
      ensures data == old(data) + (if old(bytesInBuf) > 0 then [old(buf[..bytesInBuf])] else [])
    {
      QueueBlock();
      if |pending| > 0 {
        Receive();
      } else {
        Close();
      }
    }

    /** The first step of `readbuf`: the current block, when there is one, joins the queue. */
    method QueueBlock()
      requires Valid() && status == Fine && pos == bytesInBuf
      modifies this
      ensures Valid() && flushed == old(flushed) && status == Fine && pos == 0 && bytesInBuf == 0
      ensures pending == old(pending) && Unread() == old(Unread())
      ensures data == old(data) + (if old(bytesInBuf) > 0 then [old(block)] else [])
    {
      var whole := buf[..bytesInBuf];
      QueueKeeps(block, pending, before, data, flushed, input, ending);
      data, bytesInBuf, block, before, pos := if |whole| > 0 then data + [whole] else data, 0, [], before + block, 0;
    }

    /** `readbuf` when `recv` delivers bytes: the next piece, at most a buffer's worth. */
    method Receive()
      requires Valid() && status == Fine && pos == bytesInBuf == 0 && |pending| > 0
      modifies this, buf
      ensures Valid() && flushed == old(flushed) && pos == 0 && status == Fine && bytesInBuf > 0
      ensures Unread() == old(Unread()) && data == old(data)
    {
      var n := if |pieces| > 0 && 0 < pieces[0] < |pending| then pieces[0] else |pending|;
      n := if n <= buf.Length then n else buf.Length;
      ReceiveKeeps(pending, before, data, flushed, input, ending, n);
      var b := pending[..n];
      Fill(buf, b);
      bytesInBuf, block, totalBytes, pending, pieces := n, b, totalBytes + n, pending[n..],
        if |pieces| > 0 then pieces[1..] else [];
    }

    /** `readbuf` when `recv` reads nothing (closed or timed out) or fails. */
    method Close()
      requires Valid() && status == Fine && pos == bytesInBuf == 0 && pending == []
      modifies this
      ensures Valid() && flushed == old(flushed) && pos == 0 && status != Fine
      ensures old(Unread()) == [] && data == old(data)
    {
      status := ending;
    }

    /** What `recv` does to the buffer: the received bytes land at its start. */
    static method Fill(a: array<char>, b: seq<char>)
      requires |b| <= a.Length
      modifies a
      ensures a[..|b|] == b
    {
      forall i | 0 <= i < |b| {
        a[i] := b[i];
      }
    }

    /** `next`: the byte at the cursor, refilling first when the block is used up; 0 once the status is an error. */
    method Next() returns (c: char)
      requires Valid()
      modifies this, buf
      ensures Valid() && flushed == old(flushed)
      ensures Unread() == if old(Unread()) == [] then [] else old(Unread())[1..]
      ensures status == Fine <==> old(status) == Fine && old(Unread()) != []
      ensures old(Unread()) != [] ==> c == old(Unread())[0]
      ensures old(status) != Fine ==> c == '\0'
      ensures old(status) == Fine && old(Unread()) == [] ==> c == buf[0]
    {
      if status != Fine {
        return '\0';
      }
      ghost var u := Unread();
      if pos == bytesInBuf {
        Refill();
      }
      c := buf[pos];
      if status == Fine {
        RestStep(pos, block, pending);
        pos := pos + 1;
        assert Unread() == u[1..];
      } else {
        pos := pos + 1;
        assert Unread() == [] && u == [];
      }
    }

    /** `peek`: the byte at the cursor without consuming it, refilling first when the block is used up. */
    method Peek() returns (c: char)
      requires Valid()
      modifies this, buf
      ensures Valid() && flushed == old(flushed)
      ensures Unread() == old(Unread())
      ensures status == Fine <==> old(status) == Fine && old(Unread()) != []
      ensures status == Fine ==> pos < bytesInBuf
      ensures old(Unread()) != [] ==> c == old(Unread())[0]
      ensures old(status) != Fine ==> c == '\0'
      ensures old(status) == Fine && old(Unread()) == [] ==> c == buf[0]
    {
      if status != Fine {
        return '\0';
      }
      if pos == bytesInBuf {
        Refill();
      }
      c := buf[pos];
      if status == Fine {
        RestStep(pos, block, pending);
      }
    }

    /** `read`: up to num bytes through `next`; a read that runs out of input still counts the stale byte `next` returns. */
    method Read(num: int) returns (s: seq<char>)
      requires Valid()
      modifies this, buf
      ensures Valid() && flushed == old(flushed)
      ensures old(status) != Fine ==> s == [] && status == old(status)
      ensures var u, n := old(Unread()), if num < 0 then 0 else num;
              old(status) == Fine && n <= |u| ==> s == u[..n] && Unread() == u[n..] && status == Fine
      ensures var u, n := old(Unread()), if num < 0 then 0 else num;
              old(status) == Fine && n > |u| ==>
                |s| == |u| + 1 && s[..|u|] == u && s[|u|] == buf[0] && Unread() == [] && status != Fine
    {
      ghost var u := Unread();
      s := [];
      while status == Fine && |s| < num
        invariant Valid() && flushed == old(flushed)
        invariant (num < 0 ==> s == []) && (num >= 0 ==> |s| <= num)
        invariant old(status) != Fine ==> s == [] && status == old(status)
        invariant old(status) == Fine && status == Fine ==> |s| <= |u| && s == u[..|s|] && Unread() == u[|s|..]
        invariant old(status) == Fine && status != Fine ==>
                    |s| == |u| + 1 && s[..|u|] == u && s[|u|] == buf[0] && Unread() == []
        decreases num - |s|
      {
        ghost var before := s;
        var c := Next();
        s := s + [c];
        assert s[..|before|] == before;
      }
    }

    /** `flush`: skips the rest of the current block and queues the whole block. */
    method Flush()
      requires Valid()
      modifies this
      ensures Valid() && flushed && status == old(status)
      ensures status == Fine ==> old(Unread()) == old(block[pos..]) + Unread()
      ensures data == old(data) + (if old(status) == Fine && old(bytesInBuf) > 0 then [old(block)] else [])
      ensures !old(flushed) ==> Concat(data) == before + block
      ensures !old(flushed) && status == Fine ==> Concat(data) + Unread() == input
    {
      var whole := buf[..bytesInBuf];
      FlushKeeps(pos, status, block, pending, before, data, flushed, input, ending);
      pos, data, flushed := bytesInBuf, if status == Fine && |whole| > 0 then data + [whole] else data, true;
    }

    /** Moves the cursor a bytes on within the current block. */
    method Skip(a: int)
      requires Valid() && status == Fine && 0 <= a && pos + a <= bytesInBuf
      modifies this
      ensures Valid() && flushed == old(flushed) && data == old(data) && status == Fine
      ensures |old(Unread())| >= a && Unread() == old(Unread())[a..]
    {
      RestSkip(pos, a, block, pending);
      pos := pos + a;
    }

    /** `advance`: skips num bytes, refilling as the blocks run out; the status turns to an error when the input ends first. */
    method Advance(num: int)
      requires Valid()
      modifies this, buf
      ensures Valid() && flushed == old(flushed)
      ensures var u, n := old(Unread()), if num < 0 then 0 else num;
              n <= |u| ==> Unread() == u[n..] && status == old(status)
      ensures var u, n := old(Unread()), if num < 0 then 0 else num;
              n > |u| ==> Unread() == [] && status != Fine
    {
      ghost var u := Unread();
      ghost var k := 0;
      var left := num;
      while status == Fine && left > 0
        invariant Valid() && flushed == old(flushed)
        invariant if num > 0 then 0 <= k && 0 <= left && k + left == num else k == 0 && left == num
        invariant old(status) != Fine ==> status == old(status)
        invariant status == Fine ==> k <= |u| && Unread() == u[k..]
        invariant status != Fine && old(status) == Fine ==> Unread() == [] && k == |u| && left > 0
        decreases left, if status == Fine then 1 else 0
      {
        var a := AdvanceStep(left);
        if status == Fine {
          left, k := left - a, k + a;
        }
      }
    }

    /** One round of the loop of `advance`: refills when the block is used up, then skips what it can. */
    method AdvanceStep(left: int) returns (a: int)
      requires Valid() && status == Fine && left > 0
      modifies this, buf
      ensures Valid() && flushed == old(flushed)
      ensures status == Fine ==> 0 < a <= left && a <= |old(Unread())| && Unread() == old(Unread())[a..]
      ensures status != Fine ==> old(Unread()) == [] && Unread() == []
    {
      if pos == bytesInBuf {
        Refill();
        if bytesInBuf == 0 {
          return 0;
        }
      }
      a := if bytesInBuf - pos < left then bytesInBuf - pos else left;
      Skip(a);
    }

    /**
     * The step shared by the scanning loops: `peek`, and `next` when the
     * byte is in the class. At the end of the input the status turns to an
     * error, and the stale byte `peek` returns decides whether `next`, which
     * then returns 0, is called.
     */
    method Take(cls: CharClass) returns (took: bool, c: char)
      requires Valid() && status == Fine
      modifies this, buf
      ensures Valid() && flushed == old(flushed)
      ensures var u := old(Unread());
              u != [] ==> && status == Fine && took == InClass(u[0], cls)
                          && (took ==> c == u[0] && Unread() == u[1..])
                          && (!took ==> Unread() == u)
      ensures var u := old(Unread());
              u == [] ==> status != Fine && Unread() == [] && (took ==> c == '\0')
    {
      c := Peek();
      if !InClass(c, cls) {
        return false, c;
      }
      c := Next();
      took := true;
    }

    /** `readline`: consumes through the first line feed; the status turns to an error when there is none. */
    method ReadLine()
      requires Valid()
      modifies this, buf
      ensures Valid() && flushed == old(flushed)
      ensures Unread() == AfterLine(old(Unread()))
      ensures status == Fine <==> old(status) == Fine && LineEnd(old(Unread())) < |old(Unread())|
    {
      ghost var u := Unread();
      ghost var k := 0;
      while status == Fine
        invariant Valid() && flushed == old(flushed)
        invariant k <= LineEnd(u)
        invariant status == Fine ==> Unread() == u[k..]
        invariant status != Fine ==> Unread() == [] && k == |u|
        decreases |Unread()|, if status == Fine then 1 else 0
      {
        var took, _ := Take(NotLineFeed);
        if !took {
          if status == Fine {
            LineStops(u, k);
          }
          break;
        }
        if status == Fine {
          LineGrows(u, k);
          k := k + 1;
        }
      }
      if status == Fine {
        var _ := Next();
      }
    }

    /** `readspaces`: consumes blanks and tabs. */
    method ReadSpaces()
      requires Valid()
      modifies this, buf
      ensures Valid() && flushed == old(flushed)
      ensures Unread() == old(Unread())[SpaceRun(old(Unread()))..]
      ensures status == Fine <==> old(status) == Fine && SpaceRun(old(Unread())) < |old(Unread())|
    {
      ghost var u := Unread();
      ghost var k := 0;
      while status == Fine
        invariant Valid() && flushed == old(flushed)
        invariant k <= SpaceRun(u)
        invariant status == Fine ==> Unread() == u[k..]
        invariant status != Fine ==> Unread() == [] && k == |u|
        decreases |Unread()|, if status == Fine then 1 else 0
      {
        var took, _ := Take(Blank);
        if !took {
          break;
        }
        if status == Fine {
          SpaceGrows(u, k);
          k := k + 1;
        }
      }
      SpaceStops(u, k);
    }

    /**
     * `try_match`: consumes the longest prefix of the input that agrees with
     * str and returns its length; when the input runs out, the stale byte
     * `peek` returns may count once more.
     */
    method TryMatch(str: string) returns (r: int)
      requires Valid()
      modifies this, buf
      ensures Valid() && flushed == old(flushed)
      ensures var u := old(Unread()); var m := MatchLen(u, str);
              && Unread() == u[m..]
              && (status == Fine <==> old(status) == Fine && (m < |u| || m == |str|))
              && (r == m || (status != Fine && old(status) == Fine && m == |u| < |str| && r == m + 1))
    {
      ghost var u := Unread();
      r := 0;
      if status != Fine {
        return;
      }
      ghost var k := 0;
      while r < |str|
        invariant Valid() && flushed == old(flushed) && status == Fine
        invariant r == k <= |u| && k <= |str| && u[..k] == str[..k] && Unread() == u[k..]
        decreases |str| - r
      {
        var took, _ := Take(Exactly(str[r]));
        if !took {
          MatchLenUnique(u, str, k);
          return;
        }
        r := r + 1;
        if status != Fine {
          MatchLenUnique(u, str, k);
          return;
        }
        MatchGrows(u, str, k);
        k := k + 1;
      }
      MatchLenUnique(u, str, k);
    }

    /**
     * `read_int` (decimal) and `read_hex` (hex): consumes up to 31 digits
     * and returns their value, as `atoi` / `strtol` read the collected
     * string, which ends at the first 0.
     */
    method ReadRun(hex: bool) returns (v: nat)
      requires Valid()
      modifies this, buf
      ensures Valid() && flushed == old(flushed)
      ensures var u := old(Unread()); var d := DigitRun(u, 31, hex);
              && Unread() == u[d..]
              && (status == Fine <==> old(status) == Fine && (d < |u| || d == 31))
              && v == RunValue(u, hex)
    {
      ghost var u := Unread();
      var num := CollectRun(hex);
      CollectedRun(u, num, hex);
      var run := StripNul(num);
      v := if hex then HexValue(run) else DecimalValue(run);
    }

    /**
     * The loop of `read_int` / `read_hex`: the digits collected, and the 0
     * `next` returns when a stale digit from `peek` is taken at the end of
     * the input.
     */
    method CollectRun(hex: bool) returns (num: seq<char>)
      requires Valid()
      modifies this, buf
      ensures Valid() && flushed == old(flushed)
      ensures var u := old(Unread()); var d := DigitRun(u, 31, hex);
              && Unread() == u[d..]
              && (status == Fine <==> old(status) == Fine && (d < |u| || d == 31))
              && (num == u[..d] || (status != Fine && num == u[..d] + ['\0']))
    {
      ghost var u := Unread();
      num := [];
      if status != Fine {
        return;
      }
      ghost var k := 0;
      while |num| < 31
        invariant Valid() && flushed == old(flushed) && status == Fine
        invariant k <= DigitRun(u, 31, hex) && num == u[..k] && |num| == k <= 31 && Unread() == u[k..]
        decreases 31 - |num|
      {
        var took, c := Take(RunClass(hex));
        if !took {
          RunStops(u, k, hex);
          return;
        }
        num := num + [c];
        if status != Fine {
          RunStops(u, k, hex);
          return;
        }
        RunGrows(u, k, hex);
        k := k + 1;
      }
      RunStops(u, k, hex);
    }

    /**
     * `read_code`: reads the status line up to its code; None (-1) when the
     * line does not have the expected shape.
     */
    method ReadCode() returns (code: Option<string>)
      requires Valid()
      modifies this, buf
      ensures Valid() && flushed == old(flushed)
      ensures var line := StatusLine(old(Unread()));
              line.Some? ==> status == Fine && code == Some(line.value.value) && Unread() == line.value.rest
      ensures status == Fine && code.Some? ==> StatusLine(old(Unread())).Some?
      ensures code.Some? ==> |code.value| == 3 && AllDigits(code.value)
    {
      ghost var u := Unread();
      var ok := MatchVersion();
      if !ok {
        return None;
      }
      code := ReadCodeDigits();
    }

    /** The first steps of `read_code`: "HTTP/1." and then "1" or "0". */
    method MatchVersion() returns (ok: bool)
      requires Valid()
      modifies this, buf
      ensures Valid() && flushed == old(flushed)
      ensures Version(old(Unread())) ==> ok && status == Fine && Unread() == old(Unread())[8..]
      ensures ok && status == Fine ==> Version(old(Unread())) && Unread() == old(Unread())[8..]
    {
      ghost var u := Unread();
      ok := MatchPrefix("HTTP/1.");
      if !ok {
        return;
      }
      ghost var w := Unread();
      ghost var fine := status == Fine;
      ok := MatchMinor();
      assert status == Fine ==> fine && |u| >= 7 && u[..7] == "HTTP/1." && w == u[7..];
    }

    /** `try_match` of a whole string, as `read_code` uses it: true when it matched all of str. */
    method MatchPrefix(str: string) returns (ok: bool)
      requires Valid()
      modifies this, buf
      ensures Valid() && flushed == old(flushed)
      ensures var u := old(Unread());
              IsPrefix(str, u) && old(status) == Fine ==> ok && status == Fine && Unread() == u[|str|..]
      ensures var u := old(Unread());
              ok && status == Fine ==> IsPrefix(str, u) && Unread() == u[|str|..]
      ensures var u := old(Unread()); var m := MatchLen(u, str);
              !ok && status == Fine ==> m < |str| && Unread() == u[m..]
      ensures var u := old(Unread()); var m := MatchLen(u, str);
              status == Fine <==> old(status) == Fine && (m < |u| || m == |str|)
    {
      ghost var u := Unread();
      if IsPrefix(str, u) {
        MatchLenUnique(u, str, |str|);
      }
      var m := TryMatch(str);
      ok := m == |str|;
    }

    /** The minor version of `read_code`: "1", or else "0". */
    method MatchMinor() returns (ok: bool)
      requires Valid()
      modifies this, buf
      ensures Valid() && flushed == old(flushed)
      ensures var u := old(Unread());
              old(status) == Fine && |u| > 0 && (u[0] == '1' || u[0] == '0') ==> ok && status == Fine && Unread() == u[1..]
      ensures var u := old(Unread());
              ok && status == Fine ==> |u| > 0 && (u[0] == '1' || u[0] == '0') && Unread() == u[1..]
      ensures status == Fine ==> old(status) == Fine
    {
      ghost var u := Unread();
      if |u| > 0 && u[0] == '0' {
        MatchLenUnique(u, "1", 0);
      }
      var one := MatchPrefix("1");
      if one {
        return true;
      }
      ghost var w := Unread();
      assert status == Fine ==> w == u;
      if |u| > 0 && u[0] == '0' {
        assert IsPrefix("0", w);
      }
      ok := MatchPrefix("0");
    }

    /** The rest of `read_code`: one byte, blanks, and three bytes that must be digits. */
    method ReadCodeDigits() returns (code: Option<string>)
      requires Valid()
      modifies this, buf
      ensures Valid() && flushed == old(flushed)
      ensures var c := CodeAfterVersion(old(Unread()));
              c.Some? ==> status == Fine && code == Some(c.value.value) && Unread() == c.value.rest
      ensures status == Fine && code.Some? ==> CodeAfterVersion(old(Unread())).Some?
      ensures code.Some? ==> |code.value| == 3 && AllDigits(code.value)
    {
      SkipToCode();
      var s := Read(3);
      if |s| != 3 {
        return None;
      }
      if IsDigit(s[0]) && IsDigit(s[1]) && IsDigit(s[2]) {
        assert AllDigits(s);
        return Some(s);
      }
      return None;
    }

    /** The `next` and `readspaces` of `read_code` between the version and the code. */
    method SkipToCode()
      requires Valid()
      modifies this, buf
      ensures Valid() && flushed == old(flushed)
      ensures status == Fine ==> |old(Unread())| >= 1 && Unread() == CodeStart(old(Unread()))
      ensures status != Fine ==> Unread() == [] && (|old(Unread())| >= 1 ==> CodeStart(old(Unread())) == [])
    {
      ghost var u := Unread();
      var _ := Next();
      ghost var w := Unread();
      ghost var fine := status == Fine;
      assert fine ==> |u| >= 1 && w == u[1..];
      assert !fine ==> u == [];
      ReadSpaces();
    }

    /**
     * `read_content_length`: scans the header lines for "Content-Length:"
     * or "Transfer-Encoding:" up to the empty line that ends them.
     */
    method ReadContentLength() returns (r: Framing)
      requires Valid()
      modifies this, buf
      ensures Valid() && flushed == old(flushed)
      ensures var h := HeaderScan(old(Unread()));
              h.Some? ==> status == Fine && r == h.value.value && Unread() == h.value.rest
      ensures HeaderScan(old(Unread())).None? ==> status != Fine
    {
      ghost var u := Unread();
      while status == Fine
        invariant Valid() && flushed == old(flushed)
        invariant status == Fine ==> HeaderScan(Unread()) == HeaderScan(u)
        invariant status != Fine ==> HeaderScan(u).None?
        decreases |Unread()|, if status == Fine then 1 else 0
      {
        ghost var w := Unread();
        var done;
        done, r := HeaderLine();
        ghost var round := HeaderRound(w);
        if done && status == Fine {
          return;
        }
        if status == Fine {
          ghost var x := Unread();
          assert round.Skip? && LineEnd(round.at) < |round.at| && x == AfterLine(round.at);
        }
        if done {
          return;
        }
      }
      r := Unframed;
    }

    /**
     * One round of the loop of `read_content_length`, as `HeaderRound`
     * states it, with the rest of a skipped line consumed by `readline`.
     */
    method HeaderLine() returns (done: bool, r: Framing)
      requires Valid() && status == Fine
      modifies this, buf
      ensures Valid() && flushed == old(flushed)
      ensures var h := HeaderRound(old(Unread()));
              && (h.Stop? ==> done && status == Fine && r == h.value.value && Unread() == h.value.rest)
              && (h.Skip? ==> !done && Unread() == AfterLine(h.at)
                                    && (status == Fine <==> LineEnd(h.at) < |h.at|))
              && (h.RanOut? ==> status != Fine)
    {
      ghost var u := Unread();
      done, r := HeaderRoundStep();
      if done {
        return;
      }
      ReadLine();
    }

    /** The round of `read_content_length` up to the `readline` of a skipped line. */
    method HeaderRoundStep() returns (done: bool, r: Framing)
      requires Valid() && status == Fine
      modifies this, buf
      ensures Valid() && flushed == old(flushed)
      ensures var h := HeaderRound(old(Unread()));
              && (h.Stop? ==> done && status == Fine && r == h.value.value && Unread() == h.value.rest)
              && (h.Skip? ==> !done && status == Fine && Unread() == h.at)
              && (h.RanOut? ==> status != Fine)
    {
      var c := Peek();
      if c == '\n' {
        return true, Unframed;
      }
      c := Peek();
      if c == '\r' {
        done := MatchName("\r\n");
        return done, Unframed;
      }
      c := Peek();
      if c == 'C' {
        assert HeaderRound(Unread()) == LengthRound(NamedRound(Unread(), "Content-Length:"));
        done, r := LengthLine();
        return;
      }
      c := Peek();
      if c == 'T' {
        assert HeaderRound(Unread()) == CodingRound(NamedRound(Unread(), "Transfer-Encoding:"));
        done, r := CodingLine();
        return;
      }
      return false, Unframed;
    }

    /** A line that starts with 'C': "Content-Length:" and its value, or a line to skip. */
    method LengthLine() returns (done: bool, r: Framing)
      requires Valid() && status == Fine && |Unread()| > 0 && Unread()[0] == 'C'
      modifies this, buf
      ensures Valid() && flushed == old(flushed)
      ensures var h := LengthRound(NamedRound(old(Unread()), "Content-Length:"));
              && (h.Stop? ==> done && status == Fine && r == h.value.value && Unread() == h.value.rest)
              && (h.Skip? ==> !done && status == Fine && Unread() == h.at)
              && (h.RanOut? ==> status != Fine)
    {
      r := Unframed;
      done := MatchName("Content-Length:");
      if done {
        var len := LengthField();
        r := Length(len);
      }
    }

    /** A line that starts with 'T': "Transfer-Encoding:" and its value, or a line to skip. */
    method CodingLine() returns (done: bool, r: Framing)
      requires Valid() && status == Fine && |Unread()| > 0 && Unread()[0] == 'T'
      modifies this, buf
      ensures Valid() && flushed == old(flushed)
      ensures var h := CodingRound(NamedRound(old(Unread()), "Transfer-Encoding:"));
              && (h.Stop? ==> done && status == Fine && r == h.value.value && Unread() == h.value.rest)
              && (h.Skip? ==> !done && status == Fine && Unread() == h.at)
              && (h.RanOut? ==> status != Fine)
    {
      r := Unframed;
      done := MatchName("Transfer-Encoding:");
      if done {
        r := CodingField();
      }
    }

    /** `try_match` of a line-start name, as `NamedRound` states it: true when all of name matched. */
    method MatchName(name: string) returns (done: bool)
      requires Valid() && status == Fine && |Unread()| > 0 && |name| > 0 && Unread()[0] == name[0]
      modifies this, buf
      ensures Valid() && flushed == old(flushed)
      ensures var n := NamedRound(old(Unread()), name);
              && (n.Stop? ==> done && status == Fine && Unread() == n.value)
              && (n.Skip? ==> !done && status == Fine && Unread() == n.at)
              && (n.RanOut? ==> status != Fine && Unread() == [])
    {
      var m := TryMatch(name);
      done := m == |name|;
    }

    /** The value of "Content-Length:": blanks, then `read_int`. */
    method LengthField() returns (len: nat)
      requires Valid()
      modifies this, buf
      ensures Valid() && flushed == old(flushed)
      ensures var f := LengthValue(old(Unread()));
              && (f.Some? <==> status == Fine)
              && (f.Some? ==> f.value.value == Length(len) && Unread() == f.value.rest)
    {
      ReadSpaces();
      ghost var fine := status == Fine;
      assert !fine ==> Unread() == [];
      len := ReadRun(false);
    }

    /** The value of "Transfer-Encoding:": blanks, then "chunked" or anything else. */
    method CodingField() returns (r: Framing)
      requires Valid()
      modifies this, buf
      ensures Valid() && flushed == old(flushed)
      ensures var f := Coding(old(Unread()));
              && (f.Some? <==> status == Fine)
              && (f.Some? ==> f.value.value == r && Unread() == f.value.rest)
    {
      ReadSpaces();
      var k := TryMatch("chunked");
      r := if k == 7 then Chunked else Unframed;
    }

    /**
     * `read_to_empty_line`: skips lines up to the first empty one; 0 when it
     * was found, -1 when the input ran out first.
     */
    method ReadToEmptyLine() returns (r: int)
      requires Valid()
      modifies this, buf
      ensures Valid() && flushed == old(flushed)
      ensures var e := EmptyLineScan(old(Unread()));
              e.Some? ==> status == Fine && r == 0 && Unread() == e.value
      ensures EmptyLineScan(old(Unread())).None? ==> status != Fine
      ensures (r == 0 || r == -1) && (r == -1 ==> status != Fine)
    {
      ghost var u := Unread();
      while status == Fine
        invariant Valid() && flushed == old(flushed)
        invariant status == Fine ==> EmptyLineScan(Unread()) == EmptyLineScan(u)
        invariant status != Fine ==> EmptyLineScan(u).None?
        decreases |Unread()|, if status == Fine then 1 else 0
      {
        ghost var w := Unread();
        var done := EmptyLine();
        ghost var round := EmptyRound(w);
        if status == Fine && !done {
          ghost var x := Unread();
          assert round.Skip? && LineEnd(round.at) < |round.at| && x == AfterLine(round.at);
        }
        if done {
          return 0;
        }
      }
      r := -1;
    }

    /** One round of the loop of `read_to_empty_line`, as `EmptyRound` states it, with a skipped line consumed. */
    method EmptyLine() returns (done: bool)
      requires Valid() && status == Fine
      modifies this, buf
      ensures Valid() && flushed == old(flushed)
      ensures var e := EmptyRound(old(Unread()));
              && (e.Stop? ==> done && status == Fine && Unread() == e.value)
              && (e.Skip? ==> !done && Unread() == AfterLine(e.at)
                                    && (status == Fine <==> LineEnd(e.at) < |e.at|))
              && (e.RanOut? ==> status != Fine)
    {
      var c := Peek();
      if c == '\n' {
        return true;
      }
      c := Peek();
      if c == '\r' {
        done := MatchName("\r\n");
        if done {
          return;
        }
      }
      done := false;
      ReadLine();
    }
  }
}
