/**
 * Length-prefixed line framing of the key-value system.  A frame is the
 * decimal length of the text, one space, the text and a newline.  The reader
 * is a buffered reader over a byte stream: `ReadString` reads through a
 * delimiter with no limit, `ReadSlice` reads through a delimiter that must
 * fall within the 4096-byte buffer.  The end of the stream is the one read
 * error in this model.
 */
module KvUtil {
  import opened Common
  import opened GoText

  type byte = b: int | 0 <= b < 256

  const SPACE: byte := 32
  const NEWLINE: byte := 10

  /** The default size of a Go `bufio.Reader` buffer. */
  const BUFFER_SIZE: nat := 4096

  datatype ReadError = EndOfStream | BufferFull

  /** What one read returns, and how many bytes of the stream it consumes. */
  datatype Outcome = Outcome(result: Result<seq<byte>, ReadError>, consumed: nat)

  // ---------------------------------------------------------------------------
  // Conversions
  // ---------------------------------------------------------------------------

  /** A Go string is a byte string: one character per byte. */
  predicate IsByteString(s: string) { forall i :: 0 <= i < |s| ==> (s[i] as int) < 256 }

  function BytesToString(b: seq<byte>): (s: string)
    ensures |s| == |b| && IsByteString(s)
    ensures forall i :: 0 <= i < |b| ==> s[i] as int == b[i]
  {
    seq(|b|, i requires 0 <= i < |b| => b[i] as char)
  }

  function StringToBytes(s: string): (b: seq<byte>)
    requires IsByteString(s)
    ensures |b| == |s| && BytesToString(b) == s
  {
    seq(|s|, i requires 0 <= i < |s| => s[i] as int)
  }

  /** `UInt32ToStr`: decimal text that `StrToUInt32` reads back. */
  function UInt32ToStr(n: nat): (r: string)
    requires IsUInt32(n)
    ensures |r| > 0 && AllDigits(r) && IsByteString(r)
    ensures StrToUInt32(r) == n
  {
    ParseFormatUint(n, MAX_UINT32);
    DigitsAreBytes(NatToDecimal(n));
    NatToDecimal(n)
  }

  /** `StrToUInt32`: `strconv.ParseUint` at 32 bits with the error dropped. */
  function StrToUInt32(s: string): (r: nat)
    ensures IsUInt32(r)
  {
    ParseUint(s, MAX_UINT32)
  }

  /** `StrToInt`: `strconv.Atoi` with the error dropped. */
  function StrToInt(s: string): (r: int)
    ensures IsInt64(r)
  {
    Atoi(s)
  }

  lemma DigitsAreBytes(s: string)
    requires AllDigits(s)
    ensures IsByteString(s)
  {
  }

  /** `StrToInt` gives 0 on text that is not a number. */
  lemma StrToIntNonNumeric(s: string)
    requires |s| == 0 || (if s[0] == '-' || s[0] == '+' then |s| == 1 || !IsDigit(s[1]) else !IsDigit(s[0]))
    ensures StrToInt(s) == 0
  {
    if |s| >= 2 && (s[0] == '-' || s[0] == '+') {
      AtoiNonNumeric(s, 1);
    }
  }

  // ---------------------------------------------------------------------------
  // The reader's view of the stream
  // ---------------------------------------------------------------------------

  /** The index of the first d in s, or |s| when there is none. */
  function FirstIndex(s: seq<byte>, d: byte): (r: nat)
    ensures r <= |s|
    decreases |s|
  {
    if |s| == 0 then 0
    else if s[0] == d then 0
    else 1 + FirstIndex(s[1..], d)
  }

  /** FirstIndex finds the first d, and only when there is one. */
  lemma {:induction false} FirstIndexMeaning(s: seq<byte>, d: byte)
    ensures var r := FirstIndex(s, d);
            && d !in s[..r]
            && (r < |s| ==> s[r] == d)
    decreases |s|
  {
    if |s| > 0 && s[0] != d {
      FirstIndexMeaning(s[1..], d);
      var r := FirstIndex(s, d);
      assert s[..r] == [s[0]] + s[1..][..r - 1];
    }
  }

  /** `ReadString(delim)`: everything through the first delim, however far; without one, the rest and an error. */
  function ReadThrough(rest: seq<byte>, delim: byte): (o: Outcome)
    ensures o.consumed <= |rest| && (o.result.Ok? ==> |o.result.value| > 0)
  {
    var j := FirstIndex(rest, delim);
    if j < |rest| then Outcome(Ok(rest[..j + 1]), j + 1)
    else Outcome(Err(EndOfStream), |rest|)
  }

  /** `ReadString` succeeds exactly when the delimiter is in the stream, and then returns the bytes through its first occurrence. */
  lemma ReadThroughMeaning(rest: seq<byte>, delim: byte)
    ensures var o := ReadThrough(rest, delim);
            && (o.result.Ok? <==> delim in rest)
            && (o.result.Ok? ==> 0 < o.consumed && o.result.value == rest[..o.consumed]
                                 && delim !in rest[..o.consumed - 1] && rest[o.consumed - 1] == delim)
            && (o.result.Err? ==> o.consumed == |rest|)
  {
    var j := FirstIndex(rest, delim);
    FirstIndexMeaning(rest, delim);
    if j < |rest| {
      assert rest[..j] == rest[..j + 1][..j];
    }
  }

  /**
   * `ReadSlice(delim)`: everything through the first delim when it lies in
   * the first BUFFER_SIZE bytes; otherwise a full buffer is an error, and so
   * is the end of the stream.
   */
  function ReadSliceOf(rest: seq<byte>, delim: byte): (o: Outcome)
    ensures o.consumed <= |rest| && (o.result.Ok? ==> o.consumed > 0)
  {
    var j := FirstIndex(rest, delim);
    if j < |rest| && j < BUFFER_SIZE then Outcome(Ok(rest[..j + 1]), j + 1)
    else if |rest| >= BUFFER_SIZE then Outcome(Err(BufferFull), BUFFER_SIZE)
    else Outcome(Err(EndOfStream), |rest|)
  }

  /**
   * `ReadSlice` succeeds exactly when the delimiter lies within the first
   * BUFFER_SIZE bytes, and then returns the bytes through its first
   * occurrence; a failure consumes a full buffer, or all that is left.
   */
  lemma ReadSliceMeaning(rest: seq<byte>, delim: byte)
    ensures var o := ReadSliceOf(rest, delim);
            && (o.result.Ok? <==> delim in rest[..if |rest| < BUFFER_SIZE then |rest| else BUFFER_SIZE])
            && (o.result.Ok? ==> 0 < o.consumed <= BUFFER_SIZE && o.result.value == rest[..o.consumed]
                                 && delim !in rest[..o.consumed - 1] && rest[o.consumed - 1] == delim)
            && (o.result == Err(BufferFull) ==> o.consumed == BUFFER_SIZE)
            && (o.result == Err(EndOfStream) ==> o.consumed == |rest| < BUFFER_SIZE)
  {
    var j := FirstIndex(rest, delim);
    FirstIndexMeaning(rest, delim);
    var m := if |rest| < BUFFER_SIZE then |rest| else BUFFER_SIZE;
    if j < m {
      assert rest[..m][j] == delim;
      assert rest[..j] == rest[..j + 1][..j];
    } else {
      assert forall k :: 0 <= k < m ==> rest[..m][k] != delim;
    }
  }

  /** The gathering loop of `KvReadLineBuffer`, from i bytes gathered into acc, over the rest of the stream. */
  function Gather(rest: seq<byte>, n: int, i: int, acc: seq<byte>): (o: Outcome)
    ensures o.consumed <= |rest|
    decreases |rest|, 1
  {
    if i >= n then Outcome(Ok(acc), 0) else GatherAfter(ReadSliceOf(rest, NEWLINE), rest, n, i, acc)
  }

  /** The gathering loop after one `ReadSlice` with outcome k. */
  function GatherAfter(k: Outcome, rest: seq<byte>, n: int, i: int, acc: seq<byte>): (o: Outcome)
    requires k.consumed <= |rest| && (k.result.Ok? ==> k.consumed > 0)
    ensures o.consumed <= |rest|
    decreases |rest|, 0
  {
    if k.result.Err? then k
    else
      var tail := Gather(rest[k.consumed..], n, i + |k.result.value|, acc + k.result.value);
      Outcome(tail.result, k.consumed + tail.consumed)
  }

  /** One successful line read of the gathering loop. */
  lemma GatherLine(rest: seq<byte>, n: int, i: int, acc: seq<byte>)
    requires i < n && ReadSliceOf(rest, NEWLINE).result.Ok?
    ensures var k := ReadSliceOf(rest, NEWLINE);
            var tail := Gather(rest[k.consumed..], n, i + |k.result.value|, acc + k.result.value);
            Gather(rest, n, i, acc) == Outcome(tail.result, k.consumed + tail.consumed)
  {
  }

  /** `KvReadLineBuffer`: the length through the first space, then whole lines until that many bytes are gathered. */
  function ReadFrame(rest: seq<byte>): (o: Outcome)
    ensures o.consumed <= |rest|
  {
    var t := ReadThrough(rest, SPACE);
    if t.result.Err? then t
    else
      var token := t.result.value;
      var n := StrToInt(BytesToString(token[..|token| - 1]));
      var g := Gather(rest[t.consumed..], n, 0, []);
      Outcome(g.result, t.consumed + g.consumed)
  }

  /** `KvReadLine(Slice)` drops the last gathered byte, if any. */
  function DropLast(b: seq<byte>): (r: seq<byte>)
    ensures |b| > 0 ==> r == b[..|b| - 1]
    ensures |b| == 0 ==> r == []
  {
    if |b| > 0 then b[..|b| - 1] else []
  }

  /**
   * A buffered reader over a byte stream: `input` is the whole stream and
   * `pos` how much of it has been consumed.
   */
  class ByteReader {
    var input: seq<byte>
    var pos: nat

    predicate Valid()
      reads this
    {
      pos <= |input|
    }

    /** The bytes not yet consumed. */
    function Rest(): seq<byte>
      reads this
      requires Valid()
    {
      input[pos..]
    }

    constructor (stream: seq<byte>)
      ensures Valid() && input == stream && pos == 0
    {
      input := stream;
      pos := 0;
    }

    /** Consumes the bytes that a read with outcome o consumes. */
    method Consume(o: Outcome)
      requires Valid() && o.consumed <= |Rest()|
      modifies this
      ensures Valid() && input == old(input) && pos == old(pos) + o.consumed
      ensures Rest() == old(Rest())[o.consumed..]
    {
      pos := pos + o.consumed;
    }

    method ReadString(delim: byte) returns (r: Result<seq<byte>, ReadError>)
      requires Valid()
      modifies this
      ensures Valid() && input == old(input)
      ensures r == ReadThrough(old(Rest()), delim).result
      ensures pos == old(pos) + ReadThrough(old(Rest()), delim).consumed
      ensures Rest() == old(Rest())[ReadThrough(old(Rest()), delim).consumed..]
    {
      var o := ReadThrough(Rest(), delim);
      Consume(o);
      r := o.result;
    }

    method ReadSlice(delim: byte) returns (r: Result<seq<byte>, ReadError>)
      requires Valid()
      modifies this
      ensures Valid() && input == old(input)
      ensures r == ReadSliceOf(old(Rest()), delim).result
      ensures pos == old(pos) + ReadSliceOf(old(Rest()), delim).consumed
      ensures Rest() == old(Rest())[ReadSliceOf(old(Rest()), delim).consumed..]
    {
      var o := ReadSliceOf(Rest(), delim);
      Consume(o);
      r := o.result;
    }
  }

  /** `KvReadLineBuffer`: reads one frame's length and gathers whole lines until it has that many bytes. */
  method KvReadLineBuffer(reader: ByteReader) returns (r: Result<seq<byte>, ReadError>)
    requires reader.Valid()
    modifies reader
    ensures reader.Valid() && reader.input == old(reader.input)
    ensures r == ReadFrame(old(reader.Rest())).result
    ensures reader.pos == old(reader.pos) + ReadFrame(old(reader.Rest())).consumed
  {
    var toRead := reader.ReadString(SPACE);
    if toRead.Err? {
      return Err(toRead.error);
    }
    var n := StrToInt(BytesToString(toRead.value[..|toRead.value| - 1]));
    r := ReadLinesUpTo(reader, n);
  }

  /** The gathering loop of `KvReadLineBuffer`: whole lines until at least n bytes are gathered. */
  method ReadLinesUpTo(reader: ByteReader, n: int) returns (r: Result<seq<byte>, ReadError>)
    requires reader.Valid()
    modifies reader
    ensures reader.Valid() && reader.input == old(reader.input)
    ensures r == Gather(old(reader.Rest()), n, 0, []).result
    ensures reader.pos == old(reader.pos) + Gather(old(reader.Rest()), n, 0, []).consumed
  {
    ghost var rest := reader.Rest();
    ghost var left := Gather(rest, n, 0, []);
    var i := 0;
    var buf: seq<byte> := [];
    while i < n
      invariant reader.Valid() && reader.input == old(reader.input) && old(reader.pos) <= reader.pos
      invariant reader.Rest() == rest
      invariant left == Gather(rest, n, i, buf)
      invariant left.result == Gather(old(reader.Rest()), n, 0, []).result
      invariant reader.pos - old(reader.pos) + left.consumed == Gather(old(reader.Rest()), n, 0, []).consumed
      decreases |rest|
    {
      ghost var o := ReadSliceOf(rest, NEWLINE);
      var k := reader.ReadSlice(NEWLINE);
      if k.Err? {
        return Err(k.error);
      }
      ghost var tail := Gather(rest[o.consumed..], n, i + |k.value|, buf + k.value);
      assert left == Outcome(tail.result, o.consumed + tail.consumed) by {
        assert o.result == k;
        GatherLine(rest, n, i, buf);
      }
      left := tail;
      rest := rest[o.consumed..];
      buf := buf + k.value;
      i := i + |k.value|;
    }
    r := Ok(buf);
  }

  /** `KvReadLineSlice`: a frame without its last byte. */
  method KvReadLineSlice(reader: ByteReader) returns (r: Result<seq<byte>, ReadError>)
    requires reader.Valid()
    modifies reader
    ensures reader.Valid() && reader.input == old(reader.input)
    ensures r == ReadLineOf(old(reader.Rest())).result
    ensures reader.pos == old(reader.pos) + ReadFrame(old(reader.Rest())).consumed
  {
    var buf := KvReadLineBuffer(reader);
    if buf.Ok? {
      return Ok(DropLast(buf.value));
    }
    return Err(buf.error);
  }

  /** `KvReadLine`: the same as text. */
  method KvReadLine(reader: ByteReader) returns (r: Result<string, ReadError>)
    requires reader.Valid()
    modifies reader
    ensures reader.Valid() && reader.input == old(reader.input)
    ensures var o := ReadLineOf(old(reader.Rest())).result;
            if o.Ok? then r == Ok(BytesToString(o.value)) else r == Err(o.error)
    ensures reader.pos == old(reader.pos) + ReadFrame(old(reader.Rest())).consumed
  {
    var buf := KvReadLineBuffer(reader);
    if buf.Ok? {
      return Ok(BytesToString(DropLast(buf.value)));
    }
    return Err(buf.error);
  }

  /** What `KvReadLine(Slice)` returns on the rest of a stream. */
  function ReadLineOf(rest: seq<byte>): (o: Outcome)
    ensures o.consumed == ReadFrame(rest).consumed
    ensures ReadFrame(rest).result.Err? ==> o.result == ReadFrame(rest).result
  {
    var f := ReadFrame(rest);
    if f.result.Ok? then Outcome(Ok(DropLast(f.result.value)), f.consumed) else f
  }

  // ---------------------------------------------------------------------------
  // Writing
  // ---------------------------------------------------------------------------

  /** `strconv.Itoa` of a length, which is never negative, as bytes. */
  function LengthToken(n: nat): (t: seq<byte>)
    ensures |t| > 0
  {
    DigitsAreBytes(NatToDecimal(n));
    StringToBytes(NatToDecimal(n))
  }

  /** The frame of a byte string: decimal length, space, the bytes, newline. */
  function Frame(b: seq<byte>): (f: seq<byte>)
    ensures |f| > |b| + 1
  {
    LengthToken(|b|) + [SPACE] + b + [NEWLINE]
  }

  /** A buffered writer; the model's writer never fails. */
  class ByteWriter {
    var output: seq<byte>

    constructor ()
      ensures output == []
    {
      output := [];
    }

    method Write(b: seq<byte>)
      modifies this
      ensures output == old(output) + b
    {
      output := output + b;
    }
  }

  /** `KvWriteLineSlice`: length, space, the bytes, newline, then flush. */
  method KvWriteLineSlice(writer: ByteWriter, str: seq<byte>)
    modifies writer
    ensures writer.output == old(writer.output) + Frame(str)
  {
    var n := |str|;
    DigitsAreBytes(NatToDecimal(n));
    writer.Write(StringToBytes(IntToDecimal(n)));
    writer.Write([SPACE]);
    writer.Write(str);
    writer.Write([NEWLINE]);
  }

  /** `KvWriteLine`: the same for a string. */
  method KvWriteLine(writer: ByteWriter, str: string)
    requires IsByteString(str)
    modifies writer
    ensures writer.output == old(writer.output) + Frame(StringToBytes(str))
  {
    var n := |str|;
    DigitsAreBytes(NatToDecimal(n));
    writer.Write(StringToBytes(IntToDecimal(n)));
    writer.Write([SPACE]);
    writer.Write(StringToBytes(str));
    writer.Write([NEWLINE]);
  }

  // ---------------------------------------------------------------------------
  // Reading back what was written
  // ---------------------------------------------------------------------------

  /** A line as `ReadSlice` can return it: at most a buffer long, ending in its only newline. */
  predicate IsLine(l: seq<byte>)
  {
    0 < |l| <= BUFFER_SIZE && l[|l| - 1] == NEWLINE && NEWLINE !in l[..|l| - 1]
  }

  /** The text made of the lines ls, in order. */
  function Lines(ls: seq<seq<byte>>): (t: seq<byte>)
    decreases |ls|
  {
    if |ls| == 0 then [] else ls[0] + Lines(ls[1..])
  }

  /** The last line is part of the text. */
  lemma {:induction false} LastLineInside(ls: seq<seq<byte>>)
    requires |ls| > 0
    ensures |Lines(ls)| >= |ls[|ls| - 1]|
    decreases |ls|
  {
    if |ls| > 1 {
      LastLineInside(ls[1..]);
    }
  }

  /** `ReadSlice` returns a whole line that starts the rest of the stream. */
  lemma ReadFirstLine(l: seq<byte>, rest: seq<byte>)
    requires IsLine(l)
    ensures ReadSliceOf(l + rest, NEWLINE) == Outcome(Ok(l), |l|)
    ensures (l + rest)[|l|..] == rest
  {
    var s := l + rest;
    assert s[..|l| - 1] == l[..|l| - 1];
    FirstIndexIs(s, NEWLINE, |l| - 1);
    assert s[..|l|] == l;
  }

  /** One round of the gathering loop that reads a line, followed by the rest of the loop. */
  lemma GatherStep(rest: seq<byte>, n: int, i: int, acc: seq<byte>, line: seq<byte>, after: seq<byte>, done: seq<byte>, left: nat)
    requires i < n && ReadSliceOf(rest, NEWLINE) == Outcome(Ok(line), |line|) && rest[|line|..] == after
    requires Gather(after, n, i + |line|, acc + line) == Outcome(Ok(done), left)
    ensures Gather(rest, n, i, acc) == Outcome(Ok(done), |line| + left)
  {
  }

  /**
   * The gathering loop reads the lines ls one by one, whatever follows
   * them, when it is still short of n bytes at the start of the last line
   * and reaches n by its end.
   */
  lemma {:induction false} GatherLines(ls: seq<seq<byte>>, more: seq<byte>, n: int, acc: seq<byte>)
    requires |ls| > 0 && forall k :: 0 <= k < |ls| ==> IsLine(ls[k])
    requires |acc| + |Lines(ls)| - |ls[|ls| - 1]| < n <= |acc| + |Lines(ls)|
    ensures Gather(Lines(ls) + more, n, |acc|, acc) == Outcome(Ok(acc + Lines(ls)), |Lines(ls)|)
    decreases |ls|
  {
    var l, tail := ls[0], Lines(ls[1..]);
    LastLineInside(ls);
    assert Lines(ls) + more == l + (tail + more);
    ReadFirstLine(l, tail + more);
    if |ls| == 1 {
      assert tail == [];
      assert Gather(more, n, |acc| + |l|, acc + l) == Outcome(Ok(acc + l), 0);
      GatherStep(Lines(ls) + more, n, |acc|, acc, l, more, acc + l, 0);
    } else {
      assert ls[1..][|ls| - 2] == ls[|ls| - 1];
      GatherLines(ls[1..], more, n, acc + l);
      assert acc + l + tail == acc + Lines(ls);
      GatherStep(Lines(ls) + more, n, |acc|, acc, l, tail + more, acc + Lines(ls), |tail|);
    }
  }

  lemma {:induction false} FirstIndexIs(s: seq<byte>, d: byte, j: nat)
    requires j < |s| && s[j] == d && d !in s[..j]
    ensures FirstIndex(s, d) == j
    decreases j
  {
    if j > 0 {
      assert s[0] in s[..j];
      assert s[1..][..j - 1] == s[..j][1..];
      FirstIndexIs(s[1..], d, j - 1);
    }
  }

  /** The first delimiter ends what `ReadString` returns. */
  lemma ReadThroughPrefix(x: seq<byte>, d: byte, y: seq<byte>)
    requires d !in x
    ensures ReadThrough(x + [d] + y, d) == Outcome(Ok(x + [d]), |x| + 1)
  {
    var s := x + [d] + y;
    assert s[..|x|] == x;
    FirstIndexIs(s, d, |x|);
    assert s[..|x| + 1] == x + [d];
  }

  /** The decimal digits of a length hold no space. */
  lemma DigitsHaveNoSpace(n: nat)
    ensures SPACE !in LengthToken(n)
  {
    var d := NatToDecimal(n);
    var digits := LengthToken(n);
    forall k | 0 <= k < |digits| ensures digits[k] != SPACE {
      assert IsDigit(d[k]);
    }
  }

  /** `ReadString(' ')` on a frame returns its length token and the space, and leaves the text and newline. */
  lemma ReadLengthToken(b: seq<byte>, more: seq<byte>)
    ensures var t := LengthToken(|b|);
            && ReadThrough(Frame(b) + more, SPACE) == Outcome(Ok(t + [SPACE]), |t| + 1)
            && (Frame(b) + more)[|t| + 1..] == b + [NEWLINE] + more
  {
    DigitsHaveNoSpace(|b|);
    var t := LengthToken(|b|);
    var body := b + [NEWLINE] + more;
    assert Frame(b) + more == t + [SPACE] + body;
    ReadThroughPrefix(t, SPACE, body);
  }

  /** The length token converts back to the length. */
  lemma LengthTokenValue(n: nat)
    requires n <= MAX_INT64
    ensures StrToInt(BytesToString(LengthToken(n))) == n
  {
    AtoiItoa(n);
  }

  /** The length token of a frame is read back as the length. */
  lemma ReadLength(b: seq<byte>, more: seq<byte>)
    requires |b| <= MAX_INT64
    ensures var t := ReadThrough(Frame(b) + more, SPACE);
            && t.result.Ok? && 0 < |t.result.value|
            && StrToInt(BytesToString(t.result.value[..|t.result.value| - 1])) == |b|
            && (Frame(b) + more)[t.consumed..] == b + [NEWLINE] + more
  {
    ReadLengthToken(b, more);
    LengthTokenValue(|b|);
    var t := LengthToken(|b|);
    assert (t + [SPACE])[..|t|] == t;
  }

  /**
   * Reading back a frame gives the text and consumes exactly the frame when
   * the text and the frame's newline are lines of at most a buffer each and
   * the last line holds more than that newline, that is, when the text is
   * non-empty and does not end in a newline.
   */
  lemma FrameRoundTrip(b: seq<byte>, more: seq<byte>, ls: seq<seq<byte>>)
    requires |ls| > 0 && forall k :: 0 <= k < |ls| ==> IsLine(ls[k])
    requires Lines(ls) == b + [NEWLINE] && |ls[|ls| - 1]| >= 2
    requires |b| <= MAX_INT64
    ensures ReadLineOf(Frame(b) + more) == Outcome(Ok(b), |Frame(b)|)
  {
    ReadLength(b, more);
    GatherLines(ls, more, |b|, []);
    assert [] + Lines(ls) == b + [NEWLINE];
    assert DropLast(b + [NEWLINE]) == b;
  }

  /**
   * Text that ends in a newline loses it: the loop has its n bytes one line
   * early, the last byte it gathered is dropped and the frame's own newline
   * stays unread.
   */
  lemma TrailingNewlineLost(b: seq<byte>, more: seq<byte>, ls: seq<seq<byte>>)
    requires |ls| > 0 && forall k :: 0 <= k < |ls| ==> IsLine(ls[k])
    requires Lines(ls) == b && 0 < |b| <= MAX_INT64
    ensures ReadLineOf(Frame(b) + more) == Outcome(Ok(b[..|b| - 1]), |Frame(b)| - 1)
  {
    ReadLength(b, more);
    assert b + [NEWLINE] + more == b + ([NEWLINE] + more);
    GatherLines(ls, [NEWLINE] + more, |b|, []);
    assert [] + Lines(ls) == b;
  }

  /**
   * The empty text reads back as empty without reading any line, so the
   * frame's newline is left in the stream.
   */
  lemma EmptyLineLeavesNewline(more: seq<byte>)
    ensures ReadLineOf(Frame([]) + more) == Outcome(Ok([]), |Frame([])| - 1)
    ensures (Frame([]) + more)[ReadFrame(Frame([]) + more).consumed] == NEWLINE
  {
    ReadLength([], more);
  }

  /**
   * The string and byte writers emit the same frame for the same bytes:
   * writing `string(b)` with `KvWriteLine` is writing b with `KvWriteLineSlice`.
   */
  lemma WritersAgree(b: seq<byte>)
    ensures StringToBytes(BytesToString(b)) == b
    ensures Frame(StringToBytes(BytesToString(b))) == Frame(b)
  {
    var s := BytesToString(b);
    assert forall i :: 0 <= i < |b| ==> StringToBytes(s)[i] == b[i];
  }
}
