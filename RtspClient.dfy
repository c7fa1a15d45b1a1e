/**
 * The RTSP streaming client's connection object: the INIT/READY/PLAYING
 * session machine with its CSeq counter (section 12.17 of RFC 2326), the
 * jitter buffer of received frames, buffering hysteresis and drift-corrected
 * playout pacing.
 *
 * The three Java timers become explicit events: `ReceiveRtpPacket` is one run
 * of the receive timer, `Tick` one run of the playout poller and
 * `DeliverPending` the one-shot frame timer firing. Server replies, datagrams
 * and the wall clock arrive as parameters.
 */
module RtspClient {
  import opened Common
  import opened Rtp

  const BUFFER_LENGTH: int := 15000
  const MINIMUM_FRAME_BUFFER_SIZE: int := 0
  const RECOMMENDED_FRAME_BUFFER_SIZE: int := 50
  /** Consecutive failed receives taken to mean the stream has ended. */
  const END_OF_STREAM_LOSSES: int := 3

  datatype Status = Init | Ready | Playing

  /** How the server's side of one request/response exchange turned out. */
  datatype Exchange = Reply(code: int, session: string) | IoFailure | TimedOut

  /** The failures an operation reports to its caller (an `RTSPException`). */
  datatype RtspError =
    | RtpSocketFailed
    | ServerIo
    | ServerTimeout
    | BadRequest
    | FileNotFound
    | SessionNotFound

  /** The server accepted the request. */
  predicate Accepted(reply: Exchange)
  {
    reply.Reply? && reply.code == 200
  }

  /** The error an exchange that was not accepted raises, if any. */
  function ReplyError(reply: Exchange): (e: Option<RtspError>)
    ensures Accepted(reply) ==> e.None?
    ensures reply.IoFailure? ==> e == Some(ServerIo)
    ensures reply.TimedOut? ==> e == Some(ServerTimeout)
    ensures reply.Reply? && reply.code != 200 ==> e == HandleError(reply.code)
  {
    match reply
    case IoFailure => Some(ServerIo)
    case TimedOut => Some(ServerTimeout)
    case Reply(code, _) => if code == 200 then None else HandleError(code)
  }

  /** A frame handed to the one-shot frame timer, due at wall-clock time `due`. */
  datatype PendingFrame = PendingFrame(frame: Frame, due: int)

  /** The error a non-200 reply code raises; other codes raise none. */
  function HandleError(code: int): (e: Option<RtspError>)
    ensures e.Some? <==> code in {400, 404, 454}
  {
    match code
    case 400 => Some(BadRequest)
    case 404 => Some(FileNotFound)
    case 454 => Some(SessionNotFound)
    case _ => None
  }

  datatype Verb = SETUP | PLAY | PAUSE | TEARDOWN

  /** A request written to the server; `Text` gives its wire form. */
  datatype Request = Request(verb: Verb, video: string, cseq: int, session: string, clientPort: int)

  function VerbName(v: Verb): string
  {
    match v
    case SETUP => "SETUP"
    case PLAY => "PLAY"
    case PAUSE => "PAUSE"
    case TEARDOWN => "TEARDOWN"
  }

  function Text(r: Request): string
  {
    if r.verb == SETUP then SetupRequest(r.video, r.cseq, r.clientPort)
    else SessionRequest(VerbName(r.verb), r.video, r.cseq, r.session)
  }

  /** The CSeq header line every request carries (section 12.17 of RFC 2326). */
  function CSeqLine(cseq: int): string
  {
    "\nCSeq: " + IntToDecimal(cseq) + "\n"
  }

  function SetupRequest(video: string, cseq: int, port: int): string
  {
    "SETUP " + video + " RTSP/1.0" + CSeqLine(cseq) + "Transport: RTP/UDP; client_port= "
    + IntToDecimal(port) + ";\n\n"
  }

  function SessionRequest(verb: string, video: string, cseq: int, session: string): string
  {
    verb + " " + video + " RTSP/1.0" + CSeqLine(cseq) + "Session: " + session + "\n\n"
  }

  lemma OccursBetween(a: string, needle: string, b: string)
    ensures OccursAt(a + needle + b, needle, |a|)
  {
    assert (a + needle + b)[|a|..|a| + |needle|] == needle;
  }

  /** Every request names its CSeq on a line of its own. */
  lemma RequestCarriesCSeq(r: Request)
    ensures ContainsSub(Text(r), CSeqLine(r.cseq))
  {
    var video, cseq, port, verb, session := r.video, r.cseq, r.clientPort, VerbName(r.verb), r.session;
    if r.verb == SETUP {
    var a := "SETUP " + video + " RTSP/1.0";
    var b := "Transport: RTP/UDP; client_port= " + IntToDecimal(port) + ";\n\n";
    assert SetupRequest(video, cseq, port) == a + CSeqLine(cseq) + b;
    OccursBetween(a, CSeqLine(cseq), b);
    assert OccursAt(Text(r), CSeqLine(cseq), |a|);
    } else {
    var a' := verb + " " + video + " RTSP/1.0";
    var b' := "Session: " + session + "\n\n";
    assert SessionRequest(verb, video, cseq, session) == a' + CSeqLine(cseq) + b';
    OccursBetween(a', CSeqLine(cseq), b');
    assert OccursAt(Text(r), CSeqLine(cseq), |a'|);
    }
  }

  // ---------------------------------------------------------------------------
  // The jitter buffer: frames kept in order of sequence number
  // ---------------------------------------------------------------------------

  predicate Sorted(buf: seq<Frame>)
  {
    forall i, j :: 0 <= i < j < |buf| ==> buf[i].sequenceNumber <= buf[j].sequenceNumber
  }

  /** `offer`: the frame joins the buffer behind every frame not later than it. */
  function Insert(buf: seq<Frame>, f: Frame): (r: seq<Frame>)
    ensures multiset(r) == multiset(buf) + multiset{f}
    ensures |r| == |buf| + 1
    decreases |buf|
  {
    if |buf| == 0 then [f]
    else if f.sequenceNumber < buf[0].sequenceNumber then [f] + buf
    else
      assert buf == [buf[0]] + buf[1..];
      [buf[0]] + Insert(buf[1..], f)
  }

  /** Every frame of the buffer is numbered at least n. */
  predicate AllFrom(buf: seq<Frame>, n: int)
  {
    forall i :: 0 <= i < |buf| ==> n <= buf[i].sequenceNumber
  }

  lemma SortedTail(buf: seq<Frame>)
    requires Sorted(buf) && |buf| > 0
    ensures Sorted(buf[1..]) && AllFrom(buf[1..], buf[0].sequenceNumber)
  {
    forall i, j | 0 <= i < j < |buf[1..]|
      ensures buf[1..][i].sequenceNumber <= buf[1..][j].sequenceNumber
    {
      assert buf[1..][i] == buf[i + 1] && buf[1..][j] == buf[j + 1];
    }
    forall i | 0 <= i < |buf[1..]|
      ensures buf[0].sequenceNumber <= buf[1..][i].sequenceNumber
    {
      assert buf[1..][i] == buf[i + 1];
    }
  }

  lemma SortedCons(x: Frame, s: seq<Frame>)
    requires Sorted(s) && AllFrom(s, x.sequenceNumber)
    ensures Sorted([x] + s)
  {
    forall i, j | 0 <= i < j < |[x] + s|
      ensures ([x] + s)[i].sequenceNumber <= ([x] + s)[j].sequenceNumber
    {
      assert ([x] + s)[j] == s[j - 1];
      if i > 0 {
        assert ([x] + s)[i] == s[i - 1];
      }
    }
  }

  lemma {:induction false} InsertAllFrom(buf: seq<Frame>, f: Frame, n: int)
    requires AllFrom(buf, n) && n <= f.sequenceNumber
    ensures AllFrom(Insert(buf, f), n)
    decreases |buf|
  {
    if |buf| > 0 && f.sequenceNumber >= buf[0].sequenceNumber {
      assert AllFrom(buf[1..], n) by {
        forall i | 0 <= i < |buf[1..]| ensures n <= buf[1..][i].sequenceNumber {
          assert buf[1..][i] == buf[i + 1];
        }
      }
      InsertAllFrom(buf[1..], f, n);
      var r := Insert(buf, f);
      forall i | 0 <= i < |r| ensures n <= r[i].sequenceNumber {
        if i > 0 {
          assert r[i] == Insert(buf[1..], f)[i - 1];
        }
      }
    }
  }

  /** `offer` keeps the buffer ordered by sequence number. */
  lemma {:induction false} InsertKeepsOrder(buf: seq<Frame>, f: Frame)
    requires Sorted(buf)
    ensures Sorted(Insert(buf, f))
    decreases |buf|
  {
    if |buf| == 0 {
    } else if f.sequenceNumber < buf[0].sequenceNumber {
      assert AllFrom(buf, f.sequenceNumber) by {
        forall i | 0 <= i < |buf| ensures f.sequenceNumber <= buf[i].sequenceNumber {
          assert buf[0].sequenceNumber <= buf[i].sequenceNumber;
        }
      }
      SortedCons(f, buf);
    } else {
      SortedTail(buf);
      InsertKeepsOrder(buf[1..], f);
      InsertAllFrom(buf[1..], f, buf[0].sequenceNumber);
      SortedCons(buf[0], Insert(buf[1..], f));
    }
  }

  /** Every frame the buffer holds is one the client can hold. */
  predicate GoodBuffer(buf: seq<Frame>)
  {
    Sorted(buf) && forall i :: 0 <= i < |buf| ==> WellFormedFrame(buf[i])
  }

  lemma InsertKeepsGood(buf: seq<Frame>, f: Frame)
    requires GoodBuffer(buf) && WellFormedFrame(f)
    ensures GoodBuffer(Insert(buf, f))
  {
    InsertKeepsOrder(buf, f);
    var r := Insert(buf, f);
    forall i | 0 <= i < |r| ensures WellFormedFrame(r[i]) {
      assert r[i] in multiset(r);
      assert r[i] == f || r[i] in multiset(buf);
    }
  }

  /** The buffer after polling every frame at its head not later than `last`. */
  function DropStale(buf: seq<Frame>, last: int): seq<Frame>
    decreases |buf|
  {
    if |buf| > 0 && buf[0].sequenceNumber <= last then DropStale(buf[1..], last) else buf
  }

  /**
   * On an ordered buffer, dropping stale frames removes exactly the frames
   * not later than `last` and keeps every later one, in order.
   */
  /** Dropping stale frames leaves a suffix, and every frame it removed was not later than `last`. */
  lemma {:induction false} DropStaleIsSuffix(buf: seq<Frame>, last: int)
    ensures var k := |buf| - |DropStale(buf, last)|;
            && 0 <= k <= |buf| && DropStale(buf, last) == buf[k..]
            && (forall i :: 0 <= i < k ==> buf[i].sequenceNumber <= last)
            && (k < |buf| ==> buf[k].sequenceNumber > last)
    decreases |buf|
  {
    if |buf| > 0 && buf[0].sequenceNumber <= last {
      DropStaleIsSuffix(buf[1..], last);
      var k := |buf| - |DropStale(buf, last)|;
      assert buf[1..][k - 1..] == buf[k..];
      forall i | 0 <= i < k ensures buf[i].sequenceNumber <= last {
        if i > 0 {
          assert buf[i] == buf[1..][i - 1];
        }
      }
    } else {
      assert buf[0..] == buf;
    }
  }

  /**
   * On an ordered buffer, dropping stale frames removes exactly the frames
   * not later than `last` and keeps every later one, in order.
   */
  lemma DropStaleSplits(buf: seq<Frame>, last: int)
    requires Sorted(buf)
    ensures var k := |buf| - |DropStale(buf, last)|;
            && 0 <= k <= |buf| && DropStale(buf, last) == buf[k..]
            && (forall i :: 0 <= i < k ==> buf[i].sequenceNumber <= last)
            && (forall i :: k <= i < |buf| ==> buf[i].sequenceNumber > last)
  {
    DropStaleIsSuffix(buf, last);
    var k := |buf| - |DropStale(buf, last)|;
    if k < |buf| {
      forall i | k <= i < |buf| ensures buf[i].sequenceNumber > last {
        assert buf[k].sequenceNumber <= buf[i].sequenceNumber;
      }
    }
  }

  /** The frame `findFrameToPlay` returns: the head of what remains, or none. */
  function HeadOf(buf: seq<Frame>): Option<Frame>
  {
    if |buf| == 0 then None else Some(buf[0])
  }

  /** The earliest remaining frame is the earliest frame later than `last`. */
  lemma FrameToPlayIsEarliestFresh(buf: seq<Frame>, last: int)
    requires Sorted(buf)
    ensures var h := HeadOf(DropStale(buf, last));
            && (h.None? <==> forall i :: 0 <= i < |buf| ==> buf[i].sequenceNumber <= last)
            && (h.Some? ==> h.value in buf && h.value.sequenceNumber > last
                            && forall i :: 0 <= i < |buf| && buf[i].sequenceNumber > last
                                           ==> h.value.sequenceNumber <= buf[i].sequenceNumber)
  {
    DropStaleSplits(buf, last);
  }

  // ---------------------------------------------------------------------------
  // Playout pacing
  // ---------------------------------------------------------------------------

  /** Whether the client buffers after a poll that found `size` frames and `loss` failed receives. */
  function BufferingAfter(wasBuffering: bool, size: int, loss: int): bool
  {
    if size >= RECOMMENDED_FRAME_BUFFER_SIZE || loss >= END_OF_STREAM_LOSSES then false
    else if size <= MINIMUM_FRAME_BUFFER_SIZE then true
    else wasBuffering
  }

  lemma BufferingHysteresis(wasBuffering: bool, size: int, loss: int)
    ensures size >= RECOMMENDED_FRAME_BUFFER_SIZE ==> !BufferingAfter(wasBuffering, size, loss)
    ensures loss >= END_OF_STREAM_LOSSES ==> !BufferingAfter(wasBuffering, size, loss)
    ensures size <= 0 && loss < END_OF_STREAM_LOSSES ==> BufferingAfter(wasBuffering, size, loss)
    ensures 0 < size < RECOMMENDED_FRAME_BUFFER_SIZE && loss < END_OF_STREAM_LOSSES
            ==> BufferingAfter(wasBuffering, size, loss) == wasBuffering
  {
  }

  /**
   * How long to wait before showing frame f: none right after play was
   * pressed, otherwise the media time since the last frame less the wall
   * time already elapsed. The media-time difference is `int` arithmetic.
   */
  function PlayoutDelay(f: Frame, lastTimestamp: int, reference: int, now: int): int
  {
    if reference < 0 then 0 else Wrap32(f.timestamp - lastTimestamp) - (now - reference)
  }

  lemma PlayoutDelayExample(f: Frame)
    requires f.timestamp == 1040
    ensures PlayoutDelay(f, 1000, 5000, 5010) == 30
    ensures PlayoutDelay(f, 1000, -1, 5010) == 0
  {
  }

  /** The new wall-clock reference after showing a frame with media time `ts` at `now`. */
  function NextReference(reference: int, now: int, ts: int, lastTimestamp: int): int
  {
    if reference < 0 then now
    else now - Wrap32(Wrap32(now - reference) - Wrap32(ts - lastTimestamp))
  }

  /**
   * Drift correction: once running, the reference advances by exactly the
   * media time between the two frames, whenever the frame was actually shown.
   */
  lemma NextReferenceIgnoresNow(reference: int, now: int, ts: int, lastTimestamp: int)
    requires reference >= 0
    requires IsInt32(now - reference) && IsInt32(ts - lastTimestamp)
    requires IsInt32((now - reference) - (ts - lastTimestamp))
    ensures NextReference(reference, now, ts, lastTimestamp) == reference + (ts - lastTimestamp)
  {
  }

  lemma NextReferenceStarts(now: int, ts: int, lastTimestamp: int)
    ensures NextReference(-1, now, ts, lastTimestamp) == now
  {
  }

  /** A frame as the client can hold it: a Java short sequence number, an int timestamp. */
  predicate WellFormedFrame(f: Frame)
  {
    IsInt16(f.sequenceNumber) && IsInt32(f.timestamp)
  }

  /** The playout fields of the connection, gathered for frame conditions. */
  datatype PlayoutFields = PlayoutFields(
    frameBuffer: seq<Frame>, isBuffering: bool, isPlaying: bool, consecutivePacketLoss: int,
    lastSequenceNumber: int, lastTimestamp: int, lastSystemTimestamp: int,
    tentativeSequenceNumber: int, polling: bool, pending: Option<PendingFrame>, played: seq<Frame>)

  /**
   * The playout half of the connection: the jitter buffer, the buffering
   * flag, the playout clock, the poll timer (`polling`) and the one-shot
   * frame timer (`pending`). Every frame handed to the session for display
   * is appended to `played`.
   */
  class Playout {
    var frameBuffer: seq<Frame>
    var isBuffering: bool
    var isPlaying: bool
    var consecutivePacketLoss: int
    var lastSequenceNumber: int
    var lastTimestamp: int
    /** Wall-clock reference of the last shown frame; negative right after play. */
    var lastSystemTimestamp: int
    var tentativeSequenceNumber: int
    /** The playout poller is scheduled. */
    var polling: bool
    /** The one-shot frame timer and the frame it will show. */
    var pending: Option<PendingFrame>
    var played: seq<Frame>

    function Fields(): PlayoutFields
      reads this
    {
      PlayoutFields(frameBuffer, isBuffering, isPlaying, consecutivePacketLoss, lastSequenceNumber,
                    lastTimestamp, lastSystemTimestamp, tentativeSequenceNumber, polling, pending, played)
    }

    ghost predicate Valid()
      reads this
    {
      && GoodBuffer(frameBuffer)
      && IsInt16(lastSequenceNumber) && IsInt32(lastTimestamp) && IsInt16(tentativeSequenceNumber)
      && consecutivePacketLoss >= 0
      && (pending.Some? ==> WellFormedFrame(pending.value.frame)
                            && pending.value.frame.sequenceNumber > lastSequenceNumber)
    }

    constructor ()
      ensures Valid()
      ensures frameBuffer == [] && played == [] && !isPlaying && !isBuffering && !polling && pending.None?
      ensures consecutivePacketLoss == 0 && lastSequenceNumber == 0 && tentativeSequenceNumber == 0
    {
      frameBuffer := [];
      isBuffering := false;
      isPlaying := false;
      consecutivePacketLoss := 0;
      lastSequenceNumber := 0;
      lastTimestamp := 0;
      lastSystemTimestamp := 0;
      tentativeSequenceNumber := 0;
      polling := false;
      pending := None;
      played := [];
    }

    /** What an accepted SETUP prepares: an empty buffer, buffering, not playing, numbering from zero. */
    method Reset()
      requires Valid()
      requires pending.None?
      modifies this
      ensures Valid()
      ensures Fields() == old(Fields()).(frameBuffer := [], isBuffering := true, isPlaying := false,
                                         lastSequenceNumber := 0, consecutivePacketLoss := 0)
    {
      frameBuffer := [];
      isBuffering := true;
      isPlaying := false;
      lastSequenceNumber := 0;
      consecutivePacketLoss := 0;
    }

    /** Cancels the poll timer and the frame timer; the buffer and the clock stay. */
    method CancelTimers()
      requires Valid()
      modifies this
      ensures Valid()
      ensures Fields() == old(Fields()).(polling := false, pending := None)
    {
      pending := None;
      polling := false;
    }

    /** Starts local playout: the first frame is shown as soon as it is found. */
    method Start()
      requires Valid()
      modifies this
      ensures Valid()
      ensures Fields() == old(Fields()).(isPlaying := true, lastSystemTimestamp := -1, polling := true)
    {
      isPlaying := true;
      lastSystemTimestamp := -1;
      polling := true;
    }

    /** Stops local playout: the poll timer is cancelled, a scheduled frame still fires. */
    method Halt()
      requires Valid()
      modifies this
      ensures Valid()
      ensures Fields() == old(Fields()).(isPlaying := false, polling := false)
    {
      isPlaying := false;
      polling := false;
    }

    /** Cancels both timers and empties the buffer. */
    method Clear()
      requires Valid()
      modifies this
      ensures Valid()
      ensures Fields() == old(Fields()).(frameBuffer := [], polling := false, pending := None)
    {
      pending := None;
      polling := false;
      frameBuffer := [];
    }

    /**
     * One run of the receive timer: a datagram (`packet` holding `length`
     * received bytes) joins the buffer as a frame; a timeout counts as a loss.
     */
    method ReceiveRtpPacket(datagram: Option<seq<JavaByte>>, length: int)
      requires Valid()
      requires datagram.Some? ==> |datagram.value| == BUFFER_LENGTH && 0 <= length <= BUFFER_LENGTH
      modifies this
      ensures Valid()
      ensures datagram.Some? ==>
                var f := ParseRtpPacket(datagram.value, length);
                Fields() == old(Fields()).(frameBuffer := Insert(old(frameBuffer), f), consecutivePacketLoss := 0)
      ensures datagram.None? ==>
                Fields() == old(Fields()).(consecutivePacketLoss := old(consecutivePacketLoss) + 1)
    {
      if datagram.Some? {
        consecutivePacketLoss := 0;
        var f := ParseRtpPacket(datagram.value, length);
        InsertKeepsGood(frameBuffer, f);
        frameBuffer := Insert(frameBuffer, f);
      } else {
        consecutivePacketLoss := consecutivePacketLoss + 1;
      }
    }

    /** Discards frames not later than the last shown one; returns the earliest remaining frame. */
    method FindFrameToPlay() returns (f: Option<Frame>)
      requires Valid()
      modifies this
      ensures Valid()
      ensures frameBuffer == DropStale(old(frameBuffer), lastSequenceNumber)
      ensures f == HeadOf(frameBuffer)
      ensures f.Some? ==> f.value.sequenceNumber > lastSequenceNumber
      ensures Fields() == old(Fields()).(frameBuffer := frameBuffer)
    {
      while |frameBuffer| > 0 && frameBuffer[0].sequenceNumber <= lastSequenceNumber
        invariant Valid()
        invariant DropStale(frameBuffer, lastSequenceNumber) == DropStale(old(frameBuffer), lastSequenceNumber)
        invariant Fields() == old(Fields()).(frameBuffer := frameBuffer)
        decreases |frameBuffer|
      {
        SortedTail(frameBuffer);
        frameBuffer := frameBuffer[1..];
      }
      f := HeadOf(frameBuffer);
    }

    /** Shows frame f at wall-clock time `now` and moves the playout clock to it. */
    method PlayFrame(f: Frame, now: int)
      requires Valid()
      requires WellFormedFrame(f)
      requires pending.Some? ==> pending.value.frame.sequenceNumber > f.sequenceNumber
      modifies this
      ensures Valid()
      ensures played == old(played) + [f]
      ensures lastSystemTimestamp == NextReference(old(lastSystemTimestamp), now, f.timestamp, old(lastTimestamp))
      ensures lastTimestamp == f.timestamp && lastSequenceNumber == f.sequenceNumber
      ensures Fields() == old(Fields()).(played := played, lastSystemTimestamp := lastSystemTimestamp,
                                         lastTimestamp := lastTimestamp, lastSequenceNumber := lastSequenceNumber)
    {
      played := played + [f];
      if lastSystemTimestamp < 0 {
        lastSystemTimestamp := now;
      } else {
        var gap := Wrap32(Wrap32(now - lastSystemTimestamp) - Wrap32(f.timestamp - lastTimestamp));
        lastSystemTimestamp := now - gap;
      }
      lastTimestamp := f.timestamp;
      lastSequenceNumber := f.sequenceNumber;
    }

    /** The one-shot frame timer fires at `now` and shows its frame. */
    method DeliverPending(now: int)
      requires Valid()
      requires pending.Some?
      modifies this
      ensures Valid()
      ensures pending.None? && played == old(played) + [old(pending).value.frame]
      ensures lastSequenceNumber == old(pending).value.frame.sequenceNumber > old(lastSequenceNumber)
      ensures frameBuffer == old(frameBuffer) && isBuffering == old(isBuffering) && polling == old(polling)
    {
      var f := pending.value.frame;
      pending := None;
      PlayFrame(f, now);
    }

    /** The buffering hysteresis of one poll: stop at the recommended size or at end of stream, start when empty. */
    method UpdateBuffering()
      requires Valid()
      modifies this
      ensures Valid()
      ensures isBuffering == BufferingAfter(old(isBuffering), |frameBuffer|, consecutivePacketLoss)
      ensures var restart := isBuffering && |frameBuffer| <= MINIMUM_FRAME_BUFFER_SIZE;
              Fields() == old(Fields()).(isBuffering := isBuffering,
                                         lastSystemTimestamp := if restart then -1 else old(lastSystemTimestamp))
    {
      var size := |frameBuffer|;
      if size >= RECOMMENDED_FRAME_BUFFER_SIZE || consecutivePacketLoss >= END_OF_STREAM_LOSSES {
        isBuffering := false;
      } else if size <= MINIMUM_FRAME_BUFFER_SIZE {
        isBuffering := true;
        lastSystemTimestamp := -1;
      }
    }

    /**
     * The playing half of a poll: the earliest fresh frame, unless it is
     * already scheduled, is shown now or handed to a new frame timer.
     */
    method ScheduleNext(now: int)
      requires Valid()
      modifies this
      ensures Valid()
      ensures isBuffering == old(isBuffering) && polling == old(polling)
      ensures frameBuffer == DropStale(old(frameBuffer), old(lastSequenceNumber))
      ensures var next := HeadOf(frameBuffer);
              (next.None? || next.value.sequenceNumber == old(tentativeSequenceNumber))
              ==> played == old(played) && pending == old(pending)
                  && tentativeSequenceNumber == old(tentativeSequenceNumber)
                  && lastSequenceNumber == old(lastSequenceNumber)
      ensures var next := HeadOf(frameBuffer);
              next.Some? && next.value.sequenceNumber != old(tentativeSequenceNumber)
              ==> var d := PlayoutDelay(next.value, old(lastTimestamp), old(lastSystemTimestamp), now);
                  && tentativeSequenceNumber == next.value.sequenceNumber
                  && (d > 0 ==> pending == Some(PendingFrame(next.value, now + d)) && played == old(played)
                                && lastSequenceNumber == old(lastSequenceNumber))
                  && (d <= 0 ==> pending.None? && played == old(played) + [next.value]
                                 && lastSequenceNumber == next.value.sequenceNumber > old(lastSequenceNumber))
    {
      var frame := FindFrameToPlay();
      if frame.None? {
        return;
      }
      var f := frame.value;
      if tentativeSequenceNumber == f.sequenceNumber {
        return;
      }
      pending := None;
      tentativeSequenceNumber := f.sequenceNumber;
      var delay := PlayoutDelay(f, lastTimestamp, lastSystemTimestamp, now);
      if delay > 0 {
        pending := Some(PendingFrame(f, now + delay));
      } else {
        PlayFrame(f, now);
      }
    }

    /**
     * One run of the playout poller at wall-clock time `now`: updates the
     * buffering state, then shows or schedules the earliest fresh frame.
     */
    method Tick(now: int)
      requires Valid()
      modifies this
      ensures Valid()
      ensures isBuffering == BufferingAfter(old(isBuffering), |old(frameBuffer)|, old(consecutivePacketLoss))
      ensures isBuffering ==> played == old(played) && frameBuffer == old(frameBuffer) && pending == old(pending)
      ensures isBuffering && |old(frameBuffer)| <= MINIMUM_FRAME_BUFFER_SIZE ==> lastSystemTimestamp == -1
      ensures !isBuffering ==> frameBuffer == DropStale(old(frameBuffer), old(lastSequenceNumber))
      ensures |played| > |old(played)| ==> lastSequenceNumber > old(lastSequenceNumber)
      ensures played == old(played) ==> lastSequenceNumber == old(lastSequenceNumber)
      ensures polling == old(polling)
    {
      UpdateBuffering();
      if isBuffering {
        return;
      }
      ScheduleNext(now);
    }
  }

  /** The fields of the session machine, gathered for frame conditions. */
  datatype SessionFields = SessionFields(
    status: Status, cseq: int, sessionNo: string, vidName: string,
    requests: seq<Request>, receiving: bool, rtpSocketOpen: bool)

  /**
   * The RTSP session: its state, the CSeq counter, the session id and video
   * from the last accepted SETUP, the receive timer (`receiving`) and the RTP
   * socket, together with the playout it drives. Every request written to
   * the server is appended to `requests`.
   */
  class RtspConnection {
    var status: Status
    /** The next CSeq. */
    var cseq: int
    var sessionNo: string
    var vidName: string
    /** Every request written to the server, in order. */
    var requests: seq<Request>
    /** The receive timer is scheduled. */
    var receiving: bool
    var rtpSocketOpen: bool
    const playout: Playout

    function Session(): SessionFields
      reads this
    {
      SessionFields(status, cseq, sessionNo, vidName, requests, receiving, rtpSocketOpen)
    }

    ghost predicate Valid()
      reads this, playout
    {
      && cseq >= 1
      && playout.Valid()
      && (status == Init ==> playout.pending.None? && !playout.polling)
      && (receiving ==> status == Playing)
    }

    constructor ()
      ensures Valid() && fresh(playout)
      ensures status == Init && cseq == 1 && requests == [] && !receiving && !rtpSocketOpen
      ensures playout.frameBuffer == [] && playout.played == [] && !playout.isPlaying
    {
      status := Init;
      cseq := 1;
      sessionNo := "";
      vidName := "";
      requests := [];
      receiving := false;
      rtpSocketOpen := false;
      playout := new Playout();
    }

    /** `seq++`: hands out the current CSeq and advances it. */
    method NextSequenceNumber() returns (n: int)
      requires Valid()
      modifies this
      ensures Valid()
      ensures n == old(cseq) && cseq == old(cseq) + 1
      ensures Session() == old(Session()).(cseq := cseq)
    {
      n := cseq;
      cseq := cseq + 1;
    }

    /** Sends SETUP when no session exists; on 200 the client is READY with an empty, buffering playout. */
    method SendSetupRequest(videoName: string, socketOk: bool, rtpPort: int, reply: Exchange)
      returns (err: Option<RtspError>)
      requires Valid()
      modifies this, playout
      ensures Valid()
      ensures old(status) != Init ==> Session() == old(Session()) && unchanged(playout) && err.None?
      ensures old(status) == Init && !socketOk
              ==> Session() == old(Session()) && unchanged(playout) && err == Some(RtpSocketFailed)
      ensures old(status) == Init && socketOk ==>
                && cseq == old(cseq) + 1 && rtpSocketOpen && receiving == old(receiving)
                && requests == old(requests) + [Request(SETUP, videoName, old(cseq), "", rtpPort)]
                && err == ReplyError(reply)
      ensures old(status) == Init && socketOk && Accepted(reply) ==>
                && status == Ready && sessionNo == reply.session && vidName == videoName
                && playout.Fields() == old(playout.Fields()).(frameBuffer := [], isBuffering := true,
                     isPlaying := false, lastSequenceNumber := 0, consecutivePacketLoss := 0)
      ensures old(status) == Init && socketOk && !Accepted(reply) ==>
                && status == old(status) && sessionNo == old(sessionNo) && vidName == old(vidName)
                && unchanged(playout)
    {
      if status != Init {
        return None;
      }
      if !socketOk {
        return Some(RtpSocketFailed);
      }
      rtpSocketOpen := true;
      var n := NextSequenceNumber();
      requests := requests + [Request(SETUP, videoName, n, "", rtpPort)];
      if Accepted(reply) {
        sessionNo := reply.session;
        vidName := videoName;
        playout.Reset();
        status := Ready;
      }
      err := ReplyError(reply);
    }

    /** Sends PLAY from READY; on 200 the receive timer starts and the client is PLAYING. */
    method SendPlayRequest(reply: Exchange) returns (err: Option<RtspError>)
      requires Valid()
      modifies this
      ensures Valid()
      ensures old(status) != Ready ==> Session() == old(Session()) && err.None?
      ensures old(status) == Ready ==>
                && cseq == old(cseq) + 1 && err == ReplyError(reply)
                && requests == old(requests) + [Request(PLAY, vidName, old(cseq), sessionNo, 0)]
                && sessionNo == old(sessionNo) && vidName == old(vidName) && rtpSocketOpen == old(rtpSocketOpen)
      ensures old(status) == Ready && Accepted(reply) ==> status == Playing && receiving
      ensures old(status) == Ready && !Accepted(reply) ==> status == Ready && receiving == old(receiving)
    {
      if status != Ready {
        return None;
      }
      var n := NextSequenceNumber();
      requests := requests + [Request(PLAY, vidName, n, sessionNo, 0)];
      if Accepted(reply) {
        receiving := true;
        status := Playing;
      }
      err := ReplyError(reply);
    }

    /** Sends PAUSE from PLAYING; on 200 every timer stops and the client is READY. */
    method SendPauseRequest(reply: Exchange) returns (err: Option<RtspError>)
      requires Valid()
      modifies this, playout
      ensures Valid()
      ensures old(status) != Playing ==> Session() == old(Session()) && unchanged(playout) && err.None?
      ensures old(status) == Playing ==>
                && cseq == old(cseq) + 1 && err == ReplyError(reply)
                && requests == old(requests) + [Request(PAUSE, vidName, old(cseq), sessionNo, 0)]
                && sessionNo == old(sessionNo) && vidName == old(vidName) && rtpSocketOpen == old(rtpSocketOpen)
      ensures old(status) == Playing && Accepted(reply) ==>
                && status == Ready && !receiving
                && playout.Fields() == old(playout.Fields()).(polling := false, pending := None)
      ensures old(status) == Playing && !Accepted(reply) ==>
                status == Playing && receiving == old(receiving) && unchanged(playout)
    {
      if status != Playing {
        return None;
      }
      var n := NextSequenceNumber();
      requests := requests + [Request(PAUSE, vidName, n, sessionNo, 0)];
      if Accepted(reply) {
        receiving := false;
        playout.CancelTimers();
        status := Ready;
      }
      err := ReplyError(reply);
    }

    /** Stops every timer, empties the buffer and closes the RTP socket. */
    method CloseRtpConnection()
      requires Valid()
      modifies this, playout
      ensures Valid()
      ensures Session() == old(Session()).(receiving := false, rtpSocketOpen := false)
      ensures playout.Fields() == old(playout.Fields()).(frameBuffer := [], polling := false, pending := None)
    {
      receiving := false;
      playout.Clear();
      rtpSocketOpen := false;
    }

    /**
     * SETUP when no session exists, then PLAY when the client is READY: from
     * INIT both are sent unless SETUP raises an error; from READY only PLAY
     * is sent; from PLAYING nothing.
     */
    method Setup(videoName: string, socketOk: bool, rtpPort: int, setupReply: Exchange, playReply: Exchange)
      returns (err: Option<RtspError>)
      requires Valid()
      modifies this, playout
      ensures Valid()
      ensures old(status) == Init && !socketOk
              ==> Session() == old(Session()) && unchanged(playout) && err == Some(RtpSocketFailed)
      ensures old(status) == Init && socketOk && !Accepted(setupReply)
              ==> && err == ReplyError(setupReply) && status == Init && cseq == old(cseq) + 1
                  && requests == old(requests) + [Request(SETUP, videoName, old(cseq), "", rtpPort)]
                  && rtpSocketOpen && !receiving && unchanged(playout)
      ensures old(status) == Init && socketOk && Accepted(setupReply)
              ==> && cseq == old(cseq) + 2 && err == ReplyError(playReply) && rtpSocketOpen
                  && sessionNo == setupReply.session && vidName == videoName
                  && requests == old(requests) + [Request(SETUP, videoName, old(cseq), "", rtpPort),
                                                  Request(PLAY, videoName, old(cseq) + 1, setupReply.session, 0)]
                  && (if Accepted(playReply) then status == Playing && receiving else status == Ready && !receiving)
                  && playout.Fields() == old(playout.Fields()).(frameBuffer := [], isBuffering := true,
                       isPlaying := false, lastSequenceNumber := 0, consecutivePacketLoss := 0)
      ensures old(status) == Ready
              ==> && cseq == old(cseq) + 1 && err == ReplyError(playReply)
                  && requests == old(requests) + [Request(PLAY, old(vidName), old(cseq), old(sessionNo), 0)]
                  && sessionNo == old(sessionNo) && vidName == old(vidName) && rtpSocketOpen == old(rtpSocketOpen)
                  && (if Accepted(playReply) then status == Playing && receiving
                      else status == Ready && receiving == old(receiving))
                  && unchanged(playout)
      ensures old(status) == Playing ==> Session() == old(Session()) && unchanged(playout) && err.None?
    {
      err := SendSetupRequest(videoName, socketOk, rtpPort, setupReply);
      if err.Some? {
        return;
      }
      err := SendPlayRequest(playReply);
    }

    /** Asks the server to play, then starts local playout if a session exists and it is not running. */
    method Play(reply: Exchange) returns (err: Option<RtspError>)
      requires Valid()
      modifies this, playout
      ensures Valid()
      ensures err.None? && old(status) != Init && !old(playout.isPlaying) ==>
                playout.Fields() == old(playout.Fields()).(isPlaying := true, lastSystemTimestamp := -1,
                                                           polling := true)
      ensures err.None? && (old(status) == Init || old(playout.isPlaying)) ==> unchanged(playout)
      ensures err.Some? ==> unchanged(playout)
      ensures old(status) != Ready ==> Session() == old(Session()) && err.None?
      ensures old(status) == Ready ==>
                && cseq == old(cseq) + 1 && err == ReplyError(reply)
                && requests == old(requests) + [Request(PLAY, old(vidName), old(cseq), old(sessionNo), 0)]
                && sessionNo == old(sessionNo) && vidName == old(vidName) && rtpSocketOpen == old(rtpSocketOpen)
                && (if Accepted(reply) then status == Playing && receiving
                    else status == Ready && receiving == old(receiving))
    {
      err := SendPlayRequest(reply);
      if err.Some? {
        return;
      }
      if status != Init && !playout.isPlaying {
        playout.Start();
      }
    }

    /** Stops local playout only: no request is sent and the server keeps streaming. */
    method Pause()
      requires Valid()
      modifies playout
      ensures Valid()
      ensures playout.Fields() == old(playout.Fields()).(isPlaying := false, polling := false)
    {
      playout.Halt();
    }

    /** PAUSE if playing, then TEARDOWN unless no session exists; on 200 the client is back in INIT. */
    method Teardown(pauseReply: Exchange, teardownReply: Exchange) returns (err: Option<RtspError>)
      requires Valid()
      modifies this, playout
      ensures Valid()
      ensures old(status) == Init ==> Session() == old(Session()) && unchanged(playout) && err.None?
      ensures old(status) == Ready ==>
                && cseq == old(cseq) + 1 && err == ReplyError(teardownReply)
                && requests == old(requests) + [Request(TEARDOWN, vidName, old(cseq), sessionNo, 0)]
      ensures old(status) == Ready && Accepted(teardownReply) ==>
                && status == Init && !receiving && !rtpSocketOpen
                && playout.Fields() == old(playout.Fields()).(frameBuffer := [], polling := false, pending := None)
      ensures old(status) == Ready && !Accepted(teardownReply) ==> status == Ready && unchanged(playout)
      ensures old(status) == Playing && ReplyError(pauseReply).Some? ==>
                && cseq == old(cseq) + 1 && err == ReplyError(pauseReply) && status == Playing
                && requests == old(requests) + [Request(PAUSE, vidName, old(cseq), sessionNo, 0)]
                && unchanged(playout)
      ensures old(status) == Playing && ReplyError(pauseReply).None? ==>
                && cseq == old(cseq) + 2 && err == ReplyError(teardownReply)
                && requests == old(requests) + [Request(PAUSE, vidName, old(cseq), sessionNo, 0),
                                                Request(TEARDOWN, vidName, old(cseq) + 1, sessionNo, 0)]
      ensures old(status) == Playing && ReplyError(pauseReply).None? && Accepted(teardownReply) ==>
                && status == Init && !receiving && !rtpSocketOpen
                && playout.Fields() == old(playout.Fields()).(frameBuffer := [], polling := false, pending := None)
      ensures old(status) == Playing && Accepted(pauseReply) && !Accepted(teardownReply) ==>
                && status == Ready && !receiving
                && playout.Fields() == old(playout.Fields()).(polling := false, pending := None)
      ensures old(status) == Playing && !Accepted(pauseReply) && ReplyError(pauseReply).None?
              && !Accepted(teardownReply) ==>
                status == Playing && receiving == old(receiving) && unchanged(playout)
    {
      err := SendPauseRequest(pauseReply);
      if err.Some? {
        return;
      }
      if status == Init {
        return None;
      }
      err := SendTeardownRequest(teardownReply);
    }

    /** The TEARDOWN exchange of `teardown`, once the client has a session. */
    method SendTeardownRequest(reply: Exchange) returns (err: Option<RtspError>)
      requires Valid() && status != Init
      modifies this, playout
      ensures Valid()
      ensures cseq == old(cseq) + 1 && err == ReplyError(reply)
      ensures requests == old(requests) + [Request(TEARDOWN, vidName, old(cseq), sessionNo, 0)]
      ensures sessionNo == old(sessionNo) && vidName == old(vidName)
      ensures Accepted(reply) ==>
                && status == Init && !receiving && !rtpSocketOpen
                && playout.Fields() == old(playout.Fields()).(frameBuffer := [], polling := false, pending := None)
      ensures !Accepted(reply) ==>
                && status == old(status) && receiving == old(receiving) && rtpSocketOpen == old(rtpSocketOpen)
                && unchanged(playout)
    {
      var n := NextSequenceNumber();
      requests := requests + [Request(TEARDOWN, vidName, n, sessionNo, 0)];
      if Accepted(reply) {
        CloseRtpConnection();
        status := Init;
      }
      err := ReplyError(reply);
    }

    /** One run of the receive timer, while it is scheduled. */
    method ReceiveRtpPacket(datagram: Option<seq<JavaByte>>, length: int)
      requires Valid()
      requires receiving
      requires datagram.Some? ==> |datagram.value| == BUFFER_LENGTH && 0 <= length <= BUFFER_LENGTH
      modifies playout
      ensures Valid()
      ensures datagram.Some? ==>
                playout.frameBuffer == Insert(old(playout.frameBuffer), ParseRtpPacket(datagram.value, length))
      ensures datagram.None? ==> playout.consecutivePacketLoss == old(playout.consecutivePacketLoss) + 1
    {
      playout.ReceiveRtpPacket(datagram, length);
    }

    /** One run of the playout poller, while it is scheduled. */
    method Tick(now: int)
      requires Valid()
      requires playout.polling
      modifies playout
      ensures Valid()
      ensures |playout.played| > |old(playout.played)|
              ==> playout.lastSequenceNumber > old(playout.lastSequenceNumber)
    {
      playout.Tick(now);
    }

    /** The frame timer fires at `now`. */
    method DeliverPending(now: int)
      requires Valid()
      requires playout.pending.Some?
      modifies playout
      ensures Valid()
      ensures playout.played == old(playout.played) + [old(playout.pending).value.frame]
    {
      playout.DeliverPending(now);
    }
  }
}
