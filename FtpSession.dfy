/**
 * The FTP client's control connection (`FTPConnection`) and the error handling shared by its
 * commands (`FTPUtil`). Every operation is given twice: as a function from the connection's
 * fields before the call to its fields after the call and how the call ended (`...Step`),
 * and as a method of the class, or on the class, that does what the Java code does, step by
 * step, and is proved to end exactly as that function says.
 *
 * The sockets are not modelled. The server's side of the control connection is the sequence
 * of lines it sends (`input`, consumed by reads; `None` is a `readLine` that returned null).
 * What the client writes is `sent`. Everything else the network or the file system decides
 * during one command (whether a write, a connect or a close fails) is a `Net` parameter.
 */
module FtpSession {
  import opened Common
  import opened FtpMessages
  import opened FtpParse

  /** The three kinds of `IOException` the commands tell apart. */
  datatype IoKind = ControlIo | DataIo | LocalIo

  /**
   * How a Java call can end other than by returning: an `FTPException`, an `IOException`,
   * or an unchecked runtime exception (a null dereference or an index out of range).
   */
  datatype Fault = Ftp(failure: Failure) | Io(kind: IoKind) | Runtime

  datatype Outcome<T> = Returned(value: T) | Threw(fault: Fault)

  /**
   * The fields of an `FTPConnection`. `connected` stands for the control socket `s` (with
   * its reader `i` and writer `o`) being set; `hostPort` is the PASV address not yet used,
   * `dataCon` the open data connection, given by the host and port it was opened to.
   */
  datatype Session = Session(
    connected: bool,
    loggedIn: bool,
    hostPort: Option<HostPort>,
    dataCon: Option<HostPort>,
    lastReply: Option<string>,
    input: seq<Option<string>>,
    sent: seq<string>)

  /** The fields after a call and how the call ended. */
  datatype Step<T> = Step(s: Session, out: Outcome<T>)

  /** The fields after a call that always throws, and what it throws. */
  datatype Raise = Raise(s: Session, fault: Fault)

  /** What copying a file over the data connection does: it completes, or a read or write fails on one side. */
  datatype Transfer = Copied | LocalFault | DataFault

  /**
   * What the network and the file system do during one command: whether the control socket
   * connects, whether writes to it succeed, whether a data connection opens, whether closing
   * the data connection and the control socket succeeds, how a file transfer goes and whether
   * a directory listing can be read to its end.
   */
  datatype Net = Net(
    reaches: bool,
    writes: bool,
    dataOpens: bool,
    dataCloses: bool,
    closes: bool,
    transfer: Transfer,
    listing: bool)

  function Raised<T>(r: Raise): Step<T>
  {
    Step(r.s, Threw(r.fault))
  }

  /** The step of a call that threw, seen from a caller the exception passes through. */
  function Rethrown<T, U>(st: Step<T>): Step<U>
    requires st.out.Threw?
  {
    Step(st.s, Threw(st.out.fault))
  }

  /** A `finally` block run on the state st left: an exception it throws replaces st's outcome. */
  function Finally<T>(st: Step<T>, fin: Step<()>): Step<T>
  {
    Step(fin.s, if fin.out.Threw? then Threw(fin.out.fault) else st.out)
  }

  // ---------------------------------------------------------------------------
  // The messages the connection and its helpers throw
  // ---------------------------------------------------------------------------

  const NOT_EXPECTED: Failure := Coded(903, [])
  const WRONG_ARGUMENT_COUNT: Failure := Coded(901, [])
  const BAD_ARGUMENT: Failure := Coded(902, [])
  const CONTROL_IO_ERROR: Failure := Coded(925, [])
  const DATA_IO_ERROR: Failure := Coded(935, [])
  const DATA_CLOSE_FAILED: Failure :=
    Coded(999, ["Closing data connection encountered error. Data connection closed."])
  const CONTROL_CLOSE_FAILED: Failure :=
    Coded(999, ["Closing connection encountered error. Connection closed."])
  const NO_PASSIVE_ADDRESS: Failure := Plain("This should never happen")
  const NEED_ACCOUNT: Failure := Coded(999, ["Need ACCT. Not required to implement."])
  const ILL_FORMATTED: Failure := Coded(999, ["Message sent to server ill-formatted."])
  const NOT_IMPLEMENTED: Failure := Coded(999, ["Server did not implement command."])

  /** `connectionFailure` (920) and `dataConnectionFailure` (930): the host and the port as text. */
  function ConnectionFailure(host: string, port: int): Failure
  {
    Coded(920, [host, IntToDecimal(port)])
  }

  function DataConnectionFailure(host: string, port: int): Failure
  {
    Coded(930, [host, IntToDecimal(port)])
  }

  // ---------------------------------------------------------------------------
  // FTPConnection, as functions of its fields
  // ---------------------------------------------------------------------------

  /** `closeDataConnection`: a failing close throws 999; either way the data connection is gone. */
  function CloseDataStep(s: Session, net: Net): Step<()>
  {
    if s.dataCon.None? then Step(s, Returned(()))
    else Step(s.(dataCon := None), if net.dataCloses then Returned(()) else Threw(Ftp(DATA_CLOSE_FAILED)))
  }

  /**
   * `close`: a failure closing the data connection is swallowed; closing the socket throws
   * 999 when it fails, and a null pointer exception when there is no socket. The `finally`
   * block clears the session whatever happened.
   */
  function CloseStep(s: Session, net: Net): Step<()>
  {
    var d := CloseDataStep(s, net).s;
    Step(d.(connected := false, loggedIn := false, hostPort := None, dataCon := None),
         if !s.connected then Threw(Runtime)
         else if !net.closes then Threw(Ftp(CONTROL_CLOSE_FAILED))
         else Returned(()))
  }

  /** `establishDataConnection`: opens a data connection to the PASV address, which is used up either way. */
  function EstablishDataStep(s: Session, net: Net): Step<()>
  {
    match s.hostPort
    case None => Step(s, Threw(Ftp(NO_PASSIVE_ADDRESS)))
    case Some(hp) =>
      if net.dataOpens then Step(s.(dataCon := Some(hp), hostPort := None), Returned(()))
      else Step(s.(hostPort := None), Threw(Ftp(DataConnectionFailure(hp.host, hp.port))))
  }

  /** `sendCommand`: the command and CRLF, or an `IOException` when the write fails. */
  function SendStep(s: Session, net: Net, cmd: string): Step<()>
  {
    if !s.connected then Step(s, Threw(Runtime))
    else if !net.writes then Step(s, Threw(Io(ControlIo)))
    else Step(s.(sent := s.sent + [cmd + "\r\n"]), Returned(()))
  }

  /**
   * What the reply loop makes of a line, given the reply's code: the last line of the reply
   * (the code and a space, section 4.2 of RFC 959), a line to read past, or a line the test
   * itself throws on (a null line, or a line that is just the code, whose `charAt(3)` is out
   * of range).
   */
  datatype Verdict = Last | More | Broken

  function LineVerdict(line: Option<string>, code: string): Verdict
    requires |code| == 3
  {
    match line
    case None => Broken
    case Some(l) =>
      if IsPrefix(code, l) then
        if |l| == 3 then Broken else if l[3] == ' ' then Last else More
      else More
  }

  /** How many lines the reply loop reads, and whether it ends at the reply's last line or throws. */
  datatype Scan = Ended(taken: nat) | Failed(taken: nat)

  function ScanLines(lines: seq<Option<string>>, code: string): (r: Scan)
    requires |code| == 3
    ensures r.taken <= |lines|
    ensures r.Ended? ==> r.taken >= 1
    decreases |lines|
  {
    if |lines| == 0 then Failed(0)  // readLine at the end of the stream: null
    else match LineVerdict(lines[0], code)
      case Last => Ended(1)
      case Broken => Failed(1)
      case More =>
        var r := ScanLines(lines[1..], code);
        if r.Ended? then Ended(r.taken + 1) else Failed(r.taken + 1)
  }

  /**
   * `readReplyAndReturnFirstLine`: nothing to read is the ten-second timeout; a null first
   * line closes the connection and throws 925; otherwise lines are read until the reply's
   * last line, and the first one is returned and kept as `lastReply`.
   */
  function ReadReplyStep(s: Session, net: Net): Step<string>
  {
    if !s.connected then Step(s, Threw(Runtime))
    else if |s.input| == 0 then Step(s, Threw(Io(ControlIo)))
    else match s.input[0]
      case None => Raised(ConnectionIoErrorStep(s.(input := s.input[1..]), net))
      case Some(first) =>
        match ReadCode(first)
        case None => Step(s.(input := s.input[1..]), Threw(Runtime))
        case Some(code) =>
          match ScanLines(s.input, code)
          case Ended(n) => Step(s.(input := s.input[n..], lastReply := Some(first)), Returned(first))
          case Failed(n) => Step(s.(input := s.input[n..]), Threw(Runtime))
  }

  // ---------------------------------------------------------------------------
  // FTPUtil, as functions of the connection's fields
  // ---------------------------------------------------------------------------

  function RequireConnected(s: Session): Option<Failure>
  {
    if !s.connected then Some(NOT_EXPECTED) else None
  }

  function RequireNotConnected(s: Session): Option<Failure>
  {
    if s.connected then Some(NOT_EXPECTED) else None
  }

  function RequireLoggedIn(s: Session): Option<Failure>
  {
    if !s.loggedIn then Some(NOT_EXPECTED) else None
  }

  function RequireNotLoggedIn(s: Session): Option<Failure>
  {
    if s.loggedIn then Some(NOT_EXPECTED) else None
  }

  /** `requireNumberOfArguments`: `args` holds the command's name and then its arguments. */
  function RequireNumberOfArguments(args: seq<string>, n: nat): Option<Failure>
  {
    if |args| - 1 != n then Some(WRONG_ARGUMENT_COUNT) else None
  }

  /** Checks made one after another: the first that fails decides. */
  function FirstFailure(checks: seq<Option<Failure>>): (r: Option<Failure>)
    ensures r.None? <==> forall i :: 0 <= i < |checks| ==> checks[i].None?
  {
    if |checks| == 0 then None
    else if checks[0].Some? then checks[0]
    else FirstFailure(checks[1..])
  }

  /** `connectionIOError`: close the connection, then 925 (unless closing throws first). */
  function ConnectionIoErrorStep(s: Session, net: Net): Raise
  {
    var c := CloseStep(s, net);
    Raise(c.s, if c.out.Threw? then c.out.fault else Ftp(CONTROL_IO_ERROR))
  }

  /** `dataConnectionIOError`: close the data connection, then 935 (unless closing throws first). */
  function DataConnectionIoErrorStep(s: Session, net: Net): Raise
  {
    var c := CloseDataStep(s, net);
    Raise(c.s, if c.out.Threw? then c.out.fault else Ftp(DATA_IO_ERROR))
  }

  /**
   * The `try` block both file-error handlers share: close the data connection and read the
   * reply the server still sends; an `IOException` while reading is a control connection error.
   */
  function DrainReplyStep(s: Session, net: Net): Session
  {
    var c := CloseDataStep(s, net);
    if c.out.Threw? then c.s
    else
      var r := ReadReplyStep(c.s, net);
      if r.out.Threw? && r.out.fault.Io? then ConnectionIoErrorStep(r.s, net).s else r.s
  }

  /** `handleLocalFileAccessError`: its `finally` throws 910 for the file whatever the `try` did. */
  function LocalFileErrorStep(s: Session, net: Net, file: Option<string>): Raise
  {
    Raise(DrainReplyStep(s, net), match file case None => Runtime case Some(f) => Ftp(Coded(910, [f])))
  }

  /** `handleDataIOException`: its `finally` is `dataConnectionIOError`, whatever the `try` did. */
  function DataIoExceptionStep(s: Session, net: Net): Raise
  {
    DataConnectionIoErrorStep(DrainReplyStep(s, net), net)
  }

  /** What `handleCommonErrorCode` does with a reply code. */
  datatype Handling = Ignore | Reject(failure: Failure) | Disconnect

  function CommonAction(code: string): Handling
  {
    if code == "332" then Reject(NEED_ACCOUNT)
    else if code == "500" || code == "501" then Reject(ILL_FORMATTED)
    else if code == "502" || code == "504" then Reject(NOT_IMPLEMENTED)
    else if code == "421" then Disconnect
    else if code == "503" then Reject(NOT_EXPECTED)
    else Ignore
  }

  function CommonErrorStep(s: Session, net: Net, code: string): Step<()>
  {
    match CommonAction(code)
    case Ignore => Step(s, Returned(()))
    case Reject(f) => Step(s, Threw(Ftp(f)))
    case Disconnect => Raised(ConnectionIoErrorStep(s, net))
  }

  /** The `catch (IOException e)` of a command: `connectionIOError`. */
  function Caught(st: Step<()>, net: Net): Step<()>
  {
    if st.out.Threw? && st.out.fault.Io? then Raised(ConnectionIoErrorStep(st.s, net)) else st
  }

  // ---------------------------------------------------------------------------
  // The connection object
  // ---------------------------------------------------------------------------

  class FtpConnection {
    var connected: bool
    var loggedIn: bool
    var hostPort: Option<HostPort>
    var dataCon: Option<HostPort>
    var lastReply: Option<string>
    var input: seq<Option<string>>
    var sent: seq<string>

    function Snapshot(): Session
      reads this
    {
      Session(connected, loggedIn, hostPort, dataCon, lastReply, input, sent)
    }

    /** A new connection: no socket, not logged in, nothing pending. */
    constructor ()
      ensures Snapshot() == Session(false, false, None, None, None, [], [])
    {
      connected, loggedIn, hostPort, dataCon, lastReply, input, sent := false, false, None, None, None, [], [];
    }

    /** `setConnection`: the socket is set and its reader delivers what the server sends. */
    method SetConnection(server: seq<Option<string>>)
      modifies this
      ensures Snapshot() == old(Snapshot()).(connected := true, input := server)
    {
      connected, input := true, server;
    }

    method CloseDataConnection(net: Net) returns (out: Outcome<()>)
      modifies this
      ensures Step(Snapshot(), out) == CloseDataStep(old(Snapshot()), net)
    {
      out := Returned(());
      if dataCon.Some? && !net.dataCloses {
        out := Threw(Ftp(DATA_CLOSE_FAILED));
      }
      dataCon := None;
    }

    method Close(net: Net) returns (out: Outcome<()>)
      modifies this
      ensures Step(Snapshot(), out) == CloseStep(old(Snapshot()), net)
    {
      var _ := CloseDataConnection(net);  // an FTPException here is swallowed
      out := Returned(());
      if !connected {
        out := Threw(Runtime);
      } else if !net.closes {
        out := Threw(Ftp(CONTROL_CLOSE_FAILED));
      }
      connected, loggedIn, hostPort, dataCon := false, false, None, None;
    }

    method EstablishDataConnection(net: Net) returns (out: Outcome<()>)
      modifies this
      ensures Step(Snapshot(), out) == EstablishDataStep(old(Snapshot()), net)
    {
      if hostPort.None? {
        return Threw(Ftp(NO_PASSIVE_ADDRESS));
      }
      var hp := hostPort.value;
      out := Returned(());
      if net.dataOpens {
        dataCon := Some(hp);
      } else {
        out := Threw(Ftp(DataConnectionFailure(hp.host, hp.port)));
      }
      hostPort := None;
    }

    method SendCommand(net: Net, cmd: string) returns (out: Outcome<()>)
      modifies this
      ensures Step(Snapshot(), out) == SendStep(old(Snapshot()), net, cmd)
    {
      if !connected {
        return Threw(Runtime);
      }
      if !net.writes {
        return Threw(Io(ControlIo));
      }
      sent := sent + [cmd + "\r\n"];
      out := Returned(());
    }

    method ReadReplyAndReturnFirstLine(net: Net) returns (out: Outcome<string>)
      modifies this
      ensures Step(Snapshot(), out) == ReadReplyStep(old(Snapshot()), net)
    {
      if !connected {
        return Threw(Runtime);
      }
      if |input| == 0 {
        return Threw(Io(ControlIo));  // nothing became ready within ten seconds
      }
      var reply := input[0];
      if reply.None? {
        input := input[1..];
        var fault := ConnectionIoError(this, net);
        return Threw(fault);
      }
      var firstLine := reply.value;
      var code := ReadCode(firstLine);
      if code.None? {
        input := input[1..];
        return Threw(Runtime);
      }
      var ended, taken := ReadToLastLine(input, code.value);
      input := input[taken..];
      if !ended {
        return Threw(Runtime);
      }
      lastReply := Some(firstLine);
      return Returned(firstLine);
    }
  }

  /**
   * The loop of `readReplyAndReturnFirstLine`: starting with the first line, lines are read
   * until one ends the reply; the end of the stream is a null line, which the loop's test
   * throws on.
   */
  method ReadToLastLine(lines: seq<Option<string>>, code: string) returns (ended: bool, taken: nat)
    requires |code| == 3 && |lines| > 0
    ensures ScanLines(lines, code) == if ended then Ended(taken) else Failed(taken)
  {
    var reply := lines[0];
    taken := 1;
    while LineVerdict(reply, code) == More
      invariant 1 <= taken <= |lines| && reply == lines[taken - 1]
      invariant ScanLines(lines, code) == Shifted(ScanLines(lines[taken - 1..], code), taken - 1)
      decreases |lines| - taken
    {
      ScanPastLine(lines, code, taken - 1);
      if taken == |lines| {
        assert lines[taken..] == [];
        return false, taken;  // readLine gives null at the end of the stream
      }
      reply := lines[taken];
      taken := taken + 1;
    }
    ended := LineVerdict(reply, code) == Last;
    ScanStops(lines, code, taken - 1);
  }

  /** The reply loop stops at a line that ends the reply or breaks it. */
  lemma {:induction false} ScanStops(lines: seq<Option<string>>, code: string, j: nat)
    requires |code| == 3 && j < |lines| && LineVerdict(lines[j], code) != More
    ensures ScanLines(lines[j..], code) == if LineVerdict(lines[j], code) == Last then Ended(1) else Failed(1)
  {
    assert lines[j..][0] == lines[j];
  }

  /** A scan result counted from `d` lines further back. */
  function Shifted(r: Scan, d: nat): Scan
  {
    match r
    case Ended(n) => Ended(n + d)
    case Failed(n) => Failed(n + d)
  }

  /** One step of the reply loop: a line that is not the last is read past. */
  lemma {:induction false} ScanPastLine(lines: seq<Option<string>>, code: string, j: nat)
    requires |code| == 3 && j < |lines| && LineVerdict(lines[j], code) == More
    ensures ScanLines(lines[j..], code) == Shifted(ScanLines(lines[j + 1..], code), 1)
  {
    assert lines[j..][1..] == lines[j + 1..];
  }

  // ---------------------------------------------------------------------------
  // FTPUtil's handlers, on the connection object
  // ---------------------------------------------------------------------------

  method ConnectionIoError(con: FtpConnection, net: Net) returns (fault: Fault)
    modifies con
    ensures Raise(con.Snapshot(), fault) == ConnectionIoErrorStep(old(con.Snapshot()), net)
  {
    var out := con.Close(net);
    fault := if out.Threw? then out.fault else Ftp(CONTROL_IO_ERROR);
  }

  method DataConnectionIoError(con: FtpConnection, net: Net) returns (fault: Fault)
    modifies con
    ensures Raise(con.Snapshot(), fault) == DataConnectionIoErrorStep(old(con.Snapshot()), net)
  {
    var out := con.CloseDataConnection(net);
    fault := if out.Threw? then out.fault else Ftp(DATA_IO_ERROR);
  }

  /** The shared `try`/`catch` of the two file-error handlers. */
  method DrainReply(con: FtpConnection, net: Net)
    modifies con
    ensures con.Snapshot() == DrainReplyStep(old(con.Snapshot()), net)
  {
    var c := con.CloseDataConnection(net);
    if c.Threw? {
      return;
    }
    var r := con.ReadReplyAndReturnFirstLine(net);
    if r.Threw? && r.fault.Io? {
      var _ := ConnectionIoError(con, net);
    }
  }

  method HandleLocalFileAccessError(con: FtpConnection, net: Net, file: Option<string>) returns (fault: Fault)
    modifies con
    ensures Raise(con.Snapshot(), fault) == LocalFileErrorStep(old(con.Snapshot()), net, file)
  {
    DrainReply(con, net);
    fault := if file.None? then Runtime else Ftp(Coded(910, [file.value]));
  }

  method HandleDataIoException(con: FtpConnection, net: Net) returns (fault: Fault)
    modifies con
    ensures Raise(con.Snapshot(), fault) == DataIoExceptionStep(old(con.Snapshot()), net)
  {
    DrainReply(con, net);
    fault := DataConnectionIoError(con, net);
  }

  method HandleCommonErrorCode(con: FtpConnection, net: Net, code: string) returns (out: Outcome<()>)
    modifies con
    ensures Step(con.Snapshot(), out) == CommonErrorStep(old(con.Snapshot()), net, code)
  {
    match CommonAction(code)
    case Ignore => out := Returned(());
    case Reject(f) => out := Threw(Ftp(f));
    case Disconnect =>
      var fault := ConnectionIoError(con, net);
      out := Threw(fault);
  }

  // ---------------------------------------------------------------------------
  // What the connection promises
  // ---------------------------------------------------------------------------

  /**
   * The reply loop reads exactly up to and including the first line that ends the reply
   * (section 4.2 of RFC 959): it ends after n lines iff line n is such a line and none before is.
   */
  lemma {:induction false} ScanEndsAtFirstLast(lines: seq<Option<string>>, code: string, n: nat)
    requires |code| == 3 && 1 <= n <= |lines|
    ensures ScanLines(lines, code) == Ended(n)
        <==> LineVerdict(lines[n - 1], code) == Last
             && forall j :: 0 <= j < n - 1 ==> LineVerdict(lines[j], code) == More
    decreases n
  {
    if n > 1 && LineVerdict(lines[0], code) == More {
      var tail := lines[1..];
      ScanEndsAtFirstLast(tail, code, n - 1);
      assert lines[n - 1] == tail[n - 2];
      if forall j :: 0 <= j < n - 2 ==> LineVerdict(tail[j], code) == More {
        forall j | 0 <= j < n - 1
          ensures LineVerdict(lines[j], code) == More
        {
          if j > 0 {
            assert lines[j] == tail[j - 1];
          }
        }
      } else {
        var j :| 0 <= j < n - 2 && LineVerdict(tail[j], code) != More;
        assert lines[j + 1] == tail[j];
      }
    }
  }

  /**
   * A reply of n lines (a first line with its code, lines that do not end the reply, and the
   * line that does) is read to its end: the first line is returned and kept, and reading
   * resumes after the reply.
   */
  lemma {:induction false} ReplyReadToLastLine(s: Session, net: Net, first: string, code: string, n: nat)
    requires s.connected && 1 <= n <= |s.input| && s.input[0] == Some(first)
    requires ReadCode(first) == Some(code)
    requires LineVerdict(s.input[n - 1], code) == Last
    requires forall j :: 0 <= j < n - 1 ==> LineVerdict(s.input[j], code) == More
    ensures ReadReplyStep(s, net) == Step(s.(input := s.input[n..], lastReply := Some(first)), Returned(first))
  {
    ScanEndsAtFirstLast(s.input, code, n);
  }

  /** A one-line reply, "code text" with a three-digit code, is read alone and returned. */
  lemma {:induction false} OneLineReply(s: Session, net: Net, code: string, text: string)
    requires s.connected && |s.input| > 0 && s.input[0] == Some(code + " " + text)
    requires |code| == 3 && AllDigits(code)
    ensures ReadReplyStep(s, net)
         == Step(s.(input := s.input[1..], lastReply := Some(code + " " + text)), Returned(code + " " + text))
  {
    var line := code + " " + text;
    LastLineOfReply(code, text);
    ReplyReadToLastLine(s, net, line, code, 1);
  }

  /** "code text" has that code and ends its reply. */
  lemma {:induction false} LastLineOfReply(code: string, text: string)
    requires |code| == 3 && AllDigits(code)
    ensures ReadCode(code + " " + text) == Some(code)
    ensures LineVerdict(Some(code + " " + text), code) == Last
  {
    var line := code + " " + text;
    assert line == code + (" " + text);
    ReplyLineCode(code, " " + text);
    assert line[..3] == code && line[3] == ' ';
  }

  /** A reply line whose three characters are only the code makes the loop's `charAt(3)` throw. */
  lemma {:induction false} BareCodeLineThrows(s: Session, net: Net, code: string)
    requires s.connected && |s.input| > 0 && s.input[0] == Some(code)
    requires |code| == 3 && AllDigits(code)
    ensures ReadReplyStep(s, net) == Step(s.(input := s.input[1..]), Threw(Runtime))
  {
    BareCode(code);
    ScanStopsAtBroken(s.input, code);
    ReplyBrokenAt(s, net, code, code, 1);
  }

  /** A reply whose loop throws after n lines leaves the input after those lines. */
  lemma {:induction false} ReplyBrokenAt(s: Session, net: Net, first: string, code: string, n: nat)
    requires s.connected && |s.input| > 0 && s.input[0] == Some(first)
    requires ReadCode(first) == Some(code) && ScanLines(s.input, code) == Failed(n)
    ensures ReadReplyStep(s, net) == Step(s.(input := s.input[n..]), Threw(Runtime))
  {
  }

  lemma {:induction false} ScanStopsAtBroken(lines: seq<Option<string>>, code: string)
    requires |code| == 3 && |lines| > 0 && LineVerdict(lines[0], code) == Broken
    ensures ScanLines(lines, code) == Failed(1)
  {
  }

  lemma {:induction false} BareCode(code: string)
    requires |code| == 3 && AllDigits(code)
    ensures ReadCode(code) == Some(code)
    ensures LineVerdict(Some(code), code) == Broken
  {
    assert code == code + [];
    ReplyLineCode(code, []);
    assert IsPrefix(code, code);
  }

  /** A server that sends a reply's first lines and then closes makes the loop throw. */
  lemma {:induction false} UnfinishedReplyThrows(s: Session, net: Net, first: string, code: string)
    requires s.connected && |s.input| > 0 && s.input[0] == Some(first)
    requires ReadCode(first) == Some(code)
    requires forall j :: 0 <= j < |s.input| ==> LineVerdict(s.input[j], code) == More
    ensures ReadReplyStep(s, net) == Step(s.(input := []), Threw(Runtime))
  {
    AllMoreFails(s.input, code);
    ReplyBrokenAt(s, net, first, code, |s.input|);
    assert s.input[|s.input|..] == [];
  }

  lemma {:induction false} AllMoreFails(lines: seq<Option<string>>, code: string)
    requires |code| == 3
    requires forall j :: 0 <= j < |lines| ==> LineVerdict(lines[j], code) == More
    ensures ScanLines(lines, code) == Failed(|lines|)
    decreases |lines|
  {
    if |lines| > 0 {
      assert forall j :: 0 <= j < |lines| - 1 ==> lines[1..][j] == lines[j + 1];
      AllMoreFails(lines[1..], code);
    }
  }

  /** Closing ends the session whatever fails on the way. */
  lemma {:induction false} CloseEndsSession(s: Session, net: Net)
    ensures var c := CloseStep(s, net);
            && !c.s.connected && !c.s.loggedIn && c.s.hostPort.None? && c.s.dataCon.None?
            && c.s.input == s.input && c.s.sent == s.sent && c.s.lastReply == s.lastReply
    ensures CloseStep(s, net).out.Threw? <==> !s.connected || !net.closes
  {
  }

  /** A control connection error ends the session and throws 925, or the 999 of a failed close. */
  lemma {:induction false} ConnectionIoErrorEndsSession(s: Session, net: Net)
    requires s.connected
    ensures var r := ConnectionIoErrorStep(s, net);
            && !r.s.connected && !r.s.loggedIn && r.s.hostPort.None? && r.s.dataCon.None?
            && r.fault == Ftp(if net.closes then CONTROL_IO_ERROR else CONTROL_CLOSE_FAILED)
  {
  }

  /** Reading a reply never opens a data connection: it keeps it, or ends the whole session. */
  lemma {:induction false} ReadReplyKeepsData(s: Session, net: Net)
    ensures var r := ReadReplyStep(s, net);
            r.s.dataCon == s.dataCon || (r.s.dataCon.None? && !r.s.connected)
  {
    if s.connected && |s.input| > 0 && s.input[0].None? {
      CloseEndsSession(s.(input := s.input[1..]), net);
    }
  }

  /** After the two file-error handlers' `try` block there is no data connection. */
  lemma {:induction false} DrainClearsData(s: Session, net: Net)
    ensures DrainReplyStep(s, net).dataCon.None?
  {
    var c := CloseDataStep(s, net);
    if !c.out.Threw? {
      ReadReplyKeepsData(c.s, net);
    }
  }

  /** `handleLocalFileAccessError` always ends with 910 for its file, with no data connection left. */
  lemma {:induction false} LocalFileErrorIs910(s: Session, net: Net, file: string)
    ensures LocalFileErrorStep(s, net, Some(file)) == Raise(DrainReplyStep(s, net), Ftp(Coded(910, [file])))
    ensures LocalFileErrorStep(s, net, Some(file)).s.dataCon.None?
  {
    DrainClearsData(s, net);
  }

  /** `handleDataIOException` always ends with 935, with no data connection left. */
  lemma {:induction false} DataIoExceptionIs935(s: Session, net: Net)
    ensures DataIoExceptionStep(s, net) == Raise(DrainReplyStep(s, net), Ftp(DATA_IO_ERROR))
  {
    DrainClearsData(s, net);
  }

  /** `handleCommonErrorCode` acts on exactly seven codes; any other leaves everything as it was. */
  lemma {:induction false} CommonCodes(s: Session, net: Net, code: string)
    ensures CommonErrorStep(s, net, code) == Step(s, Returned(()))
        <==> code !in ["332", "500", "501", "502", "504", "421", "503"]
    ensures code == "421" ==> CommonErrorStep(s, net, code) == Raised(ConnectionIoErrorStep(s, net))
    ensures code == "503" ==> CommonErrorStep(s, net, code) == Step(s, Threw(Ftp(NOT_EXPECTED)))
  {
    if code == "421" {
      CloseEndsSession(s, net);
    }
  }
}
