/**
 * The FTP client's commands: `open`, `user`, `pass`, `pasv`, `close`, the two file transfers
 * `stor` and `retr`, `list`, and the table that maps the names a user types to commands. Each
 * command's `execute` is a method on the connection, proved to end as its `...Step`
 * function says; the lemmas below state what each command does to the session.
 */
module FtpCommands {
  import opened Common
  import opened FtpMessages
  import opened FtpParse
  import opened FtpSession

  /** The first check that fails, or `None`. */
  function Either(a: Option<Failure>, b: Option<Failure>): Option<Failure>
  {
    if a.Some? then a else b
  }

  function Refused<T>(s: Session, f: Failure): Step<T>
  {
    Step(s, Threw(Ftp(f)))
  }

  // ---------------------------------------------------------------------------
  // open
  // ---------------------------------------------------------------------------

  /** The port `open host [port]` connects to: 21 by default, else a Java `int` in 0..65535. */
  function OpenPort(args: seq<string>): (r: Result<int, Failure>)
    requires 2 <= |args| <= 3
    ensures r.Ok? ==> 0 <= r.value <= 65535
    ensures r.Err? ==> r.error == BAD_ARGUMENT
  {
    if |args| == 2 then Ok(21)
    else match ParseInt(args[2])
      case None => Err(BAD_ARGUMENT)
      case Some(p) => if p < 0 || p > 65535 then Err(BAD_ARGUMENT) else Ok(p)
  }

  /** The greeting codes `open` treats as a failure to connect. */
  predicate RefusedGreeting(code: string)
  {
    code == "421" || code == "120"
  }

  /**
   * `Open.execute`: the socket is set before the greeting is read, so a refusing greeting, or
   * no greeting at all, throws 920 with the session left connected.
   */
  function OpenStep(s: Session, net: Net, args: seq<string>, server: seq<Option<string>>): Step<()>
  {
    if s.connected then Refused(s, NOT_EXPECTED)
    else if |args| < 2 || |args| > 3 then Refused(s, WRONG_ARGUMENT_COUNT)
    else match OpenPort(args)
      case Err(f) => Refused(s, f)
      case Ok(port) =>
        var host := args[1];
        if !net.reaches then Refused(s, ConnectionFailure(host, port))
        else
          var r := ReadReplyStep(s.(connected := true, input := server), net);
          match r.out
          case Threw(f) => Step(r.s, Threw(if f.Io? then Ftp(ConnectionFailure(host, port)) else f))
          case Returned(line) =>
            match ReadCode(line)
            case None => Step(r.s, Threw(Runtime))
            case Some(code) =>
              if RefusedGreeting(code) then Refused(r.s, ConnectionFailure(host, port))
              else Step(r.s, Returned(()))
  }

  method Open(con: FtpConnection, net: Net, args: seq<string>, server: seq<Option<string>>) returns (out: Outcome<()>)
    modifies con
    ensures Step(con.Snapshot(), out) == OpenStep(old(con.Snapshot()), net, args, server)
  {
    if con.connected {
      return Threw(Ftp(NOT_EXPECTED));
    }
    if |args| < 2 || |args| > 3 {
      return Threw(Ftp(WRONG_ARGUMENT_COUNT));
    }
    var host := args[1];
    var port := OpenPort(args);
    if port.Err? {
      return Threw(Ftp(port.error));
    }
    if !net.reaches {
      return Threw(Ftp(ConnectionFailure(host, port.value)));
    }
    con.SetConnection(server);
    var r := con.ReadReplyAndReturnFirstLine(net);
    if r.Threw? {
      return Threw(if r.fault.Io? then Ftp(ConnectionFailure(host, port.value)) else r.fault);
    }
    var code := ReadCode(r.value);
    if code.None? {
      return Threw(Runtime);
    }
    if RefusedGreeting(code.value) {
      return Threw(Ftp(ConnectionFailure(host, port.value)));
    }
    out := Returned(());
  }

  // ---------------------------------------------------------------------------
  // user and pass
  // ---------------------------------------------------------------------------

  /**
   * The `try` block of `user` and `pass`: send the command, read the reply, log in on a 230,
   * and hand the code to `handleCommonErrorCode`, which `pass` skips for a 503.
   */
  function LoginTry(s: Session, net: Net, cmd: string, skip503: bool): Step<()>
  {
    var w := SendStep(s, net, cmd);
    if w.out.Threw? then w
    else
      var r := ReadReplyStep(w.s, net);
      match r.out
      case Threw(f) => Step(r.s, Threw(f))
      case Returned(line) =>
        var t := if IsPrefix("230", line) then r.s.(loggedIn := true) else r.s;
        if skip503 && IsPrefix("503", line) then Step(t, Returned(()))
        else match ReadCode(line)
          case None => Step(t, Threw(Runtime))
          case Some(code) => CommonErrorStep(t, net, code)
  }

  function LoginGuards(s: Session, args: seq<string>): Option<Failure>
  {
    Either(RequireConnected(s), Either(RequireNotLoggedIn(s), RequireNumberOfArguments(args, 1)))
  }

  function UserStep(s: Session, net: Net, args: seq<string>): Step<()>
  {
    match LoginGuards(s, args)
    case Some(f) => Refused(s, f)
    case None => Caught(LoginTry(s, net, "USER " + args[1], false), net)
  }

  function PassStep(s: Session, net: Net, args: seq<string>): Step<()>
  {
    match LoginGuards(s, args)
    case Some(f) => Refused(s, f)
    case None => Caught(LoginTry(s, net, "PASS " + args[1], true), net)
  }

  method LoginExchange(con: FtpConnection, net: Net, cmd: string, skip503: bool) returns (out: Outcome<()>)
    modifies con
    ensures Step(con.Snapshot(), out) == LoginTry(old(con.Snapshot()), net, cmd, skip503)
  {
    out := con.SendCommand(net, cmd);
    if out.Threw? {
      return;
    }
    var reply := con.ReadReplyAndReturnFirstLine(net);
    if reply.Threw? {
      return Threw(reply.fault);
    }
    if IsPrefix("230", reply.value) {
      con.loggedIn := true;
    }
    if skip503 && IsPrefix("503", reply.value) {
      return Returned(());
    }
    var code := ReadCode(reply.value);
    if code.None? {
      return Threw(Runtime);
    }
    out := HandleCommonErrorCode(con, net, code.value);
  }

  /** A command's `catch (IOException e)`, on the connection. */
  method CatchIo(con: FtpConnection, net: Net, tried: Outcome<()>) returns (out: Outcome<()>)
    modifies con
    ensures Step(con.Snapshot(), out) == Caught(Step(old(con.Snapshot()), tried), net)
  {
    out := tried;
    if tried.Threw? && tried.fault.Io? {
      var fault := ConnectionIoError(con, net);
      out := Threw(fault);
    }
  }

  method User(con: FtpConnection, net: Net, args: seq<string>) returns (out: Outcome<()>)
    modifies con
    ensures Step(con.Snapshot(), out) == UserStep(old(con.Snapshot()), net, args)
  {
    var g := LoginGuards(con.Snapshot(), args);
    if g.Some? {
      return Threw(Ftp(g.value));
    }
    var tried := LoginExchange(con, net, "USER " + args[1], false);
    out := CatchIo(con, net, tried);
  }

  method Pass(con: FtpConnection, net: Net, args: seq<string>) returns (out: Outcome<()>)
    modifies con
    ensures Step(con.Snapshot(), out) == PassStep(old(con.Snapshot()), net, args)
  {
    var g := LoginGuards(con.Snapshot(), args);
    if g.Some? {
      return Threw(Ftp(g.value));
    }
    var tried := LoginExchange(con, net, "PASS " + args[1], true);
    out := CatchIo(con, net, tried);
  }

  // ---------------------------------------------------------------------------
  // pasv
  // ---------------------------------------------------------------------------

  function PasvTry(s: Session, net: Net): Step<()>
  {
    var w := SendStep(s, net, "PASV");
    if w.out.Threw? then w
    else
      var r := ReadReplyStep(w.s, net);
      match r.out
      case Threw(f) => Step(r.s, Threw(f))
      case Returned(line) =>
        match ReadCode(line)
        case None => Step(r.s, Threw(Runtime))
        case Some(code) =>
          var h := CommonErrorStep(r.s, net, code);
          if h.out.Threw? then h
          else match HostPortIn(line)
            case Err(f) => Refused(h.s, f)
            case Ok(hp) => Step(h.s.(hostPort := Some(hp)), Returned(()))
  }

  function PasvGuards(s: Session, args: seq<string>): Option<Failure>
  {
    Either(RequireConnected(s), Either(RequireLoggedIn(s), RequireNumberOfArguments(args, 0)))
  }

  function PasvStep(s: Session, net: Net, args: seq<string>): Step<()>
  {
    match PasvGuards(s, args)
    case Some(f) => Refused(s, f)
    case None => Caught(PasvTry(s, net), net)
  }

  method PasvExchange(con: FtpConnection, net: Net) returns (out: Outcome<()>)
    modifies con
    ensures Step(con.Snapshot(), out) == PasvTry(old(con.Snapshot()), net)
  {
    out := con.SendCommand(net, "PASV");
    if out.Threw? {
      return;
    }
    var reply := con.ReadReplyAndReturnFirstLine(net);
    if reply.Threw? {
      return Threw(reply.fault);
    }
    var code := ReadCode(reply.value);
    if code.None? {
      return Threw(Runtime);
    }
    out := HandleCommonErrorCode(con, net, code.value);
    if out.Threw? {
      return;
    }
    var hp := GetHostPort(reply.value);
    if hp.Err? {
      return Threw(Ftp(hp.error));
    }
    con.hostPort := Some(hp.value);
  }

  method Pasv(con: FtpConnection, net: Net, args: seq<string>) returns (out: Outcome<()>)
    modifies con
    ensures Step(con.Snapshot(), out) == PasvStep(old(con.Snapshot()), net, args)
  {
    var g := PasvGuards(con.Snapshot(), args);
    if g.Some? {
      return Threw(Ftp(g.value));
    }
    var tried := PasvExchange(con, net);
    out := CatchIo(con, net, tried);
  }

  // ---------------------------------------------------------------------------
  // close
  // ---------------------------------------------------------------------------

  function QuitTry(s: Session, net: Net): Step<()>
  {
    var w := SendStep(s, net, "QUIT");
    if w.out.Threw? then w
    else
      var r := ReadReplyStep(w.s, net);
      match r.out
      case Threw(f) => Step(r.s, Threw(f))
      case Returned(line) =>
        match ReadCode(line)
        case None => Step(r.s, Threw(Runtime))
        case Some(code) => CommonErrorStep(r.s, net, code)
  }

  function CloseGuards(s: Session, args: seq<string>): Option<Failure>
  {
    Either(RequireConnected(s), RequireNumberOfArguments(args, 0))
  }

  /**
   * `Close.execute` as written: its `finally` block closes the connection even when the
   * `catch` (or a 421 reply) has closed it already, and closing a closed connection
   * dereferences its null socket.
   */
  function CloseCommandStep(s: Session, net: Net, args: seq<string>): Step<()>
  {
    match CloseGuards(s, args)
    case Some(f) => Refused(s, f)
    case None =>
      var c := Caught(QuitTry(s, net), net);
      Finally(c, CloseStep(c.s, net))
  }

  /** `close` as evidently intended: the `finally` block closes only a connection still open. */
  function CloseCommandIntendedStep(s: Session, net: Net, args: seq<string>): Step<()>
  {
    match CloseGuards(s, args)
    case Some(f) => Refused(s, f)
    case None =>
      var c := Caught(QuitTry(s, net), net);
      if c.s.connected then Finally(c, CloseStep(c.s, net)) else c
  }

  method QuitExchange(con: FtpConnection, net: Net) returns (out: Outcome<()>)
    modifies con
    ensures Step(con.Snapshot(), out) == QuitTry(old(con.Snapshot()), net)
  {
    out := con.SendCommand(net, "QUIT");
    if out.Threw? {
      return;
    }
    var reply := con.ReadReplyAndReturnFirstLine(net);
    if reply.Threw? {
      return Threw(reply.fault);
    }
    var code := ReadCode(reply.value);
    if code.None? {
      return Threw(Runtime);
    }
    out := HandleCommonErrorCode(con, net, code.value);
  }

  method Close(con: FtpConnection, net: Net, args: seq<string>) returns (out: Outcome<()>)
    modifies con
    ensures Step(con.Snapshot(), out) == CloseCommandStep(old(con.Snapshot()), net, args)
  {
    var g := CloseGuards(con.Snapshot(), args);
    if g.Some? {
      return Threw(Ftp(g.value));
    }
    var tried := QuitExchange(con, net);
    out := CatchIo(con, net, tried);
    var fin := con.Close(net);
    if fin.Threw? {
      out := fin;
    }
  }

  // ---------------------------------------------------------------------------
  // The reply codes of stor, retr and list
  // ---------------------------------------------------------------------------

  /** What a command's `handleCode` does with a code: go on, stop, or fail in one of three ways. */
  datatype CodeAction = Proceed | Stop | Unexpected | DataRefused | Common

  /** The three commands that open a data connection. */
  datatype DataCommand = Store | Retrieve | Listing

  function StorAction(code: string): CodeAction
  {
    if code == "226" || code == "150" || code == "250" then Proceed
    else if code == "125" then Unexpected
    else if code == "425" then DataRefused
    else if code in ["110", "426", "451", "551", "552", "452", "532", "553", "550", "450"] then Stop
    else Common
  }

  function RetrAction(code: string): CodeAction
  {
    if code == "226" || code == "150" || code == "250" then Proceed
    else if code == "125" then Unexpected
    else if code == "425" then DataRefused
    else if code in ["110", "426", "451", "450", "550"] then Stop
    else Common
  }

  /** `List.handleCode` returns nothing: its two quiet groups of codes do the same. */
  function ListAction(code: string): CodeAction
  {
    if code == "226" || code == "150" || code == "250" then Proceed
    else if code == "125" then Unexpected
    else if code == "425" then DataRefused
    else if code in ["426", "451", "450"] then Stop
    else Common
  }

  function Action(c: DataCommand, code: string): CodeAction
  {
    match c
    case Store => StorAction(code)
    case Retrieve => RetrAction(code)
    case Listing => ListAction(code)
  }

  const DATA_ALREADY_OPEN: Failure := Coded(999, ["Data connection somehow opened."])

  /**
   * `handleCode`: whether to go on with the transfer. A 425 names the data connection's host
   * and port, and dereferences the data connection to do so.
   */
  function HandleCodeStep(s: Session, net: Net, code: string, a: CodeAction): Step<bool>
  {
    match a
    case Proceed => Step(s, Returned(true))
    case Stop => Step(s, Returned(false))
    case Unexpected => Refused(s, DATA_ALREADY_OPEN)
    case DataRefused =>
      (match s.dataCon
       case None => Step(s, Threw(Runtime))
       case Some(d) => Refused(s, ConnectionFailure(d.host, d.port)))
    case Common =>
      var h := CommonErrorStep(s, net, code);
      Step(h.s, if h.out.Threw? then Threw(h.out.fault) else Returned(false))
  }

  /** `handleCode(con, Parse.readCode(reply))`. */
  function ReplyCodeStep(s: Session, net: Net, c: DataCommand, line: string): Step<bool>
  {
    match ReadCode(line)
    case None => Step(s, Threw(Runtime))
    case Some(code) => HandleCodeStep(s, net, code, Action(c, code))
  }

  method HandleCode(con: FtpConnection, net: Net, c: DataCommand, line: string) returns (out: Outcome<bool>)
    modifies con
    ensures Step(con.Snapshot(), out) == ReplyCodeStep(old(con.Snapshot()), net, c, line)
  {
    var code := ReadCode(line);
    if code.None? {
      return Threw(Runtime);
    }
    var dataCon := con.dataCon;
    match Action(c, code.value)
    case Proceed => out := Returned(true);
    case Stop => out := Returned(false);
    case Unexpected => out := Threw(Ftp(DATA_ALREADY_OPEN));
    case DataRefused =>
      out := if dataCon.None? then Threw(Runtime)
             else Threw(Ftp(ConnectionFailure(dataCon.value.host, dataCon.value.port)));
    case Common =>
      var h := HandleCommonErrorCode(con, net, code.value);
      out := if h.Threw? then Threw(h.fault) else Returned(false);
  }

  // ---------------------------------------------------------------------------
  // stor and retr
  // ---------------------------------------------------------------------------

  function Verb(c: DataCommand): string
  {
    match c
    case Store => "STOR "
    case Retrieve => "RETR "
    case Listing => "LIST"
  }

  /**
   * The `try` block of `stor` and `retr`: send the command, open the data connection, read
   * the reply; if its code lets the transfer go on, copy the file, close the data connection
   * and read and handle the second reply. A missing file is a null dereference.
   */
  function TransferTry(s: Session, net: Net, c: DataCommand, name: string, file: Option<string>): Step<()>
  {
    var w := SendStep(s, net, Verb(c) + name);
    if w.out.Threw? then w
    else
      var e := EstablishDataStep(w.s, net);
      if e.out.Threw? then e
      else
        var r := ReadReplyStep(e.s, net);
        match r.out
        case Threw(f) => Step(r.s, Threw(f))
        case Returned(line) =>
          var h := ReplyCodeStep(r.s, net, c, line);
          match h.out
          case Threw(f) => Step(h.s, Threw(f))
          case Returned(proceed) =>
            if !proceed then Step(h.s, Returned(()))
            else if file.None? then Step(h.s, Threw(Runtime))
            else if net.transfer == LocalFault then Step(h.s, Threw(Io(LocalIo)))
            else if net.transfer == DataFault then Step(h.s, Threw(Io(DataIo)))
            else AfterTransfer(h.s, net, c)
  }

  /** After the copy: close the data connection, then read and handle the second reply. */
  function AfterTransfer(s: Session, net: Net, c: DataCommand): Step<()>
  {
    var d := CloseDataStep(s, net);
    if d.out.Threw? then d
    else
      var r := ReadReplyStep(d.s, net);
      match r.out
      case Threw(f) => Step(r.s, Threw(f))
      case Returned(line) =>
        var h := ReplyCodeStep(r.s, net, c, line);
        Step(h.s, if h.out.Threw? then Threw(h.out.fault) else Returned(()))
  }

  /** The `catch` blocks of `stor` and `retr`, one per kind of `IOException`. */
  function TransferCaught(st: Step<()>, net: Net, file: Option<string>): Step<()>
  {
    match st.out
    case Threw(Io(LocalIo)) => Raised(LocalFileErrorStep(st.s, net, file))
    case Threw(Io(DataIo)) => Raised(DataIoExceptionStep(st.s, net))
    case Threw(Io(ControlIo)) => Raised(ConnectionIoErrorStep(st.s, net))
    case _ => st
  }

  function TransferGuards(s: Session, args: seq<string>): Option<Failure>
  {
    Either(RequireConnected(s), Either(RequireLoggedIn(s), RequireNumberOfArguments(args, 1)))
  }

  /** `Stor.execute` (c = Store) and `Retr.execute` (c = Retrieve); the `finally` closes the data connection. */
  function TransferStep(s: Session, net: Net, c: DataCommand, args: seq<string>, file: Option<string>): Step<()>
  {
    match TransferGuards(s, args)
    case Some(f) => Refused(s, f)
    case None =>
      var t := TransferCaught(TransferTry(s, net, c, args[1], file), net, file);
      Finally(t, CloseDataStep(t.s, net))
  }

  method FinishTransfer(con: FtpConnection, net: Net, c: DataCommand) returns (out: Outcome<()>)
    modifies con
    ensures Step(con.Snapshot(), out) == AfterTransfer(old(con.Snapshot()), net, c)
  {
    out := con.CloseDataConnection(net);
    if out.Threw? {
      return;
    }
    var reply := con.ReadReplyAndReturnFirstLine(net);
    if reply.Threw? {
      return Threw(reply.fault);
    }
    var h := HandleCode(con, net, c, reply.value);
    out := if h.Threw? then Threw(h.fault) else Returned(());
  }

  method TransferExchange(con: FtpConnection, net: Net, c: DataCommand, name: string, file: Option<string>)
    returns (out: Outcome<()>)
    modifies con
    ensures Step(con.Snapshot(), out) == TransferTry(old(con.Snapshot()), net, c, name, file)
  {
    out := con.SendCommand(net, Verb(c) + name);
    if out.Threw? {
      return;
    }
    out := con.EstablishDataConnection(net);
    if out.Threw? {
      return;
    }
    var reply := con.ReadReplyAndReturnFirstLine(net);
    if reply.Threw? {
      return Threw(reply.fault);
    }
    var proceed := HandleCode(con, net, c, reply.value);
    if proceed.Threw? {
      return Threw(proceed.fault);
    }
    if !proceed.value {
      return Returned(());
    }
    if file.None? {
      return Threw(Runtime);
    }
    match net.transfer
    case LocalFault => out := Threw(Io(LocalIo));
    case DataFault => out := Threw(Io(DataIo));
    case Copied => out := FinishTransfer(con, net, c);
  }

  method CatchTransfer(con: FtpConnection, net: Net, tried: Outcome<()>, file: Option<string>) returns (out: Outcome<()>)
    modifies con
    ensures Step(con.Snapshot(), out) == TransferCaught(Step(old(con.Snapshot()), tried), net, file)
  {
    out := tried;
    if tried.Threw? && tried.fault.Io? {
      var fault: Fault;
      match tried.fault.kind {
        case LocalIo => fault := HandleLocalFileAccessError(con, net, file);
        case DataIo => fault := HandleDataIoException(con, net);
        case ControlIo => fault := ConnectionIoError(con, net);
      }
      out := Threw(fault);
    }
  }

  /** The whole of `execute` for the two transfer commands, given the command's `file`. */
  method TransferFile(con: FtpConnection, net: Net, c: DataCommand, args: seq<string>, file: Option<string>)
    returns (out: Outcome<()>, forget: bool)
    modifies con
    ensures Step(con.Snapshot(), out) == TransferStep(old(con.Snapshot()), net, c, args, file)
    ensures forget == TransferForgets(old(con.Snapshot()), net, c, args, file)
  {
    var g := TransferGuards(con.Snapshot(), args);
    if g.Some? {
      return Threw(Ftp(g.value)), false;
    }
    var tried := TransferExchange(con, net, c, args[1], file);
    out := CatchTransfer(con, net, tried, file);
    var fin := con.CloseDataConnection(net);
    forget := !fin.Threw?;
    if fin.Threw? {
      out := fin;
    }
  }

  /**
   * Whether `execute` reaches `file = null`: the checks pass and the `finally` block's
   * `closeDataConnection` returns, rather than throwing before the assignment.
   */
  predicate TransferForgets(s: Session, net: Net, c: DataCommand, args: seq<string>, file: Option<string>)
  {
    && TransferGuards(s, args).None?
    && var t := TransferCaught(TransferTry(s, net, c, args[1], file), net, file);
       !CloseDataStep(t.s, net).out.Threw?
  }

  /** Once the checks pass, the command keeps its file only when the `finally` block threw the 999 of a failed close. */
  lemma {:induction false} FileKeptOnCloseFailure(s: Session, net: Net, c: DataCommand, args: seq<string>, file: Option<string>)
    requires TransferGuards(s, args).None?
    ensures !TransferForgets(s, net, c, args, file) ==> TransferStep(s, net, c, args, file).out == Threw(Ftp(DATA_CLOSE_FAILED))
  {
    var t := TransferCaught(TransferTry(s, net, c, args[1], file), net, file);
    var fin := CloseDataStep(t.s, net);
    assert TransferStep(s, net, c, args, file) == Finally(t, fin);
  }

  /** The `stor` command object: the local file to send is set before `execute` and cleared by it. */
  class Stor {
    var file: Option<string>

    constructor (f: Option<string>)
      ensures file == f
    {
      file := f;
    }

    method Execute(con: FtpConnection, net: Net, args: seq<string>) returns (out: Outcome<()>)
      modifies this, con
      ensures Step(con.Snapshot(), out) == TransferStep(old(con.Snapshot()), net, Store, args, old(file))
      ensures file == if TransferForgets(old(con.Snapshot()), net, Store, args, old(file)) then None else old(file)
    {
      var forget;
      out, forget := TransferFile(con, net, Store, args, file);
      if forget {
        file := None;
      }
    }
  }

  /** The `retr` command object: the local file to write is set before `execute` and cleared by it. */
  class Retr {
    var file: Option<string>

    constructor (f: Option<string>)
      ensures file == f
    {
      file := f;
    }

    method Execute(con: FtpConnection, net: Net, args: seq<string>) returns (out: Outcome<()>)
      modifies this, con
      ensures Step(con.Snapshot(), out) == TransferStep(old(con.Snapshot()), net, Retrieve, args, old(file))
      ensures file == if TransferForgets(old(con.Snapshot()), net, Retrieve, args, old(file)) then None else old(file)
    {
      var forget;
      out, forget := TransferFile(con, net, Retrieve, args, file);
      if forget {
        file := None;
      }
    }
  }

  // ---------------------------------------------------------------------------
  // list
  // ---------------------------------------------------------------------------

  /** `readDirectory`: the listing is read to its end; a read error is `dataConnectionIOError`. */
  function ReadDirectoryStep(s: Session, net: Net): Step<()>
  {
    if s.dataCon.None? then Step(s, Threw(Runtime))
    else if net.listing then Step(s, Returned(()))
    else Raised(DataConnectionIoErrorStep(s, net))
  }

  /** The `try` block of `list`: the listing and the second reply are read whatever the first code was. */
  function ListTry(s: Session, net: Net): Step<()>
  {
    var w := SendStep(s, net, Verb(Listing));
    if w.out.Threw? then w
    else
      var e := EstablishDataStep(w.s, net);
      if e.out.Threw? then e
      else
        var r := ReadReplyStep(e.s, net);
        match r.out
        case Threw(f) => Step(r.s, Threw(f))
        case Returned(line) =>
          var h := ReplyCodeStep(r.s, net, Listing, line);
          if h.out.Threw? then Step(h.s, Threw(h.out.fault))
          else
            var d := ReadDirectoryStep(h.s, net);
            if d.out.Threw? then d
            else AfterTransfer(d.s, net, Listing)
  }

  /** The `catch` blocks of `list`; it has no `finally`. */
  function ListCaught(st: Step<()>, net: Net): Step<()>
  {
    match st.out
    case Threw(Io(DataIo)) => Raised(DataIoExceptionStep(st.s, net))
    case Threw(Io(_)) => Raised(ConnectionIoErrorStep(st.s, net))
    case _ => st
  }

  function ListGuards(s: Session, args: seq<string>): Option<Failure>
  {
    Either(RequireConnected(s), Either(RequireLoggedIn(s), RequireNumberOfArguments(args, 0)))
  }

  function ListStep(s: Session, net: Net, args: seq<string>): Step<()>
  {
    match ListGuards(s, args)
    case Some(f) => Refused(s, f)
    case None => ListCaught(ListTry(s, net), net)
  }

  method ReadDirectory(con: FtpConnection, net: Net) returns (out: Outcome<()>)
    modifies con
    ensures Step(con.Snapshot(), out) == ReadDirectoryStep(old(con.Snapshot()), net)
  {
    if con.dataCon.None? {
      return Threw(Runtime);
    }
    if net.listing {
      return Returned(());
    }
    var fault := DataConnectionIoError(con, net);
    out := Threw(fault);
  }

  method ListExchange(con: FtpConnection, net: Net) returns (out: Outcome<()>)
    modifies con
    ensures Step(con.Snapshot(), out) == ListTry(old(con.Snapshot()), net)
  {
    out := con.SendCommand(net, Verb(Listing));
    if out.Threw? {
      return;
    }
    out := con.EstablishDataConnection(net);
    if out.Threw? {
      return;
    }
    var reply := con.ReadReplyAndReturnFirstLine(net);
    if reply.Threw? {
      return Threw(reply.fault);
    }
    var h := HandleCode(con, net, Listing, reply.value);
    if h.Threw? {
      return Threw(h.fault);
    }
    out := ReadDirectory(con, net);
    if out.Threw? {
      return;
    }
    out := FinishTransfer(con, net, Listing);
  }

  method List(con: FtpConnection, net: Net, args: seq<string>) returns (out: Outcome<()>)
    modifies con
    ensures Step(con.Snapshot(), out) == ListStep(old(con.Snapshot()), net, args)
  {
    var g := ListGuards(con.Snapshot(), args);
    if g.Some? {
      return Threw(Ftp(g.value));
    }
    var tried := ListExchange(con, net);
    out := tried;
    if tried.Threw? && tried.fault.Io? {
      var fault: Fault;
      if tried.fault.kind == DataIo {
        fault := HandleDataIoException(con, net);
      } else {
        fault := ConnectionIoError(con, net);
      }
      out := Threw(fault);
    }
  }

  // ---------------------------------------------------------------------------
  // The command table
  // ---------------------------------------------------------------------------

  /** The commands a user can name. */
  datatype UserCommand = OpenCommand | UserNameCommand | CloseCommand | QuitCommand
                       | DirCommand | CwdCommand | PutCommand | GetCommand

  /** `Commands.getCommand`: an exact, case-sensitive lookup; `None` is Java's null. */
  function CommandNamed(name: string): Option<UserCommand>
  {
    if name == "open" then Some(OpenCommand)
    else if name == "user" then Some(UserNameCommand)
    else if name == "close" then Some(CloseCommand)
    else if name == "quit" then Some(QuitCommand)
    else if name == "dir" then Some(DirCommand)
    else if name == "cd" then Some(CwdCommand)
    else if name == "put" then Some(PutCommand)
    else if name == "get" then Some(GetCommand)
    else None
  }

  // ---------------------------------------------------------------------------
  // What the commands promise
  // ---------------------------------------------------------------------------

  /** A port written in decimal is the port `open` connects to; with no port given, 21. */
  lemma {:induction false} OpenPortOfDecimal(host: string, p: nat)
    requires p <= 65535
    ensures OpenPort(["open", host, NatToDecimal(p)]) == Ok(p)
    ensures OpenPort(["open", host]) == Ok(21)
  {
    ParseIntOfDecimal(p);
  }

  /** A port with a character other than a digit (after an optional sign) is refused with 902. */
  lemma {:induction false} OpenPortNotANumber(host: string, port: string, i: nat)
    requires i < |port| && !IsDigit(port[i]) && (i > 0 || (port[0] != '-' && port[0] != '+'))
    ensures OpenPort(["open", host, port]) == Err(BAD_ARGUMENT)
  {
    ParseIntRejects(port, i);
  }

  /** Three characters of a reply line "code text" start with p iff p is the code. */
  lemma {:induction false} ReplyLineStartsWith(code: string, text: string, p: string)
    requires |code| == 3 && |p| == 3
    ensures IsPrefix(p, code + " " + text) <==> p == code
  {
    assert (code + " " + text)[..3] == code;
  }

  /**
   * `open` on a server that greets with a one-line reply: the session is connected and the
   * greeting read; a 421 or 120 greeting throws 920 for the host and port but leaves it connected.
   */
  lemma {:induction false} OpenGreeted(s: Session, net: Net, host: string, code: string, text: string,
                                       rest: seq<Option<string>>)
    requires !s.connected && net.reaches && |code| == 3 && AllDigits(code)
    ensures var after := s.(connected := true, input := rest, lastReply := Some(code + " " + text));
            OpenStep(s, net, ["open", host], [Some(code + " " + text)] + rest)
            == Step(after, if RefusedGreeting(code) then Threw(Ftp(ConnectionFailure(host, 21))) else Returned(()))
  {
    var server := [Some(code + " " + text)] + rest;
    var t := s.(connected := true, input := server);
    OneLineReply(t, net, code, text);
    assert server[1..] == rest;
    LastLineOfReply(code, text);
  }

  /** `open` with a server that sends nothing times out and throws 920, left connected. */
  lemma {:induction false} OpenSilentServer(s: Session, net: Net, host: string)
    requires !s.connected && net.reaches
    ensures OpenStep(s, net, ["open", host], [])
         == Step(s.(connected := true, input := []), Threw(Ftp(ConnectionFailure(host, 21))))
  {
    assert OpenPort(["open", host]) == Ok(21);
  }

  /** The session after a command was sent and a one-line reply read. */
  function Answered(s: Session, cmd: string, line: string): Session
    requires |s.input| > 0
  {
    s.(sent := s.sent + [cmd + "\r\n"], input := s.input[1..], lastReply := Some(line))
  }

  /** Sending a command and reading its one-line reply. */
  lemma {:induction false} Exchange(s: Session, net: Net, cmd: string, code: string, text: string)
    requires s.connected && net.writes && |s.input| > 0 && s.input[0] == Some(code + " " + text)
    requires |code| == 3 && AllDigits(code)
    ensures SendStep(s, net, cmd) == Step(s.(sent := s.sent + [cmd + "\r\n"]), Returned(()))
    ensures ReadReplyStep(SendStep(s, net, cmd).s, net)
         == Step(Answered(s, cmd, code + " " + text), Returned(code + " " + text))
  {
    OneLineReply(s.(sent := s.sent + [cmd + "\r\n"]), net, code, text);
  }

  /**
   * `user` and `pass` log in exactly when the reply is 230; a reply `handleCommonErrorCode`
   * ignores leaves the command returning normally, one it rejects makes it throw.
   */
  lemma {:induction false} LoginFollowsReply(s: Session, net: Net, cmd: string, skip503: bool, code: string, text: string)
    requires s.connected && !s.loggedIn && net.writes && |s.input| > 0 && s.input[0] == Some(code + " " + text)
    requires |code| == 3 && AllDigits(code) && CommonAction(code) != Disconnect
    ensures var l := LoginTry(s, net, cmd, skip503);
            && l.s == Answered(s, cmd, code + " " + text).(loggedIn := code == "230")
            && (l.out == Returned(()) <==> CommonAction(code) == Ignore || (skip503 && code == "503"))
            && (l.out.Threw? ==> l.out.fault.Ftp?)
  {
    var line := code + " " + text;
    Exchange(s, net, cmd, code, text);
    ReplyLineStartsWith(code, text, "230");
    ReplyLineStartsWith(code, text, "503");
    LastLineOfReply(code, text);
  }

  /** `user name`: logged in iff the server answers 230. */
  lemma {:induction false} UserLogsInOn230(s: Session, net: Net, name: string, code: string, text: string)
    requires s.connected && !s.loggedIn && net.writes && |s.input| > 0 && s.input[0] == Some(code + " " + text)
    requires |code| == 3 && AllDigits(code) && CommonAction(code) != Disconnect
    ensures var u := UserStep(s, net, ["user", name]);
            && u.s == Answered(s, "USER " + name, code + " " + text).(loggedIn := code == "230")
            && (u.out == Returned(()) <==> CommonAction(code) == Ignore)
  {
    var args := ["user", name];
    assert LoginGuards(s, args).None? && args[1] == name;
    LoginFollowsReply(s, net, "USER " + name, false, code, text);
    CaughtKeeps(LoginTry(s, net, "USER " + name, false), net);
  }

  /**
   * `pass word`: logged in iff the server answers 230, and it returns normally on a 503 as
   * well, where `user` throws 903 (see `UserLogsInOn230`).
   */
  lemma {:induction false} PassLogsInOn230(s: Session, net: Net, word: string, code: string, text: string)
    requires s.connected && !s.loggedIn && net.writes && |s.input| > 0 && s.input[0] == Some(code + " " + text)
    requires |code| == 3 && AllDigits(code) && CommonAction(code) != Disconnect
    ensures var p := PassStep(s, net, ["pass", word]);
            && p.s == Answered(s, "PASS " + word, code + " " + text).(loggedIn := code == "230")
            && (p.out == Returned(()) <==> CommonAction(code) == Ignore || code == "503")
  {
    var args := ["pass", word];
    assert LoginGuards(s, args).None? && args[1] == word;
    LoginFollowsReply(s, net, "PASS " + word, true, code, text);
    CaughtKeeps(LoginTry(s, net, "PASS " + word, true), net);
  }

  /** A `catch (IOException e)` lets every other outcome through. */
  lemma {:induction false} CaughtKeeps(st: Step<()>, net: Net)
    requires st.out.Threw? ==> !st.out.fault.Io?
    ensures Caught(st, net) == st
  {
  }

  /** A 421 reply to `user` ends the session with 925. */
  lemma {:induction false} UserReply421(s: Session, net: Net, name: string, text: string)
    requires s.connected && !s.loggedIn && net.writes && net.closes && |s.input| > 0 && s.input[0] == Some("421 " + text)
    ensures var u := UserStep(s, net, ["user", name]);
            !u.s.connected && !u.s.loggedIn && u.out == Threw(Ftp(CONTROL_IO_ERROR))
  {
    assert "421 " + text == "421" + " " + text;
    Exchange(s, net, "USER " + name, "421", text);
    LastLineOfReply("421", text);
    ReplyLineStartsWith("421", text, "230");
  }

  /**
   * `pasv` after a reply `handleCommonErrorCode` ignores: the data address is set iff the
   * reply holds one, and a reply without one throws 999 and leaves the old address.
   */
  lemma {:induction false} PasvStoresAddress(s: Session, net: Net, code: string, text: string)
    requires s.connected && s.loggedIn && net.writes && |s.input| > 0 && s.input[0] == Some(code + " " + text)
    requires |code| == 3 && AllDigits(code) && CommonAction(code) == Ignore
    ensures var p := PasvStep(s, net, ["pasv"]);
            var found := HostPortIn(code + " " + text);
            && p.s == Answered(s, "PASV", code + " " + text).(hostPort := if found.Ok? then Some(found.value) else s.hostPort)
            && (p.out == Returned(()) <==> found.Ok?)
            && (p.out.Threw? ==> p.out == Threw(Ftp(NO_HOST_PORT)))
  {
    Exchange(s, net, "PASV", code, text);
    LastLineOfReply(code, text);
    CaughtKeeps(PasvTry(s, net), net);
    HostPortInRange(code + " " + text);
  }

  /** `pasv` after a reply `handleCommonErrorCode` rejects: the address is left as it was. */
  lemma {:induction false} PasvRejected(s: Session, net: Net, code: string, text: string, f: Failure)
    requires s.connected && s.loggedIn && net.writes && |s.input| > 0 && s.input[0] == Some(code + " " + text)
    requires |code| == 3 && AllDigits(code) && CommonAction(code) == Reject(f)
    ensures PasvStep(s, net, ["pasv"]) == Step(Answered(s, "PASV", code + " " + text), Threw(Ftp(f)))
  {
    Exchange(s, net, "PASV", code, text);
    LastLineOfReply(code, text);
    CaughtKeeps(PasvTry(s, net), net);
  }

  /** The text of a standard reply to PASV, up to its numbers. */
  const PASSIVE_MODE := "227 Entering Passive Mode ("

  lemma {:induction false} PassiveModeQuiet()
    ensures QuietPrefix(PASSIVE_MODE)
  {
  }

  /**
   * `pasv` answered by `227 Entering Passive Mode (h1,h2,h3,h4,p1,p2)...`: the address becomes
   * host `h1.h2.h3.h4` and port p1 * 256 + p2.
   */
  lemma {:induction false} PasvEnteringPassiveMode(s: Session, net: Net, h1: nat, h2: nat, h3: nat, h4: nat, p1: nat, p2: nat, suffix: string)
    requires s.connected && s.loggedIn && net.writes && |s.input| > 0
    requires h1 < 256 && h2 < 256 && h3 < 256 && h4 < 256 && p1 < 256 && p2 < 256 && NoDigitFirst(suffix)
    requires s.input[0] == Some(PASSIVE_MODE + Group(Written(h1, h2, h3, h4, p1, p2), suffix))
    ensures var p := PasvStep(s, net, ["pasv"]);
            && p.out == Returned(())
            && p.s.hostPort == Some(HostPort(NatToDecimal(h1) + "." + NatToDecimal(h2) + "." + NatToDecimal(h3) + "."
                                             + NatToDecimal(h4), p1 * 256 + p2))
  {
    var line := PASSIVE_MODE + Group(Written(h1, h2, h3, h4, p1, p2), suffix);
    var text := line[4..];
    assert line == "227" + " " + text;
    assert CommonAction("227") == Ignore;
    PassiveModeQuiet();
    PasvReplyDecodes(PASSIVE_MODE, h1, h2, h3, h4, p1, p2, suffix, line);
    PasvStoresAddress(s, net, "227", text);
  }

  /** A session that is either still connected or cleared by `close`. */
  predicate Settled(s: Session)
  {
    s.connected || (!s.loggedIn && s.hostPort.None? && s.dataCon.None?)
  }

  lemma {:induction false} ReadReplySettled(s: Session, net: Net)
    requires s.connected
    ensures Settled(ReadReplyStep(s, net).s)
  {
    if |s.input| > 0 && s.input[0].None? {
      CloseEndsSession(s.(input := s.input[1..]), net);
    }
  }

  lemma {:induction false} CommonErrorSettled(s: Session, net: Net, code: string)
    requires Settled(s)
    ensures Settled(CommonErrorStep(s, net, code).s)
  {
    CloseEndsSession(s, net);
  }

  /** The QUIT exchange, caught or not, leaves the session connected or cleared. */
  lemma {:induction false} QuitSettled(s: Session, net: Net)
    requires s.connected
    ensures Settled(Caught(QuitTry(s, net), net).s)
  {
    var w := SendStep(s, net, "QUIT");
    if !w.out.Threw? {
      var r := ReadReplyStep(w.s, net);
      ReadReplySettled(w.s, net);
      if r.out.Returned? && ReadCode(r.out.value).Some? {
        CommonErrorSettled(r.s, net, ReadCode(r.out.value).value);
      }
    }
    CloseEndsSession(QuitTry(s, net).s, net);
  }

  /** Once its guards pass, `close` ends the session whatever the server and the sockets do. */
  lemma {:induction false} CloseCommandEndsSession(s: Session, net: Net, args: seq<string>)
    requires CloseGuards(s, args).None?
    ensures var c := CloseCommandStep(s, net, args);
            !c.s.connected && !c.s.loggedIn && c.s.hostPort.None? && c.s.dataCon.None?
    ensures var c := CloseCommandIntendedStep(s, net, args);
            !c.s.connected && !c.s.loggedIn && c.s.hostPort.None? && c.s.dataCon.None?
  {
    var c := Caught(QuitTry(s, net), net);
    QuitSettled(s, net);
    CloseEndsSession(c.s, net);
  }

  /**
   * As written, `close` whose QUIT cannot be sent reports a null pointer exception: the
   * `catch` closes the connection and the `finally` block closes it again.
   */
  lemma {:induction false} CloseLostConnectionAsWritten(s: Session, net: Net)
    requires s.connected && !net.writes && net.closes
    ensures CloseCommandStep(s, net, ["close"]).out == Threw(Runtime)
  {
    assert CloseGuards(s, ["close"]).None?;
  }

  /** As intended, the same `close` reports 925, the control connection's I/O error. */
  lemma {:induction false} CloseLostConnection(s: Session, net: Net)
    requires s.connected && !net.writes && net.closes
    ensures CloseCommandIntendedStep(s, net, ["close"]).out == Threw(Ftp(CONTROL_IO_ERROR))
  {
    assert CloseGuards(s, ["close"]).None?;
  }

  // ---------------------------------------------------------------------------
  // Transfers
  // ---------------------------------------------------------------------------

  /** The three `handleCode` tables act alike: the codes only `stor` lists are ones `handleCommonErrorCode` ignores. */
  lemma {:induction false} HandleCodesAgree(s: Session, net: Net, code: string)
    ensures HandleCodeStep(s, net, code, StorAction(code)) == HandleCodeStep(s, net, code, RetrAction(code))
    ensures HandleCodeStep(s, net, code, RetrAction(code)) == HandleCodeStep(s, net, code, ListAction(code))
  {
    QuietStorCodes(code);
    QuietListCodes(code);
    if CommonAction(code) == Ignore {
      QuietStop(s, net, code);
    }
  }

  /** Where `stor` and `retr` differ, `stor` stops on a code `handleCommonErrorCode` ignores. */
  lemma {:induction false} QuietStorCodes(code: string)
    ensures StorAction(code) == RetrAction(code)
            || (CommonAction(code) == Ignore && StorAction(code) == Stop && RetrAction(code) == Common)
  {
  }

  /** Where `retr` and `list` differ, `retr` stops on a code `handleCommonErrorCode` ignores. */
  lemma {:induction false} QuietListCodes(code: string)
    ensures RetrAction(code) == ListAction(code)
            || (CommonAction(code) == Ignore && RetrAction(code) == Stop && ListAction(code) == Common)
  {
  }

  /** Stopping and deferring to an ignored common code leave the same session and return `false`. */
  lemma {:induction false} QuietStop(s: Session, net: Net, code: string)
    requires CommonAction(code) == Ignore
    ensures HandleCodeStep(s, net, code, Stop) == HandleCodeStep(s, net, code, Common)
  {
  }

  /** The session once a data command is sent, the data connection opened and a one-line reply read. */
  function Opened(s: Session, cmd: string, hp: HostPort, line: string): Session
    requires |s.input| > 0
  {
    Answered(s, cmd, line).(dataCon := Some(hp), hostPort := None)
  }

  lemma {:induction false} FirstReply(s: Session, net: Net, cmd: string, hp: HostPort, code: string, text: string)
    requires s.connected && s.hostPort == Some(hp) && net.writes && net.dataOpens
    requires |s.input| > 0 && s.input[0] == Some(code + " " + text) && |code| == 3 && AllDigits(code)
    ensures var w := SendStep(s, net, cmd);
            var e := EstablishDataStep(w.s, net);
            && w.out.Returned? && e.out.Returned?
            && ReadReplyStep(e.s, net) == Step(Opened(s, cmd, hp, code + " " + text), Returned(code + " " + text))
  {
    var e := EstablishDataStep(SendStep(s, net, cmd).s, net);
    assert e.s == s.(sent := s.sent + [cmd + "\r\n"], dataCon := Some(hp), hostPort := None);
    OneLineReply(e.s, net, code, text);
  }

  /**
   * `stor` or `retr` whose first reply stops the transfer (a 550, say): one reply is read,
   * nothing is copied, and the `finally` block closes the data connection.
   */
  lemma {:induction false} TransferStopped(s: Session, net: Net, c: DataCommand, args: seq<string>, file: Option<string>,
                                           hp: HostPort, code: string, text: string)
    requires c != Listing && |args| == 2 && s.connected && s.loggedIn && s.hostPort == Some(hp)
    requires net.writes && net.dataOpens && net.dataCloses
    requires |s.input| > 0 && s.input[0] == Some(code + " " + text) && |code| == 3 && AllDigits(code)
    requires Action(c, code) == Stop
    ensures TransferStep(s, net, c, args, file)
         == Step(Answered(s, Verb(c) + args[1], code + " " + text).(hostPort := None, dataCon := None), Returned(()))
  {
    FirstReply(s, net, Verb(c) + args[1], hp, code, text);
    LastLineOfReply(code, text);
  }

  /**
   * The same stop when the data connection fails to close: the `finally` block throws 999
   * before `file = null`, so the command keeps its file.
   */
  lemma {:induction false} StoppedCloseFails(s: Session, net: Net, c: DataCommand, args: seq<string>, file: Option<string>,
                                             hp: HostPort, code: string, text: string)
    requires c != Listing && |args| == 2 && s.connected && s.loggedIn && s.hostPort == Some(hp)
    requires net.writes && net.dataOpens && !net.dataCloses
    requires |s.input| > 0 && s.input[0] == Some(code + " " + text) && |code| == 3 && AllDigits(code)
    requires Action(c, code) == Stop
    ensures TransferStep(s, net, c, args, file)
         == Step(Answered(s, Verb(c) + args[1], code + " " + text).(hostPort := None, dataCon := None),
                 Threw(Ftp(DATA_CLOSE_FAILED)))
    ensures !TransferForgets(s, net, c, args, file)
  {
    FirstReply(s, net, Verb(c) + args[1], hp, code, text);
    LastLineOfReply(code, text);
  }

  /**
   * `stor` or `retr` with a reply of 150 (or 226, 250), a file, a copy that succeeds and a
   * second reply that is not an error: both replies are read and no data connection is left.
   */
  lemma {:induction false} TransferCompletes(s: Session, net: Net, c: DataCommand, args: seq<string>, name: string,
                                             hp: HostPort, code: string, text: string, code2: string, text2: string)
    requires c != Listing && |args| == 2 && s.connected && s.loggedIn && s.hostPort == Some(hp)
    requires net.writes && net.dataOpens && net.dataCloses && net.transfer == Copied
    requires |s.input| > 1 && s.input[0] == Some(code + " " + text) && s.input[1] == Some(code2 + " " + text2)
    requires |code| == 3 && AllDigits(code) && |code2| == 3 && AllDigits(code2)
    requires Action(c, code) == Proceed && (Action(c, code2) == Proceed || Action(c, code2) == Stop)
    ensures TransferStep(s, net, c, args, Some(name))
         == Step(s.(sent := s.sent + [Verb(c) + args[1] + "\r\n"], input := s.input[2..],
                    lastReply := Some(code2 + " " + text2), hostPort := None, dataCon := None),
                 Returned(()))
  {
    var cmd := Verb(c) + args[1];
    var o := Opened(s, cmd, hp, code + " " + text);
    ProceedTry(s, net, c, args[1], name, hp, code, text);
    assert o.input[0] == s.input[1];
    SecondReplyAccepted(o, net, c, code2, text2);
    assert o.input[1..] == s.input[2..];
    var t := TransferTry(s, net, c, args[1], Some(name));
    assert TransferGuards(s, args).None?;
    assert TransferCaught(t, net, Some(name)) == t;
  }

  /** A first reply that lets the transfer go on, and a copy that succeeds, lead to the second reply. */
  lemma {:induction false} ProceedTry(s: Session, net: Net, c: DataCommand, name: string, file: string,
                                      hp: HostPort, code: string, text: string)
    requires s.connected && s.hostPort == Some(hp) && net.writes && net.dataOpens && net.transfer == Copied
    requires |s.input| > 0 && s.input[0] == Some(code + " " + text) && |code| == 3 && AllDigits(code)
    requires Action(c, code) == Proceed
    ensures TransferTry(s, net, c, name, Some(file)) == AfterTransfer(Opened(s, Verb(c) + name, hp, code + " " + text), net, c)
  {
    FirstReply(s, net, Verb(c) + name, hp, code, text);
    LastLineOfReply(code, text);
  }

  /** After the copy, a second reply that is not an error closes the data connection and ends the transfer. */
  lemma {:induction false} SecondReplyAccepted(o: Session, net: Net, c: DataCommand, code2: string, text2: string)
    requires o.connected && net.dataCloses && o.dataCon.Some?
    requires |o.input| > 0 && o.input[0] == Some(code2 + " " + text2) && |code2| == 3 && AllDigits(code2)
    requires Action(c, code2) == Proceed || Action(c, code2) == Stop
    ensures AfterTransfer(o, net, c)
         == Step(o.(dataCon := None, input := o.input[1..], lastReply := Some(code2 + " " + text2)), Returned(()))
  {
    var d := o.(dataCon := None);
    OneLineReply(d, net, code2, text2);
    LastLineOfReply(code2, text2);
  }

  /**
   * `list` has no `finally`: a first reply of 125 or 425 throws with the data connection
   * still open, where `stor` and `retr` close theirs.
   */
  lemma {:induction false} ListLeavesDataOpen(s: Session, net: Net, hp: HostPort, code: string, text: string)
    requires s.connected && s.loggedIn && s.hostPort == Some(hp) && net.writes && net.dataOpens
    requires |s.input| > 0 && s.input[0] == Some(code + " " + text) && |code| == 3 && AllDigits(code)
    requires ListAction(code) == Unexpected || ListAction(code) == DataRefused
    ensures var l := ListStep(s, net, ["list"]);
            && l.s == Opened(s, "LIST", hp, code + " " + text)
            && l.out == Threw(Ftp(if code == "125" then DATA_ALREADY_OPEN else ConnectionFailure(hp.host, hp.port)))
  {
    var f := Ftp(if code == "125" then DATA_ALREADY_OPEN else ConnectionFailure(hp.host, hp.port));
    assert ListTry(s, net) == Step(Opened(s, "LIST", hp, code + " " + text), Threw(f)) by {
      ListTryRefused(s, net, hp, code, text);
    }
    assert ListGuards(s, ["list"]).None?;
  }

  /** The body of `list` when the first reply is a 125 or a 425: `handleCode` throws. */
  lemma {:induction false} ListTryRefused(s: Session, net: Net, hp: HostPort, code: string, text: string)
    requires s.connected && s.hostPort == Some(hp) && net.writes && net.dataOpens
    requires |s.input| > 0 && s.input[0] == Some(code + " " + text) && |code| == 3 && AllDigits(code)
    requires ListAction(code) == Unexpected || ListAction(code) == DataRefused
    ensures ListTry(s, net)
         == Step(Opened(s, "LIST", hp, code + " " + text),
                 Threw(Ftp(if code == "125" then DATA_ALREADY_OPEN else ConnectionFailure(hp.host, hp.port))))
  {
    FirstReply(s, net, "LIST", hp, code, text);
    LastLineOfReply(code, text);
  }

  /** The same replies to `stor` or `retr`: the `finally` block closes the data connection. */
  lemma {:induction false} TransferRefusedClosesData(s: Session, net: Net, c: DataCommand, args: seq<string>,
                                                     file: Option<string>, hp: HostPort, code: string, text: string)
    requires c != Listing && |args| == 2 && s.connected && s.loggedIn && s.hostPort == Some(hp)
    requires net.writes && net.dataOpens && net.dataCloses
    requires |s.input| > 0 && s.input[0] == Some(code + " " + text) && |code| == 3 && AllDigits(code)
    requires Action(c, code) == Unexpected || Action(c, code) == DataRefused
    ensures var t := TransferStep(s, net, c, args, file);
            && t.s == Answered(s, Verb(c) + args[1], code + " " + text).(hostPort := None, dataCon := None)
            && t.out == Threw(Ftp(if code == "125" then DATA_ALREADY_OPEN else ConnectionFailure(hp.host, hp.port)))
  {
    FirstReply(s, net, Verb(c) + args[1], hp, code, text);
    LastLineOfReply(code, text);
  }

  /** Whatever happens, `stor` and `retr` leave no data connection behind. */
  lemma {:induction false} TransferLeavesNoData(s: Session, net: Net, c: DataCommand, args: seq<string>, file: Option<string>)
    requires TransferGuards(s, args).None?
    ensures TransferStep(s, net, c, args, file).s.dataCon.None?
  {
    var t := TransferCaught(TransferTry(s, net, c, args[1], file), net, file);
    CloseDataClears(t.s, net);
  }

  lemma {:induction false} CloseDataClears(s: Session, net: Net)
    ensures CloseDataStep(s, net).s.dataCon.None?
    ensures CloseDataStep(s, net).s == s.(dataCon := None)
  {
  }

  // ---------------------------------------------------------------------------
  // The command table
  // ---------------------------------------------------------------------------

  /** The name each user command is registered under. */
  function NameOf(c: UserCommand): string
  {
    match c
    case OpenCommand => "open"
    case UserNameCommand => "user"
    case CloseCommand => "close"
    case QuitCommand => "quit"
    case DirCommand => "dir"
    case CwdCommand => "cd"
    case PutCommand => "put"
    case GetCommand => "get"
  }

  /** The lookup finds exactly the registered names, each for its own command. */
  lemma {:induction false} CommandTableRoundTrip(c: UserCommand, name: string)
    ensures CommandNamed(NameOf(c)) == Some(c)
    ensures CommandNamed(name) == Some(c) <==> name == NameOf(c)
  {
  }

  /** The commands the client issues itself (PASV, LIST, PASS, TYPE, STOR, RETR) are not user commands. */
  lemma {:induction false} InternalCommandsHidden()
    ensures CommandNamed("pasv") == None && CommandNamed("list") == None && CommandNamed("pass") == None
    ensures CommandNamed("type") == None && CommandNamed("stor") == None && CommandNamed("retr") == None
    ensures CommandNamed("OPEN") == None
  {
  }
}
