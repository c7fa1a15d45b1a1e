/**
 * The proxy's canned error responses: the table from a status code to the
 * response text and the byte count handed to the sender, and the loop that
 * pushes a message through `send`.
 *
 * `send` itself is the socket's: each call is modelled by the count it
 * returns, taken in order from a sequence (negative for an error, otherwise
 * the number of leading bytes of the offered buffer that went out).
 */
module ProxyResponse {
  import opened Common

  /**
   * The shape shared by every canned response: the status line with the
   * code and reason, an empty body announced by `Content-Length: 0`, any
   * extra header lines, and the blank line that ends the header block.
   */
  function StatusText(code: string, reason: string, extra: string): string
  {
    "HTTP/1.1 " + code + " " + reason + "\r\nContent-Length: 0\r\n" + extra + "\r\n"
  }

  const CODE_400: string := StatusText("400", "Bad Request", "")
  const CODE_400_LEN: nat := 47
  const CODE_403: string := StatusText("403", "Forbidden", "")
  const CODE_403_LEN: nat := 45
  const CODE_404: string := StatusText("404", "Not Found", "")
  const CODE_404_LEN: nat := 45
  const CODE_405: string := StatusText("405", "Method Not Allowed", "Accept: GET\r\n")
  const CODE_405_LEN: nat := 67
  const CODE_500: string := StatusText("500", "Internal Server Error", "")
  const CODE_500_LEN: nat := 57
  const CODE_502: string := StatusText("502", "Bad Gateway", "")
  const CODE_502_LEN: nat := 47
  const CODE_504: string := StatusText("504", "Gateway Timeout", "")
  const CODE_504_LEN: nat := 51

  /** The status line of a canned response carries its code, and the text ends with CRLF. */
  lemma StatusTextShape(code: string, reason: string, extra: string)
    requires |code| == 3
    ensures var t := StatusText(code, reason, extra);
            t[..9] == "HTTP/1.1 " && t[9..12] == code && t[|t| - 2..] == "\r\n"
  {
    var a := "HTTP/1.1 " + code;
    assert StatusText(code, reason, extra) == a + (" " + reason + "\r\nContent-Length: 0\r\n" + extra + "\r\n");
    assert a[..9] == "HTTP/1.1 " && a[9..12] == code;
  }

  /** A response text and the number of its bytes to send. */
  datatype Canned = Canned(text: string, len: nat)

  /**
   * The dispatch of `send_response` as written: the 4xx codes are looked up
   * only when the code starts with '4', the 5xx codes only when it starts
   * with '5'; "400" is paired with the length of the 404 text. An
   * unrecognised code falls off the end of the function with no value.
   */
  function CannedAsWritten(code: string): Option<Canned>
  {
    if |code| > 0 && code[0] == '4' then
      if code == "400" then Some(Canned(CODE_400, CODE_404_LEN))
      else if code == "403" then Some(Canned(CODE_403, CODE_403_LEN))
      else if code == "404" then Some(Canned(CODE_404, CODE_404_LEN))
      else if code == "405" then Some(Canned(CODE_405, CODE_405_LEN))
      else None
    else if |code| > 0 && code[0] == '5' then
      if code == "500" then Some(Canned(CODE_500, CODE_500_LEN))
      else if code == "502" then Some(Canned(CODE_502, CODE_502_LEN))
      else if code == "504" then Some(Canned(CODE_504, CODE_504_LEN))
      else None
    else None
  }

  /** The dispatch of `send_response` with "400" paired with its own length. */
  function CannedFor(code: string): Option<Canned>
  {
    if code == "400" then Some(Canned(CODE_400, CODE_400_LEN))
    else CannedAsWritten(code)
  }

  /** The recognised codes. */
  predicate Known(code: string)
  {
    code in ["400", "403", "404", "405", "500", "502", "504"]
  }

  /**
   * Every recognised code has a response whose status line carries that
   * code, and whose length constant is the length of the whole text; any
   * other code has none.
   */
  lemma CannedMatchesCode(code: string)
    ensures CannedFor(code).Some? <==> Known(code)
    ensures CannedFor(code).Some? ==>
              var c := CannedFor(code).value;
              c.len == |c.text| && c.text[..9] == "HTTP/1.1 " && c.text[9..12] == code
              && c.text[|c.text| - 2..] == "\r\n"
  {
    if code == "400" {
      StatusTextShape("400", "Bad Request", "");
    } else if code == "403" {
      StatusTextShape("403", "Forbidden", "");
    } else if code == "404" {
      StatusTextShape("404", "Not Found", "");
    } else if code == "405" {
      StatusTextShape("405", "Method Not Allowed", "Accept: GET\r\n");
    } else if code == "500" {
      StatusTextShape("500", "Internal Server Error", "");
    } else if code == "502" {
      StatusTextShape("502", "Bad Gateway", "");
    } else if code == "504" {
      StatusTextShape("504", "Gateway Timeout", "");
    }
  }

  /**
   * As written, "400" is sent with the 404 length: the last two bytes of the
   * text, the CRLF that ends the header block, are never sent.
   */
  lemma BadRequestTruncated()
    ensures var c := CannedAsWritten("400").value;
            c.len == |c.text| - 2 && c.text[c.len..] == "\r\n"
  {
    StatusTextShape("400", "Bad Request", "");
  }

  /** Apart from "400", the table as written is the corrected one. */
  lemma CannedAgree(code: string)
    requires code != "400"
    ensures CannedAsWritten(code) == CannedFor(code)
  {
  }

  // ---------------------------------------------------------------------------
  // Sending
  // ---------------------------------------------------------------------------

  /**
   * The send results ks end the loop that must push len bytes: some result
   * is negative, or the positive results reach len, within ks.
   */
  predicate Finishes(ks: seq<int>, len: int)
    decreases |ks|
  {
    |ks| > 0 && (ks[0] < 0 || ks[0] >= len || Finishes(ks[1..], len - ks[0]))
  }

  /** What goes out on the wire when every send offers msg from its start. */
  function Resent(msg: string, ks: seq<int>): (r: string)
    requires forall i :: 0 <= i < |ks| ==> ks[i] <= |msg|
    decreases |ks|
  {
    if |ks| == 0 then []
    else Resent(msg, ks[..|ks| - 1]) + (if ks[|ks| - 1] > 0 then msg[..ks[|ks| - 1]] else [])
  }

  /**
   * `res_send_message` as written: each call offers the message from its
   * start again, however much earlier calls sent. Returns -1 on a negative
   * result and 0 once the counts add up to len; `calls` is how many results
   * it used and `wire` the bytes that went out.
   */
  method ResSendMessageAsWritten(msg: string, len: nat, ks: seq<int>) returns (r: int, wire: string, calls: nat)
    requires len <= |msg| && Finishes(ks, len)
    requires forall i :: 0 <= i < |ks| ==> ks[i] <= len
    ensures calls <= |ks| && wire == Resent(msg, ks[..calls])
    ensures r == -1 <==> calls > 0 && ks[calls - 1] < 0
    ensures r == 0 || r == -1
  {
    var sent := 0;
    calls := 0;
    wire := [];
    while sent < len
      invariant calls <= |ks| && wire == Resent(msg, ks[..calls])
      invariant sent < len ==> Finishes(ks[calls..], len - sent)
      invariant forall i :: 0 <= i < calls ==> ks[i] >= 0
      decreases |ks| - calls
    {
      var k := ks[calls];
      assert ks[..calls + 1][..calls] == ks[..calls];
      calls := calls + 1;
      if k < 0 {
        return -1, wire, calls;
      }
      wire := wire + (if k > 0 then msg[..k] else []);
      sent := sent + k;
      assert ks[calls..] == ks[calls - 1..][1..];
    }
    r := 0;
  }

  /** `res_send_message` corrected: each call offers the bytes not yet sent. */
  method ResSendMessage(msg: string, len: nat, ks: seq<int>) returns (r: int, wire: string, calls: nat)
    requires len <= |msg| && Finishes(ks, len)
    ensures calls <= |ks|
    ensures r == -1 <==> calls > 0 && ks[calls - 1] < 0
    ensures r == 0 ==> wire == msg[..len]
    ensures r == -1 ==> IsPrefix(wire, msg[..len])
    ensures r == 0 || r == -1
  {
    var sent := 0;
    calls := 0;
    wire := [];
    while sent < len
      invariant calls <= |ks| && 0 <= sent <= len && wire == msg[..sent]
      invariant sent < len ==> Finishes(ks[calls..], len - sent)
      invariant forall i :: 0 <= i < calls ==> ks[i] >= 0
      decreases |ks| - calls
    {
      var k := ks[calls];
      calls := calls + 1;
      if k < 0 {
        assert msg[..len][..sent] == wire;
        return -1, wire, calls;
      }
      if k > len - sent {
        k := len - sent;
      }
      wire := wire + msg[sent..sent + k];
      assert ks[calls..] == ks[calls - 1..][1..];
      sent := sent + k;
    }
    r := 0;
  }

  /**
   * A partial send shows the difference: when the first call takes 10 bytes
   * of the 403 response and the second the remaining 35, the text as written
   * repeats the first 10 bytes and never sends the last 10.
   */
  lemma PartialSendRepeats()
    ensures Finishes([10, 35], CODE_403_LEN)
    ensures Resent(CODE_403, [10, 35]) == CODE_403[..10] + CODE_403[..35]
    ensures Resent(CODE_403, [10, 35]) != CODE_403[..CODE_403_LEN]
  {
    assert [10, 35][..1] == [10];
    assert [10][..0] == [];
    assert Resent(CODE_403, [10]) == CODE_403[..10];
    var w := Resent(CODE_403, [10, 35]);
    assert w == CODE_403[..10] + CODE_403[..35];
    StatusTextShape("403", "Forbidden", "");
    assert w[10] == CODE_403[0] == 'H';
    assert CODE_403[..CODE_403_LEN][10] == '0';
  }

  /**
   * `send_response`, sending through the corrected table and loop: a
   * recognised code's whole response goes out unless a send fails; an
   * unrecognised code sends nothing and has no result.
   */
  method SendResponse(code: string, ks: seq<int>) returns (r: Option<int>, wire: string)
    requires CannedFor(code).Some? ==> Finishes(ks, CannedFor(code).value.len)
    ensures r.Some? <==> Known(code)
    ensures r == Some(0) ==> wire == CannedFor(code).value.text
    ensures r.None? ==> wire == []
  {
    CannedMatchesCode(code);
    var canned := CannedFor(code);
    if canned.None? {
      return None, [];
    }
    var c := canned.value;
    var res, calls;
    res, wire, calls := ResSendMessage(c.text, c.len, ks);
    r := Some(res);
  }
}
