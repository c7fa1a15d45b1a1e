/**
 * The FTP client's error messages: a table of templates keyed by code, each
 * `%` in a template filled, left to right, by the next argument.
 */
module FtpMessages {
  import opened Common

  /** What an `FTPException` carries: a table code with its arguments, or a text of its own. */
  datatype Failure = Coded(code: int, args: seq<string>) | Plain(text: string)

  /**
   * The message table, one template per code. Each text is written in short
   * pieces (which keeps reasoning about its characters cheap); the pieces
   * join to exactly the client's text.
   */
  const MSG_900: string := "900 Invalid " + "command."
  const MSG_901: string := "901 Incorrect " + "number of " + "arguments."
  const MSG_902: string := "902 Invalid " + "argument."
  const MSG_903: string := "903 Supplied " + "command not " + "expected at " + "this time."
  const MSG_910: string := "910 Access to " + "local file " + "%" + " denied."
  const MSG_920: string := "920 Control " + "connection to " + "%" + " on port " + "%" + " failed to open."
  const MSG_925: string := "925 Control " + "connection I/O " + "error, closing " + "control " + "connection."
  const MSG_930: string := "930 Data " + "transfer " + "connection to " + "%" + " on port " + "%" + " failed to open."
  const MSG_935: string := "935 Data " + "transfer " + "connection I/O " + "error, closing " + "data connection."
  const MSG_998: string := "998 Input error " + "while reading " + "commands, " + "terminating."
  const MSG_999: string := "999 Processing " + "error. " + "%"

  /** The template for code; `None` for a code without an entry. */
  function Template(code: int): Option<string>
  {
    if code == 900 then Some(MSG_900)
    else if code == 901 then Some(MSG_901)
    else if code == 902 then Some(MSG_902)
    else if code == 903 then Some(MSG_903)
    else if code == 910 then Some(MSG_910)
    else if code == 920 then Some(MSG_920)
    else if code == 925 then Some(MSG_925)
    else if code == 930 then Some(MSG_930)
    else if code == 935 then Some(MSG_935)
    else if code == 998 then Some(MSG_998)
    else if code == 999 then Some(MSG_999)
    else None
  }

  /** The number of `%` placeholders in t. */
  function Placeholders(t: string): nat
  {
    if |t| == 0 then 0 else (if t[0] == '%' then 1 else 0) + Placeholders(t[1..])
  }

  /** The position of the first c in m. */
  function IndexOf(m: string, c: char): (i: nat)
    requires c in m
    ensures i < |m| && m[i] == c
    ensures forall j :: 0 <= j < i ==> m[j] != c
  {
    if m[0] == c then 0
    else
      assert c in m[1..] by { var j :| 0 <= j < |m| && m[j] == c; assert m[1..][j - 1] == c; }
      1 + IndexOf(m[1..], c)
  }

  /** `m.replaceFirst("%", arg)`, with arg taken literally. */
  function ReplaceFirst(m: string, arg: string): (r: string)
    requires '%' in m
  {
    var i := IndexOf(m, '%');
    m[..i] + arg + m[i + 1..]
  }

  /**
   * The template loop: while m still holds a `%`, the first one is replaced
   * by the next argument. `None` when the arguments run out first (an index
   * out of bounds in the client).
   */
  function Substitute(m: string, args: seq<string>): (r: Option<string>)
    ensures r.Some? ==> '%' !in r.value
    decreases |args|
  {
    if '%' !in m then Some(m)
    else if |args| == 0 then None
    else Substitute(ReplaceFirst(m, args[0]), args[1..])
  }

  /** The message for code with args; `None` for an unknown code or too few arguments. */
  function Message(code: int, args: seq<string>): Option<string>
  {
    match Template(code)
    case None => None
    case Some(t) => Substitute(t, args)
  }

  /** `createMessage`: the template looked up, then filled by the loop of `Substitute`. */
  method CreateMessage(code: int, args: seq<string>) returns (r: Option<string>)
    ensures r == Message(code, args)
    ensures r.Some? ==> '%' !in r.value
  {
    var t := Template(code);
    if t.None? {
      return None;
    }
    var m := t.value;
    var i := 0;
    while '%' in m
      invariant 0 <= i <= |args|
      invariant Substitute(m, args[i..]) == Message(code, args)
      decreases |args| - i
    {
      if i == |args| {
        return None;
      }
      assert args[i..][1..] == args[i + 1..];
      m := ReplaceFirst(m, args[i]);
      i := i + 1;
    }
    return Some(m);
  }

  /** Replacing the first `%` of a + "%" + b, where a holds none, puts x in its place. */
  lemma ReplaceAfterPlain(a: string, b: string, x: string)
    requires '%' !in a
    ensures '%' in a + "%" + b
    ensures ReplaceFirst(a + "%" + b, x) == a + x + b
  {
    var m := a + "%" + b;
    assert m[|a|] == '%';
    var i := IndexOf(m, '%');
    assert m[..i] == a && m[i + 1..] == b;
  }

  // ---------------------------------------------------------------------------
  // An independent reading of a template: placeholders filled in one pass
  // ---------------------------------------------------------------------------

  /** o with a in front of its text. */
  function Prepend(a: string, o: Option<string>): Option<string>
  {
    match o
    case None => None
    case Some(x) => Some(a + x)
  }

  /** t with its placeholders filled, in one left-to-right pass, by args. */
  function Fill(t: string, args: seq<string>): Option<string>
    decreases |t|
  {
    if |t| == 0 then Some("")
    else if t[0] == '%' then
      if |args| == 0 then None else Prepend(args[0], Fill(t[1..], args[1..]))
    else Prepend([t[0]], Fill(t[1..], args))
  }

  predicate NoPlaceholder(args: seq<string>)
  {
    forall i :: 0 <= i < |args| ==> '%' !in args[i]
  }

  /** A one-pass fill succeeds exactly when there are enough arguments. */
  lemma {:induction false} FillDefined(t: string, args: seq<string>)
    ensures Fill(t, args).Some? <==> Placeholders(t) <= |args|
    decreases |t|
  {
    if |t| > 0 {
      if t[0] == '%' {
        if |args| > 0 {
          FillDefined(t[1..], args[1..]);
        }
      } else {
        FillDefined(t[1..], args);
      }
    }
  }

  lemma PrependTwice(a: string, x: string, o: Option<string>)
    ensures Prepend(a + x, o) == Prepend(a, Prepend(x, o))
  {
    if o.Some? {
      assert a + x + o.value == a + (x + o.value);
    }
  }

  /** Text without placeholders is copied ahead of what follows it. */
  lemma {:induction false} FillPlain(a: string, b: string, args: seq<string>)
    requires '%' !in a
    ensures Fill(a + b, args) == Prepend(a, Fill(b, args))
    decreases |a|
  {
    if |a| == 0 {
      assert a + b == b;
      if Fill(b, args).Some? {
        assert a + Fill(b, args).value == Fill(b, args).value;
      }
    } else {
      assert (a + b)[0] == a[0] && (a + b)[1..] == a[1..] + b;
      assert a[0] in a;
      assert '%' !in a[1..] by {
        forall j | 0 <= j < |a[1..]| ensures a[1..][j] != '%' {
          assert a[1..][j] == a[j + 1];
        }
      }
      FillPlain(a[1..], b, args);
      PrependTwice([a[0]], a[1..], Fill(b, args));
      assert [a[0]] + a[1..] == a;
    }
  }

  /** The one-pass fill of a + "%" + b, where a holds no placeholder. */
  lemma FillAtHole(a: string, b: string, args: seq<string>)
    requires '%' !in a && |args| > 0
    ensures Fill(a + "%" + b, args) == Prepend(a + args[0], Fill(b, args[1..]))
  {
    assert a + "%" + b == a + ("%" + b);
    FillPlain(a, "%" + b, args);
    assert ("%" + b)[0] == '%' && ("%" + b)[1..] == b;
    PrependTwice(a, args[0], Fill(b, args[1..]));
  }

  lemma NoPlaceholderRest(args: seq<string>)
    requires NoPlaceholder(args) && |args| > 0
    ensures '%' !in args[0] && NoPlaceholder(args[1..])
  {
    forall j | 0 <= j < |args[1..]| ensures '%' !in args[1..][j] {
      assert args[1..][j] == args[j + 1];
    }
  }

  /**
   * With arguments free of `%`, the replace-first loop fills the template
   * exactly as one left-to-right pass does.
   */
  lemma {:induction false} SubstituteIsFill(t: string, args: seq<string>)
    requires NoPlaceholder(args)
    ensures Substitute(t, args) == Fill(t, args)
    decreases |args|
  {
    if '%' !in t {
      assert t + "" == t;
      FillPlain(t, "", args);
      assert t + "" == t;
    } else {
      var i := IndexOf(t, '%');
      var a, b := t[..i], t[i + 1..];
      assert t == a + "%" + b;
      if |args| == 0 {
        assert Fill(t, args) == Prepend(a, Fill("%" + b, args)) by {
          assert a + "%" + b == a + ("%" + b);
          FillPlain(a, "%" + b, args);
        }
      } else {
        NoPlaceholderRest(args);
        ReplaceAfterPlain(a, b, args[0]);
        assert '%' !in a + args[0];
        SubstituteIsFill(a + args[0] + b, args[1..]);
        FillPlain(a + args[0], b, args[1..]);
        FillAtHole(a, b, args);
      }
    }
  }

  /** With arguments free of `%`, the message is defined exactly when there are enough of them. */
  lemma MessageNeedsEveryArgument(code: int, args: seq<string>)
    requires Template(code).Some? && NoPlaceholder(args)
    ensures Message(code, args).Some? <==> Placeholders(Template(code).value) <= |args|
  {
    SubstituteIsFill(Template(code).value, args);
    FillDefined(Template(code).value, args);
  }

  lemma {:induction false} PlaceholdersAppend(a: string, b: string)
    ensures Placeholders(a + b) == Placeholders(a) + Placeholders(b)
    decreases |a|
  {
    if |a| == 0 {
      assert a + b == b;
    } else {
      assert (a + b)[1..] == a[1..] + b;
      PlaceholdersAppend(a[1..], b);
    }
  }

  lemma {:induction false} NoHole(a: string)
    requires '%' !in a
    ensures Placeholders(a) == 0
    decreases |a|
  {
    if |a| > 0 {
      assert a[0] in a;
      assert forall c :: c in a[1..] ==> c in a;
      NoHole(a[1..]);
    }
  }

  lemma OneHole(a: string, e: string)
    requires '%' !in a && '%' !in e
    ensures Placeholders(a + "%" + e) == 1
  {
    PlaceholdersAppend(a + "%", e);
    PlaceholdersAppend(a, "%");
    NoHole(a);
    NoHole(e);
  }

  lemma TwoHoles(a: string, c: string, e: string)
    requires '%' !in a && '%' !in c && '%' !in e
    ensures Placeholders(a + "%" + c + "%" + e) == 2
  {
    PlaceholdersAppend(a + "%" + c + "%", e);
    PlaceholdersAppend(a + "%" + c, "%");
    PlaceholdersAppend(a + "%", c);
    OneHole(a, "");
    assert a + "%" + "" == a + "%";
    NoHole(c);
    NoHole(e);
  }

  /** The codes that take arguments: 910 and 999 one each, 920 and 930 two each. */
  lemma PlaceholderCounts(code: int)
    requires Template(code).Some?
    ensures Placeholders(Template(code).value)
            == (if code == 910 || code == 999 then 1 else if code == 920 || code == 930 then 2 else 0)
  {
    if code == 900 {
      Holes900();
    } else if code == 901 {
      Holes901();
    } else if code == 902 {
      Holes902();
    } else if code == 903 {
      Holes903();
    } else if code == 910 {
      Holes910();
    } else if code == 920 {
      Holes920();
    } else if code == 925 {
      Holes925();
    } else if code == 930 {
      Holes930();
    } else if code == 935 {
      Holes935();
    } else if code == 998 {
      Holes998();
    } else {
      Holes999();
    }
  }

  /** Every template opens with its own code and a space. */
  lemma TemplateStartsWithCode(code: int)
    requires Template(code).Some?
    ensures 900 <= code <= 999 && |Template(code).value| > 4
    ensures Template(code).value[..3] == NatToDecimal(code) && Template(code).value[3] == ' '
  {
    if code == 900 {
      Heads900();
    } else if code == 901 {
      Heads901();
    } else if code == 902 {
      Heads902();
    } else if code == 903 {
      Heads903();
    } else if code == 910 {
      Heads910();
    } else if code == 920 {
      Heads920();
    } else if code == 925 {
      Heads925();
    } else if code == 930 {
      Heads930();
    } else if code == 935 {
      Heads935();
    } else if code == 998 {
      Heads998();
    } else {
      Heads999();
    }
  }

  lemma Heads900()
    ensures Template(900) == Some(MSG_900) && |MSG_900| > 4
    ensures MSG_900[..3] == NatToDecimal(900) && MSG_900[3] == ' '
  {
    assert MSG_900[..4] == "900 ";
  }

  lemma Heads901()
    ensures Template(901) == Some(MSG_901) && |MSG_901| > 4
    ensures MSG_901[..3] == NatToDecimal(901) && MSG_901[3] == ' '
  {
    assert MSG_901[..4] == "901 ";
  }

  lemma Heads902()
    ensures Template(902) == Some(MSG_902) && |MSG_902| > 4
    ensures MSG_902[..3] == NatToDecimal(902) && MSG_902[3] == ' '
  {
    assert MSG_902[..4] == "902 ";
  }

  lemma Heads903()
    ensures Template(903) == Some(MSG_903) && |MSG_903| > 4
    ensures MSG_903[..3] == NatToDecimal(903) && MSG_903[3] == ' '
  {
    assert MSG_903[..4] == "903 ";
  }

  lemma Heads910()
    ensures Template(910) == Some(MSG_910) && |MSG_910| > 4
    ensures MSG_910[..3] == NatToDecimal(910) && MSG_910[3] == ' '
  {
    assert MSG_910[..4] == "910 ";
  }

  lemma Heads920()
    ensures Template(920) == Some(MSG_920) && |MSG_920| > 4
    ensures MSG_920[..3] == NatToDecimal(920) && MSG_920[3] == ' '
  {
    assert MSG_920[..4] == "920 ";
  }

  lemma Heads925()
    ensures Template(925) == Some(MSG_925) && |MSG_925| > 4
    ensures MSG_925[..3] == NatToDecimal(925) && MSG_925[3] == ' '
  {
    assert MSG_925[..4] == "925 ";
  }

  lemma Heads930()
    ensures Template(930) == Some(MSG_930) && |MSG_930| > 4
    ensures MSG_930[..3] == NatToDecimal(930) && MSG_930[3] == ' '
  {
    assert MSG_930[..4] == "930 ";
  }

  lemma Heads935()
    ensures Template(935) == Some(MSG_935) && |MSG_935| > 4
    ensures MSG_935[..3] == NatToDecimal(935) && MSG_935[3] == ' '
  {
    assert MSG_935[..4] == "935 ";
  }

  lemma Heads998()
    ensures Template(998) == Some(MSG_998) && |MSG_998| > 4
    ensures MSG_998[..3] == NatToDecimal(998) && MSG_998[3] == ' '
  {
    assert MSG_998[..4] == "998 ";
  }

  lemma Heads999()
    ensures Template(999) == Some(MSG_999) && |MSG_999| > 4
    ensures MSG_999[..3] == NatToDecimal(999) && MSG_999[3] == ' '
  {
    assert MSG_999[..4] == "999 ";
  }

  lemma Holes900()
    ensures Placeholders(MSG_900) == 0
  {
    NoHole(MSG_900);
  }

  lemma Holes901()
    ensures Placeholders(MSG_901) == 0
  {
    NoHole(MSG_901);
  }

  lemma Holes902()
    ensures Placeholders(MSG_902) == 0
  {
    NoHole(MSG_902);
  }

  lemma Holes903()
    ensures Placeholders(MSG_903) == 0
  {
    NoHole(MSG_903);
  }

  lemma Holes910()
    ensures Placeholders(MSG_910) == 1
  {
    OneHole("910 Access to " + "local file ", " denied.");
  }

  lemma Holes920()
    ensures Placeholders(MSG_920) == 2
  {
    TwoHoles("920 Control " + "connection to ", " on port ", " failed to open.");
  }

  lemma Holes925()
    ensures Placeholders(MSG_925) == 0
  {
    NoHole(MSG_925);
  }

  lemma Holes930()
    ensures Placeholders(MSG_930) == 2
  {
    TwoHoles("930 Data " + "transfer " + "connection to ", " on port ", " failed to open.");
  }

  lemma Holes935()
    ensures Placeholders(MSG_935) == 0
  {
    NoHole(MSG_935);
  }

  lemma Holes998()
    ensures Placeholders(MSG_998) == 0
  {
    NoHole(MSG_998);
  }

  lemma Holes999()
    ensures Placeholders(MSG_999) == 1
  {
    OneHole("999 Processing " + "error. ", "");
    assert MSG_999 == "999 Processing " + "error. " + "%" + "";
  }

  lemma Regroup(p: string, q: string, r: string)
    ensures p + (q + r) == p + q + r
  {
  }

  /** The first step of the template loop on a + "%" + e, where a holds no placeholder. */
  lemma SubstituteFirst(a: string, e: string, x: string, rest: seq<string>)
    requires '%' !in a
    ensures Substitute(a + "%" + e, [x] + rest) == Substitute(a + x + e, rest)
  {
    ReplaceAfterPlain(a, e, x);
    assert ([x] + rest)[0] == x && ([x] + rest)[1..] == rest;
  }

  /** The first of two placeholders takes the first argument. */
  lemma SubstituteTwoFirst(a: string, c: string, e: string, x: string, y: string)
    requires '%' !in a && '%' !in c
    ensures Substitute(a + "%" + c + "%" + e, [x, y]) == Substitute(a + x + c + "%" + e, [y])
  {
    Regroup(a + "%", c + "%", e);
    Regroup(a + "%", c, "%");
    SubstituteFirst(a, c + "%" + e, x, [y]);
    Regroup(a + x, c + "%", e);
    Regroup(a + x, c, "%");
    assert [x] + [y] == [x, y];
  }

  /** A template with two placeholders and two arguments free of `%`. */
  lemma SubstituteTwo(a: string, c: string, e: string, x: string, y: string)
    requires '%' !in a && '%' !in c && '%' !in e && '%' !in x && '%' !in y
    ensures Substitute(a + "%" + c + "%" + e, [x, y]) == Some(a + x + c + y + e)
  {
    SubstituteTwoFirst(a, c, e, x, y);
    SubstituteFirst(a + x + c, e, y, []);
    assert [y] + [] == [y];
  }

  /** The connection failure reads as its template with host and port in place. */
  lemma ConnectionFailureMessage(host: string, port: string)
    requires '%' !in host && '%' !in port
    ensures Message(920, [host, port])
            == Some("920 Control " + "connection to " + host + " on port " + port + " failed to open.")
  {
    SubstituteTwo("920 Control " + "connection to ", " on port ", " failed to open.", host, port);
  }

  /** A `%` inside an argument is a placeholder for the next argument. */
  lemma PercentArgumentTakesNext(a: string, u: string, x: string)
    requires '%' !in a && '%' !in u && '%' !in x
    ensures Substitute(a + "%" + "", [u + "%", x]) == Some(a + u + x)
  {
    assert Substitute(a + "%" + "", [u + "%", x]) == Substitute(a + u + "%" + "", [x]) by {
      SubstituteFirst(a, "", u + "%", [x]);
      assert [u + "%"] + [x] == [u + "%", x];
      assert a + (u + "%") + "" == a + u + "%" + "";
    }
    assert Substitute(a + u + "%" + "", [x]) == Some(a + u + x) by {
      SubstituteFirst(a + u, "", x, []);
      assert [x] + [] == [x];
      assert a + u + x + "" == a + u + x;
    }
  }

  /** A `%` inside the last argument is left without an argument, so substitution fails. */
  lemma PercentArgumentUnfilled(a: string, u: string)
    requires '%' !in a && '%' !in u
    ensures Substitute(a + "%" + "", [u + "%"]) == None
  {
    assert Substitute(a + "%" + "", [u + "%"]) == Substitute(a + u + "%" + "", []) by {
      SubstituteFirst(a, "", u + "%", []);
      assert [u + "%"] + [] == [u + "%"];
      assert a + (u + "%") + "" == a + u + "%" + "";
    }
    assert (a + u + "%" + "")[|a + u|] == '%';
  }

  /** An argument holding `%` is itself substituted: its `%` takes the next argument. */
  lemma PercentInArgumentSubstitutedAgain(u: string, x: string)
    requires '%' !in u && '%' !in x
    ensures Message(999, [u + "%", x]) == Some("999 Processing " + "error. " + u + x)
  {
    var a := "999 Processing " + "error. ";
    assert Message(999, [u + "%", x]) == Substitute(a + "%" + "", [u + "%", x]) by {
      Heads999();
      assert MSG_999 == a + "%" + "";
    }
    assert '%' !in a;
    PercentArgumentTakesNext(a, u, x);
  }

  /** When no argument follows, a `%` inside an argument makes the message fail. */
  lemma PercentInLastArgumentFails(u: string)
    requires '%' !in u
    ensures Message(999, [u + "%"]) == None
  {
    var a := "999 Processing " + "error. ";
    assert Message(999, [u + "%"]) == Substitute(a + "%" + "", [u + "%"]) by {
      Heads999();
      assert MSG_999 == a + "%" + "";
    }
    assert '%' !in a;
    PercentArgumentUnfilled(a, u);
  }
}
