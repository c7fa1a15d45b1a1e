/**
 * The proxy's host ban filter (filter.c).  The ban file is read once into a
 * list of lowercased entries, one per line; a host is banned when one of
 * the entries occurs in its lowercased name.
 *
 * The file is given as its text (or None when it cannot be opened), and the
 * global `banlist` / `len_banlist` pair is the field `banlist` of a `Filter`.
 */
module BanFilter {
  import opened Common

  /** `tolower` in the C locale: only 'A'..'Z' change. */
  function ToLower(c: char): (d: char)
    ensures 'A' <= c <= 'Z' ==> d as int == c as int + 32
    ensures !('A' <= c <= 'Z') ==> d == c
    ensures d != '\0' <==> c != '\0'
    ensures !('A' <= d <= 'Z')
  {
    if 'A' <= c <= 'Z' then (c as int + 32) as char else c
  }

  /** Every character of s through `tolower`. */
  function LowerStr(s: string): (r: string)
    ensures |r| == |s| && forall i :: 0 <= i < |s| ==> r[i] == ToLower(s[i])
  {
    seq(|s|, i requires 0 <= i < |s| => ToLower(s[i]))
  }

  /** Lowercasing twice is lowercasing once. */
  lemma LowerIdempotent(s: string)
    ensures LowerStr(LowerStr(s)) == LowerStr(s)
  {
    assert forall i :: 0 <= i < |s| ==> ToLower(LowerStr(s)[i]) == LowerStr(s)[i];
  }

  /** The length of the C string held at the start of a. */
  function StrLenOf(a: seq<char>): (n: nat)
    ensures n <= |a| && NoNul(a[..n]) && (n < |a| ==> a[n] == '\0')
    decreases |a|
  {
    if |a| == 0 || a[0] == '\0' then 0
    else
      var n := 1 + StrLenOf(a[1..]);
      assert a[..n] == [a[0]] + a[1..][..n - 1];
      n
  }

  /** A buffer with a NUL at k has its C string end at k at the latest. */
  lemma {:induction false} StrLenAtMost(a: seq<char>, k: nat)
    requires k < |a| && a[k] == '\0'
    ensures StrLenOf(a) <= k
    decreases k
  {
    if k > 0 && a[0] != '\0' {
      assert a[1..][k - 1] == a[k];
      StrLenAtMost(a[1..], k - 1);
    }
  }

  /**
   * `to_lower_str`: lowercases the C string in the buffer in place, up to
   * its NUL, and leaves the rest of the buffer as it was.
   */
  method ToLowerStr(bans: array<char>)
    requires exists k :: 0 <= k < bans.Length && bans[k] == '\0'
    modifies bans
    ensures var n := StrLenOf(old(bans[..]));
            bans[..n] == LowerStr(old(bans[..n])) && bans[n..] == old(bans[n..])
  {
    ghost var n := StrLenOf(bans[..]);
    ghost var k :| 0 <= k < bans.Length && bans[k] == '\0';
    StrLenAtMost(bans[..], k);
    var f := 0;
    while bans[f] != '\0'
      invariant 0 <= f <= n < bans.Length && n == StrLenOf(old(bans[..])) && old(bans[n]) == '\0'
      invariant bans[..f] == LowerStr(old(bans[..f]))
      invariant bans[f..] == old(bans[f..])
      decreases n - f
    {
      assert old(bans[f]) == bans[f] by {
        assert bans[f..][0] == bans[f];
      }
      assert old(bans[..])[..n][f] == bans[f];
      bans[f] := ToLower(bans[f]);
      f := f + 1;
    }
  }

  // ---------------------------------------------------------------------------
  // read_filter_list
  // ---------------------------------------------------------------------------

  /** The size of the line buffer `fgets` fills: at most 102 characters and a NUL. */
  const LINE_BUFFER := 103

  /** What one `fgets` call takes from the text: through the first LF, at most 102 characters. */
  function Fgets(text: string): (piece: string)
    requires |text| > 0
    ensures 0 < |piece| <= LINE_BUFFER - 1 && IsPrefix(piece, text)
  {
    FgetsUpTo(text, LINE_BUFFER - 1)
  }

  /** At most m characters through the first LF. */
  function FgetsUpTo(text: string, m: nat): (piece: string)
    ensures |piece| <= m && IsPrefix(piece, text)
    ensures m > 0 && |text| > 0 ==> |piece| > 0
    ensures forall k :: 0 <= k < |piece| - 1 ==> piece[k] != '\n'
    ensures |piece| < m && |piece| < |text| ==> |piece| > 0 && piece[|piece| - 1] == '\n'
    decreases m
  {
    if m == 0 || |text| == 0 then []
    else if text[0] == '\n' then ['\n']
    else
      var rest := FgetsUpTo(text[1..], m - 1);
      assert IsPrefix([text[0]] + rest, text) by {
        assert text == [text[0]] + text[1..];
      }
      [text[0]] + rest
  }

  /** The C string `strlen` sees in a piece: the characters before its first NUL. */
  function CString(piece: string): (s: string)
    ensures IsPrefix(s, piece) && NoNul(s)
    ensures |s| < |piece| ==> piece[|s|] == '\0'
  {
    piece[..StrLenOf(piece)]
  }

  /** A piece without NUL is its own C string. */
  lemma CStringWhole(piece: string)
    requires NoNul(piece)
    ensures CString(piece) == piece
  {
  }

  /** A NUL after a NUL-free u ends the C string there. */
  lemma CStringCut(u: string, v: string)
    requires NoNul(u)
    ensures CString(u + ['\0'] + v) == u
  {
    StrLenCut(u, v);
    assert (u + ['\0'] + v)[..|u|] == u;
  }

  /** `strlen` of u NUL v is the length of a NUL-free u. */
  lemma {:induction false} StrLenCut(u: string, v: string)
    requires NoNul(u)
    ensures StrLenOf(u + ['\0'] + v) == |u|
    decreases |u|
  {
    var a := u + ['\0'] + v;
    if |u| > 0 {
      assert a[0] == u[0] && a[1..] == u[1..] + ['\0'] + v;
      StrLenCut(u[1..], v);
    }
  }

  /**
   * The entry kept from the C string of a line piece, corrected: a final LF
   * is cut off, and a CR before it (or before the last character) when
   * there is one; the empty string stays empty.
   */
  function Trim(piece: string): (entry: string)
    ensures IsPrefix(entry, piece) && |piece| - 2 <= |entry|
  {
    var n := |piece|;
    if n == 0 then piece
    else if n >= 2 && piece[n - 2] == '\r' then piece[..n - 2]
    else if piece[n - 1] == '\n' then piece[..n - 1]
    else piece
  }

  /**
   * The entry as written: the test for CR reads the byte two before the end
   * even for a C string of one byte (and the LF test the byte one before it
   * for an empty one), which lies before the buffer (None).
   */
  function TrimAsWritten(piece: string): (entry: Option<string>)
    ensures entry.None? <==> |piece| < 2
    ensures entry.Some? ==> entry.value == Trim(piece)
  {
    if |piece| < 2 then None else Some(Trim(piece))
  }

  /**
   * A blank line, a last line of one character, or a line starting with
   * NUL makes the as-written trim read before its buffer.
   */
  lemma BlankLineReadsBefore()
    ensures TrimAsWritten("\n") == None && TrimAsWritten("x") == None
    ensures TrimAsWritten(CString("\0x\n")) == None
    ensures Trim("\n") == "" && Trim("x") == "x"
  {
    CStringCut("", "x\n");
  }

  /**
   * The entries `read_filter_list` keeps from a text: one per `fgets` piece,
   * cut at its first NUL by `strlen`, trimmed and lowercased.
   */
  function Entries(text: string): (es: seq<string>)
    ensures |es| <= |text|
    decreases |text|
  {
    if |text| == 0 then []
    else
      var piece := Fgets(text);
      [LowerStr(Trim(CString(piece)))] + Entries(text[|piece|..])
  }

  /** The first entry of a text is that of its first piece, followed by the entries of the rest. */
  lemma EntriesFirst(text: string, piece: string, entry: string)
    requires |text| > 0 && piece == Fgets(text) && entry == LowerStr(Trim(CString(piece)))
    ensures Entries(text) == [entry] + Entries(text[|piece|..])
  {
  }

  /** The text of a file whose lines are ls, each ended by LF. */
  function Joined(ls: seq<string>): string
  {
    if |ls| == 0 then [] else ls[0] + "\n" + Joined(ls[1..])
  }

  /** A line without its CR at the end, if it has one. */
  function StripCr(l: string): (r: string)
    ensures IsPrefix(r, l) && |l| - 1 <= |r|
    ensures |r| < |l| <==> |l| > 0 && l[|l| - 1] == '\r'
  {
    if |l| > 0 && l[|l| - 1] == '\r' then l[..|l| - 1] else l
  }

  /** A line that fits one `fgets` call with its LF: no LF in it, at most 101 characters. */
  predicate FitsLine(l: string)
  {
    |l| <= LINE_BUFFER - 2 && '\n' !in l
  }

  /** A line that fits and holds no NUL, so that `strlen` sees all of it. */
  predicate PlainLine(l: string)
  {
    FitsLine(l) && '\0' !in l
  }

  /**
   * A file of lines that each fit the buffer gives one entry per line: the
   * line lowercased, less a CR at its end.
   */
  lemma {:induction false} EntriesOfLines(ls: seq<string>)
    requires forall i :: 0 <= i < |ls| ==> PlainLine(ls[i])
    ensures |Entries(Joined(ls))| == |ls|
    ensures forall i :: 0 <= i < |ls| ==> Entries(Joined(ls))[i] == LowerStr(StripCr(ls[i]))
    decreases |ls|
  {
    if |ls| > 0 {
      var l := ls[0];
      var text := Joined(ls);
      var piece := l + "\n";
      assert text == piece + Joined(ls[1..]);
      FgetsLine(l, Joined(ls[1..]));
      assert text[|piece|..] == Joined(ls[1..]);
      CStringWhole(piece);
      assert Trim(piece) == StripCr(l);
      EntriesOfLines(ls[1..]);
    }
  }

  /**
   * A NUL inside a line ends its entry: a line u NUL v, with u free of NUL
   * and CR, bans by u alone, whatever v holds.
   */
  lemma NulEndsEntry(u: string, v: string, rest: string)
    requires FitsLine(u + ['\0'] + v) && NoNul(u) && '\r' !in u
    ensures Entries(u + ['\0'] + v + "\n" + rest)[0] == LowerStr(u)
  {
    var l := u + ['\0'] + v;
    FgetsLine(l, rest);
    CStringCut(u, v + "\n");
    assert l + "\n" == u + ['\0'] + (v + "\n");
    assert u + ['\0'] + v + "\n" + rest == l + "\n" + rest;
  }

  /** `fgets` takes a line that fits, with its LF. */
  lemma FgetsLine(l: string, rest: string)
    requires FitsLine(l)
    ensures Fgets(l + "\n" + rest) == l + "\n"
  {
    FgetsUpToLine(l, rest, LINE_BUFFER - 1);
  }

  /** With room for the line and its LF, `fgets` stops right after the LF. */
  lemma {:induction false} FgetsUpToLine(l: string, rest: string, m: nat)
    requires |l| < m && '\n' !in l
    ensures FgetsUpTo(l + "\n" + rest, m) == l + "\n"
    decreases |l|
  {
    var text := l + "\n" + rest;
    if |l| > 0 {
      assert text[0] == l[0] && text[1..] == l[1..] + "\n" + rest;
      FgetsUpToLine(l[1..], rest, m - 1);
      assert [l[0]] + (l[1..] + "\n") == l + "\n";
    } else {
      assert text[0] == '\n';
    }
  }


  /** Some entry of the list occurs in the lowercased host name. */
  predicate BannedBy(banlist: seq<string>, host: string)
  {
    exists z :: 0 <= z < |banlist| && ContainsSub(LowerStr(host), banlist[z])
  }

  /** The state of filter.c: the ban list (`banlist[0 .. len_banlist)`). */
  class Filter {
    var banlist: seq<string>

    constructor ()
      ensures banlist == []
    {
      banlist := [];
    }

    /** The host is banned: some entry occurs in its lowercased name. */
    predicate Banned(host: string)
      reads this
    {
      BannedBy(banlist, host)
    }

    /**
     * `read_filter_list`: -1, with the list unchanged, when the file cannot
     * be opened; otherwise 0, with one entry per piece `fgets` returns.
     */
    method ReadFilterList(file: Option<string>) returns (r: int)
      modifies this
      ensures file.None? ==> r == -1 && banlist == old(banlist)
      ensures file.Some? ==> r == 0 && banlist == Entries(file.value)
    {
      if file.None? {
        return -1;
      }
      banlist := ReadEntries(file.value);
      r := 0;
    }

    /** The reading loop of `read_filter_list`: one entry per `fgets` piece until the end of the file. */
    static method ReadEntries(text: string) returns (list: seq<string>)
      ensures list == Entries(text)
    {
      list := [];
      var rest := text;
      while |rest| > 0
        invariant Entries(text) == list + Entries(rest)
        decreases |rest|
      {
        var piece := Fgets(rest);
        var entry := StoreEntry(piece);
        var next := rest[|piece|..];
        assert Entries(text) == (list + [entry]) + Entries(next) by {
          EntriesFirst(rest, piece, entry);
          assert list + ([entry] + Entries(next)) == (list + [entry]) + Entries(next);
        }
        list, rest := list + [entry], next;
      }
    }

    /**
     * The body of the reading loop: the piece in its own buffer, cut at its
     * first NUL, trimmed, then lowercased in place by `to_lower_str`.
     */
    static method StoreEntry(piece: string) returns (entry: string)
      ensures entry == LowerStr(Trim(CString(piece)))
    {
      var len := StrLenOf(piece);
      var kept := Trim(piece[..len]);
      assert NoNul(kept) by {
        assert forall k :: 0 <= k < |kept| ==> kept[k] == piece[..len][k];
      }
      var tempstore := new char[|kept| + 1](i requires 0 <= i <= |kept| => if i < |kept| then kept[i] else '\0');
      assert StrLenOf(tempstore[..]) == |kept| by {
        assert tempstore[..] == kept + ['\0'] + [];
        StrLenCut(kept, []);
      }
      ToLowerStr(tempstore);
      entry := tempstore[..|kept|];
    }

    /** `filter_host`: -1 when the host is banned, 0 otherwise. */
    method FilterHost(str: string) returns (r: int)
      requires NoNul(str)
      ensures r == -1 || r == 0
      ensures r == -1 <==> Banned(str)
    {
      var z := str + ['\0'];
      var lower := new char[|str| + 1];
      var c := 0;
      while z[c] != '\0'
        invariant 0 <= c <= |str|
        invariant lower[..c] == LowerStr(str[..c])
        decreases |str| - c
      {
        lower[c] := ToLower(z[c]);
        c := c + 1;
        assert lower[..c] == lower[..c - 1] + [lower[c - 1]];
      }
      assert c == |str|;
      assert str[..c] == str;
      lower[c] := '\0';
      var low := lower[..c];
      var k := 0;
      while k < |banlist|
        invariant 0 <= k <= |banlist|
        invariant forall j :: 0 <= j < k ==> !ContainsSub(low, banlist[j])
      {
        if ContainsSub(low, banlist[k]) {
          return -1;
        }
        k := k + 1;
      }
      return 0;
    }
  }

  /** An empty entry, from a blank line, occurs in every host name: it bans every host. */
  lemma EmptyEntryBansAll(f: Filter, host: string)
    requires "" in f.banlist
    ensures f.Banned(host)
  {
    var z :| 0 <= z < |f.banlist| && f.banlist[z] == "";
    assert OccursAt(LowerStr(host), "", 0);
  }

  /** Matching ignores case: hosts that differ only in case are banned alike. */
  lemma BanIgnoresCase(f: Filter, h1: string, h2: string)
    requires LowerStr(h1) == LowerStr(h2)
    ensures f.Banned(h1) <==> f.Banned(h2)
  {
  }

  /** A ban file line, in any case, bans every host whose name contains it in any case. */
  lemma LineBansHost(ls: seq<string>, i: nat, host: string)
    requires forall j :: 0 <= j < |ls| ==> PlainLine(ls[j])
    requires i < |ls| && '\r' !in ls[i] && ContainsSub(LowerStr(host), LowerStr(ls[i]))
    ensures exists z :: 0 <= z < |Entries(Joined(ls))| && ContainsSub(LowerStr(host), Entries(Joined(ls))[z])
  {
    EntriesOfLines(ls);
    assert StripCr(ls[i]) == ls[i];
    assert Entries(Joined(ls))[i] == LowerStr(ls[i]);
  }
}
