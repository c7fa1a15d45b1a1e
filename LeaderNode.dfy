/**
 * The leader record of the replicated key-value nodes: its text form as
 * stored under the leader key, the order that decides which of two leader
 * records is newer, and the two helpers on node id lists.
 */
module LeaderNode {
  import opened Common
  import opened GoText

  /** A leader record; Era, Nonce and Version are Go `uint64`. */
  datatype LeaderVal = LeaderVal(era: nat, nonce: nat, version: nat, id: string, nodes: seq<string>)

  predicate WellTyped(l: LeaderVal)
  {
    IsUInt64(l.era) && IsUInt64(l.nonce) && IsUInt64(l.version)
  }

  /** `strconv.FormatUint(n, 10)`: parsing the text back at 64 bits gives n. */
  function UInt64ToStr(n: nat): (r: string)
    requires IsUInt64(n)
    ensures |r| > 0 && AllDigits(r)
    ensures ParseUint(r, MAX_UINT64) == n
  {
    ParseFormatUint(n, MAX_UINT64);
    NatToDecimal(n)
  }

  /** "Era Nonce Version Id n1 n2 ..."; with no nodes the text ends in a space. */
  function LeaderValToString(l: LeaderVal): (r: string)
    requires WellTyped(l)
  {
    UInt64ToStr(l.era) + " " + UInt64ToStr(l.nonce) + " " + UInt64ToStr(l.version) + " " + l.id + " " + Join(l.nodes, ' ')
  }

  /**
   * The parser: split at every space, read the first three fields as
   * numbers (0 when unparsable), the fourth as the id and the rest as the
   * nodes, unless the fifth is empty.  Fewer than five fields index out of
   * range in Go, which the model reports as None.
   */
  function StringToLeaderVal(s: string): (r: Option<LeaderVal>)
    ensures r.Some? ==> WellTyped(r.value)
  {
    var fields := Split(s, ' ');
    if |fields| < 5 then None
    else
      var era := ParseUint(fields[0], MAX_UINT64);
      var nonce := ParseUint(fields[1], MAX_UINT64);
      var pong := ParseUint(fields[2], MAX_UINT64);
      if fields[4] == "" then Some(LeaderVal(era, nonce, pong, fields[3], []))
      else Some(LeaderVal(era, nonce, pong, fields[3], fields[4..]))
  }

  lemma DigitsHaveNoSpace(s: string)
    requires AllDigits(s)
    ensures ' ' !in s
  {
    assert forall i :: 0 <= i < |s| ==> s[i] != ' ';
  }

  /** A first field without a space splits off on its own. */
  lemma SplitField(a: string, rest: string)
    requires ' ' !in a
    ensures Split(a + [' '] + rest, ' ') == [a] + Split(rest, ' ')
  {
    SplitAt(a, ' ', rest);
    SplitWhole(a, ' ');
  }

  /** The text form read as one field and a separator followed by the rest. */
  lemma LeaderTextShape(l: LeaderVal)
    requires WellTyped(l)
    ensures LeaderValToString(l)
         == UInt64ToStr(l.era) + [' '] + (UInt64ToStr(l.nonce) + [' '] + (UInt64ToStr(l.version) + [' '] + (l.id + [' '] + Join(l.nodes, ' '))))
  {
  }

  /** The fields of the text form, as `strings.Split` sees them. */
  lemma LeaderFields(l: LeaderVal)
    requires WellTyped(l) && ' ' !in l.id
    ensures Split(LeaderValToString(l), ' ')
         == [UInt64ToStr(l.era), UInt64ToStr(l.nonce), UInt64ToStr(l.version), l.id] + Split(Join(l.nodes, ' '), ' ')
  {
    var e, n, v := UInt64ToStr(l.era), UInt64ToStr(l.nonce), UInt64ToStr(l.version);
    var j := Join(l.nodes, ' ');
    var tail3 := l.id + [' '] + j;
    var tail2 := v + [' '] + tail3;
    var tail1 := n + [' '] + tail2;
    LeaderTextShape(l);
    DigitsHaveNoSpace(e);
    DigitsHaveNoSpace(n);
    DigitsHaveNoSpace(v);
    calc {
      Split(LeaderValToString(l), ' ');
      Split(e + [' '] + tail1, ' ');
      { SplitField(e, tail1); }
      [e] + Split(tail1, ' ');
      { SplitField(n, tail2); }
      [e] + ([n] + Split(tail2, ' '));
      { SplitField(v, tail3); }
      [e] + ([n] + ([v] + Split(tail3, ' ')));
      { SplitField(l.id, j); }
      [e] + ([n] + ([v] + ([l.id] + Split(j, ' '))));
      [e, n, v, l.id] + Split(j, ' ');
    }
  }

  /**
   * The parser inverts the printer when the id and the nodes contain no
   * space and the first node (if any) is non-empty.
   */
  lemma StringToLeaderValRoundTrip(l: LeaderVal)
    requires WellTyped(l) && ' ' !in l.id
    requires forall i :: 0 <= i < |l.nodes| ==> ' ' !in l.nodes[i]
    requires l.nodes == [] || l.nodes[0] != ""
    ensures StringToLeaderVal(LeaderValToString(l)) == Some(l)
  {
    LeaderFields(l);
    if l.nodes != [] {
      SplitJoin(l.nodes, ' ');
    }
  }

  /** With no nodes the printed text ends in a space, and it still parses back. */
  lemma NoNodesEndsInSpace(l: LeaderVal)
    requires WellTyped(l) && l.nodes == []
    ensures LeaderValToString(l)[|LeaderValToString(l)| - 1] == ' '
  {
  }

  /** Text with fewer than five space-separated fields has no leader record. */
  lemma TooFewFields(s: string)
    requires |Split(s, ' ')| < 5
    ensures StringToLeaderVal(s).None?
  {
  }

  /** A first node that is empty loses all the nodes. */
  lemma EmptyFirstNodeDropsNodes(l: LeaderVal)
    requires WellTyped(l) && ' ' !in l.id && |l.nodes| >= 1 && l.nodes[0] == ""
    requires forall i :: 0 <= i < |l.nodes| ==> ' ' !in l.nodes[i]
    ensures StringToLeaderVal(LeaderValToString(l)) == Some(l.(nodes := []))
  {
    LeaderFields(l);
    SplitJoin(l.nodes, ' ');
  }

  // ---------------------------------------------------------------------------
  // Which leader is newer
  // ---------------------------------------------------------------------------

  /**
   * `compareLeaders`: positive when a is newer than b.  A higher era is
   * newer; at equal eras a lower nonce is newer; at equal nonces a higher
   * version is newer.  Id and nodes play no part.
   */
  function CompareLeaders(a: LeaderVal, b: LeaderVal): (r: int)
    ensures r == -1 || r == 0 || r == 1
    ensures r == 0 <==> (a.era == b.era && a.nonce == b.nonce && a.version == b.version)
  {
    if a.era < b.era then -1
    else if a.era > b.era then 1
    else if a.nonce < b.nonce then 1
    else if a.nonce > b.nonce then -1
    else if a.version < b.version then -1
    else if a.version > b.version then 1
    else 0
  }

  /** Lexicographic comparison of two keys of equal length, the reference definition of the order. */
  function LexCompare(x: seq<int>, y: seq<int>): (r: int)
    requires |x| == |y|
    decreases |x|
  {
    if |x| == 0 then 0
    else if x[0] < y[0] then -1
    else if x[0] > y[0] then 1
    else LexCompare(x[1..], y[1..])
  }

  /** The rank key of a leader record: the nonce counts backwards. */
  function RankKey(l: LeaderVal): seq<int>
  {
    [l.era as int, -(l.nonce as int), l.version as int]
  }

  function CompareNat(p: nat, q: nat): int
  {
    if p < q then -1 else if p > q then 1 else 0
  }

  /** `compareLeaders` is the lexicographic order on (era, -nonce, version). */
  lemma CompareIsLexicographic(a: LeaderVal, b: LeaderVal)
    ensures CompareLeaders(a, b) == LexCompare(RankKey(a), RankKey(b))
  {
    var x, y := RankKey(a), RankKey(b);
    assert x[1..] == [-(a.nonce as int), a.version as int] && y[1..] == [-(b.nonce as int), b.version as int];
    assert x[1..][1..] == [a.version as int] && y[1..][1..] == [b.version as int];
    assert LexCompare(x[1..][1..], y[1..][1..]) == CompareNat(a.version, b.version);
  }

  lemma CompareAntisymmetric(a: LeaderVal, b: LeaderVal)
    ensures CompareLeaders(a, b) == -CompareLeaders(b, a)
  {
  }

  lemma CompareReflexive(a: LeaderVal)
    ensures CompareLeaders(a, a) == 0
  {
  }

  lemma CompareTransitive(a: LeaderVal, b: LeaderVal, c: LeaderVal)
    requires CompareLeaders(a, b) > 0 && CompareLeaders(b, c) > 0
    ensures CompareLeaders(a, c) > 0
  {
  }

  /** Records that differ only in id and nodes rank the same against every other record. */
  lemma CompareIgnoresIdAndNodes(a: LeaderVal, b: LeaderVal, id: string, nodes: seq<string>)
    ensures CompareLeaders(a.(id := id, nodes := nodes), b) == CompareLeaders(a, b)
  {
  }

  // ---------------------------------------------------------------------------
  // Node id lists
  // ---------------------------------------------------------------------------

  /** `hasId`: the linear search finds id exactly when it is in the list. */
  function HasId(ids: seq<string>, id: string): (b: bool)
    ensures b <==> id in ids
    decreases |ids|
  {
    if |ids| == 0 then false
    else if ids[0] == id then true
    else
      assert ids == [ids[0]] + ids[1..];
      HasId(ids[1..], id)
  }

  /** The list with its first occurrence of id removed, the reference for `removeId`. */
  function RemoveFirst(ids: seq<string>, id: string): (r: seq<string>)
    decreases |ids|
  {
    if |ids| == 0 then []
    else if ids[0] == id then ids[1..]
    else [ids[0]] + RemoveFirst(ids[1..], id)
  }

  /** Removing the first occurrence at index i splices it out of the list. */
  lemma {:induction false} RemoveFirstAt(ids: seq<string>, id: string, i: nat)
    requires i < |ids| && ids[i] == id && id !in ids[..i]
    ensures RemoveFirst(ids, id) == ids[..i] + ids[i + 1..]
    decreases i
  {
    if i > 0 {
      assert ids[1..][..i - 1] == ids[1..i];
      RemoveFirstAt(ids[1..], id, i - 1);
    }
  }

  /** Without an occurrence the list is returned as it was. */
  lemma {:induction false} RemoveFirstAbsent(ids: seq<string>, id: string)
    requires id !in ids
    ensures RemoveFirst(ids, id) == ids
    decreases |ids|
  {
    if |ids| > 0 {
      assert id !in ids[1..];
      RemoveFirstAbsent(ids[1..], id);
    }
  }

  /** Exactly one copy of id goes, when there is one; every other id keeps its count. */
  lemma {:induction false} RemoveFirstCounts(ids: seq<string>, id: string)
    ensures id in ids ==> multiset(RemoveFirst(ids, id)) == multiset(ids) - multiset{id}
    ensures id !in ids ==> RemoveFirst(ids, id) == ids
    decreases |ids|
  {
    if |ids| > 0 {
      RemoveFirstCounts(ids[1..], id);
      assert ids == [ids[0]] + ids[1..];
    }
  }

  /**
   * `removeId`: Go's `append(ids[:i], ids[i+1:]...)` shifts the tail of the
   * caller's backing array one place left and returns a slice one shorter;
   * the array's last slot keeps its old value.  The returned length is the
   * length of the slice.
   */
  method RemoveId(ids: array<string>, id: string) returns (len: nat)
    modifies ids
    ensures len <= ids.Length
    ensures ids[..len] == RemoveFirst(old(ids[..]), id)
    ensures id !in old(ids[..]) ==> len == ids.Length && ids[..] == old(ids[..])
    ensures id in old(ids[..]) ==> len == ids.Length - 1 && ids[len] == old(ids[ids.Length - 1])
  {
    ghost var s := ids[..];
    var i := IndexOfId(ids, id);
    if i == ids.Length {
      assert s[..i] == s;
      RemoveFirstAbsent(s, id);
      assert ids[..ids.Length] == s;
      return ids.Length;
    }
    RemoveFirstAt(s, id, i);
    ShiftDown(ids, i);
    len := ids.Length - 1;
  }

  /** The loop of `removeId` that looks for id: the first index holding it, or the length. */
  method IndexOfId(ids: array<string>, id: string) returns (i: nat)
    ensures i <= ids.Length && id !in ids[..i]
    ensures i < ids.Length ==> ids[i] == id
  {
    i := 0;
    while i < ids.Length && ids[i] != id
      invariant 0 <= i <= ids.Length
      invariant id !in ids[..i]
    {
      assert ids[..i + 1] == ids[..i] + [ids[i]];
      i := i + 1;
    }
  }

  /** `append(ids[:i], ids[i+1:]...)`: the tail moves one place left over slot i; the last slot keeps its value. */
  method ShiftDown(ids: array<string>, i: nat)
    requires i < ids.Length
    modifies ids
    ensures ids[..ids.Length - 1] == old(ids[..i]) + old(ids[i + 1..])
    ensures ids[ids.Length - 1] == old(ids[ids.Length - 1])
  {
    ghost var s := ids[..];
    var k := i;
    while k < ids.Length - 1
      invariant i <= k <= ids.Length - 1
      invariant forall m :: 0 <= m < i ==> ids[m] == s[m]
      invariant forall m :: i <= m < k ==> ids[m] == s[m + 1]
      invariant forall m :: k <= m < ids.Length ==> ids[m] == s[m]
    {
      ids[k] := ids[k + 1];
      k := k + 1;
    }
    assert ids[..ids.Length - 1] == s[..i] + s[i + 1..];
  }
}
