/**
 * Shared vocabulary of the model: optional values, results, fixed-width
 * two's-complement arithmetic (Java `short`/`int`, Go `uint32`/`uint64`)
 * and decimal text, which every group of the system formats and parses.
 */
module Common {

  datatype Option<T> = None | Some(value: T)

  datatype Result<T, E> = Ok(value: T) | Err(error: E)
  {
    predicate IsOk() { Ok? }
  }

  const TWO_16: int := 0x1_0000
  const TWO_32: int := 0x1_0000_0000
  const TWO_64: int := 0x1_0000_0000_0000_0000
  const MAX_UINT32: int := TWO_32 - 1
  const MAX_UINT64: int := TWO_64 - 1

  predicate IsInt16(x: int) { -0x8000 <= x < 0x8000 }
  predicate IsInt32(x: int) { -0x8000_0000 <= x < 0x8000_0000 }
  predicate IsUInt32(x: int) { 0 <= x < TWO_32 }
  predicate IsUInt64(x: int) { 0 <= x < TWO_64 }

  /** The signed 16-bit value with the same low 16 bits as x (a Java `(short)` cast). */
  function Wrap16(x: int): (r: int)
    ensures IsInt16(r)
    ensures (r - x) % TWO_16 == 0
    ensures IsInt16(x) ==> r == x
  {
    var m := x % TWO_16;
    if m >= 0x8000 then m - TWO_16 else m
  }

  /** The signed 32-bit value with the same low 32 bits as x (Java `int` arithmetic, `(int)` casts). */
  function Wrap32(x: int): (r: int)
    ensures IsInt32(r)
    ensures (r - x) % TWO_32 == 0
    ensures IsInt32(x) ==> r == x
  {
    var m := x % TWO_32;
    if m >= 0x8000_0000 then m - TWO_32 else m
  }

  // ---------------------------------------------------------------------------
  // Decimal text
  // ---------------------------------------------------------------------------

  predicate IsDigit(c: char) { '0' <= c <= '9' }

  predicate AllDigits(s: string) { forall i :: 0 <= i < |s| ==> IsDigit(s[i]) }

  function DigitValue(c: char): (d: nat)
    requires IsDigit(c)
    ensures d < 10
  {
    (c as int) - ('0' as int)
  }

  function DigitChar(d: nat): (c: char)
    requires d < 10
    ensures IsDigit(c) && DigitValue(c) == d
  {
    (('0' as int) + d) as char
  }

  /** Canonical decimal text of n: no sign, no leading zero except for "0" itself. */
  function NatToDecimal(n: nat): (s: string)
    ensures |s| > 0 && AllDigits(s)
    ensures |s| > 1 ==> s[0] != '0'
    decreases n
  {
    if n < 10 then [DigitChar(n)]
    else NatToDecimal(n / 10) + [DigitChar(n % 10)]
  }

  /** The value of a string of decimal digits, most significant first. */
  function DecimalValue(s: string): nat
    requires AllDigits(s)
    decreases |s|
  {
    if |s| == 0 then 0
    else 10 * DecimalValue(s[..|s| - 1]) + DigitValue(s[|s| - 1])
  }

  lemma {:induction false} DecimalRoundTrip(n: nat)
    ensures DecimalValue(NatToDecimal(n)) == n
    decreases n
  {
    if n >= 10 {
      var s := NatToDecimal(n);
      assert s[..|s| - 1] == NatToDecimal(n / 10);
      DecimalRoundTrip(n / 10);
    }
  }

  lemma {:induction false} DecimalValueBound(s: string)
    requires AllDigits(s)
    ensures DecimalValue(s) < Pow10(|s|)
    decreases |s|
  {
    if |s| > 0 {
      DecimalValueBound(s[..|s| - 1]);
    }
  }

  function Pow10(k: nat): (p: nat)
    ensures p >= 1
  {
    if k == 0 then 1 else 10 * Pow10(k - 1)
  }

  /** Decimal text of any integer, with a leading '-' for negatives (Go `strconv.Itoa`). */
  function IntToDecimal(i: int): (s: string)
    ensures |s| > 0
    ensures i >= 0 ==> s == NatToDecimal(i)
    ensures i < 0 ==> s == "-" + NatToDecimal(-i)
  {
    if i >= 0 then NatToDecimal(i) else "-" + NatToDecimal(-i)
  }

  // ---------------------------------------------------------------------------
  // Sequences of text
  // ---------------------------------------------------------------------------

  /** Concatenation of a sequence of chunks, in order. */
  function Concat<T>(chunks: seq<seq<T>>): (r: seq<T>)
    decreases |chunks|
  {
    if |chunks| == 0 then [] else Concat(chunks[..|chunks| - 1]) + chunks[|chunks| - 1]
  }

  lemma ConcatAppend<T>(chunks: seq<seq<T>>, c: seq<T>)
    ensures Concat(chunks + [c]) == Concat(chunks) + c
  {
    assert (chunks + [c])[..|chunks|] == chunks;
  }

  /** A string with no NUL in it: the characters of a C string. */
  predicate NoNul(s: string) { forall i :: 0 <= i < |s| ==> s[i] != '\0' }

  predicate IsPrefix<T(==)>(p: seq<T>, s: seq<T>) { |p| <= |s| && s[..|p|] == p }

  /** A piece of a run t found at a in z lies at the same offset in z. */
  lemma SubSlice<T>(z: seq<T>, a: nat, t: seq<T>, c: nat, d: nat)
    requires a + |t| <= |z| && z[a..a + |t|] == t && c <= d <= |t|
    ensures z[a + c..a + d] == t[c..d]
  {
    forall k | 0 <= k < d - c
      ensures z[a + c..a + d][k] == t[c..d][k]
    {
      assert z[a + c + k] == z[a..a + |t|][c + k];
    }
  }

  /** `needle` occurs in `hay` at some position (C `strstr` finds it; an empty needle always does). */
  predicate ContainsSub(hay: string, needle: string)
  {
    exists i :: 0 <= i <= |hay| - |needle| && OccursAt(hay, needle, i)
  }

  predicate OccursAt(hay: string, needle: string, i: int)
  {
    0 <= i <= |hay| - |needle| && hay[i..i + |needle|] == needle
  }
}
