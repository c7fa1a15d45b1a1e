/**
 * The behaviour of the few Go library text routines that the key-value
 * system calls: `strconv.FormatUint`, `strconv.ParseUint`, `strconv.Itoa`,
 * `strconv.Atoi`, `strings.Split` and `strings.Join` (with a one-character
 * separator).  The parsers report their error only through the value they
 * return, which is all the callers look at: a syntax error gives 0 and an
 * overflow gives the largest value of the target width.  Go `int` is taken
 * to be 64 bits wide.
 */
module GoText {
  import opened Common

  const MIN_INT64: int := -0x8000_0000_0000_0000
  const MAX_INT64: int := 0x7FFF_FFFF_FFFF_FFFF

  predicate IsInt64(x: int) { MIN_INT64 <= x <= MAX_INT64 }

  // ---------------------------------------------------------------------------
  // strconv
  // ---------------------------------------------------------------------------

  /**
   * The digit scan of `strconv.ParseUint(s, 10, bits)` from index i with the
   * value acc accumulated so far, where max is the largest value of the
   * width.  The scan stops at the first character that is not a decimal
   * digit (result 0) or at the first prefix whose value exceeds max (result
   * max), whichever comes first.
   */
  function ScanUint(s: string, i: nat, acc: nat, max: nat): (r: nat)
    requires i <= |s|
    ensures acc <= max ==> r <= max
    decreases |s| - i
  {
    if i == |s| then acc
    else if !IsDigit(s[i]) then 0
    else if 10 * acc + DigitValue(s[i]) > max then max
    else ScanUint(s, i + 1, 10 * acc + DigitValue(s[i]), max)
  }

  /** `strconv.ParseUint(s, 10, bits)` with the error dropped; the empty string is a syntax error. */
  function ParseUint(s: string, max: nat): (r: nat)
    ensures r <= max
  {
    if |s| == 0 then 0 else ScanUint(s, 0, 0, max)
  }

  /** `strconv.Atoi(s)`: an optional sign, then the digits; out-of-range values are clamped to int64. */
  function Atoi(s: string): (r: int)
    ensures IsInt64(r)
  {
    if |s| == 0 then 0
    else if s[0] == '-' then
      (var u: int := ParseUint(s[1..], MAX_UINT64); if u > -MIN_INT64 then MIN_INT64 else -u)
    else if s[0] == '+' then
      (var u := ParseUint(s[1..], MAX_UINT64); if u > MAX_INT64 then MAX_INT64 else u)
    else
      (var u := ParseUint(s, MAX_UINT64); if u > MAX_INT64 then MAX_INT64 else u)
  }

  lemma {:induction false} ScanPrefix(s: string, i: nat, max: nat)
    requires AllDigits(s) && i <= |s| && DecimalValue(s) <= max
    ensures ScanUint(s, i, DecimalValue(s[..i]), max) == DecimalValue(s)
    decreases |s| - i
  {
    DecimalPrefixBound(s, i);
    if i < |s| {
      assert s[..i + 1][..i] == s[..i];
      DecimalPrefixBound(s, i + 1);
      ScanPrefix(s, i + 1, max);
    } else {
      assert s[..i] == s;
    }
  }

  /** A prefix of a digit string never has a larger value than the whole string. */
  lemma {:induction false} DecimalPrefixBound(s: string, k: nat)
    requires AllDigits(s) && k <= |s|
    ensures DecimalValue(s[..k]) <= DecimalValue(s)
    decreases |s| - k
  {
    if k < |s| {
      assert s[..k + 1][..k] == s[..k];
      DecimalPrefixBound(s, k + 1);
    } else {
      assert s[..k] == s;
    }
  }

  /** `ParseUint` inverts `FormatUint` for every value of the width. */
  lemma ParseFormatUint(n: nat, max: nat)
    requires n <= max
    ensures ParseUint(NatToDecimal(n), max) == n
  {
    var s := NatToDecimal(n);
    DecimalRoundTrip(n);
    ScanPrefix(s, 0, max);
    assert s[..0] == [];
  }

  /** `Atoi` inverts `Itoa` for every 64-bit int. */
  lemma AtoiItoa(n: int)
    requires IsInt64(n)
    ensures Atoi(IntToDecimal(n)) == n
  {
    if n >= 0 {
      ParseFormatUint(n, MAX_UINT64);
    } else {
      var s := IntToDecimal(n);
      assert s[1..] == NatToDecimal(-n);
      ParseFormatUint(-n, MAX_UINT64);
    }
  }

  /** A character that is not a digit among the first 19 digits makes the scan give 0: no prefix that short overflows 64 bits. */
  lemma {:induction false} ScanStopsAtJunk(s: string, i: nat, acc: nat, j: nat)
    requires i <= j < |s| && j < 19 && !IsDigit(s[j])
    requires acc < Pow10(i)
    ensures ScanUint(s, i, acc, MAX_UINT64) == 0
    decreases j - i
  {
    if i < j && IsDigit(s[i]) {
      Pow10Bound(i + 1);
      ScanStopsAtJunk(s, i + 1, 10 * acc + DigitValue(s[i]), j);
    }
  }

  lemma {:induction false} Pow10Bound(k: nat)
    requires k <= 19
    ensures Pow10(k) <= Pow10(19) <= MAX_UINT64
    decreases 19 - k
  {
    if k < 19 {
      Pow10Bound(k + 1);
    } else {
      Pow10Nineteen();
    }
  }

  lemma Pow10Nineteen()
    ensures Pow10(19) == 10_000_000_000_000_000_000
  {
    assert Pow10(3) == 1000;
    assert Pow10(6) == 1000_000;
    assert Pow10(9) == 1000_000_000;
    assert Pow10(12) == 1000_000_000_000;
    assert Pow10(15) == 1000_000_000_000_000;
    assert Pow10(18) == 1000_000_000_000_000_000;
  }

  /** `Atoi` gives 0 for a string with no digits after the optional sign, or with a non-digit early enough that no overflow can precede it. */
  lemma AtoiNonNumeric(s: string, j: nat)
    requires 0 < j < |s| && j < 19 && !IsDigit(s[j])
    ensures Atoi(s) == 0
  {
    if s[0] == '-' || s[0] == '+' {
      var t := s[1..];
      assert t[j - 1] == s[j];
      ScanStopsAtJunk(t, 0, 0, j - 1);
    } else {
      ScanStopsAtJunk(s, 0, 0, j);
    }
  }

  // ---------------------------------------------------------------------------
  // strings
  // ---------------------------------------------------------------------------

  /** `strings.Split(s, string(sep))`: the pieces between separators; one empty piece for the empty string. */
  function Split(s: string, sep: char): (r: seq<string>)
    ensures |r| >= 1
    decreases |s|
  {
    if |s| == 0 then [""]
    else
      var rest := Split(s[1..], sep);
      if s[0] == sep then [""] + rest else [[s[0]] + rest[0]] + rest[1..]
  }

  /** `strings.Join(parts, string(sep))`. */
  function Join(parts: seq<string>, sep: char): (r: string)
    decreases |parts|
  {
    if |parts| == 0 then ""
    else if |parts| == 1 then parts[0]
    else parts[0] + [sep] + Join(parts[1..], sep)
  }

  /** Splitting at a separator splits the two sides independently. */
  lemma {:induction false} SplitAt(a: string, sep: char, b: string)
    ensures Split(a + [sep] + b, sep) == Split(a, sep) + Split(b, sep)
    decreases |a|
  {
    if |a| == 0 {
      assert a + [sep] + b == [sep] + b;
      assert ([sep] + b)[1..] == b;
    } else {
      var s := a + [sep] + b;
      assert s[0] == a[0];
      assert s[1..] == a[1..] + [sep] + b;
      SplitAt(a[1..], sep, b);
      var x, y := Split(a[1..], sep), Split(b, sep);
      assert Split(s, sep) == if a[0] == sep then [""] + (x + y) else [[a[0]] + (x + y)[0]] + (x + y)[1..];
      if a[0] != sep {
        assert (x + y)[0] == x[0];
        assert (x + y)[1..] == x[1..] + y;
      }
    }
  }

  /** A string without the separator is a single piece. */
  lemma {:induction false} SplitWhole(s: string, sep: char)
    requires sep !in s
    ensures Split(s, sep) == [s]
    decreases |s|
  {
    if |s| > 0 {
      assert sep !in s[1..];
      SplitWhole(s[1..], sep);
      assert [s[0]] + s[1..] == s;
    }
  }

  /** `Split` inverts `Join` when no piece contains the separator and there is at least one piece. */
  lemma {:induction false} SplitJoin(parts: seq<string>, sep: char)
    requires |parts| >= 1
    requires forall i :: 0 <= i < |parts| ==> sep !in parts[i]
    ensures Split(Join(parts, sep), sep) == parts
    decreases |parts|
  {
    if |parts| == 1 {
      SplitWhole(parts[0], sep);
    } else {
      SplitJoin(parts[1..], sep);
      SplitAt(parts[0], sep, Join(parts[1..], sep));
      SplitWhole(parts[0], sep);
      assert parts == [parts[0]] + parts[1..];
    }
  }
}
