/**
 * Text operations the pipeline relies on, stated the way Python defines them:
 * the ordering `sorted` uses on `str`, `sorted(set(...))`, `str.upper()` on
 * ASCII letters, and the `"%06x"` hexadecimal format.
 */
module Strings {

  /** Python's `<` on `str`: code points compared left to right; a proper prefix is smaller. */
  predicate Less(a: string, b: string)
    decreases |a|
  {
    if |a| == 0 then |b| > 0
    else if |b| == 0 then false
    else if a[0] != b[0] then a[0] < b[0]
    else Less(a[1..], b[1..])
  }

  lemma {:induction false} LessIrreflexive(a: string)
    ensures !Less(a, a)
  {
    if |a| > 0 {
      LessIrreflexive(a[1..]);
    }
  }

  lemma {:induction false} LessTransitive(a: string, b: string, c: string)
    requires Less(a, b) && Less(b, c)
    ensures Less(a, c)
  {
    if |a| > 0 && |b| > 0 && |c| > 0 && a[0] == b[0] && b[0] == c[0] {
      LessTransitive(a[1..], b[1..], c[1..]);
    }
  }

  lemma {:induction false} LessTrichotomy(a: string, b: string)
    ensures a == b || Less(a, b) || Less(b, a)
  {
    if |a| > 0 && |b| > 0 && a[0] == b[0] {
      LessTrichotomy(a[1..], b[1..]);
      if a[1..] == b[1..] {
        assert a == [a[0]] + a[1..] && b == [b[0]] + b[1..];
      }
    }
  }

  /** `Less` is a strict total order, in the quantified form the sorting proofs use. */
  lemma LessIsStrictTotalOrder()
    ensures forall a :: !Less(a, a)
    ensures forall a, b, c :: Less(a, b) && Less(b, c) ==> Less(a, c)
    ensures forall a, b :: a == b || Less(a, b) || Less(b, a)
  {
    forall a { LessIrreflexive(a); }
    forall a, b, c | Less(a, b) && Less(b, c) { LessTransitive(a, b, c); }
    forall a, b { LessTrichotomy(a, b); }
  }

  predicate StrictlyIncreasing(s: seq<string>) {
    forall i, j :: 0 <= i < j < |s| ==> Less(s[i], s[j])
  }

  /** Puts `x` into its place in a strictly increasing sequence, unless it is there already. */
  function Insert(x: string, s: seq<string>): (r: seq<string>)
    requires StrictlyIncreasing(s)
    ensures StrictlyIncreasing(r)
    ensures forall y :: y in r <==> y == x || y in s
  {
    LessIsStrictTotalOrder();
    if |s| == 0 then [x]
    else if x == s[0] then s
    else if Less(x, s[0]) then [x] + s
    else
      var rest := Insert(x, s[1..]);
      assert forall y :: y in rest ==> Less(s[0], y);
      [s[0]] + rest
  }

  /** `sorted(set(s))`: the distinct strings of `s` in increasing order. */
  function SortedUnique(s: seq<string>): (r: seq<string>)
    ensures StrictlyIncreasing(r)
    ensures forall y :: y in r <==> y in s
  {
    if |s| == 0 then []
    else
      assert s == s[..|s| - 1] + [s[|s| - 1]];
      Insert(s[|s| - 1], SortedUnique(s[..|s| - 1]))
  }

  /** A strictly increasing sequence holds no string twice. */
  lemma StrictlyIncreasingHasNoDuplicates(s: seq<string>)
    requires StrictlyIncreasing(s)
    ensures forall i, j :: 0 <= i < |s| && 0 <= j < |s| && s[i] == s[j] ==> i == j
  {
    LessIsStrictTotalOrder();
  }

  /**
   * A strictly increasing sequence is fixed by its elements, so `SortedUnique`
   * is the only result its contract allows.
   */
  lemma {:induction false} StrictlyIncreasingDetermined(a: seq<string>, b: seq<string>)
    requires StrictlyIncreasing(a) && StrictlyIncreasing(b)
    requires forall y :: y in a <==> y in b
    ensures a == b
  {
    LessIsStrictTotalOrder();
    // Neither can be empty without the other, and their smallest elements agree.
    if |a| > 0 {
      assert a[0] in b;
    }
    if |b| > 0 {
      assert b[0] in a;
    }
    if |a| > 0 && |b| > 0 {
      assert a[0] == b[0];
      forall y
        ensures y in a[1..] <==> y in b[1..]
      {
        if y in a[1..] {
          var i :| 1 <= i < |a| && a[i] == y;
          assert Less(a[0], y) && y in b;
          var j :| 0 <= j < |b| && b[j] == y;
          assert j != 0 && b[1..][j - 1] == y;
        }
        if y in b[1..] {
          var j :| 1 <= j < |b| && b[j] == y;
          assert Less(b[0], y) && y in a;
          var i :| 0 <= i < |a| && a[i] == y;
          assert i != 0 && a[1..][i - 1] == y;
        }
      }
      StrictlyIncreasingDetermined(a[1..], b[1..]);
      assert a == [a[0]] + a[1..] && b == [b[0]] + b[1..];
    }
  }

  /** `str.upper()` on one character; letters outside ASCII are left as they are. */
  function UpperChar(c: char): char {
    if 'a' <= c <= 'z' then (c as int - 32) as char else c
  }

  function Upper(s: string): (r: string)
    ensures |r| == |s|
    ensures forall i :: 0 <= i < |s| ==> r[i] == UpperChar(s[i])
  {
    seq(|s|, i requires 0 <= i < |s| => UpperChar(s[i]))
  }

  /** `str(v).upper() == "TRUE"`. */
  predicate IsTrueText(s: string) {
    Upper(s) == "TRUE"
  }

  /** The text reads as TRUE exactly when it spells "true" in any mix of letter cases. */
  lemma IsTrueTextSpelling(s: string)
    ensures IsTrueText(s) <==>
      |s| == 4 && (s[0] == 't' || s[0] == 'T') && (s[1] == 'r' || s[1] == 'R') &&
      (s[2] == 'u' || s[2] == 'U') && (s[3] == 'e' || s[3] == 'E')
  {
    if |s| == 4 && Upper(s) != "TRUE" {
      var k :| 0 <= k < 4 && Upper(s)[k] != "TRUE"[k];
    }
  }

  const HexDigits: string := "0123456789abcdef"

  function Pow16(n: nat): (p: nat)
    ensures p > 0
  {
    if n == 0 then 1 else 16 * Pow16(n - 1)
  }

  /** The digit's value in base 16 (0 for anything not a lower-case hex digit). */
  function DigitValue(c: char): nat {
    if '0' <= c <= '9' then c as int - '0' as int
    else if 'a' <= c <= 'f' then c as int - 'a' as int + 10
    else 0
  }

  /** `"%0{width}x" % n` for an `n` that fits in `width` lower-case hex digits. */
  function Hex(n: nat, width: nat): (r: string)
    requires n < Pow16(width)
    ensures |r| == width
    ensures forall i :: 0 <= i < |r| ==> r[i] in HexDigits
  {
    if width == 0 then ""
    else Hex(n / 16, width - 1) + [HexDigits[n % 16]]
  }

  /** Reads a string of hex digits, most significant first. */
  function ParseHex(s: string): nat {
    if |s| == 0 then 0 else 16 * ParseHex(s[..|s| - 1]) + DigitValue(s[|s| - 1])
  }

  lemma DigitValueOfDigit(k: nat)
    requires k < 16
    ensures DigitValue(HexDigits[k]) == k
  {
  }

  /** Formatting and reading back round-trip. */
  lemma {:induction false} ParseHexOfHex(n: nat, width: nat)
    requires n < Pow16(width)
    ensures ParseHex(Hex(n, width)) == n
  {
    if width > 0 {
      ParseHexOfHex(n / 16, width - 1);
      var r := Hex(n, width);
      assert r[..|r| - 1] == Hex(n / 16, width - 1);
      DigitValueOfDigit(n % 16);
    }
  }
}
