/** Strings as the source's standard library treats them: splitting, joining, decimals and ordering. */
module Text {
  import opened Wrappers

  /// Splitting and joining at a separator character

  function IndexOf(s: string, c: char): (i: nat)
    ensures i <= |s| && c !in s[..i] && (i < |s| ==> s[i] == c)
  {
    if s == "" || s[0] == c then 0
    else
      var i := IndexOf(s[1..], c);
      assert s[..i + 1] == [s[0]] + s[1..][..i];
      i + 1
  }

  function Split(s: string, c: char): (parts: seq<string>)
    ensures parts != [] && forall i | 0 <= i < |parts| :: c !in parts[i]
    decreases |s|
  {
    var i := IndexOf(s, c);
    if i == |s| then assert s == s[..i]; [s] else [s[..i]] + Split(s[i + 1..], c)
  }

  function Join(parts: seq<string>, c: char): string {
    if parts == [] then ""
    else if |parts| == 1 then parts[0]
    else parts[0] + [c] + Join(parts[1..], c)
  }

  lemma JoinOne(a: string, rest: seq<string>, c: char)
    requires rest != []
    ensures Join([a] + rest, c) == a + [c] + Join(rest, c)
  {
    assert ([a] + rest)[1..] == rest;
  }

  lemma {:induction false} JoinSplit(s: string, c: char)
    ensures Join(Split(s, c), c) == s
    decreases |s|
  {
    var i := IndexOf(s, c);
    if i < |s| {
      JoinSplit(s[i + 1..], c);
      JoinOne(s[..i], Split(s[i + 1..], c), c);
      assert s == s[..i] + [c] + s[i + 1..];
    }
  }

  lemma IndexOfFirst(a: string, c: char, b: string)
    requires c !in a
    ensures IndexOf(a + [c] + b, c) == |a|
  {
    var s := a + [c] + b;
    var i := IndexOf(s, c);
    assert s[|a|] == c && s[..|a|] == a;
  }

  lemma {:induction false} SplitJoin(parts: seq<string>, c: char)
    requires parts != [] && forall i | 0 <= i < |parts| :: c !in parts[i]
    ensures Split(Join(parts, c), c) == parts
    decreases |parts|
  {
    var s := Join(parts, c);
    if |parts| == 1 {
      assert parts == [parts[0]];
    } else {
      SplitJoin(parts[1..], c);
      IndexOfFirst(parts[0], c, Join(parts[1..], c));
      assert s[..|parts[0]|] == parts[0];
      assert s[|parts[0]| + 1..] == Join(parts[1..], c);
      assert parts == [parts[0]] + parts[1..];
    }
  }

  /// Decimals

  predicate IsDigit(c: char) {
    '0' <= c <= '9'
  }

  predicate IsDigits(s: string) {
    s != "" && forall i | 0 <= i < |s| :: IsDigit(s[i])
  }

  function Digit(d: nat): char
    requires d < 10
  {
    '0' + d as char
  }

  function Decimal(n: nat): string {
    if n < 10 then [Digit(n)] else Decimal(n / 10) + [Digit(n % 10)]
  }

  function NatValue(s: string): nat
    requires forall i | 0 <= i < |s| :: IsDigit(s[i])
  {
    if s == "" then 0
    else
      assert IsDigit(s[|s| - 1]);
      10 * NatValue(s[..|s| - 1]) + (s[|s| - 1] as int - '0' as int)
  }

  lemma {:induction false} DecimalRoundTrip(n: nat)
    ensures IsDigits(Decimal(n)) && NatValue(Decimal(n)) == n
    ensures n > 0 ==> Decimal(n)[0] != '0'
  {
    var s := Decimal(n);
    if n < 10 {
      assert s[..0] == "";
    } else {
      DecimalRoundTrip(n / 10);
      assert s[..|s| - 1] == Decimal(n / 10);
    }
  }

  const MIN_INT64: int := -0x8000_0000_0000_0000
  const MAX_INT64: int := 0x7FFF_FFFF_FFFF_FFFF

  type Int64 = x: int | MIN_INT64 <= x <= MAX_INT64

  /** `strconv.ParseInt(s, 10, 64)`: an optional sign, digits, and a value that fits. */
  function ParseInt64(s: string): Option<int> {
    var signed := s != "" && (s[0] == '-' || s[0] == '+');
    var digits := if signed then s[1..] else s;
    if !IsDigits(digits) then None
    else
      var n: int := NatValue(digits);
      var v := if signed && s[0] == '-' then -n else n;
      if MIN_INT64 <= v <= MAX_INT64 then Some(v) else None
  }

  function Zeros(n: nat): string {
    if n == 0 then "" else Zeros(n - 1) + "0"
  }

  function Signed(sign: string, n: nat): int {
    if sign == "-" then 0 - n else n
  }

  /** An optional sign, then a decimal that may have leading zeros, of a value that fits 64 bits. */
  predicate IsInteger(s: string, sign: string, zeros: nat, n: nat) {
    && sign in {"", "+", "-"} && s == sign + (Zeros(zeros) + Decimal(n))
    && MIN_INT64 <= Signed(sign, n) <= MAX_INT64
  }

  lemma {:induction false} ZerosAreDigits(k: nat)
    ensures |Zeros(k)| == k && forall i | 0 <= i < k :: Zeros(k)[i] == '0'
  {
    if k > 0 {
      ZerosAreDigits(k - 1);
    }
  }

  lemma {:induction false} PaddedValue(zeros: nat, n: nat)
    ensures IsDigits(Zeros(zeros) + Decimal(n)) && NatValue(Zeros(zeros) + Decimal(n)) == n
  {
    var s := Zeros(zeros) + Decimal(n);
    ZerosAreDigits(zeros);
    DecimalRoundTrip(n);
    assert forall i | 0 <= i < |s| :: IsDigit(s[i]) by {
      forall i | 0 <= i < |s| ensures IsDigit(s[i]) {
        if i < zeros {
          assert s[i] == Zeros(zeros)[i];
        } else {
          assert s[i] == Decimal(n)[i - zeros];
        }
      }
    }
    if n < 10 {
      assert s[..|s| - 1] == Zeros(zeros);
      ZerosValue(zeros);
    } else {
      PaddedValue(zeros, n / 10);
      assert s[..|s| - 1] == Zeros(zeros) + Decimal(n / 10);
    }
  }

  lemma {:induction false} ZerosValue(k: nat)
    ensures forall i | 0 <= i < k :: |Zeros(k)| == k && IsDigit(Zeros(k)[i])
    ensures |Zeros(k)| == k && NatValue(Zeros(k)) == 0
  {
    ZerosAreDigits(k);
    if k > 0 {
      ZerosValue(k - 1);
      assert Zeros(k)[..k - 1] == Zeros(k - 1);
    }
  }

  /** Every text of digits is a decimal with leading zeros. */
  lemma {:induction false} DigitsArePadded(s: string) returns (zeros: nat)
    requires IsDigits(s)
    ensures s == Zeros(zeros) + Decimal(NatValue(s))
    decreases |s|
  {
    var init, last := s[..|s| - 1], s[|s| - 1];
    assert s == init + [last] && IsDigit(last);
    var d := last as int - '0' as int;
    assert Digit(d) == last;
    if init == "" {
      zeros := 0;
    } else {
      var k := DigitsArePadded(init);
      if NatValue(init) == 0 {
        zeros := k + 1;
        assert Decimal(0) == "0";
      } else {
        zeros := k;
        assert NatValue(s) / 10 == NatValue(init) && NatValue(s) % 10 == d;
      }
    }
  }

  /** Which texts parse as 64-bit integers. */
  lemma ParseInt64Iff(s: string)
    ensures ParseInt64(s).Some? <==> exists sign, zeros, n :: IsInteger(s, sign, zeros, n)
    ensures forall sign, zeros, n | IsInteger(s, sign, zeros, n) :: ParseInt64(s) == Some(Signed(sign, n))
  {
    forall sign, zeros, n | IsInteger(s, sign, zeros, n)
      ensures ParseInt64(s) == Some(Signed(sign, n))
    {
      IntegerParses(s, sign, zeros, n);
    }
    if ParseInt64(s).Some? {
      var signed := s[0] == '-' || s[0] == '+';
      var digits := if signed then s[1..] else s;
      var zeros := DigitsArePadded(digits);
      var sign := if signed then [s[0]] else "";
      assert s == sign + digits;
      assert IsInteger(s, sign, zeros, NatValue(digits));
    }
  }

  lemma IntegerParses(s: string, sign: string, zeros: nat, n: nat)
    requires IsInteger(s, sign, zeros, n)
    ensures ParseInt64(s) == Some(Signed(sign, n))
  {
    var digits := Zeros(zeros) + Decimal(n);
    PaddedValue(zeros, n);
    assert IsDigit(digits[0]);
    if sign == "" {
      assert s == digits;
    } else {
      assert s[0] == sign[0] && s[1..] == digits;
    }
  }

  /// Lexicographic order

  predicate Less(a: string, b: string)
    decreases |a|
  {
    if b == "" then false
    else if a == "" then true
    else a[0] < b[0] || (a[0] == b[0] && Less(a[1..], b[1..]))
  }

  lemma {:induction false} LessTotal(a: string, b: string)
    ensures Less(a, b) || Less(b, a) || a == b
    ensures !(Less(a, b) && Less(b, a)) && !Less(a, a)
    decreases |a|
  {
    if a != "" {
      LessTotal(a[1..], a[1..]);
      if b != "" {
        LessTotal(a[1..], b[1..]);
        assert a == [a[0]] + a[1..] && b == [b[0]] + b[1..];
      }
    }
  }

  lemma {:induction false} LessTransitive(a: string, b: string, c: string)
    requires Less(a, b) && Less(b, c)
    ensures Less(a, c)
    decreases |a|
  {
    if a != "" && a[0] == b[0] == c[0] {
      LessTransitive(a[1..], b[1..], c[1..]);
    }
  }

  /** Where two texts first differ, at position `k`, the lesser one ends or has the lesser character. */
  predicate LessAt(a: string, b: string, k: nat) {
    && k <= |a| && k < |b| && a[..k] == b[..k]
    && (k == |a| || a[k] < b[k])
  }

  lemma {:induction false} LessIff(a: string, b: string)
    ensures Less(a, b) <==> exists k: nat :: LessAt(a, b, k)
    decreases |a|
  {
    if a != "" && b != "" {
      LessIff(a[1..], b[1..]);
      if a[0] == b[0] {
        forall k: nat ensures LessAt(a[1..], b[1..], k) <==> LessAt(a, b, k + 1) {
          if k + 1 <= |a| && k + 1 < |b| {
            assert a[..k + 1] == [a[0]] + a[1..][..k] && b[..k + 1] == [b[0]] + b[1..][..k];
            assert a[..k + 1][1..] == a[1..][..k] && b[..k + 1][1..] == b[1..][..k];
          }
        }
        if exists k: nat :: LessAt(a, b, k) {
          var k: nat :| LessAt(a, b, k);
          assert k > 0 && LessAt(a[1..], b[1..], k - 1);
        }
        if Less(a[1..], b[1..]) {
          var k: nat :| LessAt(a[1..], b[1..], k);
          assert LessAt(a, b, k + 1);
        }
      } else {
        forall k: nat | 0 < k <= |a| && k < |b| ensures a[..k] != b[..k] {
          assert a[..k][0] == a[0] && b[..k][0] == b[0];
        }
        if a[0] < b[0] {
          assert LessAt(a, b, 0);
        }
      }
    } else if b != "" {
      assert LessAt(a, b, 0);
    }
  }
}
