/**
 * Version management: the packed version number used for compile-time
 * comparisons, the two comparison macros against the current version, and
 * the "major.minor.patch" version string.
 *
 * The packing macro shifts each field into place and ORs the results. The
 * OR is modelled as bitwise OR on unbounded naturals. The packed value of
 * every documented triple fits in 32 unsigned bits. The model does not
 * reproduce C's arithmetic: for a major version of 128 or more, `major << 24`
 * overflows a signed int before the cast to size_t.
 */
module DocaVersion {
  import opened Wrappers

  const VerMajor: nat := 1
  const VerMinor: nat := 2
  const VerPatch: nat := 6

  /** Documented ranges of the three fields. */
  const MaxMajor: nat := 255
  const MaxMinor: nat := 255
  const MaxPatch: nat := 999

  /** Size of the static buffer the version string is printed into. */
  const VersionBufferSize: nat := 12

  datatype Version = Version(major: nat, minor: nat, patch: nat)

  predicate InRange(v: Version)
  {
    v.major <= MaxMajor && v.minor <= MaxMinor && v.patch <= MaxPatch
  }

  /** Lexicographic order on (major, minor, patch). */
  predicate LexLe(a: Version, b: Version)
  {
    a.major < b.major
    || (a.major == b.major && (a.minor < b.minor || (a.minor == b.minor && a.patch <= b.patch)))
  }

  // ---------------------------------------------------------------------
  // Bit arithmetic on naturals

  function Pow2(k: nat): (r: nat)
    ensures r >= 1
  {
    if k == 0 then 1 else 2 * Pow2(k - 1)
  }

  function ShiftLeft(x: nat, k: nat): nat
  {
    x * Pow2(k)
  }

  /** Bitwise OR of two naturals, one bit at a time from the least significant. */
  function BitOr(a: nat, b: nat): nat
    decreases a + b
  {
    if a == 0 then b
    else if b == 0 then a
    else BitOr(a / 2, b / 2) * 2 + (if a % 2 == 1 || b % 2 == 1 then 1 else 0)
  }

  /** ORing a value below 2^k into a multiple of 2^k is addition: the bits are disjoint. */
  lemma {:induction false} BitOrDisjoint(a: nat, b: nat, k: nat)
    requires b < Pow2(k)
    ensures BitOr(a * Pow2(k), b) == a * Pow2(k) + b
  {
    var x := a * Pow2(k);
    if k == 0 {
      assert b == 0;
    } else if a == 0 || b == 0 {
      assert a == 0 ==> x == 0;
    } else {
      var h := a * Pow2(k - 1);
      assert x == h * 2;
      assert x / 2 == h && x % 2 == 0;
      assert b / 2 < Pow2(k - 1);
      BitOrDisjoint(a, b / 2, k - 1);
      assert x != 0;
      calc {
        BitOr(x, b);
        BitOr(h, b / 2) * 2 + (if b % 2 == 1 then 1 else 0);
        (h + b / 2) * 2 + b % 2;
        x + b;
      }
    }
  }

  // ---------------------------------------------------------------------
  // DOCA_VERSION_NUM and the comparison macros

  /** `(major) << 24 | (minor) << 16 | (patch)`. */
  function VersionNum(major: nat, minor: nat, patch: nat): nat
  {
    BitOr(BitOr(ShiftLeft(major, 24), ShiftLeft(minor, 16)), patch)
  }

  function Num(v: Version): nat
  {
    VersionNum(v.major, v.minor, v.patch)
  }

  function CurrentVersionNum(): nat
  {
    VersionNum(VerMajor, VerMinor, VerPatch)
  }

  /** DOCA_VERSION_EQ_CURRENT */
  predicate VersionEqCurrent(major: nat, minor: nat, patch: nat)
  {
    VersionNum(major, minor, patch) == CurrentVersionNum()
  }

  /** DOCA_VERSION_LTE_CURRENT */
  predicate VersionLteCurrent(major: nat, minor: nat, patch: nat)
  {
    VersionNum(major, minor, patch) <= CurrentVersionNum()
  }

  /** Within the documented ranges the three shifted fields do not overlap, so the ORs are sums. */
  lemma VersionNumIsSum(v: Version)
    requires v.minor <= MaxMinor && v.patch < 0x1_0000
    ensures Num(v) == v.major * 0x100_0000 + v.minor * 0x1_0000 + v.patch
  {
    assert Pow2(8) == 0x100 by { assert Pow2(4) == 16; }
    assert Pow2(16) == 0x1_0000 by { assert Pow2(12) == 0x1000; }
    assert Pow2(24) == 0x100_0000 by { assert Pow2(20) == 0x10_0000; }
    var hi := ShiftLeft(v.major, 24);
    var mid := ShiftLeft(v.minor, 16);
    assert hi == (v.major * 0x100) * Pow2(16);
    BitOrDisjoint(v.major, mid, 24);
    assert BitOr(hi, mid) == (v.major * 0x100 + v.minor) * Pow2(16);
    BitOrDisjoint(v.major * 0x100 + v.minor, v.patch, 16);
  }

  /** Every documented version packs into 32 unsigned bits (computed over naturals, not in C's signed int). */
  lemma VersionNumFitsIn32Bits(v: Version)
    requires InRange(v)
    ensures Num(v) < 0x1_0000_0000
  {
    VersionNumIsSum(v);
  }

  lemma CurrentVersionNumValue()
    ensures CurrentVersionNum() == 0x0102_0006
  {
    VersionNumIsSum(Version(VerMajor, VerMinor, VerPatch));
  }

  /** Two documented versions pack to the same number only if they are the same version. */
  lemma VersionNumInjective(a: Version, b: Version)
    requires InRange(a) && InRange(b)
    ensures Num(a) == Num(b) <==> a == b
  {
    VersionNumIsSum(a);
    VersionNumIsSum(b);
  }

  /** Numeric order of packed documented versions is lexicographic order of the triples. */
  lemma VersionNumOrder(a: Version, b: Version)
    requires InRange(a) && InRange(b)
    ensures Num(a) <= Num(b) <==> LexLe(a, b)
  {
    VersionNumIsSum(a);
    VersionNumIsSum(b);
  }

  /** Outside the documented patch range the packing is not injective: patch 65536 spills into minor. */
  lemma VersionNumCollidesOutOfRange()
    ensures VersionNum(0, 1, 0) == VersionNum(0, 0, 0x1_0000)
  {
    VersionNumIsSum(Version(0, 1, 0));
    assert Pow2(16) == 0x1_0000 by { assert Pow2(12) == 0x1000; }
    assert BitOr(ShiftLeft(0, 24), ShiftLeft(0, 16)) == 0;
    assert VersionNum(0, 0, 0x1_0000) == 0x1_0000;
  }

  lemma VersionEqCurrentIff(v: Version)
    requires InRange(v)
    ensures VersionEqCurrent(v.major, v.minor, v.patch) <==> v == Version(1, 2, 6)
  {
    VersionNumInjective(v, Version(VerMajor, VerMinor, VerPatch));
  }

  lemma VersionLteCurrentIff(v: Version)
    requires InRange(v)
    ensures VersionLteCurrent(v.major, v.minor, v.patch) <==> LexLe(v, Version(1, 2, 6))
  {
    VersionNumOrder(v, Version(VerMajor, VerMinor, VerPatch));
  }

  // ---------------------------------------------------------------------
  // Decimal formatting: `%d` and `%03d` of non-negative values

  predicate IsDigit(c: char)
  {
    '0' <= c <= '9'
  }

  predicate AllDigits(s: string)
  {
    forall i :: 0 <= i < |s| ==> IsDigit(s[i])
  }

  function DigitChar(d: nat): (c: char)
    requires d < 10
    ensures IsDigit(c)
  {
    ('0' as int + d) as char
  }

  function DigitValue(c: char): (d: nat)
    requires IsDigit(c)
    ensures d < 10
  {
    c as int - '0' as int
  }

  function Pow10(k: nat): (r: nat)
    ensures r >= 1
  {
    if k == 0 then 1 else 10 * Pow10(k - 1)
  }

  /** `%d` of a non-negative value: its decimal digits, most significant first, with no leading zero. */
  function Decimal(n: nat): (s: string)
    ensures 1 <= |s| && AllDigits(s)
    ensures s[0] == '0' ==> n == 0
    decreases n
  {
    if n < 10 then [DigitChar(n)] else Decimal(n / 10) + [DigitChar(n % 10)]
  }

  /** The number a string of decimal digits denotes. */
  function DecimalValue(s: string): nat
    requires AllDigits(s)
  {
    if s == [] then 0 else DecimalValue(s[..|s| - 1]) * 10 + DigitValue(s[|s| - 1])
  }

  lemma {:induction false} DecimalRoundTrip(n: nat)
    ensures DecimalValue(Decimal(n)) == n
  {
    var s := Decimal(n);
    if n >= 10 {
      DecimalRoundTrip(n / 10);
      assert s[..|s| - 1] == Decimal(n / 10);
      assert DigitValue(DigitChar(n % 10)) == n % 10;
    }
  }

  /** A value below 10^k prints in at most k digits. */
  lemma {:induction false} DecimalLength(n: nat, k: nat)
    requires 1 <= k && n < Pow10(k)
    ensures |Decimal(n)| <= k
  {
    if n >= 10 {
      assert k >= 2;
      assert n / 10 < Pow10(k - 1);
      DecimalLength(n / 10, k - 1);
    }
  }

  function Zeros(k: nat): (z: string)
    ensures |z| == k && forall i :: 0 <= i < k ==> z[i] == '0'
  {
    seq(k, _ => '0')
  }

  /** Left-pad with '0' to at least `width` characters, as the `0` flag of a `%0Nd` conversion does. */
  function ZeroPad(s: string, width: nat): (r: string)
    ensures |r| == if |s| < width then width else |s|
  {
    if |s| < width then Zeros(width - |s|) + s else s
  }

  /** Leading zeros do not change the value a digit string denotes. */
  lemma {:induction false} LeadingZerosValue(k: nat, s: string)
    requires AllDigits(s)
    ensures AllDigits(Zeros(k) + s) && DecimalValue(Zeros(k) + s) == DecimalValue(s)
    decreases |s|
  {
    if s != [] {
      var t := Zeros(k) + s;
      assert t[..|t| - 1] == Zeros(k) + s[..|s| - 1];
      LeadingZerosValue(k, s[..|s| - 1]);
    } else {
      assert Zeros(k) + s == Zeros(k);
      LeadingZerosDenoteZero(k);
    }
  }

  lemma {:induction false} LeadingZerosDenoteZero(k: nat)
    ensures AllDigits(Zeros(k)) && DecimalValue(Zeros(k)) == 0
  {
    if k > 0 {
      assert Zeros(k)[..k - 1] == Zeros(k - 1);
      LeadingZerosDenoteZero(k - 1);
    }
  }

  /** Zero padding does not change the value a digit string denotes. */
  lemma ZeroPadValue(s: string, width: nat)
    requires AllDigits(s)
    ensures AllDigits(ZeroPad(s, width)) && DecimalValue(ZeroPad(s, width)) == DecimalValue(s)
  {
    if |s| < width {
      LeadingZerosValue(width - |s|, s);
    }
  }

  // ---------------------------------------------------------------------
  // doca_version(): snprintf of "%d.%d.%03d" into a 12-byte buffer

  /** The text "%d.%d.%03d" expands to. */
  function FormatVersion(v: Version): string
  {
    Decimal(v.major) + "." + (Decimal(v.minor) + "." + ZeroPad(Decimal(v.patch), 3))
  }

  /** What snprintf leaves in a buffer of `size` bytes (the text before the terminator) and what it returns. */
  datatype Printed = Printed(buffer: string, returned: nat)

  function Snprintf(size: nat, s: string): (r: Printed)
    ensures r.returned == |s|
    ensures r.buffer <= s
    ensures size > 0 ==> |r.buffer| < size && (r.buffer == s <==> |s| < size)
    ensures size > 0 ==> |r.buffer| == if |s| < size then |s| else size - 1
    ensures size == 0 ==> r.buffer == []
  {
    if size == 0 then Printed([], |s|)
    else if |s| < size then Printed(s, |s|)
    else Printed(s[..size - 1], |s|)
  }

  /** doca_version() */
  function VersionString(): string
  {
    Snprintf(VersionBufferSize, FormatVersion(Version(VerMajor, VerMinor, VerPatch))).buffer
  }

  /** With the current fields the version string is "1.2.006". */
  lemma VersionStringValue()
    ensures VersionString() == "1.2.006"
  {
    var s := FormatVersion(Version(VerMajor, VerMinor, VerPatch));
    DecimalOfDigit(1);
    DecimalOfDigit(2);
    DecimalOfDigit(6);
    assert ZeroPad("6", 3) == "006" by {
      assert Zeros(2) == "00";
    }
    assert s == "1.2.006";
  }

  lemma DecimalOfDigit(d: nat)
    requires d < 10
    ensures Decimal(d) == [DigitChar(d)]
  {
  }

  /** Every documented version prints in at most 11 characters, so the 12-byte buffer never truncates it. */
  lemma FormatVersionFits(v: Version)
    requires InRange(v)
    ensures |FormatVersion(v)| <= VersionBufferSize - 1
    ensures Snprintf(VersionBufferSize, FormatVersion(v)).buffer == FormatVersion(v)
    ensures Snprintf(VersionBufferSize, FormatVersion(v)).returned < VersionBufferSize
  {
    assert Pow10(3) == 1000;
    DecimalLength(v.major, 3);
    DecimalLength(v.minor, 3);
    DecimalLength(v.patch, 3);
  }

  // ---------------------------------------------------------------------
  // Reading a version string back

  /** Split at the first '.': the text before it and the text after it. */
  function SplitAtDot(s: string): Option<(string, string)>
  {
    if s == [] then None
    else if s[0] == '.' then Some(([], s[1..]))
    else match SplitAtDot(s[1..])
      case None => None
      case Some(parts) => Some(([s[0]] + parts.0, parts.1))
  }

  lemma {:induction false} SplitAtFirstDot(a: string, b: string)
    requires AllDigits(a)
    ensures SplitAtDot(a + "." + b) == Some((a, b))
  {
    if a != [] {
      assert (a + "." + b)[1..] == a[1..] + "." + b;
      SplitAtFirstDot(a[1..], b);
      assert [a[0]] + a[1..] == a;
    }
  }

  predicate IsDecimalField(s: string)
  {
    |s| >= 1 && AllDigits(s)
  }

  /** Parse "major.minor.patch" where each field is a non-empty run of decimal digits. */
  function ParseVersion(s: string): Option<Version>
  {
    match SplitAtDot(s)
    case None => None
    case Some(first) =>
      match SplitAtDot(first.1)
      case None => None
      case Some(rest) =>
        if IsDecimalField(first.0) && IsDecimalField(rest.0) && IsDecimalField(rest.1)
        then Some(Version(DecimalValue(first.0), DecimalValue(rest.0), DecimalValue(rest.1)))
        else None
  }

  /** The version string names its version: reading it back gives the triple that was printed. */
  lemma FormatVersionRoundTrip(v: Version)
    ensures ParseVersion(FormatVersion(v)) == Some(v)
  {
    var major, minor, patch := Decimal(v.major), Decimal(v.minor), ZeroPad(Decimal(v.patch), 3);
    ZeroPadValue(Decimal(v.patch), 3);
    DecimalRoundTrip(v.major);
    DecimalRoundTrip(v.minor);
    DecimalRoundTrip(v.patch);
    var tail := minor + "." + patch;
    SplitAtFirstDot(major, tail);
    SplitAtFirstDot(minor, patch);
    assert SplitAtDot(FormatVersion(v)) == Some((major, tail));
    assert SplitAtDot(tail) == Some((minor, patch));
    assert IsDecimalField(major) && IsDecimalField(minor) && IsDecimalField(patch);
  }

  /** Distinct versions print as distinct strings. */
  lemma FormatVersionInjective(a: Version, b: Version)
    ensures FormatVersion(a) == FormatVersion(b) <==> a == b
  {
    if FormatVersion(a) == FormatVersion(b) {
      FormatVersionRoundTrip(a);
      FormatVersionRoundTrip(b);
    }
  }
}
