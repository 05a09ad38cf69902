/**
 `getVersion`: reading the major and minor number out of a platform's version string, which
 section 4.1 of the OpenCL 1.2 specification gives the form
 `OpenCL<space><major_version.minor_version><space><platform-specific information>`.
 */
module Version {
  import opened Common

  predicate IsDigit(c: char) {
    '0' <= c <= '9'
  }

  function Digit(c: char): nat
    requires IsDigit(c)
  {
    c as int - '0' as int
  }

  predicate AllDigits(s: string) {
    forall i :: 0 <= i < |s| ==> IsDigit(s[i])
  }

  /** The number a string of digits stands for. */
  function Value(s: string): nat
    requires AllDigits(s)
  {
    if s == "" then 0 else 10 * Value(s[..|s| - 1]) + Digit(s[|s| - 1])
  }

  /** Bitwise or of two non-negative numbers. */
  function Or(a: nat, b: nat): nat
    decreases a + b
  {
    if a == 0 && b == 0 then 0
    else 2 * Or(a / 2, b / 2) + if a % 2 == 1 || b % 2 == 1 then 1 else 0
  }

  function Pow2(k: nat): nat {
    if k == 0 then 1 else 2 * Pow2(k - 1)
  }

  function Shl(a: nat, k: nat): nat {
    a * Pow2(k)
  }

  /** The first index from `i` on where `s` has one of `stops`, or the length of `s`. */
  function Find(s: string, i: nat, stops: set<char>): (j: nat)
    requires i <= |s|
    ensures i <= j <= |s|
    ensures forall k :: i <= k < j ==> s[k] !in stops
    ensures j < |s| ==> s[j] in stops
    decreases |s| - i
  {
    if i == |s| || s[i] in stops then i else Find(s, i + 1, stops)
  }

  function Dot(s: string): nat
    requires |s| >= 7
  {
    Find(s, 7, {'.'})
  }

  function End(s: string): nat
    requires |s| >= 7 && Dot(s) < |s|
  {
    Find(s, Dot(s) + 1, {' ', '\0'})
  }

  /** What the loops rely on: both delimiters are there, and only digits stand between them. */
  predicate Readable(s: string) {
    |s| >= 7 && Dot(s) < |s| && End(s) < |s| && AllDigits(s[7..Dot(s)]) && AllDigits(s[Dot(s) + 1..End(s)])
  }

  function Major(s: string): nat
    requires Readable(s)
  {
    Value(s[7..Dot(s)])
  }

  function Minor(s: string): nat
    requires Readable(s)
  {
    Value(s[Dot(s) + 1..End(s)])
  }

  /** The versions for which the source's `int` arithmetic stays within its type. */
  predicate InRange(s: string) {
    Readable(s) && Major(s) < 0x8000 && Minor(s) < 0x1_0000
  }

  /** What an accumulator holds after the characters between `lo` and `i`. */
  function Scanned(s: string, lo: nat, i: nat): int
    requires lo <= i <= |s|
  {
    if i == lo then 0 else Scanned(s, lo, i - 1) * 10 + (s[i - 1] as int - '0' as int)
  }

  /** The scanning loops. Every value an accumulator or the shifted number takes is an `int`. */
  method GetVersion(versionInfo: string) returns (version: int32)
    requires InRange(versionInfo)
    ensures version == Major(versionInfo) * 0x1_0000 + Minor(versionInfo)
  {
    var highVersion: int32, lowVersion: int32 := 0, 0;
    var index := 7;
    while versionInfo[index] != '.'
      invariant 7 <= index <= Dot(versionInfo) && highVersion == Scanned(versionInfo, 7, index)
      decreases Dot(versionInfo) - index
    {
      ScanFits(versionInfo, 7, index, Dot(versionInfo));
      highVersion := highVersion * 10;
      highVersion := highVersion + (versionInfo[index] as int - '0' as int);
      index := index + 1;
    }
    ScanFits(versionInfo, 7, index, index);
    index := index + 1;
    while versionInfo[index] != ' ' && versionInfo[index] != '\0'
      invariant Dot(versionInfo) + 1 <= index <= End(versionInfo)
      invariant lowVersion == Scanned(versionInfo, Dot(versionInfo) + 1, index)
      decreases End(versionInfo) - index
    {
      ScanFits(versionInfo, Dot(versionInfo) + 1, index, End(versionInfo));
      lowVersion := lowVersion * 10;
      lowVersion := lowVersion + (versionInfo[index] as int - '0' as int);
      index := index + 1;
    }
    ScanFits(versionInfo, Dot(versionInfo) + 1, index, index);
    PackIsSum(highVersion, lowVersion);
    var shifted: int32 := Shl(highVersion, 16);
    version := Or(shifted, lowVersion);
  }

  // An accumulator holds the number read so far, which never exceeds the number as a whole, nor
  // does it on the way to the next digit.
  lemma ScanFits(s: string, lo: nat, i: nat, hi: nat)
    requires lo <= i <= hi <= |s| && AllDigits(s[lo..hi])
    ensures AllDigits(s[lo..i]) && Scanned(s, lo, i) == Value(s[lo..i])
    ensures i < hi ==> IsDigit(s[i]) && Scanned(s, lo, i + 1) <= Value(s[lo..hi])
    decreases i
  {
    if lo < i {
      ScanFits(s, lo, i - 1, hi);
      ValueStep(s, lo, i - 1, hi);
    }
    if i < hi {
      ValueStep(s, lo, i, hi);
    }
  }

  lemma PackIsSum(high: nat, low: nat)
    requires low < 0x1_0000
    ensures Shl(high, 16) == high * 0x1_0000
    ensures Or(Shl(high, 16), low) == high * 0x1_0000 + low
  {
    Pow2Is16();
    OrOfShifted(high, low, 16);
  }

  // Reading one more digit of a number keeps the accumulator within the number's final value.
  lemma {:induction false} ValueStep(s: string, lo: nat, i: nat, hi: nat)
    requires lo <= i < hi <= |s| && AllDigits(s[lo..hi])
    ensures AllDigits(s[lo..i]) && AllDigits(s[lo..i + 1]) && IsDigit(s[i])
    ensures Value(s[lo..i + 1]) == 10 * Value(s[lo..i]) + Digit(s[i])
    ensures Value(s[lo..i + 1]) <= Value(s[lo..hi])
    decreases hi - i
  {
    var digits := s[lo..hi];
    assert s[i] == digits[i - lo];
    assert s[lo..i] == digits[..i - lo];
    assert s[lo..i + 1] == digits[..i - lo + 1];
    assert s[lo..i + 1][..i - lo] == s[lo..i];
    if i + 1 < hi {
      ValueStep(s, lo, i + 1, hi);
    }
  }

  lemma Pow2Is16()
    ensures Pow2(16) == 0x1_0000
  {
    assert Pow2(4) == 16;
    assert Pow2(8) == 256;
    assert Pow2(12) == 4096;
  }

  lemma OrZero(a: nat)
    ensures Or(a, 0) == a
  {
    if a != 0 {
      OrZero(a / 2);
    }
  }

  lemma OrStep(a: nat, b: nat)
    ensures Or(2 * a, b) == 2 * Or(a, b / 2) + b % 2
  {
  }

  /** Below the shift, or is addition. */
  lemma {:induction false} OrOfShifted(high: nat, low: nat, k: nat)
    requires low < Pow2(k)
    ensures Or(Shl(high, k), low) == high * Pow2(k) + low
  {
    if k == 0 {
      OrZero(high);
    } else {
      assert Shl(high, k) == 2 * Shl(high, k - 1);
      OrOfShifted(high, low / 2, k - 1);
      OrStep(Shl(high, k - 1), low);
    }
  }

  // ------------------------------------------------------------- round trip

  function DigitChar(d: nat): char
    requires d < 10
  {
    ('0' as int + d) as char
  }

  function Decimal(n: nat): string {
    if n < 10 then [DigitChar(n)] else Decimal(n / 10) + [DigitChar(n % 10)]
  }

  lemma {:induction false} DecimalValue(n: nat)
    ensures AllDigits(Decimal(n)) && Value(Decimal(n)) == n
  {
    if n < 10 {
      assert Decimal(n)[..0] == "";
      assert Value("") == 0;
    } else {
      DecimalValue(n / 10);
      assert Decimal(n)[..|Decimal(n)| - 1] == Decimal(n / 10);
    }
  }

  function VersionString(major: nat, minor: nat, terminator: char, rest: string): string {
    "OpenCL " + Decimal(major) + "." + Decimal(minor) + [terminator] + rest
  }

  lemma {:induction false} FindAt(s: string, i: nat, j: nat, stops: set<char>)
    requires i <= j < |s| && s[j] in stops && forall k :: i <= k < j ==> s[k] !in stops
    ensures Find(s, i, stops) == j
    decreases j - i
  {
    if i < j {
      FindAt(s, i + 1, j, stops);
    }
  }

  lemma FindDot(s: string, prefix: string, a: string, tail: string)
    requires |prefix| == 7 && AllDigits(a) && s == prefix + a + "." + tail
    ensures Dot(s) == 7 + |a| && s[7..Dot(s)] == a && s[Dot(s) + 1..] == tail
  {
    assert forall k :: 7 <= k < 7 + |a| ==> s[k] == a[k - 7];
    FindAt(s, 7, 7 + |a|, {'.'});
  }

  lemma FindEnd(s: string, i: nat, b: string, terminator: char, rest: string)
    requires i <= |s| && AllDigits(b) && s[i..] == b + [terminator] + rest
    requires terminator == ' ' || terminator == '\0'
    ensures Find(s, i, {' ', '\0'}) == i + |b| < |s| && s[i..i + |b|] == b
  {
    assert forall k :: i <= k < |s| ==> s[k] == s[i..][k - i];
    FindAt(s, i, i + |b|, {' ', '\0'});
  }

  // A string of digits between two delimiters is read back, whatever the digits.
  lemma ReadsBackDigits(s: string, prefix: string, a: string, b: string, tail: string, terminator: char, rest: string)
    requires |prefix| == 7 && AllDigits(a) && AllDigits(b)
    requires terminator == ' ' || terminator == '\0'
    requires s == prefix + a + "." + tail && tail == b + [terminator] + rest
    ensures Readable(s) && Major(s) == Value(a) && Minor(s) == Value(b)
  {
    FindDot(s, prefix, a, tail);
    FindEnd(s, Dot(s) + 1, b, terminator, rest);
  }

  /** A version string written out in decimal is read back: the two numbers come out again. */
  lemma ReadsBackWhatIsWritten(major: nat, minor: nat, terminator: char, rest: string)
    requires terminator == ' ' || terminator == '\0'
    ensures var s := VersionString(major, minor, terminator, rest);
            Readable(s) && Major(s) == major && Minor(s) == minor
  {
    var a, b := Decimal(major), Decimal(minor);
    var s := VersionString(major, minor, terminator, rest);
    DecimalValue(major);
    DecimalValue(minor);
    var tail := b + [terminator] + rest;
    assert s == "OpenCL " + a + "." + tail;
    ReadsBackDigits(s, "OpenCL ", a, b, tail, terminator, rest);
  }

  /** The round trip through the parser: `getVersion` of "OpenCL M.m" followed by a space or NUL,
      and by anything after that, is M * 2^16 + m. */
  method ParseWritten(major: nat, minor: nat, terminator: char, rest: string) returns (version: int32)
    requires major < 0x8000 && minor < 0x1_0000 && (terminator == ' ' || terminator == '\0')
    ensures version == Packed(major, minor)
  {
    ReadsBackWhatIsWritten(major, minor, terminator, rest);
    version := GetVersion(VersionString(major, minor, terminator, rest));
  }

  /** What `getVersion` returns for a version in its range. */
  function Packed(major: nat, minor: nat): nat {
    major * 0x1_0000 + minor
  }

  /** Comparing results is comparing versions, major number first; in particular the test
      `version > (1 << 16) + 1` means "1.2 or later". */
  lemma ComparisonIsLexicographic(m1: nat, n1: nat, m2: nat, n2: nat)
    requires n1 < 0x1_0000 && n2 < 0x1_0000
    ensures Packed(m1, n1) < Packed(m2, n2) <==> m1 < m2 || (m1 == m2 && n1 < n2)
    ensures Packed(m1, n1) == Packed(m2, n2) <==> m1 == m2 && n1 == n2
    ensures Packed(m1, n1) > Shl(1, 16) + 1 <==> m1 > 1 || (m1 == 1 && n1 >= 2)
  {
    Pow2Is16();
  }
}

/** Device wrappers whose `isReferenceCountable` reads the platform's version string. */
module DeviceVersions {
  import opened Common
  import opened Runtime
  import Programs
  import Version

  /** The device specialisation, with the version string of each device's platform: the
      comparison is made on what `getVersion` returns, for strings it can read. */
  function DeviceConfig(platformVersion: Handle -> string): Config {
    Config(Device, h =>
      var s := platformVersion(h);
      && h != NULL
      && Version.InRange(s)
      && Version.Packed(Version.Major(s), Version.Minor(s)) > Version.Shl(1, 16) + 1)
  }

  /** From the version string to the counts, over every program of device wrappers in either
      generation: a device of a platform before 1.2 never sees a retain or release, and the
      count of any other device is its wrappers plus the references outside. */
  lemma CountingFollowsVersion(g: Programs.Generation, platformVersion: Handle -> string, places: nat,
                               ops: seq<Programs.Op>, h: Handle, major: nat, minor: nat, terminator: char, rest: string)
    requires Programs.RunAccepted(g, DeviceConfig(platformVersion), Programs.Start(places), ops)
    requires h != NULL && major < 0x8000 && minor < 0x1_0000 && (terminator == ' ' || terminator == '\0')
    requires platformVersion(h) == Version.VersionString(major, minor, terminator, rest)
    ensures var w := Programs.Run(g, DeviceConfig(platformVersion), Programs.Start(places), ops);
            if major < 1 || (major == 1 && minor < 2)
            then Event.Retain(h) !in w.rt.trace && Event.Release(h) !in w.rt.trace
            else w.rt.Count(h) == Holders(w.slots, h) + w.Outside(h)
  {
    Version.ReadsBackWhatIsWritten(major, minor, terminator, rest);
    Version.ComparisonIsLexicographic(major, minor, 0, 0);
    Programs.ReferencesAreConserved(g, DeviceConfig(platformVersion), places, ops, h, 0);
  }
}
