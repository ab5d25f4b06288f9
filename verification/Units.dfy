/** Settings that carry a unit: times in milliseconds, sizes in bytes. An `unsigned long` has 64 bits. */
module Units {
  import opened Numerals
  import opened Results

  datatype Error = InvalidArgument | OutOfRange

  const TWO_TO_THE_63: nat := 0x8000_0000_0000_0000
  const TWO_TO_THE_64: nat := 0x1_0000_0000_0000_0000

  const A_SECOND_IN_MILLIS := 1000
  const A_MINUTE_IN_MILLIS := 60 * A_SECOND_IN_MILLIS
  const A_HOUR_IN_MILLIS := 60 * A_MINUTE_IN_MILLIS
  const A_DAY_IN_MILLIS := 24 * A_HOUR_IN_MILLIS

  const A_KB_IN_BYTES := 1000
  const A_MB_IN_BYTES := 1000 * A_KB_IN_BYTES
  const A_GB_IN_BYTES := 1000 * A_MB_IN_BYTES

  predicate EndsWith(s: string, suffix: string) {
    |suffix| <= |s| && s[|s| - |suffix|..] == suffix
  }

  function Without(s: string, n: nat): string
    requires n <= |s|
  {
    s[..|s| - n]
  }

  /** A product of unsigned 64-bit numbers. */
  function Times(a: nat, b: nat): nat {
    a * b % TWO_TO_THE_64
  }

  /** An unsigned 64-bit number read as a signed one. */
  function Signed(n: nat): int
    requires n < TWO_TO_THE_64
  {
    if n < TWO_TO_THE_63 then n else n - TWO_TO_THE_64
  }

  /** The number part of a setting. Nothing, or a number that does not fit, is an error. */
  function ParseNumber(number: string): Result<nat, Error> {
    if !AllDigits(number) || number == "" then Err(InvalidArgument)
    else if Number(number) >= TWO_TO_THE_64 then Err(OutOfRange)
    else Ok(Number(number))
  }

  function TimeParts(option: string): (string, nat) {
    if EndsWith(option, "ms") then (Without(option, 2), 1)
    else if EndsWith(option, "s") then (Without(option, 1), A_SECOND_IN_MILLIS)
    else if EndsWith(option, "m") then (Without(option, 1), A_MINUTE_IN_MILLIS)
    else if EndsWith(option, "h") then (Without(option, 1), A_HOUR_IN_MILLIS)
    else if EndsWith(option, "d") then (Without(option, 1), A_DAY_IN_MILLIS)
    else (option, A_SECOND_IN_MILLIS)
  }

  function SizeParts(option: string): (string, nat) {
    if EndsWith(option, "K") then (Without(option, 1), A_KB_IN_BYTES)
    else if EndsWith(option, "KB") then (Without(option, 2), A_KB_IN_BYTES)
    else if EndsWith(option, "M") then (Without(option, 1), A_MB_IN_BYTES)
    else if EndsWith(option, "MB") then (Without(option, 2), A_MB_IN_BYTES)
    else if EndsWith(option, "G") then (Without(option, 1), A_GB_IN_BYTES)
    else if EndsWith(option, "GB") then (Without(option, 2), A_GB_IN_BYTES)
    else if EndsWith(option, "B") then (Without(option, 1), 1)
    else (option, 1)
  }

  function ParseTimeUnit(option: string): Result<int, Error> {
    var (number, multiplier) := TimeParts(option);
    match ParseNumber(number)
    case Err(e) => Err(e)
    case Ok(n) => Ok(Signed(Times(n, multiplier)))
  }

  function ParseSizeUnit(option: string): Result<int, Error> {
    var (number, multiplier) := SizeParts(option);
    match ParseNumber(number)
    case Err(e) => Err(e)
    case Ok(n) => Ok(Times(n, multiplier))
  }

  // ----- which settings are accepted, and what they mean -----

  /** The suffixes of times and what they stand for. */
  const TIME_UNITS: map<string, nat> :=
    map["ms" := 1, "s" := 1000, "m" := 60_000, "h" := 3_600_000, "d" := 86_400_000, "" := 1000]

  /** The suffixes of sizes and what they stand for. */
  const SIZE_UNITS: map<string, nat> :=
    map["K" := 1000, "KB" := 1000, "M" := 1_000_000, "MB" := 1_000_000,
        "G" := 1_000_000_000, "GB" := 1_000_000_000, "B" := 1, "" := 1]

  /** A numeral followed by a suffix. */
  ghost predicate Reads(option: string, number: string, suffix: string, units: map<string, nat>) {
    option == number + suffix && suffix in units && number != "" && AllDigits(number)
  }

  /** A numeral and a suffix end in what the suffix ends in, as far as it starts with no digit. */
  lemma EndOf(number: string, suffix: string, s: string)
    requires AllDigits(number) && s != "" && !IsDigit(s[0])
    ensures EndsWith(number + suffix, s) <==> EndsWith(suffix, s)
  {
    var o := number + suffix;
    if |s| <= |suffix| {
      assert o[|o| - |s|..] == suffix[|suffix| - |s|..];
    } else if |s| <= |o| {
      assert o[|o| - |s|..][0] == number[|o| - |s|];
    }
  }

  lemma NumberOf(number: string, suffix: string)
    ensures Without(number + suffix, |suffix|) == number && (suffix == "" ==> number + suffix == number)
  {
  }

  lemma TimePartsOf(number: string, suffix: string)
    requires AllDigits(number) && suffix in TIME_UNITS
    ensures TimeParts(number + suffix) == (number, TIME_UNITS[suffix])
  {
    hide EndsWith, Without;
    EndOf(number, suffix, "ms");
    EndOf(number, suffix, "s");
    EndOf(number, suffix, "m");
    EndOf(number, suffix, "h");
    EndOf(number, suffix, "d");
    NumberOf(number, suffix);
    TimeSuffix(suffix);
  }

  lemma EndsInWhole(suffix: string, s: string)
    requires |suffix| <= |s|
    ensures EndsWith(suffix, s) <==> suffix == s
  {
  }

  lemma EndsInChar(suffix: string, s: string)
    requires |s| == 1
    ensures EndsWith(suffix, s) <==> suffix != "" && suffix[|suffix| - 1] == s[0]
  {
    assert suffix != "" ==> suffix[|suffix| - 1..] == [suffix[|suffix| - 1]];
  }

  lemma TimeSuffix(suffix: string)
    requires suffix in TIME_UNITS
    ensures EndsWith(suffix, "ms") <==> suffix == "ms"
    ensures EndsWith(suffix, "s") <==> suffix == "ms" || suffix == "s"
    ensures EndsWith(suffix, "m") <==> suffix == "m"
    ensures EndsWith(suffix, "h") <==> suffix == "h"
    ensures EndsWith(suffix, "d") <==> suffix == "d"
  {
    hide EndsWith;
    EndsInWhole(suffix, "ms");
    EndsInChar(suffix, "s");
    EndsInChar(suffix, "m");
    EndsInChar(suffix, "h");
    EndsInChar(suffix, "d");
  }

  lemma SizePartsOf(number: string, suffix: string)
    requires AllDigits(number) && suffix in SIZE_UNITS
    ensures SizeParts(number + suffix) == (number, SIZE_UNITS[suffix])
  {
    hide EndsWith, Without;
    EndOf(number, suffix, "K");
    EndOf(number, suffix, "KB");
    EndOf(number, suffix, "M");
    EndOf(number, suffix, "MB");
    EndOf(number, suffix, "G");
    EndOf(number, suffix, "GB");
    EndOf(number, suffix, "B");
    NumberOf(number, suffix);
    SizeSuffix(suffix);
  }

  lemma SizeSuffix(suffix: string)
    requires suffix in SIZE_UNITS
    ensures EndsWith(suffix, "K") <==> suffix == "K"
    ensures EndsWith(suffix, "KB") <==> suffix == "KB"
    ensures EndsWith(suffix, "M") <==> suffix == "M"
    ensures EndsWith(suffix, "MB") <==> suffix == "MB"
    ensures EndsWith(suffix, "G") <==> suffix == "G"
    ensures EndsWith(suffix, "GB") <==> suffix == "GB"
    ensures EndsWith(suffix, "B") <==> suffix in {"KB", "MB", "GB", "B"}
  {
    hide EndsWith;
    EndsInWhole(suffix, "KB");
    EndsInWhole(suffix, "MB");
    EndsInWhole(suffix, "GB");
    EndsInChar(suffix, "K");
    EndsInChar(suffix, "M");
    EndsInChar(suffix, "G");
    EndsInChar(suffix, "B");
  }

  lemma Restored(s: string, suffix: string)
    requires EndsWith(s, suffix)
    ensures s == Without(s, |suffix|) + suffix
  {
  }

  lemma TimePartsFit(option: string) returns (suffix: string)
    ensures suffix in TIME_UNITS && option == TimeParts(option).0 + suffix
  {
    hide EndsWith, Without;
    if EndsWith(option, "ms") {
      suffix := "ms";
      Restored(option, "ms");
    } else if EndsWith(option, "s") {
      suffix := "s";
      Restored(option, "s");
    } else if EndsWith(option, "m") {
      suffix := "m";
      Restored(option, "m");
    } else if EndsWith(option, "h") {
      suffix := "h";
      Restored(option, "h");
    } else if EndsWith(option, "d") {
      suffix := "d";
      Restored(option, "d");
    } else {
      suffix := "";
    }
  }

  lemma SizePartsFit(option: string) returns (suffix: string)
    ensures suffix in SIZE_UNITS && option == SizeParts(option).0 + suffix
  {
    hide EndsWith, Without;
    if EndsWith(option, "K") {
      suffix := "K";
      Restored(option, "K");
    } else if EndsWith(option, "KB") {
      suffix := "KB";
      Restored(option, "KB");
    } else if EndsWith(option, "M") {
      suffix := "M";
      Restored(option, "M");
    } else if EndsWith(option, "MB") {
      suffix := "MB";
      Restored(option, "MB");
    } else if EndsWith(option, "G") {
      suffix := "G";
      Restored(option, "G");
    } else if EndsWith(option, "GB") {
      suffix := "GB";
      Restored(option, "GB");
    } else if EndsWith(option, "B") {
      suffix := "B";
      Restored(option, "B");
    } else {
      suffix := "";
    }
  }

  /** A time is accepted exactly when it is a numeral below 2^64 and one of the suffixes, and is refused
      as out of range exactly when it is a larger numeral and one of the suffixes. */
  lemma TimeAcceptedIff(option: string)
    ensures ParseTimeUnit(option).Ok? <==>
            exists number, suffix :: Reads(option, number, suffix, TIME_UNITS) && Number(number) < 0x1_0000_0000_0000_0000
    ensures ParseTimeUnit(option) == Err(OutOfRange) <==>
            exists number, suffix :: Reads(option, number, suffix, TIME_UNITS) && Number(number) >= 0x1_0000_0000_0000_0000
  {
    var number := TimeParts(option).0;
    var suffix := TimePartsFit(option);
    assert number != "" && AllDigits(number) ==> Reads(option, number, suffix, TIME_UNITS);
    hide TimeParts, Number;
    forall number', suffix' | Reads(option, number', suffix', TIME_UNITS) ensures number' == number {
      TimePartsOf(number', suffix');
    }
  }

  lemma SizeAcceptedIff(option: string)
    ensures ParseSizeUnit(option).Ok? <==>
            exists number, suffix :: Reads(option, number, suffix, SIZE_UNITS) && Number(number) < 0x1_0000_0000_0000_0000
    ensures ParseSizeUnit(option) == Err(OutOfRange) <==>
            exists number, suffix :: Reads(option, number, suffix, SIZE_UNITS) && Number(number) >= 0x1_0000_0000_0000_0000
  {
    var number := SizeParts(option).0;
    var suffix := SizePartsFit(option);
    assert number != "" && AllDigits(number) ==> Reads(option, number, suffix, SIZE_UNITS);
    hide SizeParts, Number;
    forall number', suffix' | Reads(option, number', suffix', SIZE_UNITS) ensures number' == number {
      SizePartsOf(number', suffix');
    }
  }

  lemma ProductFits(n: nat, k: nat)
    requires k >= 1
    ensures n <= n * k
    ensures Times(n, k) == n * k <==> n * k < TWO_TO_THE_64
    ensures Signed(Times(n, k)) == n * k <==> n * k < TWO_TO_THE_63
  {
    var p := n * k;
    assert n <= p;
    SmallRemainder(p);
  }

  lemma SmallRemainder(p: nat)
    ensures p % TWO_TO_THE_64 < TWO_TO_THE_64 && (p % TWO_TO_THE_64 == p <==> p < TWO_TO_THE_64)
  {
  }

  lemma NumeralParses(n: nat)
    ensures ParseNumber(Digits(n)) == if n < TWO_TO_THE_64 then Ok(n) else Err(OutOfRange)
  {
  }

  lemma UnitsPositive(suffix: string)
    ensures suffix in TIME_UNITS ==> TIME_UNITS[suffix] >= 1
    ensures suffix in SIZE_UNITS ==> SIZE_UNITS[suffix] >= 1
  {
  }

  /** A rendered time parses to the number times its unit exactly when that fits a signed 64-bit number. */
  lemma TimeRoundTrip(n: nat, suffix: string)
    requires suffix in TIME_UNITS
    ensures ParseTimeUnit(Digits(n) + suffix) == Ok(n * TIME_UNITS[suffix]) <==> n * TIME_UNITS[suffix] < 0x8000_0000_0000_0000
  {
    hide TimeParts, Times, Signed, ParseNumber;
    UnitsPositive(suffix);
    TimePartsOf(Digits(n), suffix);
    NumeralParses(n);
    ProductFits(n, TIME_UNITS[suffix]);
  }

  /** A rendered size parses to the number times its unit exactly when that fits an unsigned 64-bit number. */
  lemma SizeRoundTrip(n: nat, suffix: string)
    requires suffix in SIZE_UNITS
    ensures ParseSizeUnit(Digits(n) + suffix) == Ok(n * SIZE_UNITS[suffix]) <==> n * SIZE_UNITS[suffix] < 0x1_0000_0000_0000_0000
  {
    hide SizeParts, Times, Signed, ParseNumber;
    UnitsPositive(suffix);
    SizePartsOf(Digits(n), suffix);
    NumeralParses(n);
    ProductFits(n, SIZE_UNITS[suffix]);
  }
}
