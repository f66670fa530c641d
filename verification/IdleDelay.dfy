/**
 The idle-destroy delay read from the environment (crates/vinpst-audio/src/pipewire_backend.rs):
 a `strtoll`-like prefix with saturating 64-bit arithmetic.
 */
module IdleDelay {
  import opened Wrappers
  import opened Text

  const U64_MAX: nat := 0xFFFF_FFFF_FFFF_FFFF
  type u64 = x: nat | x <= U64_MAX

  const DEFAULT_MS: u64 := 15_000
  const MAX_MS: u64 := 600_000

  predicate IsDigit(c: char) {
    '0' <= c <= '9'
  }

  function DigitValue(c: char): (d: nat)
    requires IsDigit(c)
    ensures d <= 9
  {
    c as int - '0' as int
  }

  predicate AllDigits(s: string) {
    forall i :: 0 <= i < |s| ==> IsDigit(s[i])
  }

  /** The digits that `s` starts with. */
  function DigitPrefix(s: string): (digits: string)
    ensures AllDigits(digits)
  {
    if s == "" || !IsDigit(s[0]) then "" else [s[0]] + DigitPrefix(s[1..])
  }

  function SaturatingMul(a: u64, b: u64): u64 {
    Min(a * b, U64_MAX)
  }

  function SaturatingAdd(a: u64, b: u64): u64 {
    Min(a + b, U64_MAX)
  }

  function Fold(digits: string): u64
    requires AllDigits(digits)
  {
    if digits == "" then 0
    else
      var n := |digits| - 1;
      SaturatingAdd(SaturatingMul(Fold(digits[..n]), 10), DigitValue(digits[n]))
  }

  function CaptureIdleDestroyMs(value: Option<string>): u64 {
    if value.None? then DEFAULT_MS
    else
      var text := TrimStart(value.value);
      if text == "" then DEFAULT_MS
      else
        var negative := text[0] == '-';
        var digits := DigitPrefix(if text[0] == '+' || text[0] == '-' then text[1..] else text);
        if digits == "" then DEFAULT_MS
        else
          var parsed := Fold(digits);
          if negative && parsed != 0 then DEFAULT_MS else Min(parsed, MAX_MS)
  }

  // ---- What it means ----

  /** The unbounded value of a digit string. */
  function Decimal(digits: string): nat
    requires AllDigits(digits)
  {
    if digits == "" then 0
    else
      var n := |digits| - 1;
      Decimal(digits[..n]) * 10 + DigitValue(digits[n])
  }

  /** Saturating at every step saturates the result: once at the limit, the fold stays there. */
  lemma {:induction false} FoldIsTheClampedValue(digits: string)
    requires AllDigits(digits)
    ensures Fold(digits) == Min(Decimal(digits), U64_MAX)
  {
    if digits != "" {
      FoldIsTheClampedValue(digits[..|digits| - 1]);
    }
  }

  /** `text` is white space, an optional sign, at least one digit, and something that is no digit. */
  predicate IsNumber(text: string, blanks: string, sign: string, digits: string, rest: string) {
    && text == blanks + sign + digits + rest
    && AllBlank(blanks)
    && (sign == "" || sign == "+" || sign == "-")
    && digits != "" && AllDigits(digits)
    && (rest == "" || !IsDigit(rest[0]))
  }

  lemma {:induction false} TrimStartOfBlanks(blanks: string, text: string)
    requires AllBlank(blanks)
    requires text != "" && !IsBlank(text[0])
    ensures TrimStart(blanks + text) == text
  {
    if blanks == "" {
      assert blanks + text == text;
    } else {
      assert (blanks + text)[1..] == blanks[1..] + text;
      TrimStartOfBlanks(blanks[1..], text);
    }
  }

  lemma {:induction false} DigitPrefixOfDigits(digits: string, rest: string)
    requires AllDigits(digits) && (rest == "" || !IsDigit(rest[0]))
    ensures DigitPrefix(digits + rest) == digits
  {
    if digits == "" {
      assert digits + rest == rest;
    } else {
      assert (digits + rest)[1..] == digits[1..] + rest;
      DigitPrefixOfDigits(digits[1..], rest);
    }
  }

  /** A number of any length: its exact value clamped, or the default when it is below zero. */
  lemma NumberIsClamped(text: string, blanks: string, sign: string, digits: string, rest: string)
    requires IsNumber(text, blanks, sign, digits, rest)
    ensures CaptureIdleDestroyMs(Some(text)) ==
            if sign == "-" && Decimal(digits) > 0 then 15_000 else Min(Decimal(digits), 600_000)
  {
    var signed := sign + digits + rest;
    assert text == blanks + signed;
    assert sign != "" ==> signed[0] == sign[0] && signed[1..] == digits + rest;
    assert sign == "" ==> signed == digits + rest && IsDigit(signed[0]);
    TrimStartOfBlanks(blanks, signed);
    DigitPrefixOfDigits(digits, rest);
    FoldIsTheClampedValue(digits);
  }

  lemma {:induction false} DigitPrefixSplits(s: string) returns (rest: string)
    ensures s == DigitPrefix(s) + rest && (rest == "" || !IsDigit(rest[0]))
  {
    rest := s;
    if s != "" && IsDigit(s[0]) {
      rest := DigitPrefixSplits(s[1..]);
    }
  }

  lemma Regroup(blanks: string, sign: string, digits: string, rest: string)
    ensures blanks + (sign + (digits + rest)) == blanks + sign + digits + rest
  {
  }

  /** A text without a leading digit run gives the default; every other one is a number. */
  lemma EveryTextIsRead(text: string) returns (blanks: string, sign: string, digits: string, rest: string)
    ensures AllDigits(digits)
    ensures digits != "" ==> IsNumber(text, blanks, sign, digits, rest)
    ensures digits == "" ==> CaptureIdleDestroyMs(Some(text)) == DEFAULT_MS
  {
    var trimmed := TrimStart(text);
    blanks := TrimStartCuts(text);
    sign, digits, rest := "", "", "";
    if trimmed != "" {
      var signed := trimmed[0] == '+' || trimmed[0] == '-';
      var body := if signed then trimmed[1..] else trimmed;
      sign := if signed then [trimmed[0]] else "";
      rest := DigitPrefixSplits(body);
      digits := DigitPrefix(body);
      assert trimmed == sign + body;
      Regroup(blanks, sign, digits, rest);
    }
  }

  /** Everything that is not a number gives the default, and so does no value at all. */
  lemma OtherTextIsTheDefault(text: string)
    requires !exists blanks, sign, digits, rest :: IsNumber(text, blanks, sign, digits, rest)
    ensures CaptureIdleDestroyMs(Some(text)) == 15_000 == CaptureIdleDestroyMs(None)
  {
    var blanks, sign, digits, rest := EveryTextIsRead(text);
  }
}
