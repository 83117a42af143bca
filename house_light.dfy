/**
 * The house light controller (src/house-light/main.rs): each line typed on standard input is
 * either `auto` or a brightness 0..255, and the loop writes either the brightness (sysfs LED) or
 * the PWM duty cycle computed from it.
 */
module HouseLight {
  import opened Words

  /** The PWM period written by `pwm_setup`, in nanoseconds. */
  const PwmPeriod: u32 := 500000

  /**
   * The duty cycle `500000 * (1 - brightness as u32 / 255)` in `u32` arithmetic. Integer division
   * makes it all or nothing: the full period for every brightness below 255, zero at 255.
   */
  function DutyCycle(brightness: u8): (duty: u32)
    ensures duty <= PwmPeriod
    ensures duty == if brightness == 255 then 0 else PwmPeriod
  {
    var level: u32 := brightness;
    var share: u32 := 1 - level / 255;
    PwmPeriod * share
  }

  /**
   * What `calc_brightness` can return: an `i8` clamped below at 0. It is not part of this model
   * (floating point and the wall clock); its result is an input here.
   */
  type AutoBrightness = b: int | 0 <= b <= 127

  /** On the `auto` path the brightness never reaches 255, so the duty cycle is always the full period. */
  lemma AutoDutyCycleIsFullPeriod(b: AutoBrightness)
    ensures DutyCycle(b) == PwmPeriod
  {
  }

  // ---------------------------------------------------------------------------------------------
  // Text: `trim`, `parse::<u8>` and `to_string`
  // ---------------------------------------------------------------------------------------------

  /** `char::is_whitespace`: the Unicode White_Space characters. */
  predicate IsWhitespace(c: char)
    ensures IsWhitespace(c) ==> !('0' <= c <= '9') && c != '+'
    ensures c == ' ' || c == '\t' || c == '\n' || c == '\r' ==> IsWhitespace(c)
  {
    || c == ' ' || ('\t' <= c <= '\r') || c == '\U{85}' || c == '\U{A0}' || c == '\U{1680}'
    || ('\U{2000}' <= c <= '\U{200A}') || c == '\U{2028}' || c == '\U{2029}' || c == '\U{202F}'
    || c == '\U{205F}' || c == '\U{3000}'
  }

  /** `trim_start`: the suffix left after dropping leading whitespace. */
  function TrimStart(s: string): (r: string)
    ensures |r| <= |s| && r == s[|s| - |r|..]
    ensures forall i :: 0 <= i < |s| - |r| ==> IsWhitespace(s[i])
    ensures r != [] ==> !IsWhitespace(r[0])
  {
    if s != [] && IsWhitespace(s[0]) then
      var r := TrimStart(s[1..]);
      assert forall i :: 1 <= i < |s| - |r| ==> s[i] == s[1..][i - 1];
      r
    else s
  }

  /** `trim_end`: the prefix left after dropping trailing whitespace. */
  function TrimEnd(s: string): (r: string)
    ensures |r| <= |s| && r == s[..|r|]
    ensures forall i :: |r| <= i < |s| ==> IsWhitespace(s[i])
    ensures r != [] ==> !IsWhitespace(r[|r| - 1])
  {
    if s != [] && IsWhitespace(s[|s| - 1]) then TrimEnd(s[..|s| - 1]) else s
  }

  /** `str::trim`: a slice of the input with whitespace on neither end. */
  function Trim(s: string): (r: string)
    ensures |r| <= |s|
    ensures r != [] ==> !IsWhitespace(r[0]) && !IsWhitespace(r[|r| - 1])
    ensures (forall i :: 0 <= i < |s| ==> !IsWhitespace(s[i])) ==> r == s
    ensures |r| <= |TrimStart(s)| && r == TrimStart(s)[..|r|]
    ensures forall i :: |r| <= i < |TrimStart(s)| ==> IsWhitespace(TrimStart(s)[i])
  {
    TrimEnd(TrimStart(s))
  }

  predicate IsDigit(c: char)
  {
    '0' <= c <= '9'
  }

  predicate AllDigits(s: string)
  {
    forall i :: 0 <= i < |s| ==> IsDigit(s[i])
  }

  /** The number a string of decimal digits denotes. */
  function DigitsValue(s: string): nat
    requires AllDigits(s)
  {
    if s == [] then 0 else 10 * DigitsValue(s[..|s| - 1]) + (s[|s| - 1] as int - '0' as int)
  }

  /**
   * `str::parse::<u8>`: an optional `+`, then one or more decimal digits denoting at most 255.
   * Leading zeros are accepted; a sign alone, a `-`, or any other character is rejected.
   */
  function ParseU8(s: string): (r: Option<u8>)
    ensures r.Some? ==> s != [] && s != "+"
    ensures r.Some? ==> forall i :: 0 <= i < |s| ==> IsDigit(s[i]) || (i == 0 && s[i] == '+')
    ensures AllDigits(s) && s != [] ==> (r.Some? <==> DigitsValue(s) < 0x100)
    ensures var d := if s != [] && s[0] == '+' then s[1..] else s;
            && (r.Some? <==> d != [] && AllDigits(d) && DigitsValue(d) < 0x100)
            && (r.Some? ==> r.value == DigitsValue(d))
  {
    var digits := if s != [] && s[0] == '+' then s[1..] else s;
    if digits != [] && AllDigits(digits) && DigitsValue(digits) < 0x100 then Some(DigitsValue(digits))
    else None
  }

  function DigitChar(d: nat): (c: char)
    requires d < 10
    ensures IsDigit(c) && c as int - '0' as int == d
  {
    ('0' as int + d) as char
  }

  /** `to_string` of an unsigned integer: its decimal digits, without leading zeros. */
  function ToDecimal(n: nat): (s: string)
    ensures s != [] && AllDigits(s)
    ensures |s| > 1 ==> s[0] != '0'
  {
    if n < 10 then [DigitChar(n)] else ToDecimal(n / 10) + [DigitChar(n % 10)]
  }

  /** Reading back what `to_string` wrote gives the number. */
  lemma {:induction false} DecimalRoundTrip(n: nat)
    ensures DigitsValue(ToDecimal(n)) == n
  {
    if n >= 10 {
      var s := ToDecimal(n);
      assert s[..|s| - 1] == ToDecimal(n / 10);
      DecimalRoundTrip(n / 10);
    }
  }

  lemma ParseU8OfDecimal(b: u8)
    ensures ParseU8(ToDecimal(b)) == Some(b)
  {
    DecimalRoundTrip(b);
  }

  /** Digits are not whitespace, so trimming a number's text leaves it as it is. */
  lemma {:induction false} TrimDecimal(n: nat)
    ensures Trim(ToDecimal(n)) == ToDecimal(n)
  {
    var s := ToDecimal(n);
    assert !IsWhitespace(s[0]) && !IsWhitespace(s[|s| - 1]);
  }

  // ---------------------------------------------------------------------------------------------
  // The read/branch/write loop of `main`
  // ---------------------------------------------------------------------------------------------

  /** Which file the loop writes: the PWM duty cycle (`write_mode` true) or the LED's sysfs brightness. */
  datatype Mode = Pwm | Sysfs

  /** `main` uses the sysfs LED when its brightness file exists and falls back to PWM otherwise. */
  function ModeFor(sysfsPresent: bool): (mode: Mode)
    ensures mode == Sysfs <==> sysfsPresent
  {
    if sysfsPresent then Sysfs else Pwm
  }

  /** What one input line leads to: a value written, or the `expect` on a non-number aborting. */
  datatype Reply = Write(text: string) | Abort

  /** The text written for a brightness: the duty cycle in PWM mode, the brightness itself otherwise. */
  function Output(mode: Mode, brightness: u8): (text: string)
    ensures AllDigits(text)
    ensures mode == Pwm ==> DigitsValue(text) == DutyCycle(brightness) && DigitsValue(text) in {0, PwmPeriod as nat}
    ensures mode == Sysfs ==> ParseU8(text) == Some(brightness)
  {
    DecimalRoundTrip(DutyCycle(brightness));
    ParseU8OfDecimal(brightness);
    ToDecimal(if mode == Pwm then DutyCycle(brightness) else brightness)
  }

  /** One pass of the loop for an input line, with `auto` the value `calc_brightness` would give. */
  function Respond(line: string, mode: Mode, auto: AutoBrightness): (r: Reply)
    ensures Trim(line) == "auto" ==> r.Write?
    ensures r.Write? ==> AllDigits(r.text)
  {
    var input := Trim(line);
    if input == "auto" then Write(Output(mode, auto))
    else match ParseU8(input)
      case None => Abort
      case Some(b) => Write(Output(mode, b))
  }

  /**
   * What one line leads to: `auto` writes the full period in PWM mode and the computed brightness
   * otherwise; any other line aborts exactly when it is not a `u8`; in sysfs mode the number is
   * written back as it was read, in PWM mode the full period unless it is 255.
   */
  lemma RespondMeaning(line: string, mode: Mode, auto: AutoBrightness)
    ensures var r := Respond(line, mode, auto);
            && (Trim(line) == "auto" ==> r == Write(ToDecimal(if mode == Pwm then PwmPeriod as nat else auto)))
            && (Trim(line) != "auto" ==> (r == Abort <==> ParseU8(Trim(line)).None?))
            && (r.Write? ==> AllDigits(r.text))
            && (Trim(line) != "auto" && mode == Sysfs && r.Write? ==> ParseU8(r.text) == ParseU8(Trim(line)))
            && (Trim(line) != "auto" && mode == Pwm && r.Write? ==>
                  DigitsValue(r.text) == if ParseU8(Trim(line)) == Some(255) then 0 else PwmPeriod as nat)
  {
    var input := Trim(line);
    if input != "auto" && ParseU8(input).Some? {
      var b := ParseU8(input).value;
      var text := Output(mode, b);
      assert Respond(line, mode, auto) == Write(text);
    }
  }

  /** In sysfs mode a written value typed back in is written again unchanged. */
  lemma SysfsEcho(b: u8, auto: AutoBrightness)
    ensures Respond(ToDecimal(b), Sysfs, auto) == Write(ToDecimal(b))
  {
    TrimDecimal(b);
    ParseU8OfDecimal(b);
    assert ToDecimal(b) != "auto" by {
      assert IsDigit(ToDecimal(b)[0]);
    }
    assert Output(Sysfs, b) == ToDecimal(b);
    assert Respond(ToDecimal(b), Sysfs, auto) == Write(Output(Sysfs, b));
  }

  /** A line answered with a value extends the values written so far by that value. */
  lemma WriteExtends(lines: seq<string>, mode: Mode, autos: seq<AutoBrightness>, written: seq<string>, text: string)
    requires |written| < |lines| == |autos|
    requires forall j :: 0 <= j < |written| ==> Respond(lines[j], mode, autos[j]) == Write(written[j])
    requires Respond(lines[|written|], mode, autos[|written|]) == Write(text)
    ensures forall j :: 0 <= j < |written| + 1 ==> Respond(lines[j], mode, autos[j]) == Write((written + [text])[j])
  {
    var next := written + [text];
    forall j | 0 <= j < |written| + 1
      ensures Respond(lines[j], mode, autos[j]) == Write(next[j])
    {
      if j < |written| {
        assert next[j] == written[j];
      }
    }
  }

  /**
   * The loop of `main` over the lines read from standard input, with `autos[i]` the brightness
   * `calc_brightness` gives when line i is read. Returns the values written before the loop
   * aborted on a line that is neither `auto` nor a `u8`. Past the last line `read_line` yields
   * an empty line, which aborts too, so a normal return is always an abort.
   */
  method Serve(lines: seq<string>, mode: Mode, autos: seq<AutoBrightness>) returns (written: seq<string>)
    requires |autos| == |lines|
    ensures |written| <= |lines|
    ensures forall i :: 0 <= i < |written| ==> Respond(lines[i], mode, autos[i]) == Write(written[i])
    ensures |written| < |lines| ==> Respond(lines[|written|], mode, autos[|written|]) == Abort
  {
    written := [];
    var i := 0;
    while i < |lines|
      invariant i <= |lines| && |written| == i
      invariant forall j :: 0 <= j < i ==> Respond(lines[j], mode, autos[j]) == Write(written[j])
    {
      var reply := Respond(lines[i], mode, autos[i]);
      if reply.Abort? {
        return;
      }
      WriteExtends(lines, mode, autos, written, reply.text);
      written := written + [reply.text];
      i := i + 1;
    }
  }
}
