/**
 * The decimal parser of the service commands: an optional sign and digits, held
 * inside limits without ever leaving 64 bits.
 */
module IntParser {
  import opened Options
  import opened Words

  const INT16_MIN: int := -32768
  const INT16_MAX: int := 32767
  const INT32_MIN: int := -0x8000_0000
  const INT32_MAX: int := 0x7FFF_FFFF
  const INT64_MAX: int := 0x7FFF_FFFF_FFFF_FFFF

  predicate InInt64(n: int) { -INT64_MAX - 1 <= n <= INT64_MAX }

  // ---- what a text denotes ------------------------------------------------------------

  predicate IsDigit(c: char) { '0' <= c <= '9' }

  predicate AllDigits(text: string) { forall i :: 0 <= i < |text| ==> IsDigit(text[i]) }

  function Digit(c: char): (d: nat)
    requires IsDigit(c)
    ensures d <= 9
  {
    c as int - '0' as int
  }

  /** The number written by digits, whatever their count and leading zeros. */
  function Number(text: string): nat
    requires AllDigits(text)
  {
    if text == [] then 0 else 10 * Number(text[..|text| - 1]) + Digit(text[|text| - 1])
  }

  predicate Signed(text: string) { text != [] && (text[0] == '-' || text[0] == '+') }

  function Digits(text: string): string { if Signed(text) then text[1..] else text }

  predicate Negative(text: string) { text != [] && text[0] == '-' }

  function WithSign(negative: bool, n: int): int { if negative then -n else n }

  function Denotes(text: string): Option<int> {
    var digits := Digits(text);
    if digits == [] || !AllDigits(digits) then None
    else Some(WithSign(Negative(text), Number(digits)))
  }

  /** What the parser is for: the number, exactly if it lies within the limits. */
  function Wanted(text: string, min: int, max: int): Option<int> {
    var n := Denotes(text);
    if n.Some? && min <= n.value <= max then n else None
  }

  // ---- the code -------------------------------------------------------------------------

  /** The loop from character i on, with the value so far. */
  function Scan(digits: string, i: nat, value: nat, limit: int): Option<nat>
    requires i <= |digits|
    decreases |digits| - i
  {
    if i == |digits| then Some(value)
    else if !IsDigit(digits[i]) then None
    else
      var d := Digit(digits[i]);
      if value > TruncDiv(limit - d, 10) then None else Scan(digits, i + 1, 10 * value + d, limit)
  }

  /** parse_int_in. */
  function Parse(text: string, min: int, max: int): Option<int> {
    if Digits(text) == [] then None
    else
      var r := Scan(Digits(text), 0, 0, if Negative(text) then -min else max);
      if r.None? then None else Some(WithSign(Negative(text), r.value))
  }

  /** One more digit stays within the limit, or is the only one. */
  lemma NextFits(v: nat, limit: int, d: nat)
    requires d <= 9 && v <= TruncDiv(limit - d, 10)
    ensures 10 * v + d <= 9 || 10 * v + d <= limit
  {
  }

  method ParseIntIn(text: string, min: int, max: int) returns (ok: bool, value: int)
    requires InInt64(min) && InInt64(max) && InInt64(max - 9) && InInt64(-min) && InInt64(-min - 9)
    ensures ok <==> Parse(text, min, max).Some?
    ensures ok ==> value == Parse(text, min, max).value && InInt64(value)
  {
    hide TruncDiv;
    ok, value := false, 0;
    if text == [] {
      return;
    }
    var offset, negative := 0, false;
    if text[offset] == '-' || text[offset] == '+' {
      negative := text[offset] == '-';
      offset := offset + 1;
    }
    if offset == |text| {
      return;
    }
    ghost var skip, digits := offset, Digits(text);
    var limit := if negative then -min else max;
    var v: nat := 0;
    while offset < |text|
      invariant skip <= offset <= |text|
      invariant v <= 9 || v <= limit
      invariant Scan(digits, 0, 0, limit) == Scan(digits, offset - skip, v, limit)
    {
      var c := text[offset];
      assert digits[offset - skip] == c;
      if c < '0' || c > '9' {
        return;
      }
      var d := c as int - '0' as int;
      assert InInt64(limit - d);
      if v > TruncDiv(limit - d, 10) {
        return;
      }
      NextFits(v, limit, d);
      assert InInt64(v * 10) && InInt64(v * 10 + d);
      v := v * 10 + d;
      offset := offset + 1;
    }
    value := WithSign(negative, v);
    ok := true;
  }

  method ParseI16(text: string) returns (ok: bool, value: int)
    ensures ok <==> Denotes(text).Some? && INT16_MIN <= Denotes(text).value <= INT16_MAX
    ensures ok ==> value == Denotes(text).value
  {
    ParseMeets(text, INT16_MIN, INT16_MAX);
    ok, value := ParseIntIn(text, INT16_MIN, INT16_MAX);
  }

  method ParseI32(text: string) returns (ok: bool, value: int)
    ensures ok <==> Denotes(text).Some? && INT32_MIN <= Denotes(text).value <= INT32_MAX
    ensures ok ==> value == Denotes(text).value
  {
    ParseMeets(text, INT32_MIN, INT32_MAX);
    ok, value := ParseIntIn(text, INT32_MIN, INT32_MAX);
  }

  // ---- the code meets the limits ------------------------------------------------------------

  lemma OneMoreDigit(digits: string, i: nat)
    requires i < |digits| && AllDigits(digits[..i]) && IsDigit(digits[i])
    ensures AllDigits(digits[..i + 1])
  {
    assert digits[..i + 1] == digits[..i] + [digits[i]];
  }

  lemma NumberExtends(digits: string, i: nat)
    requires i < |digits| && AllDigits(digits[..i + 1])
    ensures AllDigits(digits[..i]) && IsDigit(digits[i])
    ensures Number(digits[..i + 1]) == 10 * Number(digits[..i]) + Digit(digits[i])
  {
    assert digits[..i + 1][..i] == digits[..i];
    assert digits[..i + 1][i] == digits[i];
    forall k | 0 <= k < i ensures IsDigit(digits[..i][k]) {
      assert digits[..i + 1][k] == digits[k];
    }
  }

  /** More digits never make the number smaller. */
  lemma {:induction false} NumberGrows(digits: string, i: nat)
    requires i <= |digits| && AllDigits(digits)
    ensures AllDigits(digits[..i]) && Number(digits[..i]) <= Number(digits)
    decreases |digits| - i
  {
    if i == |digits| {
      assert digits[..i] == digits;
    } else {
      NumberGrows(digits, i + 1);
      NumberExtends(digits, i);
    }
  }

  /** With room for every single digit the loop accepts exactly the numbers up to
      the limit. */
  lemma {:induction false} ScanAccepts(digits: string, i: nat, limit: int)
    requires i <= |digits| && limit >= 9 && AllDigits(digits[..i])
    ensures Scan(digits, i, Number(digits[..i]), limit)
         == if AllDigits(digits) && (i == |digits| || Number(digits) <= limit) then Some(Number(digits)) else None
    decreases |digits| - i
  {
    hide TruncDiv;
    if i == |digits| {
      assert digits[..i] == digits;
    } else if IsDigit(digits[i]) {
      OneMoreDigit(digits, i);
      NumberExtends(digits, i);
      var d, v := Digit(digits[i]), Number(digits[..i]);
      RoomIsRoom(v, limit, d);
      ScanAccepts(digits, i + 1, limit);
      if AllDigits(digits) {
        NumberGrows(digits, i + 1);
        if i + 1 == |digits| {
          assert digits[..i + 1] == digits;
        }
      }
    }
  }

  lemma RoomIsRoom(v: nat, limit: int, d: nat)
    requires limit >= d
    ensures v > TruncDiv(limit - d, 10) <==> 10 * v + d > limit
  {
  }

  /** The parser is right for every text of any length, given limits that leave
      room for every single digit of both signs, as both callers' do. */
  lemma ParseMeets(text: string, min: int, max: int)
    requires min <= -9 && 9 <= max
    ensures Parse(text, min, max) == Wanted(text, min, max)
  {
    var digits, limit := Digits(text), if Negative(text) then -min else max;
    if digits != [] {
      assert digits[..0] == [];
      ScanAccepts(digits, 0, limit);
    }
  }

  ghost predicate RightFor(min: int, max: int) {
    forall text :: Parse(text, min, max) == Wanted(text, min, max)
  }

  /** When the parser is right for every text: exactly with room for every single
      digit of both signs, or with limits so far apart the wrong way that every
      text is refused. In between, a first digit slips past the limit, because the
      division rounds toward zero. */
  lemma RightExactly(min: int, max: int)
    ensures RightFor(min, max) <==> (min <= -9 && 9 <= max) || (max <= -10 && 10 <= min)
  {
    if min <= -9 && 9 <= max {
      forall text ensures Parse(text, min, max) == Wanted(text, min, max) {
        ParseMeets(text, min, max);
      }
    } else if max <= -10 && 10 <= min {
      forall text ensures Parse(text, min, max) == Wanted(text, min, max) {
        NothingAccepted(text, min, max);
      }
    } else {
      var text := WrongText(min, max);
      assert Parse(text, min, max) != Wanted(text, min, max);
    }
  }

  lemma NothingAccepted(text: string, min: int, max: int)
    requires max <= -10 && 10 <= min
    ensures Parse(text, min, max) == None == Wanted(text, min, max)
  {
  }

  /** A text of one digit, with or without a sign, on which the parser errs. */
  lemma WrongText(min: int, max: int) returns (text: string)
    requires !(min <= -9 && 9 <= max) && !(max <= -10 && 10 <= min)
    ensures Parse(text, min, max) != Wanted(text, min, max)
  {
    if 0 <= max <= 8 {
      text := "9";
      OneDigit(text, "9", min, max);
    } else if -8 <= min <= 0 {
      text := "-9";
      OneDigit(text, "9", min, max);
    } else if -9 <= max < 0 || (max >= 9 && min >= 1) {
      text := "0";
      OneDigit(text, "0", min, max);
    } else {
      text := "-0";
      OneDigit(text, "0", min, max);
    }
  }

  lemma OneDigit(text: string, digits: string, min: int, max: int)
    requires Digits(text) == digits && |digits| == 1 && IsDigit(digits[0])
    ensures var d := Digit(digits[0]);
            var limit := if Negative(text) then -min else max;
            var n := WithSign(Negative(text), d);
            && Denotes(text) == Some(n)
            && Parse(text, min, max) == if 0 > TruncDiv(limit - d, 10) then None else Some(n)
  {
    assert digits[..0] == [];
    var d := Digit(digits[0]);
    var limit := if Negative(text) then -min else max;
    assert AllDigits(digits) && Number(digits[..|digits| - 1]) == 0 && Number(digits) == d;
    assert Scan(digits, 1, d, limit) == Some(d);
    assert Scan(digits, 0, 0, limit) == if 0 > TruncDiv(limit - d, 10) then None else Scan(digits, 1, 10 * 0 + d, limit);
  }
}
