/**
 * The 24-bit calendar field of the CAN frames: a UTC minute of 2020..2035 in
 * three bytes, high byte first.
 */
module DateCodec {
  import opened Words
  import opened Calendar

  const MIN_YEAR: nat := 2020
  const MAX_YEAR: nat := 2035

  datatype Decoded = Valid(epoch: nat) | Invalid

  /** Year offset, month, day, hour and minute side by side; the parts are below
      16, 16, 32, 32 and 64, so adding them is or-ing them. */
  function Join(yearOffset: nat, month: nat, day: nat, hour: nat, minute: nat): nat {
    yearOffset * 0x10_0000 + month * 0x1_0000 + day * 0x800 + hour * 0x40 + minute
  }

  /** fiesta_can_pack_gps_datetime */
  function Pack(dateYYMMDD: U32, timeHHMM: U32): (packed: nat) {
    var yy, mm, dd := dateYYMMDD / 10000, dateYYMMDD / 100 % 100, dateYYMMDD % 100;
    var hh, mi := timeHHMM / 100, timeHHMM % 100;
    if mm < 1 || mm > 12 || dd < 1 || dd > 31 || hh > 23 || mi > 59 then 0
    else
      var yearOffset := if yy < 20 then 0 else if yy > 35 then 15 else yy - 20;
      Join(yearOffset, mm, dd, hh, mi)
  }

  predicate Fits(epoch: nat) { MIN_YEAR <= FromSeconds(epoch).date.year <= MAX_YEAR }

  function Packed(epoch: U32): (packed: nat) {
    var t := FromSeconds(epoch);
    if !Fits(epoch) then 0
    else
      SecondsRoundTrip(epoch);
      Pack(t.date.year % 100 * 10000 + t.date.month * 100 + t.date.day, t.hour * 100 + t.minute)
  }

  function Bytes(packed: nat): (field: seq<U8>) {
    [packed / 0x1_0000 % 0x100, packed / 0x100 % 0x100, packed % 0x100]
  }

  function Unbytes(field: seq<U8>): (packed: nat)
    requires |field| == 3
  {
    (field[0] as int) * 0x1_0000 + (field[1] as int) * 0x100 + field[2]
  }

  /** What the three bytes and the seconds say, whether or not it is a time. */
  function Fields(packed: nat, second: U8): DateTime {
    DateTime(Date(MIN_YEAR + packed / 0x10_0000, packed / 0x1_0000 % 16, packed / 0x800 % 32),
             packed / 0x40 % 32, packed % 64, second)
  }

  function Decode(field: seq<U8>, second: U8): (r: Decoded)
    requires |field| == 3
  {
    var t := Fields(Unbytes(field), second);
    if ValidDateTime(t) then Valid(ToSeconds(t)) else Invalid
  }

  /** The joined parts come back out of the word. */
  lemma JoinSplits(y: nat, mo: nat, d: nat, h: nat, mi: nat)
    requires y < 16 && mo < 16 && d < 32 && h < 32 && mi < 64
    ensures var p := Join(y, mo, d, h, mi);
            && p < 0x100_0000
            && p / 0x10_0000 == y && p / 0x1_0000 % 16 == mo && p / 0x800 % 32 == d
            && p / 0x40 % 32 == h && p % 64 == mi
  {
    var p := Join(y, mo, d, h, mi);
    var p3 := y * 16 + mo;
    var p2 := p3 * 32 + d;
    var p1 := p2 * 32 + h;
    DivisionUnique(p, 0x40, p1, mi);
    DivisionUnique(p, 0x800, p2, h * 0x40 + mi);
    DivisionUnique(p, 0x1_0000, p3, d * 0x800 + h * 0x40 + mi);
    DivisionUnique(p, 0x10_0000, y, mo * 0x1_0000 + d * 0x800 + h * 0x40 + mi);
    DivisionUnique(p1, 32, p2, h);
    DivisionUnique(p2, 32, p3, d);
    DivisionUnique(p3, 16, y, mo);
  }

  /** And splitting a word and joining the parts is the word again. */
  lemma SplitJoins(p: nat)
    requires p < 0x100_0000
    ensures Join(p / 0x10_0000, p / 0x1_0000 % 16, p / 0x800 % 32, p / 0x40 % 32, p % 64) == p
  {
    var p1, p2, p3 := p / 0x40, p / 0x800, p / 0x1_0000;
    assert p == 0x40 * p1 + p % 64;
    assert p1 / 0x20 == p2;
    assert p1 == 0x20 * p2 + p1 % 32;
    assert p2 / 0x20 == p3;
    assert p2 == 0x20 * p3 + p2 % 32;
    assert p3 / 16 == p / 0x10_0000;
    assert p3 == 16 * (p3 / 16) + p3 % 16;
  }

  lemma BytesRoundTrip(p: nat)
    requires p < 0x100_0000
    ensures Unbytes(Bytes(p)) == p
  {
    var q := p / 0x100;
    assert p == 0x100 * q + p % 0x100;
    assert q == 0x100 * (q / 0x100) + q % 0x100;
    assert q / 0x100 == p / 0x1_0000;
  }

  lemma UnbytesRoundTrip(field: seq<U8>)
    requires |field| == 3
    ensures Unbytes(field) < 0x100_0000 && Bytes(Unbytes(field)) == field
  {
    var p := Unbytes(field);
    var q := (field[0] as int) * 0x100 + field[1];
    assert p == 0x100 * q + field[2];
    assert p / 0x100 == q;
    assert p / 0x1_0000 == field[0];
  }

  /** Decimal date and time split into the parts they were made of. */
  lemma DecimalParts(year: nat, month: nat, day: nat, hour: nat, minute: nat)
    requires MIN_YEAR <= year <= MAX_YEAR && 1 <= month <= 12 && 1 <= day <= 31 && hour < 24 && minute < 60
    ensures Pack(year % 100 * 10000 + month * 100 + day, hour * 100 + minute)
         == Join(year - MIN_YEAR, month, day, hour, minute)
  {
    var yy := year % 100;
    assert yy == year - 2000;
    var date, time := yy * 10000 + month * 100 + day, hour * 100 + minute;
    assert date == 100 * (yy * 100 + month) + day;
    assert date / 100 == yy * 100 + month && date % 100 == day;
    assert date / 10000 == yy && date / 100 % 100 == month;
    assert time / 100 == hour && time % 100 == minute;
  }

  /** For a time that fits, the packed word is its parts side by side. */
  lemma PackedParts(epoch: U32)
    requires Fits(epoch)
    ensures var t := FromSeconds(epoch);
            Packed(epoch) == Join(t.date.year - MIN_YEAR, t.date.month, t.date.day, t.hour, t.minute)
  {
    hide FromSeconds, ToSeconds, Pack, Join;
    SecondsRoundTrip(epoch);
    var t := FromSeconds(epoch);
    DecimalParts(t.date.year, t.date.month, t.date.day, t.hour, t.minute);
  }

  /** The layout, for every two-digit year: the fields come back as they were given,
      the year brought into 2020..2035; what is no month, day or time packs to 0. */
  lemma PackedFields(yy: nat, month: nat, day: nat, hour: nat, minute: nat, second: U8)
    requires yy < 100 && month < 100 && day < 100 && hour < 100 && minute < 100
    ensures var packed := Pack(yy * 10000 + month * 100 + day, hour * 100 + minute);
            var year := if yy < 20 then 2020 else if yy > 35 then 2035 else 2000 + yy;
            if 1 <= month <= 12 && 1 <= day <= 31 && hour < 24 && minute < 60
            then Fields(packed, second) == DateTime(Date(year, month, day), hour, minute, second)
            else packed == 0
  {
    var date, time := yy * 10000 + month * 100 + day, hour * 100 + minute;
    assert date == 100 * (yy * 100 + month) + day;
    assert date / 100 == yy * 100 + month && date % 100 == day;
    assert date / 10000 == yy && date / 100 % 100 == month;
    assert time / 100 == hour && time % 100 == minute;
    if 1 <= month <= 12 && 1 <= day <= 31 && hour < 24 && minute < 60 {
      hide Join;
      JoinSplits(if yy < 20 then 0 else if yy > 35 then 15 else yy - 20, month, day, hour, minute);
    }
  }

  lemma SecondOfMinute(epoch: nat)
    ensures FromSeconds(epoch).second == epoch % 60
  {
    var ofDay := epoch % DAY_SECONDS;
    assert epoch == DAY_SECONDS * (epoch / DAY_SECONDS) + ofDay;
    assert epoch == 60 * (1440 * (epoch / DAY_SECONDS) + ofDay / 60) + ofDay % 60;
  }

  /** Decoding the stored field with the second of the minute gives every epoch
      of the range back. */
  lemma DecodeOfEncode(epoch: U32)
    requires Fits(epoch)
    ensures Packed(epoch) < 0x100_0000 && Packed(epoch) != 0
    ensures Decode(Bytes(Packed(epoch)), epoch % 60) == Valid(epoch)
  {
    hide FromSeconds, ToSeconds, Packed, Join, Bytes, Unbytes;
    var t := FromSeconds(epoch);
    SecondsRoundTrip(epoch);
    SecondOfMinute(epoch);
    PackedParts(epoch);
    JoinSplits(t.date.year - MIN_YEAR, t.date.month, t.date.day, t.hour, t.minute);
    BytesRoundTrip(Packed(epoch));
    assert Fields(Packed(epoch), epoch % 60) == t;
  }

  /** A field that decodes is the stored field of the decoded epoch, which is in
      the range, and the second is its second: the codec is one to one. */
  lemma EncodeOfDecode(field: seq<U8>, second: U8)
    requires |field| == 3 && Decode(field, second).Valid?
    ensures var epoch := Decode(field, second).epoch;
            && epoch < M32 && Fits(epoch) && epoch % 60 == second
            && Bytes(Packed(epoch)) == field
  {
    hide FromSeconds, ToSeconds, Packed, Join, Bytes, Unbytes;
    var p := Unbytes(field);
    UnbytesRoundTrip(field);
    var t := Fields(p, second);
    DateTimeRoundTrip(t);
    var epoch := ToSeconds(t);
    SecondOfMinute(epoch);
    RangeInSeconds(epoch);
    PackedParts(epoch);
    SplitJoins(p);
  }

  /** Outside the range, and only there, zeros are stored. */
  lemma ZerosStored(epoch: U32)
    ensures Bytes(Packed(epoch)) == [0, 0, 0] <==> !Fits(epoch)
  {
    hide FromSeconds, ToSeconds, Fits, Decode;
    if Fits(epoch) {
      DecodeOfEncode(epoch);
      BytesRoundTrip(Packed(epoch));
    } else {
      assert Packed(epoch) == 0;
    }
  }

  /** Zeros never decode, nor does a second above 59. */
  lemma ZerosNeverDecode(field: seq<U8>, second: U8)
    requires |field| == 3 && (field == [0, 0, 0] || second > 59)
    ensures Decode(field, second) == Invalid
  {
    hide ToSeconds;
    if field == [0, 0, 0] {
      assert Unbytes(field) == 0;
      assert Fields(0, second).date.month == 0;
    }
  }

  lemma NextYear(y: nat)
    requires EPOCH_YEAR <= y
    ensures DaysBeforeYear(y + 1) == DaysBeforeYear(y) + DaysInYear(y)
  {
  }

  lemma LeapPattern(y: nat)
    requires 1972 <= y < 2100 && y % 4 == 0
    ensures IsLeap(y) && !IsLeap(y + 1) && !IsLeap(y + 2) && !IsLeap(y + 3)
  {
  }

  /** Every fourth year from 1972 to 2100 starts 1461 days after the one before. */
  lemma {:induction false} LeapCycles(k: nat)
    requires k <= 32
    ensures DaysBeforeYear(1972 + 4 * k) == 730 + 1461 * k
  {
    if k == 0 {
      NextYear(1970);
      NextYear(1971);
    } else {
      hide DaysBeforeYear, IsLeap;
      LeapCycles(k - 1);
      var y := 1968 + 4 * k;
      LeapPattern(y);
      NextYear(y);
      NextYear(y + 1);
      NextYear(y + 2);
      NextYear(y + 3);
    }
  }

  /** The range in seconds: 2020-01-01 to 2035-12-31. */
  lemma RangeInSeconds(epoch: nat)
    ensures Fits(epoch) <==> 1577836800 <= epoch < 2082758400
  {
    hide FromSeconds, DaysBeforeYear;
    YearOfSecond(epoch, MIN_YEAR);
    YearOfSecond(epoch, MAX_YEAR + 1);
    LeapCycles(12);
    LeapCycles(16);
  }

  // ---- as the firmware stores and reads the bytes ----------------------------------

  /** fiesta_can_put_utc_datetime */
  method PutUtcDateTime(field: array<U8>, epoch: U32) returns (fits: bool)
    requires field.Length == 3
    modifies field
    ensures fits == Fits(epoch)
    ensures field[..] == Bytes(Packed(epoch))
  {
    hide FromSeconds, ToSeconds, Pack;
    var packed := 0;
    var t := FromSeconds(epoch);
    fits := t.date.year <= MAX_YEAR && MIN_YEAR <= t.date.year;
    if fits {
      SecondsRoundTrip(epoch);
      packed := Pack(t.date.year % 100 * 10000 + t.date.month * 100 + t.date.day, t.hour * 100 + t.minute);
    }
    field[0] := packed / 0x1_0000 % 0x100;
    field[1] := packed / 0x100 % 0x100;
    field[2] := packed % 0x100;
  }

  /** fiesta_can_get_utc_datetime; the epoch is left as it was on failure. */
  method GetUtcDateTime(field: array<U8>, second: U8, before: U32) returns (valid: bool, epoch: U32)
    requires field.Length == 3
    ensures valid == Decode(field[..], second).Valid?
    ensures epoch == if valid then Decode(field[..], second).epoch else before
  {
    hide FromSeconds, ToSeconds;
    var packed := (field[0] as int) * 0x1_0000 + (field[1] as int) * 0x100 + field[2];
    var t := Fields(packed, second);
    valid := ValidDateTime(t);
    epoch := before;
    if valid {
      EncodeOfDecode(field[..], second);
      epoch := ToSeconds(t);
    }
  }

  /** Both calls together: what is put is got back. */
  method PutThenGet(epoch: U32) returns (valid: bool, got: U32)
    ensures valid == Fits(epoch)
    ensures valid ==> got == epoch
  {
    hide FromSeconds, ToSeconds, Packed, Bytes, Decode;
    var field := new U8[3];
    var fits := PutUtcDateTime(field, epoch);
    ZerosStored(epoch);
    if fits {
      DecodeOfEncode(epoch);
    } else {
      ZerosNeverDecode(field[..], epoch % 60);
    }
    valid, got := GetUtcDateTime(field, epoch % 60, 0);
  }
}
