/** `CreateShiftDateDto` (backend/src/dto/create-shift-date.dto.ts): one date entry of a shift
    payload as received, its field constraints, and the typed entry the service works on. */
module ShiftDateDto {
  import opened Wrappers
  import opened Domain

  /** The payload as received: text fields for date, times and type (the field `type`, renamed
      because `type` is a Dafny keyword); the price in cents. */
  datatype CreateShiftDateDto = CreateShiftDateDto(
    date: string, startTime: string, endTime: string, price: Cents, shiftType: string)

  /** A date entry after validation, with times in minutes and the type as an enum value. */
  datatype ShiftDateEntry = ShiftDateEntry(
    date: CalendarDate, startTime: Minutes, endTime: Minutes, price: Cents, shiftType: ShiftType)

  predicate IsDigit(c: char) { '0' <= c <= '9' }

  function DigitValue(c: char): (n: nat)
    requires IsDigit(c)
    ensures n < 10 && DigitChar(n) == c
  {
    (c as int) - ('0' as int)
  }

  function DigitChar(n: nat): (c: char)
    requires n < 10
    ensures IsDigit(c)
  {
    (('0' as int) + n) as char
  }

  lemma DigitRoundTrip(n: nat)
    requires n < 10
    ensures DigitValue(DigitChar(n)) == n
  {
  }

  /** The value of the digits `s[i..i+k]`. */
  function Number(s: string, i: nat, k: nat): (n: nat)
    requires i + k <= |s|
    requires forall j :: i <= j < i + k ==> IsDigit(s[j])
    decreases k
  {
    if k == 0 then 0 else 10 * Number(s, i, k - 1) + DigitValue(s[i + k - 1])
  }

  /** `n` written with exactly `k` decimal digits, with leading zeros. */
  function Padded(n: nat, k: nat): (s: string)
    ensures |s| == k
    ensures forall j :: 0 <= j < k ==> IsDigit(s[j])
    decreases k
  {
    if k == 0 then [] else Padded(n / 10, k - 1) + [DigitChar(n % 10)]
  }

  function Pow10(k: nat): (p: nat)
    ensures p >= 1
  {
    if k == 0 then 1 else 10 * Pow10(k - 1)
  }

  /** Reading back `k` padded digits gives `n` when `n` has at most `k` digits. */
  lemma {:induction false} NumberPadded(n: nat, k: nat)
    requires n < Pow10(k)
    ensures Number(Padded(n, k), 0, k) == n
  {
    if k > 0 {
      var s := Padded(n, k);
      var prefix := Padded(n / 10, k - 1);
      assert s == prefix + [DigitChar(n % 10)];
      NumberPadded(n / 10, k - 1);
      NumberPrefix(s, prefix, k - 1);
      DigitRoundTrip(n % 10);
    }
  }

  /** Reading digits only looks at the digits read. */
  lemma {:induction false} NumberPrefix(s: string, prefix: string, k: nat)
    requires k <= |prefix| <= |s| && prefix == s[..|prefix|]
    requires forall j :: 0 <= j < k ==> IsDigit(s[j])
    ensures Number(s, 0, k) == Number(prefix, 0, k)
  {
    if k > 0 {
      NumberPrefix(s, prefix, k - 1);
    }
  }

  /** Writing back the value of `k` digits reproduces them. */
  lemma {:induction false} PaddedNumber(s: string, k: nat)
    requires |s| == k
    requires forall j :: 0 <= j < k ==> IsDigit(s[j])
    ensures Number(s, 0, k) < Pow10(k)
    ensures Padded(Number(s, 0, k), k) == s
  {
    if k > 0 {
      var prefix := s[..k - 1];
      NumberPrefix(s, prefix, k - 1);
      PaddedNumber(prefix, k - 1);
      var n := Number(s, 0, k);
      assert n == 10 * Number(prefix, 0, k - 1) + DigitValue(s[k - 1]);
      assert n / 10 == Number(prefix, 0, k - 1) && n % 10 == DigitValue(s[k - 1]);
      assert s == prefix + [s[k - 1]];
    }
  }

  // ---------------------------------------------------------------------------
  // @IsTimeString(): "HH:mm"

  /** Two digits, a colon and two digits, the hour at most 23 and the minute at most 59. */
  predicate IsTimeString(s: string)
  {
    |s| == 5 && IsDigit(s[0]) && IsDigit(s[1]) && s[2] == ':' && IsDigit(s[3]) && IsDigit(s[4]) &&
    Number(s, 0, 2) <= 23 && Number(s, 3, 2) <= 59
  }

  function ParseTime(s: string): (r: Option<Minutes>)
    ensures r.Some? <==> IsTimeString(s)
    ensures r.Some? ==> FormatTime(r.value) == s
  {
    if IsTimeString(s) then
      var h, m := Number(s, 0, 2), Number(s, 3, 2);
      FormatParsedTime(s);
      Some(60 * h + m)
    else None
  }

  /** The HH:mm text of a time of day. */
  function FormatTime(t: Minutes): (s: string)
    ensures |s| == 5
  {
    Padded(t / 60, 2) + ":" + Padded(t % 60, 2)
  }

  lemma FormatParsedTime(s: string)
    requires IsTimeString(s)
    ensures FormatTime(60 * Number(s, 0, 2) + Number(s, 3, 2)) == s
  {
    var h, m := Number(s, 0, 2), Number(s, 3, 2);
    var t := 60 * h + m;
    assert t / 60 == h && t % 60 == m;
    NumberPrefix(s, s[..2], 2);
    PaddedNumber(s[..2], 2);
    NumberSlice(s, 3, 2);
    PaddedNumber(s[3..5], 2);
    assert s == s[..2] + ":" + s[3..5];
  }

  /** Reading digits at an offset is reading the slice that holds them. */
  lemma {:induction false} NumberSlice(s: string, i: nat, k: nat)
    requires i + k <= |s|
    requires forall j :: i <= j < i + k ==> IsDigit(s[j])
    ensures Number(s, i, k) == Number(s[i..i + k], 0, k)
  {
    if k > 0 {
      NumberSlice(s, i, k - 1);
      NumberPrefix(s[i..i + k], s[i..i + k - 1], k - 1);
      assert s[i..i + k][..k - 1] == s[i..i + k - 1];
    }
  }

  /** Every time of day is written as a valid HH:mm string that reads back as itself. */
  lemma ParseFormattedTime(t: Minutes)
    ensures IsTimeString(FormatTime(t))
    ensures ParseTime(FormatTime(t)) == Some(t)
  {
    var s := FormatTime(t);
    var hh, mm := Padded(t / 60, 2), Padded(t % 60, 2);
    assert s[..2] == hh && s[3..5] == mm;
    NumberPadded(t / 60, 2);
    NumberPadded(t % 60, 2);
    NumberPrefix(s, hh, 2);
    NumberSlice(s, 3, 2);
  }

  // ---------------------------------------------------------------------------
  // @IsDateString(): an ISO 8601 date, documented as YYYY-MM-DD

  /** Four digits, '-', two digits, '-', two digits; month 01..12 and day 01..31. The day is not
      checked against the length of the month. */
  predicate IsIsoDate(s: string)
  {
    |s| == 10 && IsDigit(s[0]) && IsDigit(s[1]) && IsDigit(s[2]) && IsDigit(s[3]) && s[4] == '-' &&
    IsDigit(s[5]) && IsDigit(s[6]) && s[7] == '-' && IsDigit(s[8]) && IsDigit(s[9]) &&
    1 <= Number(s, 5, 2) <= 12 && 1 <= Number(s, 8, 2) <= 31
  }

  /** The dates that have a YYYY-MM-DD form. */
  predicate IsWritable(d: CalendarDate)
  {
    d.year < 10000 && 1 <= d.month <= 12 && 1 <= d.day <= 31
  }

  function FormatDate(d: CalendarDate): (s: string)
    ensures |s| == 10
  {
    Padded(d.year, 4) + "-" + Padded(d.month, 2) + "-" + Padded(d.day, 2)
  }

  function ParseDate(s: string): (r: Option<CalendarDate>)
    ensures r.Some? <==> IsIsoDate(s)
    ensures r.Some? ==> IsWritable(r.value) && FormatDate(r.value) == s
  {
    if IsIsoDate(s) then
      var d := CalendarDate(Number(s, 0, 4), Number(s, 5, 2), Number(s, 8, 2));
      FormatParsedDate(s);
      Some(d)
    else None
  }

  lemma FormatParsedDate(s: string)
    requires IsIsoDate(s)
    ensures Number(s, 0, 4) < 10000
    ensures FormatDate(CalendarDate(Number(s, 0, 4), Number(s, 5, 2), Number(s, 8, 2))) == s
  {
    NumberPrefix(s, s[..4], 4);
    PaddedNumber(s[..4], 4);
    NumberSlice(s, 5, 2);
    PaddedNumber(s[5..7], 2);
    NumberSlice(s, 8, 2);
    PaddedNumber(s[8..10], 2);
    assert s == s[..4] + "-" + s[5..7] + "-" + s[8..10];
  }

  /** Every writable date is written as a valid ISO date that reads back as itself. */
  lemma ParseFormattedDate(d: CalendarDate)
    requires IsWritable(d)
    ensures IsIsoDate(FormatDate(d))
    ensures ParseDate(FormatDate(d)) == Some(d)
  {
    var s := FormatDate(d);
    var yyyy, mm, dd := Padded(d.year, 4), Padded(d.month, 2), Padded(d.day, 2);
    assert s[..4] == yyyy && s[5..7] == mm && s[8..10] == dd;
    NumberPadded(d.year, 4);
    NumberPadded(d.month, 2);
    NumberPadded(d.day, 2);
    NumberPrefix(s, yyyy, 4);
    NumberSlice(s, 5, 2);
    NumberSlice(s, 8, 2);
  }

  // ---------------------------------------------------------------------------
  // @IsEnum(ShiftType)

  function ParseType(s: string): (r: Option<ShiftType>)
    ensures r.Some? <==> s in {"Consultation", "Telephone", "Ambulance"}
    ensures r.Some? ==> TypeName(r.value) == s
  {
    if s == "Consultation" then Some(Consultation)
    else if s == "Telephone" then Some(Telephone)
    else if s == "Ambulance" then Some(Ambulance)
    else None
  }

  lemma ParseTypeName(t: ShiftType)
    ensures ParseType(TypeName(t)) == Some(t)
  {
  }

  // ---------------------------------------------------------------------------
  // The whole entry

  /** The decorators of `CreateShiftDateDto`. "End time greater than start time" is only
      documented, so it is not part of validity. */
  predicate IsValid(dto: CreateShiftDateDto)
  {
    IsIsoDate(dto.date) &&
    IsTimeString(dto.startTime) &&
    IsTimeString(dto.endTime) &&
    dto.price >= 0 &&
    ParseType(dto.shiftType).Some?
  }

  /** A valid entry in the service's terms; its fields print back as the received text. */
  function Parse(dto: CreateShiftDateDto): (r: Option<ShiftDateEntry>)
    ensures r.Some? <==> IsValid(dto)
    ensures r.Some? ==>
      FormatDate(r.value.date) == dto.date &&
      FormatTime(r.value.startTime) == dto.startTime &&
      FormatTime(r.value.endTime) == dto.endTime &&
      r.value.price == dto.price && r.value.price >= 0 &&
      TypeName(r.value.shiftType) == dto.shiftType
  {
    if IsValid(dto) then
      Some(ShiftDateEntry(ParseDate(dto.date).value, ParseTime(dto.startTime).value,
                          ParseTime(dto.endTime).value, dto.price, ParseType(dto.shiftType).value))
    else None
  }

  /** An entry that ends before it starts passes validation. */
  lemma EndBeforeStartIsValid()
    ensures IsValid(CreateShiftDateDto("2024-03-20", "17:00", "09:00", 0, "Consultation"))
    ensures var e := Parse(CreateShiftDateDto("2024-03-20", "17:00", "09:00", 0, "Consultation")).value;
            e.startTime == 1020 && e.endTime == 540
  {
    var dto := CreateShiftDateDto("2024-03-20", "17:00", "09:00", 0, "Consultation");
    assert IsTimeString("17:00") && IsTimeString("09:00");
    assert IsIsoDate("2024-03-20");
    ParseFormattedTime(1020);
    ParseFormattedTime(540);
    assert FormatTime(1020) == "17:00" && FormatTime(540) == "09:00";
  }
}
