/** Transfer times: UTC civil time, printed as RFC 3339 to the second and read back. */
module SyncTime {

  import opened Bytes
  import opened Decimal

  datatype Option<T> = Some(value: T) | None

  datatype Civil = Civil(year: int, month: int, day: int, hour: int, minute: int, second: int, nanosecond: int)

  predicate Leap(year: int) {
    year % 4 == 0 && (year % 100 != 0 || year % 400 == 0)
  }

  function DaysIn(year: int, month: int): int {
    if month == 2 then if Leap(year) then 29 else 28
    else if month in {4, 6, 9, 11} then 30
    else 31
  }

  /** A moment that exists. */
  predicate Real(t: Civil) {
    && 1 <= t.month <= 12 && 1 <= t.day <= DaysIn(t.year, t.month)
    && 0 <= t.hour < 24 && 0 <= t.minute < 60 && 0 <= t.second < 60 && 0 <= t.nanosecond < 1_000_000_000
  }

  function Truncated(t: Civil): Civil {
    t.(nanosecond := 0)
  }

  const ZERO_TIME := Civil(1, 1, 1, 0, 0, 0, 0)

  // ----- printing -----

  const LETTER_T: Byte := 84
  const LETTER_Z: Byte := 90

  function Format(t: Civil): seq<Byte>
    requires Real(t) && t.year >= 0
  {
    Layout(Padded(t.year, 4), Padded(t.month, 2), Padded(t.day, 2),
           Padded(t.hour, 2), Padded(t.minute, 2), Padded(t.second, 2))
  }

  function Layout(year: seq<Byte>, month: seq<Byte>, day: seq<Byte>,
                  hour: seq<Byte>, minute: seq<Byte>, second: seq<Byte>): seq<Byte> {
    year + [DASH] + month + [DASH] + day + [LETTER_T] + hour + [COLON] + minute + [COLON] + second + [LETTER_Z]
  }

  // ----- reading -----

  predicate AllDigits(text: seq<Byte>) {
    forall i :: 0 <= i < |text| ==> IsDigit(text[i])
  }

  /** The layout that printing uses: YYYY-MM-DDThh:mm:ssZ. */
  predicate Laid(text: seq<Byte>) {
    && |text| == 20
    && AllDigits(text[0..4]) && text[4] == DASH && AllDigits(text[5..7]) && text[7] == DASH
    && AllDigits(text[8..10]) && text[10] == LETTER_T && AllDigits(text[11..13]) && text[13] == COLON
    && AllDigits(text[14..16]) && text[16] == COLON && AllDigits(text[17..19]) && text[19] == LETTER_Z
  }

  function Fields(text: seq<Byte>): Civil
    requires Laid(text)
  {
    Civil(Value(text[0..4]), Value(text[5..7]), Value(text[8..10]),
          Value(text[11..13]), Value(text[14..16]), Value(text[17..19]), 0)
  }

  /** How texts in any other layout are read: offsets and fractions of a second, or a refusal. */
  type Parser = seq<Byte> -> Option<Civil>

  function ParseTime(text: seq<Byte>, parser: Parser): Option<Civil> {
    if Laid(text) && Real(Fields(text)) then Some(Fields(text)) else parser(text)
  }

  lemma LayoutIsLaid(year: seq<Byte>, month: seq<Byte>, day: seq<Byte>,
                     hour: seq<Byte>, minute: seq<Byte>, second: seq<Byte>)
    requires |year| == 4 && |month| == |day| == |hour| == |minute| == |second| == 2
    requires AllDigits(year) && AllDigits(month) && AllDigits(day)
    requires AllDigits(hour) && AllDigits(minute) && AllDigits(second)
    ensures var text := Layout(year, month, day, hour, minute, second);
            && Laid(text)
            && text[0..4] == year && text[5..7] == month && text[8..10] == day
            && text[11..13] == hour && text[14..16] == minute && text[17..19] == second
  {
    var text := Layout(year, month, day, hour, minute, second);
    assert text[0..4] == year && text[5..7] == month && text[8..10] == day;
    assert text[11..13] == hour && text[14..16] == minute && text[17..19] == second;
  }

  lemma LaidIsPrintable(text: seq<Byte>)
    requires Laid(text)
    ensures forall i :: 0 <= i < 20 ==> 33 <= text[i] <= 126
  {
    forall i | 0 <= i < 20 ensures 33 <= text[i] <= 126 {
      assert i < 4 ==> text[i] == text[0..4][i];
      assert 5 <= i < 7 ==> text[i] == text[5..7][i - 5];
      assert 8 <= i < 10 ==> text[i] == text[8..10][i - 8];
      assert 11 <= i < 13 ==> text[i] == text[11..13][i - 11];
      assert 14 <= i < 16 ==> text[i] == text[14..16][i - 14];
      assert 17 <= i < 19 ==> text[i] == text[17..19][i - 17];
    }
  }

  /** Printing forgets the fraction of a second and nothing else. */
  lemma PrintedTimeIsRead(t: Civil, parser: Parser)
    requires Real(t) && 0 <= t.year <= 9999
    ensures ParseTime(Format(t), parser) == Some(Truncated(t))
    ensures |Format(t)| == 20 && forall i :: 0 <= i < 20 ==> 33 <= Format(t)[i] <= 126
  {
    assert Power10(2) == 100 && Power10(4) == 10_000;
    hide Padded, Power10, Layout, Laid;
    PaddedIsRead(t.year, 4);
    PaddedIsRead(t.month, 2);
    PaddedIsRead(t.day, 2);
    PaddedIsRead(t.hour, 2);
    PaddedIsRead(t.minute, 2);
    PaddedIsRead(t.second, 2);
    LayoutIsLaid(Padded(t.year, 4), Padded(t.month, 2), Padded(t.day, 2),
                 Padded(t.hour, 2), Padded(t.minute, 2), Padded(t.second, 2));
    LaidIsPrintable(Format(t));
  }
}
