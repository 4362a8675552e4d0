/** The fixed half-hour lattice of bookable times of day (src/pages/Book.jsx),
    with times written "HH:mm" and read as minutes since midnight. */
module Slots {
  import opened Wrappers

  const BookingStartTime: string := "06:00"
  const BookingEndTime: string := "23:00"
  /** The opening and closing times in minutes since midnight. */
  const OpeningMinutes: nat := 360
  const ClosingMinutes: nat := 1380

  /** The `times` table of the booking page, used for the rows of the loading grid. */
  const Times: seq<string> := [
    "06:00", "06:30", "07:00", "07:30", "08:00", "08:30", "09:00", "09:30",
    "10:00", "10:30", "11:00", "11:30", "12:00", "12:30", "13:00", "13:30",
    "14:00", "14:30", "15:00", "15:30", "16:00", "16:30", "17:00", "17:30",
    "18:00", "18:30", "19:00", "19:30", "20:00", "20:30", "21:00", "21:30",
    "22:00", "22:30", "23:00"
  ]

  predicate IsDigit(c: char) { '0' <= c <= '9' }

  function DigitValue(c: char): nat
    requires IsDigit(c)
  {
    (c as int - '0' as int) as nat
  }

  function DigitChar(d: nat): (c: char)
    requires d < 10
    ensures IsDigit(c) && DigitValue(c) == d
  {
    (d + '0' as int) as char
  }

  /** A time of day as "HH:mm", two digits each, for a minute count before midnight. */
  function FormatClock(m: nat): (s: string)
    requires m < 1440
    ensures |s| == 5 && s[2] == ':'
  {
    var h, mm := m / 60, m % 60;
    [DigitChar(h / 10), DigitChar(h % 10), ':', DigitChar(mm / 10), DigitChar(mm % 10)]
  }

  /** Reads "HH:mm" (hours 00-23, minutes 00-59) as minutes since midnight; anything else is None. */
  function ParseClock(s: string): (r: Option<nat>)
    ensures r.Some? ==> r.value < 1440
  {
    if |s| == 5 && IsDigit(s[0]) && IsDigit(s[1]) && s[2] == ':' && IsDigit(s[3]) && IsDigit(s[4]) then
      var h := 10 * DigitValue(s[0]) + DigitValue(s[1]);
      var mm := 10 * DigitValue(s[3]) + DigitValue(s[4]);
      if h < 24 && mm < 60 then Some(60 * h + mm) else None
    else None
  }

  /** Reading a formatted time gives back its minute count. */
  lemma ParseFormatClock(m: nat)
    requires m < 1440
    ensures ParseClock(FormatClock(m)) == Some(m)
  {
    var s := FormatClock(m);
    assert DigitValue(s[0]) == m / 60 / 10 && DigitValue(s[1]) == m / 60 % 10;
    assert DigitValue(s[3]) == m % 60 / 10 && DigitValue(s[4]) == m % 60 % 10;
  }

  /** Formatting a parsed time gives back the text it was read from. */
  lemma FormatParseClock(s: string)
    requires ParseClock(s).Some?
    ensures FormatClock(ParseClock(s).value) == s
  {
    var h := 10 * DigitValue(s[0]) + DigitValue(s[1]);
    var mm := 10 * DigitValue(s[3]) + DigitValue(s[4]);
    var m := 60 * h + mm;
    assert m / 60 == h && m % 60 == mm;
    var t := FormatClock(m);
    assert t[0] == s[0] && t[1] == s[1] && t[3] == s[3] && t[4] == s[4];
  }

  /** The k-th slot of the lattice, generated independently of the table. */
  function SlotAt(k: nat): (s: string)
    requires k < 35
    ensures ParseClock(s) == Some(OpeningMinutes + 30 * k)
  {
    ParseFormatClock(OpeningMinutes + 30 * k);
    FormatClock(OpeningMinutes + 30 * k)
  }

  lemma TimesRows0()
    ensures forall k :: 0 <= k < 7 ==> ParseClock(Times[k]) == Some(OpeningMinutes + 30 * k)
  {
    assert ParseClock(Times[0]) == Some(360);
    assert ParseClock(Times[1]) == Some(390);
    assert ParseClock(Times[2]) == Some(420);
    assert ParseClock(Times[3]) == Some(450);
    assert ParseClock(Times[4]) == Some(480);
    assert ParseClock(Times[5]) == Some(510);
    assert ParseClock(Times[6]) == Some(540);
  }

  lemma TimesRows1()
    ensures forall k :: 7 <= k < 14 ==> ParseClock(Times[k]) == Some(OpeningMinutes + 30 * k)
  {
    assert ParseClock(Times[7]) == Some(570);
    assert ParseClock(Times[8]) == Some(600);
    assert ParseClock(Times[9]) == Some(630);
    assert ParseClock(Times[10]) == Some(660);
    assert ParseClock(Times[11]) == Some(690);
    assert ParseClock(Times[12]) == Some(720);
    assert ParseClock(Times[13]) == Some(750);
  }

  lemma TimesRows2()
    ensures forall k :: 14 <= k < 21 ==> ParseClock(Times[k]) == Some(OpeningMinutes + 30 * k)
  {
    assert ParseClock(Times[14]) == Some(780);
    assert ParseClock(Times[15]) == Some(810);
    assert ParseClock(Times[16]) == Some(840);
    assert ParseClock(Times[17]) == Some(870);
    assert ParseClock(Times[18]) == Some(900);
    assert ParseClock(Times[19]) == Some(930);
    assert ParseClock(Times[20]) == Some(960);
  }

  lemma TimesRows3()
    ensures forall k :: 21 <= k < 28 ==> ParseClock(Times[k]) == Some(OpeningMinutes + 30 * k)
  {
    assert ParseClock(Times[21]) == Some(990);
    assert ParseClock(Times[22]) == Some(1020);
    assert ParseClock(Times[23]) == Some(1050);
    assert ParseClock(Times[24]) == Some(1080);
    assert ParseClock(Times[25]) == Some(1110);
    assert ParseClock(Times[26]) == Some(1140);
    assert ParseClock(Times[27]) == Some(1170);
  }

  lemma TimesRows4()
    ensures forall k :: 28 <= k < 35 ==> ParseClock(Times[k]) == Some(OpeningMinutes + 30 * k)
  {
    assert ParseClock(Times[28]) == Some(1200);
    assert ParseClock(Times[29]) == Some(1230);
    assert ParseClock(Times[30]) == Some(1260);
    assert ParseClock(Times[31]) == Some(1290);
    assert ParseClock(Times[32]) == Some(1320);
    assert ParseClock(Times[33]) == Some(1350);
    assert ParseClock(Times[34]) == Some(1380);
  }

  /** The table is exactly the 35 half-hour slots from the opening to the closing time. */
  lemma TimesIsLattice()
    ensures |Times| == 35
    ensures forall k :: 0 <= k < 35 ==> Times[k] == SlotAt(k)
    ensures Times[0] == BookingStartTime && Times[34] == BookingEndTime
  {
    TimesRows0(); TimesRows1(); TimesRows2(); TimesRows3(); TimesRows4();
    forall k | 0 <= k < 35 ensures Times[k] == SlotAt(k) {
      FormatParseClock(Times[k]);
    }
  }

  /** Every entry reads as a time between opening and closing, and each entry is exactly 30 minutes after the one before it. */
  lemma TimesStepByHalfHours(k: nat)
    requires k < |Times|
    ensures ParseClock(Times[k]).Some?
    ensures OpeningMinutes <= ParseClock(Times[k]).value <= ClosingMinutes
    ensures k > 0 ==> ParseClock(Times[k - 1]).Some? && ParseClock(Times[k]).value == ParseClock(Times[k - 1]).value + 30
  {
    TimesIsLattice();
  }
}
