/**
 How an instant is written. An instant is its rank in field order: year, month, day, hour,
 minute and second packed in mixed radix, months taking 31 slots each. Ranks compare as the
 instants do; a slot past the end of its month is no instant.
 */
module Stamps {
  import opened Digits
  import opened Wrappers

  datatype Fields = Fields(year: nat, month: nat, day: nat, hour: nat, minute: nat, second: nat)

  function DaysIn(year: nat, month: nat): nat {
    if month == 2 then (if year % 4 == 0 && (year % 100 != 0 || year % 400 == 0) then 29 else 28)
    else if month == 4 || month == 6 || month == 9 || month == 11 then 30
    else 31
  }

  /** A calendar second whose year takes four digits. */
  predicate Real(f: Fields) {
    && 1000 <= f.year <= 9999 && 1 <= f.month <= 12 && 1 <= f.day <= DaysIn(f.year, f.month)
    && f.hour < 24 && f.minute < 60 && f.second < 60
  }

  function Rank(f: Fields): int {
    ((((f.year * 12 + (f.month - 1)) * 31 + (f.day - 1)) * 24 + f.hour) * 60 + f.minute) * 60 + f.second
  }

  function FieldsAt(rank: nat): Fields {
    var minutes := rank / 60;
    var hours := minutes / 60;
    var days := hours / 24;
    var months := days / 31;
    Fields(months / 12, months % 12 + 1, days % 31 + 1, hours % 24, minutes % 60, rank % 60)
  }

  predicate IsSecond(rank: int) { 0 <= rank && Real(FieldsAt(rank)) && Rank(FieldsAt(rank)) == rank }

  /** RFC 3339 in UTC with whole seconds. */
  function Text(f: Fields): (s: string)
    requires Real(f)
    ensures |s| == 20
  {
    assert Power10(4) == 10000 && Power10(2) == 100 by { PowersOfTen(); }
    Padded(f.year, 4) + "-" + Padded(f.month, 2) + "-" + Padded(f.day, 2) + "T"
    + Padded(f.hour, 2) + ":" + Padded(f.minute, 2) + ":" + Padded(f.second, 2) + "Z"
  }

  lemma PowersOfTen()
    ensures Power10(4) == 10000 && Power10(2) == 100
  {
    assert Power10(1) == 10;
    assert Power10(2) == 100;
    assert Power10(3) == 1000;
  }

  /** The shape a date literal has, before its fields are looked at. */
  predicate IsDateText(s: string) {
    && |s| == 20
    && AllDigits(s[..4]) && s[4] == '-' && AllDigits(s[5..7]) && s[7] == '-' && AllDigits(s[8..10])
    && s[10] == 'T' && AllDigits(s[11..13]) && s[13] == ':' && AllDigits(s[14..16]) && s[16] == ':'
    && AllDigits(s[17..19]) && s[19] == 'Z'
  }

  /** None where the fields are no calendar second, as `strptime` raises. */
  function Parsed(s: string): (r: Option<Fields>)
    requires IsDateText(s)
  {
    var f := Fields(NatOf(s[..4]), NatOf(s[5..7]), NatOf(s[8..10]), NatOf(s[11..13]), NatOf(s[14..16]), NatOf(s[17..19]));
    if Real(f) then Some(f) else None
  }

  lemma TextParts(f: Fields)
    requires Real(f)
    ensures
      var s := Text(f);
      && Power10(4) == 10000 && Power10(2) == 100
      && s[..4] == Padded(f.year, 4) && s[5..7] == Padded(f.month, 2) && s[8..10] == Padded(f.day, 2)
      && s[11..13] == Padded(f.hour, 2) && s[14..16] == Padded(f.minute, 2) && s[17..19] == Padded(f.second, 2)
      && s[4] == '-' && s[7] == '-' && s[10] == 'T' && s[13] == ':' && s[16] == ':' && s[19] == 'Z'
  {
    PowersOfTen();
  }

  /** What is written is read back. */
  lemma TextRoundTrip(f: Fields)
    requires Real(f)
    ensures IsDateText(Text(f)) && Parsed(Text(f)) == Some(f)
  {
    TextParts(f);
    PaddedRoundTrip(f.year, 4);
    PaddedRoundTrip(f.month, 2);
    PaddedRoundTrip(f.day, 2);
    PaddedRoundTrip(f.hour, 2);
    PaddedRoundTrip(f.minute, 2);
    PaddedRoundTrip(f.second, 2);
  }

  lemma SameParts(a: string, b: string)
    requires |a| == 20 && |b| == 20
    requires a[..4] == b[..4] && a[5..7] == b[5..7] && a[8..10] == b[8..10]
    requires a[11..13] == b[11..13] && a[14..16] == b[14..16] && a[17..19] == b[17..19]
    requires a[4] == b[4] && a[7] == b[7] && a[10] == b[10] && a[13] == b[13] && a[16] == b[16] && a[19] == b[19]
    ensures a == b
  {
    assert a[..5] == a[..4] + [a[4]] == b[..5];
    assert a[..8] == a[..5] + a[5..7] + [a[7]] == b[..8];
    assert a[..11] == a[..8] + a[8..10] + [a[10]] == b[..11];
    assert a[..14] == a[..11] + a[11..13] + [a[13]] == b[..14];
    assert a[..17] == a[..14] + a[14..16] + [a[16]] == b[..17];
    assert a == a[..17] + a[17..19] + [a[19]];
    assert b == b[..17] + b[17..19] + [b[19]];
  }

  /** And only what would be written is read. */
  lemma ParsedIsText(s: string)
    requires IsDateText(s) && Parsed(s).Some?
    ensures Real(Parsed(s).value) && Text(Parsed(s).value) == s
  {
    PaddedReads(s[..4]);
    PaddedReads(s[5..7]);
    PaddedReads(s[8..10]);
    PaddedReads(s[11..13]);
    PaddedReads(s[14..16]);
    PaddedReads(s[17..19]);
    var text := Text(Parsed(s).value);
    TextParts(Parsed(s).value);
    SameParts(s, text);
  }

  lemma TextInjective(f: Fields, g: Fields)
    requires Real(f) && Real(g) && Text(f) == Text(g)
    ensures f == g
  {
    TextRoundTrip(f);
    TextRoundTrip(g);
  }

  predicate StampChar(c: char) { IsDigit(c) || c == '-' || c == 'T' || c == ':' || c == 'Z' }

  lemma DigitSlice(s: string, from: nat, to: nat)
    requires from <= to <= |s| && AllDigits(s[from..to])
    ensures forall j :: from <= j < to ==> IsDigit(s[j])
  {
    assert forall j :: from <= j < to ==> s[j] == s[from..to][j - from];
  }

  /** A date literal is digits and its five separators. */
  lemma DateTextChars(s: string)
    requires IsDateText(s)
    ensures forall j :: 0 <= j < |s| ==> StampChar(s[j])
  {
    DigitSlice(s, 0, 4);
    DigitSlice(s, 5, 7);
    DigitSlice(s, 8, 10);
    DigitSlice(s, 11, 13);
    DigitSlice(s, 14, 16);
    DigitSlice(s, 17, 19);
  }
}
