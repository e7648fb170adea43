/**
 Laws of the timestamp codec: every text of timestamp shape is read field by
 field, so that writing and reading are inverse exactly where the year fits its
 four columns, and every accepted offset form denotes the instant it renders.
 */
module TimeLaws {
  import opened Domain
  import opened Calendar
  import opened TimeUtils

  // ----- digits -----

  lemma {:induction false} PaddedDigits(n: nat, width: nat)
    ensures forall i :: 0 <= i < |Padded(n, width)| ==> IsDigit(Padded(n, width)[i])
    decreases n, width
  {
    if n > 0 || width > 0 {
      PaddedDigits(n / 10, if width > 0 then width - 1 else 0);
    }
  }

  lemma PaddedTwo(n: nat)
    requires n <= 99
    ensures Padded(n, 2) == [DigitChar(n / 10), DigitChar(n % 10)]
  {
    assert Padded(n / 100, 0) == "";
    assert Padded(n / 10, 1) == [DigitChar(n / 10)];
  }

  lemma {:induction false} PaddedLength(n: nat, width: nat, limit: nat)
    requires limit == Power10(width)
    ensures |Padded(n, width)| == width <==> n < limit
    decreases width
  {
    if width == 0 {
      assert n > 0 ==> |Padded(n, 0)| == |Padded(n / 10, 0)| + 1;
    } else {
      PaddedLength(n / 10, width - 1, Power10(width - 1));
    }
  }

  function Power10(k: nat): nat {
    if k == 0 then 1 else 10 * Power10(k - 1)
  }

  function DigitsValue(s: string): int {
    if s == [] then 0 else 10 * DigitsValue(s[..|s| - 1]) + DigitValue(s[|s| - 1])
  }

  lemma {:induction false} NumberIsValue(s: string, start: nat, end: nat)
    requires start <= end <= |s|
    ensures NumberAt(s, start, end) == DigitsValue(s[start..end])
    decreases end
  {
    if start < end {
      NumberIsValue(s, start, end - 1);
      assert s[start..end][..end - start - 1] == s[start..end - 1];
    }
  }

  lemma {:induction false} PaddedValue(n: nat, width: nat)
    ensures DigitsValue(Padded(n, width)) == n
    decreases n, width
  {
    if n > 0 || width > 0 {
      var w := if width > 0 then width - 1 else 0;
      PaddedValue(n / 10, w);
      assert Padded(n, width)[..|Padded(n, width)| - 1] == Padded(n / 10, w);
    }
  }

  // ----- scanning what was printed -----

  lemma {:induction false} DigitsEndExact(s: string, i: nat, width: nat)
    requires i + width <= |s|
    requires forall j :: i <= j < i + width ==> IsDigit(s[j])
    ensures DigitsEnd(s, i, width) == i + width
    decreases width
  {
    if width > 0 {
      DigitsEndExact(s, i + 1, width - 1);
    }
  }

  /** A text without minus sign: digits that fill the width, and their value. */
  predicate DigitsFor(text: string, value: int, width: nat) {
    && |text| == width > 0
    && (forall j :: 0 <= j < |text| ==> IsDigit(text[j]))
    && DigitsValue(text) == value
  }

  /** Digits that fill the whole width are read as their value. */
  lemma ScanDigits(s: string, i: nat, text: string, value: int, width: nat)
    requires DigitsFor(text, value, width) && i + width <= |s| && s[i..i + width] == text
    ensures ScanInt(s, i, width) == Some(Scan(value, i + width))
  {
    assert forall j :: i <= j < i + width ==> s[j] == text[j - i];
    DigitsEndExact(s, i, width);
    NumberIsValue(s, i, i + width);
  }

  /** A minus sign takes one of the columns. */
  lemma ScanNegative(s: string, i: nat, text: string, value: int, width: nat)
    requires DigitsFor(text, value, width) && i + 1 + width <= |s| && s[i..i + 1 + width] == "-" + text
    ensures ScanInt(s, i, width + 1) == Some(Scan(-value, i + 1 + width))
  {
    assert s[i] == s[i..i + 1 + width][0];
    assert s[i + 1..i + 1 + width] == s[i..i + 1 + width][1..] == text;
    assert forall j :: i + 1 <= j < i + 1 + width ==> s[j] == text[j - i - 1];
    DigitsEndExact(s, i + 1, width);
    NumberIsValue(s, i + 1, i + 1 + width);
  }

  lemma PaddedFor(n: nat, width: nat, limit: nat)
    requires width > 0 && limit == Power10(width) && n < limit
    ensures DigitsFor(Padded(n, width), n, width)
  {
    PaddedLength(n, width, limit);
    PaddedDigits(n, width);
    PaddedValue(n, width);
  }

  /** A field of two columns is a digit or a minus sign, then a digit. */
  lemma FieldTextTwo(n: int)
    requires FieldFits(n)
    ensures |FieldText(n)| == 2 && IsDigit(FieldText(n)[1])
    ensures n >= 0 ==> DigitsFor(FieldText(n), n, 2)
    ensures n < 0 ==> DigitsFor(Padded(-n, 1), -n, 1) && FieldText(n) == "-" + Padded(-n, 1)
  {
    assert Power10(1) == 10 && Power10(2) == 100;
    if n >= 0 {
      PaddedFor(n, 2, 100);
    } else {
      PaddedFor(-n, 1, 10);
    }
  }

  lemma ScanField(s: string, i: nat, n: int)
    requires FieldFits(n) && i + 2 <= |s| && s[i..i + 2] == FieldText(n)
    ensures ScanInt(s, i, 2) == Some(Scan(n, i + 2))
  {
    FieldTextTwo(n);
    if n >= 0 {
      ScanDigits(s, i, FieldText(n), n, 2);
    } else {
      ScanNegative(s, i, Padded(-n, 1), -n, 1);
    }
  }

  /** The years that fit the four columns of `%4d`. */
  predicate FourColumns(year: int) {
    -999 <= year <= 9999
  }

  lemma YearTextLength(year: int)
    ensures |YearText(year)| >= 4
    ensures |YearText(year)| == 4 <==> FourColumns(year)
    ensures forall j :: 1 <= j < |YearText(year)| ==> IsDigit(YearText(year)[j])
    ensures IsDigit(YearText(year)[0]) || YearText(year)[0] == '-'
  {
    assert Power10(3) == 1000 && Power10(4) == 10000;
    if year >= 0 {
      PaddedLength(year, 4, 10000);
      PaddedDigits(year, 4);
    } else {
      PaddedLength(-year, 3, 1000);
      PaddedDigits(-year, 3);
    }
  }

  lemma ScanYear(s: string, year: int)
    requires FourColumns(year) && |s| >= 4 && s[..4] == YearText(year)
    ensures ScanInt(s, 0, 4) == Some(Scan(year, 4))
  {
    assert Power10(3) == 1000 && Power10(4) == 10000;
    assert s[0..4] == s[..4];
    if year >= 0 {
      PaddedFor(year, 4, 10000);
      ScanDigits(s, 0, Padded(year, 4), year, 4);
    } else {
      PaddedFor(-year, 3, 1000);
      ScanNegative(s, 0, Padded(-year, 3), -year, 3);
    }
  }

  /** A year that needs a fifth column is cut after the fourth, and the digit
      that follows is not the expected hyphen. */
  lemma ScanLongYear(s: string, year: int)
    requires !FourColumns(year) && YearText(year) <= s
    ensures ScanFields(s) == None
  {
    YearTextLength(year);
    assert forall j :: 0 <= j < 5 ==> s[j] == YearText(year)[j];
    if IsDigit(s[0]) {
      ScanDigits(s, 0, s[0..4], DigitsValue(s[0..4]), 4);
    } else {
      assert s[0..4] == "-" + s[1..4];
      ScanNegative(s, 0, s[1..4], DigitsValue(s[1..4]), 3);
    }
  }

  /** Where the parts of a wall-clock text stand. */
  predicate WallAt(s: string, c: Civil) {
    && |s| >= 19
    && s[..4] == YearText(c.date.year) && s[4] == '-'
    && s[5..7] == FieldText(c.date.month) && s[7] == '-'
    && s[8..10] == FieldText(c.date.day) && s[10] == 'T'
    && s[11..13] == FieldText(c.hour) && s[13] == ':'
    && s[14..16] == FieldText(c.minute) && s[16] == ':'
    && s[17..19] == FieldText(c.second)
  }

  /** The pieces of a text put together the way a wall-clock text is. */
  lemma WallPieces(y: string, mo: string, d: string, h: string, mi: string, sec: string, tail: string)
    requires |y| == 4 && |mo| == |d| == |h| == |mi| == |sec| == 2
    ensures var w := y + "-" + mo + "-" + d + "T" + h + ":" + mi + ":" + sec;
      var s := w + tail;
      && |w| == 19
      && s[..4] == y && s[4] == '-' && s[5..7] == mo && s[7] == '-' && s[8..10] == d && s[10] == 'T'
      && s[11..13] == h && s[13] == ':' && s[14..16] == mi && s[16] == ':' && s[17..19] == sec
  {
    var s := y + ("-" + (mo + ("-" + (d + ("T" + (h + (":" + (mi + (":" + (sec + tail))))))))));
    assert s == y + "-" + mo + "-" + d + "T" + h + ":" + mi + ":" + sec + tail;
    assert s[0..] == s;
    TailSplit(s, 0, y, "-" + (mo + ("-" + (d + ("T" + (h + (":" + (mi + (":" + (sec + tail))))))))));
    TailSplit(s, 4, "-", mo + ("-" + (d + ("T" + (h + (":" + (mi + (":" + (sec + tail)))))))));
    TailSplit(s, 5, mo, "-" + (d + ("T" + (h + (":" + (mi + (":" + (sec + tail))))))));
    TailSplit(s, 7, "-", d + ("T" + (h + (":" + (mi + (":" + (sec + tail)))))));
    TailSplit(s, 8, d, "T" + (h + (":" + (mi + (":" + (sec + tail))))));
    TailSplit(s, 10, "T", h + (":" + (mi + (":" + (sec + tail)))));
    TailSplit(s, 11, h, ":" + (mi + (":" + (sec + tail))));
    TailSplit(s, 13, ":", mi + (":" + (sec + tail)));
    TailSplit(s, 14, mi, ":" + (sec + tail));
    TailSplit(s, 16, ":", sec + tail);
    TailSplit(s, 17, sec, tail);
    assert s[4] == s[4..5][0] && s[7] == s[7..8][0] && s[10] == s[10..11][0];
    assert s[13] == s[13..14][0] && s[16] == s[16..17][0];
  }

  lemma WallTextAt(c: Civil, tail: string)
    requires TwoColumns(c) && FourColumns(c.date.year)
    ensures |WallText(c)| == 19 && WallAt(WallText(c) + tail, c)
  {
    YearTextLength(c.date.year);
    FieldTextTwo(c.date.month);
    FieldTextTwo(c.date.day);
    FieldTextTwo(c.hour);
    FieldTextTwo(c.minute);
    FieldTextTwo(c.second);
    WallPieces(YearText(c.date.year), FieldText(c.date.month), FieldText(c.date.day),
               FieldText(c.hour), FieldText(c.minute), FieldText(c.second), tail);
  }

  /** The fields that a wall-clock text is read as. */
  function FieldsOf(c: Civil): Fields {
    Fields(c.date.year, c.date.month, c.date.day, c.hour, c.minute, c.second, 19)
  }

  lemma ScanWall(s: string, c: Civil)
    requires TwoColumns(c) && FourColumns(c.date.year) && WallAt(s, c)
    ensures ScanFields(s) == Some(FieldsOf(c))
  {
    ScanYear(s, c.date.year);
    ScanField(s, 5, c.date.month);
    ScanField(s, 8, c.date.day);
    ScanField(s, 11, c.hour);
    ScanField(s, 14, c.minute);
    ScanField(s, 17, c.second);
  }

  // ----- fractions and offsets -----

  function OffsetText(west: bool, hours: int, minutes: int, colon: bool): string {
    [if west then '-' else '+'] + FieldText(hours) + (if colon then ":" else "") + FieldText(minutes)
  }

  /** The offset forms that the parser documents. */
  datatype Suffix =
    | NoOffset
    | Zulu(upper: bool)
    | Offset(west: bool, hours: int, minutes: int, colon: bool)
  {
    predicate Valid() {
      Offset? ==> 0 <= hours <= 99 && 0 <= minutes <= 99
    }

    function Text(): string {
      match this
      case NoOffset => ""
      case Zulu(upper) => if upper then "Z" else "z"
      case Offset(west, hours, minutes, colon) => OffsetText(west, hours, minutes, colon)
    }

    /** How far the wall clock is ahead of UTC. */
    function Ahead(): int {
      match this
      case NoOffset => 0
      case Zulu(_) => 0
      case Offset(west, hours, minutes, _) =>
        if west then -3600 * hours - 60 * minutes else 3600 * hours + 60 * minutes
    }
  }

  lemma ParseSuffixText(s: string, i: nat, suffix: Suffix)
    requires suffix.Valid() && i <= |s| && s[i..] == suffix.Text()
    ensures ParseSuffix(s, i) == Some(Scan(suffix.Ahead(), |s|))
  {
    if suffix.Offset? {
      AheadSeconds(suffix);
      ParseOffsetText(s, i, suffix.west, suffix.hours, suffix.minutes, suffix.colon, suffix.Ahead());
    } else {
      assert suffix.Zulu? ==> s[i] == s[i..][0];
    }
  }

  lemma AheadSeconds(suffix: Suffix)
    requires suffix.Offset?
    ensures suffix.Ahead() == OffsetSeconds(suffix.west, suffix.hours, suffix.minutes)
  {
  }

  lemma ParseOffsetText(s: string, i: nat, west: bool, hours: int, minutes: int, colon: bool, ahead: int)
    requires 0 <= hours <= 99 && 0 <= minutes <= 99 && ahead == OffsetSeconds(west, hours, minutes)
    requires i <= |s| && s[i..] == OffsetText(west, hours, minutes, colon)
    ensures At(s, i) == if west then '-' else '+'
    ensures ParseUtcOffset(s, i) == Some(Scan(ahead, |s|))
  {
    var sign := if west then '-' else '+';
    FieldTextTwo(hours);
    FieldTextTwo(minutes);
    if colon {
      ColonPieces(s, i, sign, FieldText(hours), FieldText(minutes));
      ParseColonOffset(s, i, hours, minutes);
    } else {
      PlainPieces(s, i, sign, FieldText(hours), FieldText(minutes));
      ParsePlainOffset(s, i, hours, minutes);
    }
  }

  /** The pieces of a text that is a concatenation, from position `i` on. */
  lemma TailSplit(s: string, i: nat, a: string, b: string)
    requires i <= |s| && s[i..] == a + b
    ensures i + |a| <= |s| && s[i..i + |a|] == a && s[i + |a|..] == b
  {
    var t := s[i..];
    assert s[i..i + |a|] == t[..|a|];
    assert s[i + |a|..] == t[|a|..];
  }

  lemma ColonPieces(s: string, i: nat, sign: char, h: string, m: string)
    requires i <= |s| && |h| == |m| == 2 && s[i..] == [sign] + h + ":" + m
    ensures |s| == i + 6 && s[i] == sign && s[i + 1..i + 3] == h && s[i + 3] == ':' && s[i + 4..i + 6] == m
  {
    var t := s[i..];
    assert s[i] == t[0] && s[i + 3] == t[3];
    assert s[i + 1..i + 3] == t[1..3] == h;
    assert s[i + 4..i + 6] == t[4..6] == m;
  }

  lemma PlainPieces(s: string, i: nat, sign: char, h: string, m: string)
    requires i <= |s| && |h| == |m| == 2 && s[i..] == [sign] + h + "" + m
    ensures |s| == i + 5 && s[i] == sign && s[i + 1..i + 3] == h && s[i + 3] == m[0] && s[i + 3..i + 5] == m
  {
    var t := s[i..];
    assert s[i] == t[0] && s[i + 3] == t[3];
    assert s[i + 1..i + 3] == t[1..3] == h;
    assert s[i + 3..i + 5] == t[3..5] == m;
  }

  lemma ParseColonOffset(s: string, i: nat, hours: int, minutes: int)
    requires FieldFits(hours) && FieldFits(minutes)
    requires |s| == i + 6 && s[i + 1..i + 3] == FieldText(hours)
    requires s[i + 3] == ':' && s[i + 4..i + 6] == FieldText(minutes)
    ensures ParseUtcOffset(s, i) == Some(Scan(OffsetSeconds(s[i] == '-', hours, minutes), |s|))
  {
    ScanField(s, i + 1, hours);
    ScanField(s, i + 4, minutes);
    assert ScanPair(s, i + 1, true) == Some(Pair(hours, minutes, i + 6));
  }

  lemma ParsePlainOffset(s: string, i: nat, hours: int, minutes: int)
    requires FieldFits(hours) && FieldFits(minutes)
    requires |s| == i + 5 && s[i + 1..i + 3] == FieldText(hours)
    requires s[i + 3] != ':' && s[i + 3..i + 5] == FieldText(minutes)
    ensures ParseUtcOffset(s, i) == Some(Scan(OffsetSeconds(s[i] == '-', hours, minutes), |s|))
  {
    ScanField(s, i + 1, hours);
    ScanField(s, i + 3, minutes);
    assert ScanPair(s, i + 1, true) == None;
    assert ScanPair(s, i + 1, false) == Some(Pair(hours, minutes, i + 5));
  }

  predicate AllDigits(s: string) {
    forall c <- s :: IsDigit(c)
  }

  /** An optional fraction of a second: nothing, or a point and some digits. */
  function FractionText(digits: string): string {
    if digits == [] then "" else "." + digits
  }

  lemma {:induction false} DigitRun(s: string, i: nat, end: nat)
    requires i <= end <= |s|
    requires forall j :: i <= j < end ==> IsDigit(s[j])
    requires !IsDigit(At(s, end))
    ensures DigitRunEnd(s, i) == end
    decreases end - i
  {
    if i < end {
      DigitRun(s, i + 1, end);
    }
  }

  lemma SkipFractionThen(s: string, i: nat, digits: string, rest: string)
    requires AllDigits(digits) && i <= |s| && s[i..] == FractionText(digits) + rest
    requires rest != "" ==> !IsDigit(rest[0]) && rest[0] != '.'
    ensures var p := i + |FractionText(digits)|;
      SkipFraction(s, i) == Some(p) && p <= |s| && s[p..] == rest
  {
    TailSplit(s, i, FractionText(digits), rest);
    var p := i + |FractionText(digits)|;
    assert p < |s| ==> s[p] == s[p..][0];
    if digits != [] {
      assert s[i..p] == "." + digits;
      assert s[i] == s[i..p][0];
      assert s[i + 1..p] == s[i..p][1..] == digits;
      forall j | i + 1 <= j < p ensures IsDigit(s[j]) {
        assert s[j] == s[i + 1..p][j - i - 1];
      }
      DigitRun(s, i + 1, p);
    }
  }

  lemma SuffixStart(suffix: Suffix)
    ensures suffix.Text() != "" ==> !IsDigit(suffix.Text()[0]) && suffix.Text()[0] != '.'
  {
  }

  lemma SkipFractionText(s: string, i: nat, digits: string, suffix: Suffix)
    requires suffix.Valid() && AllDigits(digits)
    requires i <= |s| && s[i..] == FractionText(digits) + suffix.Text()
    ensures var p := i + |FractionText(digits)|;
      SkipFraction(s, i) == Some(p) && p <= |s| && s[p..] == suffix.Text()
  {
    SuffixStart(suffix);
    SkipFractionThen(s, i, digits, suffix.Text());
  }

  // ----- the whole text -----

  predicate NoNul(s: string) {
    '\0' !in s
  }

  lemma {:induction false} NulIs(text: string, i: nat, end: nat)
    requires i <= end <= |text| && NoNul(text[i..end]) && (end < |text| ==> text[end] == '\0')
    ensures NulAt(text, i) == end
    decreases end - i
  {
    if i < end {
      assert text[i..end] == [text[i]] + text[i + 1..end];
      NulIs(text, i + 1, end);
    }
  }

  lemma CStrWhole(s: string)
    requires NoNul(s)
    ensures CStr(s) == s
  {
    assert s[0..|s|] == s;
    NulIs(s, 0, |s|);
  }

  function Timestamp(c: Civil, digits: string, suffix: Suffix): string {
    WallText(c) + FractionText(digits) + suffix.Text()
  }

  lemma FieldHasNoNul(n: int)
    ensures NoNul(FieldText(n)) && NoNul(YearText(n))
  {
    PaddedDigits(if n >= 0 then n else -n, if n >= 0 then 2 else 1);
    PaddedDigits(if n >= 0 then n else -n, if n >= 0 then 4 else 3);
  }

  lemma WallTextHasNoNul(c: Civil)
    ensures NoNul(WallText(c))
  {
    FieldHasNoNul(c.date.year);
    FieldHasNoNul(c.date.month);
    FieldHasNoNul(c.date.day);
    FieldHasNoNul(c.hour);
    FieldHasNoNul(c.minute);
    FieldHasNoNul(c.second);
    NoNulJoin(YearText(c.date.year), "-", FieldText(c.date.month));
    NoNulJoin(YearText(c.date.year) + "-" + FieldText(c.date.month), "-", FieldText(c.date.day));
    var date := YearText(c.date.year) + "-" + FieldText(c.date.month) + "-" + FieldText(c.date.day);
    NoNulJoin(date, "T", FieldText(c.hour));
    NoNulJoin(date + "T" + FieldText(c.hour), ":", FieldText(c.minute));
    NoNulJoin(date + "T" + FieldText(c.hour) + ":" + FieldText(c.minute), ":", FieldText(c.second));
  }

  lemma NoNulJoin(a: string, separator: string, b: string)
    requires NoNul(a) && NoNul(separator) && NoNul(b)
    ensures NoNul(a + separator + b)
  {
  }

  lemma NoNulConcat(a: string, b: string)
    requires NoNul(a) && NoNul(b)
    ensures NoNul(a + b)
  {
  }

  lemma TailHasNoNul(digits: string, suffix: Suffix)
    requires AllDigits(digits)
    ensures NoNul(FractionText(digits)) && NoNul(suffix.Text())
  {
    if suffix.Offset? {
      FieldHasNoNul(suffix.hours);
      FieldHasNoNul(suffix.minutes);
    }
  }

  lemma TimestampHasNoNul(c: Civil, digits: string, suffix: Suffix)
    requires AllDigits(digits)
    ensures NoNul(Timestamp(c, digits, suffix))
  {
    WallTextHasNoNul(c);
    TailHasNoNul(digits, suffix);
    NoNulConcat(WallText(c), FractionText(digits));
    NoNulConcat(WallText(c) + FractionText(digits), suffix.Text());
  }

  /** The text shows a wall clock in its first 19 columns, every field filling its
      columns, then a fraction and an offset, and nothing else. */
  ghost predicate Shows(s: string, c: Civil, digits: string, suffix: Suffix) {
    && TwoColumns(c) && FourColumns(c.date.year) && AllDigits(digits) && suffix.Valid()
    && NoNul(s) && WallAt(s, c) && s[19..] == FractionText(digits) + suffix.Text()
  }

  lemma PartsMeaning(s: string, c: Civil, digits: string, suffix: Suffix)
    requires Shows(s, c, digits, suffix)
    ensures ScanFields(s) == Some(FieldsOf(c))
    ensures ParsedRest(s, FieldsOf(c)) == Shifted(ClockSeconds(c), suffix.Ahead())
  {
    ScanWall(s, c);
    SkipFractionText(s, 19, digits, suffix);
    ParseSuffixText(s, 19 + |FractionText(digits)|, suffix);
    EndMeaning(s, FieldsOf(c), 19 + |FractionText(digits)|, suffix.Ahead());
  }

  lemma TextMeaning(text: string, f: Fields, ahead: int)
    requires NoNul(text) && ScanFields(text) == Some(f)
    requires ParsedRest(text, f) == Shifted(ClockSeconds(CivilOf(f)), ahead)
    ensures ParsedInstant(text) == Shifted(ClockSeconds(CivilOf(f)), ahead)
  {
    CStrWhole(text);
  }

  /** Showing a wall clock is being its printing. */
  lemma TimestampShows(c: Civil, digits: string, suffix: Suffix)
    requires TwoColumns(c) && FourColumns(c.date.year) && AllDigits(digits) && suffix.Valid()
    ensures Shows(Timestamp(c, digits, suffix), c, digits, suffix)
  {
    var tail := FractionText(digits) + suffix.Text();
    TimestampHasNoNul(c, digits, suffix);
    WallTextAt(c, tail);
    Behind(WallText(c), FractionText(digits), suffix.Text());
  }

  lemma Behind(a: string, b: string, c: string)
    ensures a + b + c == a + (b + c) && (a + b + c)[|a|..] == b + c
  {
  }

  lemma WallTextIs(s: string, c: Civil)
    requires WallAt(s, c)
    ensures s[..19] == WallText(c)
  {
    var y, mo, d := YearText(c.date.year), FieldText(c.date.month), FieldText(c.date.day);
    var h, mi, sec := FieldText(c.hour), FieldText(c.minute), FieldText(c.second);
    assert s[..5] == y + "-";
    assert s[..8] == s[..5] + s[5..7] + "-";
    assert s[..11] == s[..8] + s[8..10] + "T";
    assert s[..14] == s[..11] + s[11..13] + ":";
    assert s[..17] == s[..14] + s[14..16] + ":";
    assert s[..19] == s[..17] + s[17..19];
  }

  lemma ShownIsTimestamp(s: string, c: Civil, digits: string, suffix: Suffix)
    requires Shows(s, c, digits, suffix)
    ensures s == Timestamp(c, digits, suffix)
  {
    WallTextIs(s, c);
    TextHalves(s, 19, WallText(c), FractionText(digits), suffix.Text());
  }

  lemma TextHalves(s: string, i: nat, a: string, b: string, c: string)
    requires i <= |s| && s[..i] == a && s[i..] == b + c
    ensures s == a + b + c
  {
    assert s == s[..i] + s[i..];
  }

  lemma EndMeaning(s: string, f: Fields, p: nat, ahead: int)
    requires ParseSuffix(s, p) == Some(Scan(ahead, |s|))
    ensures ParsedEnd(s, f, p) == Shifted(ClockSeconds(CivilOf(f)), ahead)
  {
  }

  /** A text of timestamp shape, each field filling its columns, is accepted
      exactly when its date exists and its hour, minute and second are at most 23,
      59 and 60 (`ClockSeconds`); it then denotes the wall clock less the offset.
      A negative hour, minute or second is accepted, although it is no time of
      day. */
  lemma TimestampMeaning(s: string, c: Civil, digits: string, suffix: Suffix)
    requires Shows(s, c, digits, suffix)
    ensures ParsedInstant(s) == Shifted(ClockSeconds(c), suffix.Ahead())
  {
    PartsMeaning(s, c, digits, suffix);
    assert CivilOf(FieldsOf(c)) == c;
    TextMeaning(s, FieldsOf(c), suffix.Ahead());
  }

  /** The year of an instant, in UTC. */
  function YearAt(t: int): int {
    SplitUtc(t).date.year
  }

  lemma SplitUtcReads(t: int)
    ensures TwoColumns(SplitUtc(t)) && ClockSeconds(SplitUtc(t)) == Some(t)
  {
    SplitRoundTrip(t);
  }

  /** Offset correctness: whatever form an offset takes and whatever fraction is
      printed, a wall clock that reads an instant at that offset denotes the
      instant. */
  lemma OffsetCorrect(s: string, t: int, c: Civil, digits: string, suffix: Suffix)
    requires Shows(s, c, digits, suffix) && Renders(c, suffix, t)
    ensures ParsedInstant(s) == Some(t)
  {
    TimestampMeaning(s, c, digits, suffix);
  }

  /** The wall clock reads the instant `t` at the offset of `suffix`. */
  predicate Renders(c: Civil, suffix: Suffix, t: int) {
    Shifted(ClockSeconds(c), suffix.Ahead()) == Some(t)
  }

  lemma RendersIff(c: Civil, suffix: Suffix, t: int)
    ensures Renders(c, suffix, t) <==> ClockSeconds(c) == Some(t + suffix.Ahead())
  {
  }

  /** Rendering and reading are inverse in every form: the wall clock of an instant at an
      offset, printed with any fraction and that offset, denotes the instant if the year
      on that wall clock has four columns. */
  lemma RenderedIsParsed(t: int, digits: string, suffix: Suffix)
    requires suffix.Valid() && AllDigits(digits) && FourColumns(YearAt(t + suffix.Ahead()))
    ensures ParsedInstant(Timestamp(SplitUtc(t + suffix.Ahead()), digits, suffix)) == Some(t)
  {
    var wall := t + suffix.Ahead();
    SplitUtcReads(wall);
    RendersIff(SplitUtc(wall), suffix, t);
    PrintedIsParsed(t, SplitUtc(wall), digits, suffix);
  }

  lemma PrintedIsParsed(t: int, c: Civil, digits: string, suffix: Suffix)
    requires TwoColumns(c) && FourColumns(c.date.year) && AllDigits(digits) && suffix.Valid() && Renders(c, suffix, t)
    ensures ParsedInstant(Timestamp(c, digits, suffix)) == Some(t)
  {
    TimestampShows(c, digits, suffix);
    OffsetCorrect(Timestamp(c, digits, suffix), t, c, digits, suffix);
  }

  const UTC := Offset(false, 0, 0, true)

  lemma FormatIsTimestamp(t: int)
    ensures FormatIso8601Utc(t) == Timestamp(SplitUtc(t), "", UTC)
  {
    UtcText(WallText(SplitUtc(t)));
  }

  lemma UtcText(wall: string)
    ensures wall + FractionText("") + UTC.Text() == wall + "+00:00"
  {
    PaddedTwo(0);
    assert UTC.Text() == "+00:00";
    assert wall + "" == wall;
  }

  lemma UtcMeaning(parsed: Option<int>, clock: Option<int>, t: int)
    requires parsed == Shifted(clock, UTC.Ahead()) && clock == Some(t)
    ensures parsed == Some(t)
  {
  }

  lemma YearTextIsFirst(c: Civil)
    ensures YearText(c.date.year) <= Timestamp(c, "", UTC)
  {
    var y := YearText(c.date.year);
    var date := y + "-" + FieldText(c.date.month) + "-" + FieldText(c.date.day);
    Longer(y, y, "-", FieldText(c.date.month));
    Longer(y, y + "-" + FieldText(c.date.month), "-", FieldText(c.date.day));
    Longer(y, date, "T", FieldText(c.hour));
    Longer(y, date + "T" + FieldText(c.hour), ":", FieldText(c.minute));
    Longer(y, date + "T" + FieldText(c.hour) + ":" + FieldText(c.minute), ":", FieldText(c.second));
    Longer(y, WallText(c), FractionText(""), UTC.Text());
  }

  lemma Longer(prefix: string, a: string, b: string, c: string)
    requires prefix <= a
    ensures prefix <= a + b + c
  {
  }

  lemma Rejected(text: string)
    requires NoNul(text) && ScanFields(text) == None
    ensures ParsedInstant(text) == None
  {
    CStrWhole(text);
  }

  lemma LongYear(text: string, year: int)
    requires NoNul(text) && YearText(year) <= text && !FourColumns(year)
    ensures ParsedInstant(text) == None
  {
    ScanLongYear(text, year);
    Rejected(text);
  }

  lemma UtcRoundTrip(text: string, t: int, c: Civil)
    requires Shows(text, c, "", UTC) && ClockSeconds(c) == Some(t)
    ensures ParsedInstant(text) == Some(t)
  {
    TimestampMeaning(text, c, "", UTC);
    UtcMeaning(ParsedInstant(text), ClockSeconds(c), t);
  }

  lemma FormatShows(t: int)
    requires FourColumns(YearAt(t))
    ensures Shows(FormatIso8601Utc(t), SplitUtc(t), "", UTC)
  {
    SplitUtcReads(t);
    FormatIsTimestamp(t);
    TimestampShows(SplitUtc(t), "", UTC);
  }

  lemma FormatOverflows(t: int)
    requires !FourColumns(YearAt(t))
    ensures NoNul(FormatIso8601Utc(t)) && YearText(YearAt(t)) <= FormatIso8601Utc(t)
  {
    FormatIsTimestamp(t);
    TimestampHasNoNul(SplitUtc(t), "", UTC);
    YearTextIsFirst(SplitUtc(t));
  }

  /** Reading back what was written gives the same second exactly for the years
      -999 to 9999; outside them the text that was written is rejected. */
  lemma TimestampRoundTrip(t: int)
    ensures ParsedInstant(FormatIso8601Utc(t)) == if FourColumns(YearAt(t)) then Some(t) else None
  {
    if FourColumns(YearAt(t)) {
      SplitUtcReads(t);
      FormatShows(t);
      UtcRoundTrip(FormatIso8601Utc(t), t, SplitUtc(t));
    } else {
      FormatOverflows(t);
      LongYear(FormatIso8601Utc(t), YearAt(t));
    }
  }

  // ----- the codec in digits and seconds -----

  const DIGITS := "0123456789"

  lemma DigitIs(d: int)
    requires 0 <= d <= 9
    ensures DigitChar(d) == DIGITS[d]
  {
    assert d == 0 || d == 1 || d == 2 || d == 3 || d == 4 || d == 5 || d == 6 || d == 7 || d == 8 || d == 9;
  }

  /** What stands in two columns. */
  lemma TwoDigits(n: int)
    requires 0 <= n <= 99
    ensures FieldText(n) == [DIGITS[n / 10], DIGITS[n % 10]]
  {
    PaddedTwo(n);
    DigitIs(n / 10);
    DigitIs(n % 10);
  }

  /** What stands in the four columns of a year. */
  lemma FourDigits(year: int)
    requires 0 <= year <= 9999
    ensures YearText(year) == [DIGITS[year / 1000], DIGITS[year / 100 % 10], DIGITS[year / 10 % 10], DIGITS[year % 10]]
  {
    var a, b := year / 100, year % 100;
    PaddedTwo(a);
    assert year / 10 / 10 == a && Padded(year / 10, 3) == Padded(a, 2) + [DigitChar(year / 10 % 10)];
    assert Padded(year, 4) == Padded(year / 10, 3) + [DigitChar(year % 10)];
    assert year / 1000 == a / 10;
    DigitIs(a / 10);
    DigitIs(a % 10);
    DigitIs(year / 10 % 10);
    DigitIs(year % 10);
  }

  /** A wall clock that the calendar and the clock have; leap seconds count. */
  predicate ClockTime(c: Civil) {
    && 1 <= c.date.month <= 12 && 1 <= c.date.day <= MonthLength(c.date.year, c.date.month)
    && c.hour <= 23 && c.minute <= 59 && c.second <= 60
  }

  /** `parsed` is the wall clock and `correction` seconds; it is rejected if there is no
      such wall clock. */
  predicate Denotes(parsed: Option<int>, c: Civil, correction: int) {
    if !ClockTime(c) then parsed == None
    else parsed == Some(86400 * DayNumber(c.date) + 3600 * c.hour + 60 * c.minute + c.second + correction)
  }

  lemma ShiftedDenotes(parsed: Option<int>, c: Civil, suffix: Suffix)
    requires parsed == Shifted(ClockSeconds(c), suffix.Ahead())
    ensures suffix.Offset? && !suffix.west ==> Denotes(parsed, c, -3600 * suffix.hours - 60 * suffix.minutes)
    ensures suffix.Offset? && suffix.west ==> Denotes(parsed, c, 3600 * suffix.hours + 60 * suffix.minutes)
    ensures !suffix.Offset? ==> Denotes(parsed, c, 0)
  {
  }

  /** The value of a shown wall clock with a numeric offset: `+h:m` takes the hours and
      minutes off, `-h:m` puts them on. */
  lemma OffsetArithmetic(s: string, c: Civil, digits: string, suffix: Suffix)
    requires suffix.Offset? && Shows(s, c, digits, suffix)
    ensures !suffix.west ==> Denotes(ParsedInstant(s), c, -3600 * suffix.hours - 60 * suffix.minutes)
    ensures suffix.west ==> Denotes(ParsedInstant(s), c, 3600 * suffix.hours + 60 * suffix.minutes)
  {
    TimestampMeaning(s, c, digits, suffix);
    ShiftedDenotes(ParsedInstant(s), c, suffix);
  }

  /** `Z`, `z` and no offset at all mean UTC. */
  lemma UtcArithmetic(s: string, c: Civil, digits: string, suffix: Suffix)
    requires Shows(s, c, digits, suffix) && !suffix.Offset?
    ensures Denotes(ParsedInstant(s), c, 0)
  {
    TimestampMeaning(s, c, digits, suffix);
    ShiftedDenotes(ParsedInstant(s), c, suffix);
  }
}
