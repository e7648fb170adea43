/**
 The timestamp codec: writing an instant as ISO 8601 text in UTC and reading
 ISO 8601 text back (the grammar is close to section 5.6 of RFC 3339).

 Reading goes through the C library's `sscanf`, so the model follows it: a
 number may be preceded by white space, a sign counts towards the field width,
 and a field may be shorter than its width. The text ends at its first NUL.
 */
module TimeUtils {
  import opened Domain
  import opened Calendar
  import Relevance

  // ----- printf -----

  predicate IsDigit(c: char) {
    '0' <= c <= '9'
  }

  function DigitChar(d: int): (c: char)
    requires 0 <= d <= 9
    ensures IsDigit(c)
  {
    ('0' as int + d) as char
  }

  function DigitValue(c: char): int {
    c as int - '0' as int
  }

  /** The decimal digits of `n`, with leading zeros up to `width`. */
  function Padded(n: nat, width: nat): (s: string)
    ensures |s| >= width
    decreases n, width
  {
    if n == 0 && width == 0 then ""
    else Padded(n / 10, if width > 0 then width - 1 else 0) + [DigitChar(n % 10)]
  }

  /** `%04d`: a minus sign counts towards the width. */
  function YearText(year: int): string {
    if year >= 0 then Padded(year, 4) else "-" + Padded(-year, 3)
  }

  /** `%02d`, likewise. */
  function FieldText(n: int): string {
    if n >= 0 then Padded(n, 2) else "-" + Padded(-n, 1)
  }

  predicate FieldFits(n: int) {
    -9 <= n <= 99
  }

  /** Fields that fit the two columns they are printed in. */
  predicate TwoColumns(c: Civil) {
    && FieldFits(c.date.month) && FieldFits(c.date.day)
    && FieldFits(c.hour) && FieldFits(c.minute) && FieldFits(c.second)
  }

  function WallText(c: Civil): string {
    YearText(c.date.year) + "-" + FieldText(c.date.month) + "-" + FieldText(c.date.day)
    + "T" + FieldText(c.hour) + ":" + FieldText(c.minute) + ":" + FieldText(c.second)
  }

  function FormatIso8601Utc(t: int): string {
    WallText(SplitUtc(t)) + "+00:00"
  }

  // ----- sscanf -----

  /** The first NUL from position `i` on, or the end of the text. */
  function NulAt(text: string, i: nat): (end: nat)
    requires i <= |text|
    ensures i <= end <= |text|
    decreases |text| - i
  {
    if i < |text| && text[i] != '\0' then NulAt(text, i + 1) else i
  }

  /** The text as a C string. */
  function CStr(text: string): string {
    text[..NulAt(text, 0)]
  }

  function At(s: string, i: nat): char {
    if i < |s| then s[i] else '\0'
  }

  datatype Scan = Scan(value: int, end: nat)

  function SkipSpace(s: string, i: nat): nat
    decreases |s| - i
  {
    if i < |s| && Relevance.IsSpace(s[i]) then SkipSpace(s, i + 1) else i
  }

  function DigitsEnd(s: string, i: nat, width: nat): (end: nat)
    ensures i <= end <= i + width
    ensures end == i || end <= |s|
    decreases width
  {
    if width > 0 && i < |s| && IsDigit(s[i]) then DigitsEnd(s, i + 1, width - 1) else i
  }

  /** The number written at positions `start` to `end`. */
  function NumberAt(s: string, start: nat, end: nat): int
    decreases end
  {
    if start < end <= |s| then 10 * NumberAt(s, start, end - 1) + DigitValue(s[end - 1]) else 0
  }

  /** `%<width>d` at position `i`. */
  function ScanInt(s: string, i: nat, width: nat): Option<Scan>
    requires width > 0
  {
    var p := SkipSpace(s, i);
    var signed := At(s, p) == '-' || At(s, p) == '+';
    var start := if signed then p + 1 else p;
    var end := DigitsEnd(s, start, if signed then width - 1 else width);
    if end == start then None
    else
      var magnitude := NumberAt(s, start, end);
      Some(Scan(if At(s, p) == '-' then -magnitude else magnitude, end))
  }

  /** A literal character of the format. */
  function ScanChar(s: string, i: nat, c: char): Option<nat> {
    if i < |s| && s[i] == c then Some(i + 1) else None
  }

  datatype Fields = Fields(year: int, month: int, day: int, hour: int, minute: int, second: int, end: nat)

  datatype Triple = Triple(first: int, second: int, third: int, end: nat)

  /** Three numbers, the first of the given width, with a character between them. */
  function ScanTriple(s: string, i: nat, width: nat, c: char): Option<Triple>
    requires width > 0
  {
    var first :- ScanInt(s, i, width);
    var p :- ScanChar(s, first.end, c);
    var second :- ScanInt(s, p, 2);
    var q :- ScanChar(s, second.end, c);
    var third :- ScanInt(s, q, 2);
    Some(Triple(first.value, second.value, third.value, third.end))
  }

  /** `%4d-%2d-%2dT%2d:%2d:%2d%n` */
  function ScanFields(s: string): Option<Fields> {
    var date :- ScanTriple(s, 0, 4, '-');
    var p :- ScanChar(s, date.end, 'T');
    var time :- ScanTriple(s, p, 2, ':');
    Some(Fields(date.first, date.second, date.third, time.first, time.second, time.third, time.end))
  }

  datatype Pair = Pair(first: int, second: int, end: nat)

  /** `%2d:%2d%n` or `%2d%2d%n`. */
  function ScanPair(s: string, i: nat, colon: bool): Option<Pair> {
    var first :- ScanInt(s, i, 2);
    var p :- if colon then ScanChar(s, first.end, ':') else Some(first.end);
    var second :- ScanInt(s, p, 2);
    Some(Pair(first.value, second.value, second.end))
  }

  // ----- parsing -----

  function OffsetSeconds(west: bool, hours: int, minutes: int): int {
    if west then -(3600 * hours + 60 * minutes) else 3600 * hours + 60 * minutes
  }

  /** The offset whose sign stands at position `i`, in seconds. */
  function ParseUtcOffset(s: string, i: nat): Option<Scan> {
    var west := At(s, i) == '-';
    var colon := ScanPair(s, i + 1, true);
    if colon.Some? && colon.value.end == i + 6 then
      Some(Scan(OffsetSeconds(west, colon.value.first, colon.value.second), colon.value.end))
    else
      var plain := ScanPair(s, i + 1, false);
      if plain.Some? && plain.value.end == i + 5 then
        Some(Scan(OffsetSeconds(west, plain.value.first, plain.value.second), plain.value.end))
      else
        None
  }

  function DigitRunEnd(s: string, i: nat): nat
    decreases |s| - i
  {
    if i < |s| && IsDigit(s[i]) then DigitRunEnd(s, i + 1) else i
  }

  function SkipFraction(s: string, i: nat): Option<nat> {
    if At(s, i) != '.' then Some(i)
    else if !IsDigit(At(s, i + 1)) then None
    else Some(DigitRunEnd(s, i + 1))
  }

  function ParseSuffix(s: string, i: nat): Option<Scan> {
    if At(s, i) == 'Z' || At(s, i) == 'z' then Some(Scan(0, i + 1))
    else if At(s, i) == '+' || At(s, i) == '-' then ParseUtcOffset(s, i)
    else Some(Scan(0, i))
  }

  /** The seconds of a wall clock, if the calendar and the clock have them. A
      negative hour, minute or second is not rejected. */
  function ClockSeconds(c: Civil): Option<int> {
    if !ValidDate(c.date) || c.hour > 23 || c.minute > 59 || c.second > 60 then None
    else Some(Seconds(c))
  }

  function CivilOf(f: Fields): Civil {
    Civil(Date(f.year, f.month, f.day), f.hour, f.minute, f.second)
  }

  /** An instant at an offset that is `ahead` seconds ahead of UTC. */
  function Shifted(wall: Option<int>, ahead: int): Option<int> {
    match wall
    case None => None
    case Some(seconds) => Some(seconds - ahead)
  }

  /** What follows the fraction: an offset, then the end of the text. */
  function ParsedEnd(s: string, f: Fields, p: nat): Option<int> {
    var offset :- ParseSuffix(s, p);
    if At(s, offset.end) != '\0' then None
    else Shifted(ClockSeconds(CivilOf(f)), offset.value)
  }

  function ParsedRest(s: string, f: Fields): Option<int> {
    var p :- SkipFraction(s, f.end);
    ParsedEnd(s, f, p)
  }

  /** The instant that a text denotes, if it is accepted. */
  function ParsedInstant(text: string): Option<int> {
    var f :- ScanFields(CStr(text));
    ParsedRest(CStr(text), f)
  }

  /** The parser as it runs: a cursor advanced over the text. */
  method ParseIso8601(text: string) returns (r: Option<int>)
    ensures r == ParsedInstant(text)
  {
    var s := CStr(text);
    var fields := ScanFields(s);
    if fields.None? {
      return None;
    }
    r := ParseRest(s, fields.value);
  }

  method ParseRest(s: string, f: Fields) returns (r: Option<int>)
    ensures r == ParsedRest(s, f)
  {
    var rest := f.end;
    if At(s, rest) == '.' {
      rest := rest + 1;
      if !IsDigit(At(s, rest)) {
        return None;
      }
      while rest < |s| && IsDigit(s[rest])
        invariant DigitRunEnd(s, rest) == DigitRunEnd(s, f.end + 1)
        decreases |s| - rest
      {
        rest := rest + 1;
      }
    }
    r := ParseEnd(s, f, rest);
  }

  method ParseEnd(s: string, f: Fields, p: nat) returns (r: Option<int>)
    ensures r == ParsedEnd(s, f, p)
  {
    var rest, offset := p, 0;
    if At(s, rest) == 'Z' || At(s, rest) == 'z' {
      rest := rest + 1;
    } else if At(s, rest) == '+' || At(s, rest) == '-' {
      var parsed := ParseUtcOffset(s, rest);
      if parsed.None? {
        return None;
      }
      offset, rest := parsed.value.value, parsed.value.end;
    }
    if At(s, rest) != '\0' {
      return None;
    }
    var wall := ClockSeconds(CivilOf(f));
    if wall.None? {
      return None;
    }
    return Some(wall.value - offset);
  }
}
