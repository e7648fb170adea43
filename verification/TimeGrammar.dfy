/**
 The language of the timestamp parser, for every text.

 `Reading` is a grammar of what the parser lets through, independent of the
 parser, and `AcceptedExactly` shows that it is exact. `IsTimestamp` is what the
 parser's documentation promises, and `AcceptanceIsValidity` says for which texts
 the promise is kept.
 */
module TimeGrammar {
  import opened Domain
  import opened Calendar
  import opened TimeUtils
  import opened TimeLaws
  import Relevance

  // ----- numbers as the scanner reads them -----

  predicate AllSpace(s: string) {
    forall c <- s :: Relevance.IsSpace(c)
  }

  /** White space, at most one sign, and some digits. */
  datatype Numeral = Numeral(space: string, sign: string, digits: string) {
    /** Sign and digits fit the width; white space does not count. */
    predicate Valid(width: nat) {
      && AllSpace(space) && (sign == "" || sign == "-" || sign == "+")
      && digits != [] && AllDigits(digits) && |sign| + |digits| <= width
    }

    predicate Full(width: nat) {
      |sign| + |digits| == width
    }

    function Text(): string {
      space + sign + digits
    }

    function Value(): int {
      if sign == "-" then -DigitsValue(digits) else DigitsValue(digits)
    }
  }

  lemma {:induction false} SkippedSpace(s: string, i: nat)
    requires i <= |s|
    ensures i <= SkipSpace(s, i) <= |s| && AllSpace(s[i..SkipSpace(s, i)])
    ensures !Relevance.IsSpace(At(s, SkipSpace(s, i)))
    decreases |s| - i
  {
    if i < |s| && Relevance.IsSpace(s[i]) {
      SkippedSpace(s, i + 1);
      assert s[i..SkipSpace(s, i)] == [s[i]] + s[i + 1..SkipSpace(s, i)];
    }
  }

  lemma {:induction false} SkipsTo(s: string, i: nat, p: nat)
    requires i <= p <= |s| && AllSpace(s[i..p]) && !Relevance.IsSpace(At(s, p))
    ensures SkipSpace(s, i) == p
    decreases p - i
  {
    if i < p {
      assert s[i] == s[i..p][0];
      assert s[i + 1..p] == s[i..p][1..];
      SkipsTo(s, i + 1, p);
    }
  }

  lemma {:induction false} DigitsRead(s: string, i: nat, width: nat)
    requires i <= |s|
    ensures var end := DigitsEnd(s, i, width);
      end <= |s| && AllDigits(s[i..end]) && (end == i + width || !IsDigit(At(s, end)))
    decreases width
  {
    if width > 0 && i < |s| && IsDigit(s[i]) {
      DigitsRead(s, i + 1, width - 1);
      var end := DigitsEnd(s, i, width);
      assert s[i..end] == [s[i]] + s[i + 1..end];
    }
  }

  lemma {:induction false} DigitsEndAt(s: string, i: nat, end: nat, width: nat)
    requires i <= end <= |s| && end <= i + width && AllDigits(s[i..end])
    requires end == i + width || !IsDigit(At(s, end))
    ensures DigitsEnd(s, i, width) == end
    decreases width
  {
    if i < end {
      assert s[i] == s[i..end][0];
      assert s[i + 1..end] == s[i..end][1..];
      DigitsEndAt(s, i + 1, end, width - 1);
    }
  }

  lemma SliceSplit(s: string, i: nat, end: nat, a: string, b: string)
    requires i <= end <= |s| && s[i..end] == a + b
    ensures i + |a| <= end && s[i..i + |a|] == a && s[i + |a|..end] == b
  {
    var t := s[i..end];
    assert s[i..i + |a|] == t[..|a|];
    assert s[i + |a|..end] == t[|a|..];
  }

  /** Where the parts of a number stand. */
  ghost predicate NumeralAt(s: string, i: nat, n: Numeral, p: nat, start: nat, end: nat) {
    && i <= p <= start <= end <= |s|
    && s[i..p] == n.space && s[p..start] == n.sign && s[start..end] == n.digits
  }

  lemma NumeralPlaces(s: string, i: nat, n: Numeral, p: nat, start: nat, end: nat)
    requires p == i + |n.space| && start == p + |n.sign| && end == start + |n.digits| && end <= |s|
    requires s[i..end] == n.Text()
    ensures NumeralAt(s, i, n, p, start, end)
  {
    assert n.Text() == n.space + (n.sign + n.digits);
    SliceSplit(s, i, end, n.space, n.sign + n.digits);
    SliceSplit(s, p, end, n.sign, n.digits);
  }

  lemma PlacesJoin(s: string, i: nat, n: Numeral, p: nat, start: nat, end: nat)
    requires NumeralAt(s, i, n, p, start, end)
    ensures end == i + |n.Text()| && s[i..end] == n.Text()
  {
    assert s[i..end] == s[i..p] + s[p..start] + s[start..end];
  }

  lemma ScanPlaces(s: string, i: nat, width: nat, p: nat, start: nat, end: nat, n: Numeral)
    requires width > 0 && i <= |s| && ScanInt(s, i, width).Some?
    requires p == SkipSpace(s, i)
    requires start == if At(s, p) == '-' || At(s, p) == '+' then p + 1 else p
    requires end == ScanInt(s, i, width).value.end
    requires i <= p <= start <= end <= |s| && n == Numeral(s[i..p], s[p..start], s[start..end])
    ensures n.Valid(width) && (n.Full(width) || !IsDigit(At(s, end)))
    ensures ScanInt(s, i, width).value.value == n.Value()
  {
    SkippedSpace(s, i);
    DigitsRead(s, start, width - (start - p));
    NumberIsValue(s, start, end);
    assert start == p + 1 ==> s[p..start] == [s[p]];
  }

  lemma ScanBounds(s: string, i: nat, width: nat)
    requires width > 0 && i <= |s| && ScanInt(s, i, width).Some?
    ensures var p := SkipSpace(s, i);
      i <= p < ScanInt(s, i, width).value.end <= |s|
  {
    SkippedSpace(s, i);
  }

  /** What a successful scan has read. */
  lemma ScanReads(s: string, i: nat, width: nat) returns (n: Numeral)
    requires width > 0 && i <= |s| && ScanInt(s, i, width).Some?
    ensures n.Valid(width) && i + |n.Text()| <= |s| && s[i..i + |n.Text()|] == n.Text()
    ensures ScanInt(s, i, width) == Some(Scan(n.Value(), i + |n.Text()|))
    ensures n.Full(width) || !IsDigit(At(s, i + |n.Text()|))
  {
    var p, end := SkipSpace(s, i), ScanInt(s, i, width).value.end;
    ScanBounds(s, i, width);
    var start := if At(s, p) == '-' || At(s, p) == '+' then p + 1 else p;
    n := Numeral(s[i..p], s[p..start], s[start..end]);
    ScanPlaces(s, i, width, p, start, end, n);
    PlacesJoin(s, i, n, p, start, end);
  }

  lemma NumeralStart(s: string, n: Numeral, p: nat, start: nat, end: nat)
    requires p <= start <= end <= |s| && n.digits != [] && AllDigits(n.digits)
    requires n.sign == "" || n.sign == "-" || n.sign == "+"
    requires s[p..start] == n.sign && s[start..end] == n.digits
    ensures IsDigit(At(s, start)) && !Relevance.IsSpace(At(s, p))
    ensures n.sign == "" <==> start == p
    ensures n.sign != "" ==> start == p + 1 && At(s, p) == n.sign[0]
  {
    assert s[start] == s[start..end][0];
    if n.sign != "" {
      assert s[p] == s[p..start][0];
    }
  }

  /** A number in the text is what the scanner reads there. */
  lemma ReadIsScanned(s: string, i: nat, width: nat, n: Numeral)
    requires n.Valid(width) && i + |n.Text()| <= |s| && s[i..i + |n.Text()|] == n.Text()
    requires n.Full(width) || !IsDigit(At(s, i + |n.Text()|))
    ensures width > 0 && ScanInt(s, i, width) == Some(Scan(n.Value(), i + |n.Text()|))
  {
    var p := i + |n.space|;
    var start := p + |n.sign|;
    var end := start + |n.digits|;
    NumeralPlaces(s, i, n, p, start, end);
    NumeralStart(s, n, p, start, end);
    SkipsTo(s, i, p);
    DigitsEndAt(s, start, end, width - |n.sign|);
    NumberIsValue(s, start, end);
  }

  // ----- texts in pieces -----

  lemma Join(s: string, i: nat, p: nat, end: nat, a: string, b: string)
    requires i <= p <= end <= |s| && s[i..p] == a && s[p..end] == b
    ensures s[i..end] == a + b
  {
    assert s[i..end] == s[i..p] + s[p..end];
  }

  lemma CharSlice(s: string, p: nat, c: char)
    requires p < |s|
    ensures s[p] == c <==> s[p..p + 1] == [c]
  {
    assert s[p..p + 1][0] == s[p];
  }

  // ----- the fields -----

  /** Three numbers, with a character between them. */
  datatype Three = Three(first: Numeral, second: Numeral, third: Numeral) {
    predicate Valid(width: nat) {
      first.Valid(width) && second.Valid(2) && third.Valid(2)
    }

    function Text(c: char): string {
      first.Text() + ([c] + (second.Text() + ([c] + third.Text())))
    }

    function Scanned(end: nat): Triple {
      Triple(first.Value(), second.Value(), third.Value(), end)
    }
  }

  /** Three numbers from position `i` on, given what the scanner reads. */
  lemma TripleParts(s: string, i: nat, width: nat, c: char) returns (a: Scan, b: Scan, e: Scan)
    requires width > 0 && ScanTriple(s, i, width, c).Some?
    ensures ScanInt(s, i, width) == Some(a) && a.end < |s| && s[a.end] == c
    ensures ScanInt(s, a.end + 1, 2) == Some(b) && b.end < |s| && s[b.end] == c
    ensures ScanInt(s, b.end + 1, 2) == Some(e)
    ensures ScanTriple(s, i, width, c) == Some(Triple(a.value, b.value, e.value, e.end))
  {
    a := ScanInt(s, i, width).value;
    b := ScanInt(s, a.end + 1, 2).value;
    e := ScanInt(s, b.end + 1, 2).value;
  }

  lemma ScanReadsAs(s: string, i: nat, width: nat, scan: Scan) returns (n: Numeral)
    requires width > 0 && i <= |s| && ScanInt(s, i, width) == Some(scan)
    ensures n.Valid(width) && i <= scan.end <= |s| && s[i..scan.end] == n.Text() && scan.value == n.Value()
    ensures n.Full(width) || !IsDigit(At(s, scan.end))
  {
    n := ScanReads(s, i, width);
  }

  lemma TripleReads(s: string, i: nat, width: nat, c: char) returns (w: Three, end: nat)
    requires width > 0 && i <= |s| && ScanTriple(s, i, width, c).Some?
    ensures w.Valid(width) && i <= end <= |s| && s[i..end] == w.Text(c)
    ensures ScanTriple(s, i, width, c) == Some(w.Scanned(end))
  {
    var a, b, e := TripleParts(s, i, width, c);
    w := ThreeRead(s, i, width, c, a, b, e);
    end := e.end;
  }

  lemma ThreeRead(s: string, i: nat, width: nat, c: char, a: Scan, b: Scan, e: Scan)
    returns (w: Three)
    requires width > 0 && i <= |s| && ScanInt(s, i, width) == Some(a) && a.end < |s| && s[a.end] == c
    requires ScanInt(s, a.end + 1, 2) == Some(b) && b.end < |s| && s[b.end] == c
    requires ScanInt(s, b.end + 1, 2) == Some(e)
    ensures w.Valid(width) && i <= e.end <= |s| && s[i..e.end] == w.Text(c)
    ensures w.Scanned(e.end) == Triple(a.value, b.value, e.value, e.end)
  {
    var x := ScanReadsAs(s, i, width, a);
    var y := ScanReadsAs(s, a.end + 1, 2, b);
    var z := ScanReadsAs(s, b.end + 1, 2, e);
    w := Three(x, y, z);
    JoinThree(s, i, a.end, b.end, e.end, x.Text(), y.Text(), z.Text(), c);
  }

  lemma JoinThree(s: string, i: nat, p: nat, q: nat, end: nat, x: string, y: string, z: string, c: char)
    requires i <= p < q < end <= |s| && s[p] == s[q] == c
    requires s[i..p] == x && s[p + 1..q] == y && s[q + 1..end] == z
    ensures s[i..end] == x + ([c] + (y + ([c] + z)))
  {
    CharSlice(s, p, c);
    CharSlice(s, q, c);
    Join(s, q, q + 1, end, [c], z);
    Join(s, p + 1, q, end, y, [c] + z);
    Join(s, p, p + 1, end, [c], y + ([c] + z));
    Join(s, i, p, end, x, [c] + (y + ([c] + z)));
  }

  /** A number in the text, with no digit after it. */
  lemma NumeralIsScanned(s: string, i: nat, end: nat, width: nat, n: Numeral)
    requires n.Valid(width) && i <= end <= |s| && s[i..end] == n.Text() && (n.Full(width) || !IsDigit(At(s, end)))
    ensures width > 0 && ScanInt(s, i, width) == Some(Scan(n.Value(), end))
  {
    assert |s[i..end]| == end - i;
    ReadIsScanned(s, i, width, n);
  }

  lemma PartsAreTriple(s: string, i: nat, width: nat, c: char, a: Scan, b: Scan, e: Scan)
    requires width > 0 && ScanInt(s, i, width) == Some(a) && a.end < |s| && s[a.end] == c
    requires ScanInt(s, a.end + 1, 2) == Some(b) && b.end < |s| && s[b.end] == c
    requires ScanInt(s, b.end + 1, 2) == Some(e)
    ensures ScanTriple(s, i, width, c) == Some(Triple(a.value, b.value, e.value, e.end))
  {
  }

  lemma TripleIsScanned(s: string, i: nat, end: nat, width: nat, c: char, w: Three)
    requires w.Valid(width) && !IsDigit(c) && i <= end <= |s| && s[i..end] == w.Text(c)
    requires w.third.Full(2) || !IsDigit(At(s, end))
    ensures width > 0 && ScanTriple(s, i, width, c) == Some(w.Scanned(end))
  {
    var a, b := ThreeAreScanned(s, i, end, width, c, w, w.first.Text(), w.second.Text(), w.third.Text());
    PartsAreTriple(s, i, width, c, a, b, Scan(w.third.Value(), end));
  }

  /** A number and the character after it, with `rest` behind them. */
  lemma PieceIsScanned(s: string, i: nat, end: nat, width: nat, n: Numeral, x: string, c: char, rest: string)
    returns (p: nat)
    requires n.Valid(width) && n.Text() == x && !IsDigit(c)
    requires i <= end <= |s| && s[i..end] == x + ([c] + rest)
    ensures width > 0 && i <= p < end && ScanInt(s, i, width) == Some(Scan(n.Value(), p))
    ensures s[p] == c && s[p + 1..end] == rest
  {
    p := i + |x|;
    SliceSplit(s, i, end, x, [c] + rest);
    SliceSplit(s, p, end, [c], rest);
    CharSlice(s, p, c);
    NumeralIsScanned(s, i, p, width, n);
  }

  lemma ThreeAreScanned(s: string, i: nat, end: nat, width: nat, c: char, w: Three, x: string, y: string, z: string)
    returns (a: Scan, b: Scan)
    requires w.Valid(width) && !IsDigit(c) && (w.third.Full(2) || !IsDigit(At(s, end)))
    requires w.first.Text() == x && w.second.Text() == y && w.third.Text() == z
    requires i <= end <= |s| && s[i..end] == x + ([c] + (y + ([c] + z)))
    ensures a.value == w.first.Value() && b.value == w.second.Value()
    ensures width > 0 && ScanInt(s, i, width) == Some(a) && a.end < |s| && s[a.end] == c
    ensures ScanInt(s, a.end + 1, 2) == Some(b) && b.end < |s| && s[b.end] == c
    ensures ScanInt(s, b.end + 1, 2) == Some(Scan(w.third.Value(), end))
  {
    var p := PieceIsScanned(s, i, end, width, w.first, x, c, y + ([c] + z));
    var q := PieceIsScanned(s, p + 1, end, 2, w.second, y, c, z);
    NumeralIsScanned(s, q + 1, end, 2, w.third);
    a, b := Scan(w.first.Value(), p), Scan(w.second.Value(), q);
  }

  /** The six numbers of a wall clock. */
  datatype Wall = Wall(date: Three, time: Three) {
    predicate Valid() {
      date.Valid(4) && time.Valid(2)
    }

    function Text(): string {
      date.Text('-') + ("T" + time.Text(':'))
    }

    function Clock(): Civil {
      Civil(Date(date.first.Value(), date.second.Value(), date.third.Value()),
            time.first.Value(), time.second.Value(), time.third.Value())
    }

    function Scanned(): Fields {
      Fields(date.first.Value(), date.second.Value(), date.third.Value(),
             time.first.Value(), time.second.Value(), time.third.Value(), |Text()|)
    }
  }

  lemma FieldsParts(s: string) returns (date: Triple, time: Triple)
    requires ScanFields(s).Some?
    ensures ScanTriple(s, 0, 4, '-') == Some(date) && date.end < |s| && s[date.end] == 'T'
    ensures ScanTriple(s, date.end + 1, 2, ':') == Some(time)
    ensures ScanFields(s)
      == Some(Fields(date.first, date.second, date.third, time.first, time.second, time.third, time.end))
  {
    date := ScanTriple(s, 0, 4, '-').value;
    time := ScanTriple(s, date.end + 1, 2, ':').value;
  }

  lemma FieldsRead(s: string) returns (w: Wall)
    requires ScanFields(s).Some?
    ensures w.Valid() && |w.Text()| <= |s| && s[0..|w.Text()|] == w.Text() && ScanFields(s) == Some(w.Scanned())
  {
    var date, time := FieldsParts(s);
    var end;
    w, end := WallRead(s, date, time);
  }

  lemma WallRead(s: string, date: Triple, time: Triple) returns (w: Wall, end: nat)
    requires ScanTriple(s, 0, 4, '-') == Some(date) && date.end < |s| && s[date.end] == 'T'
    requires ScanTriple(s, date.end + 1, 2, ':') == Some(time)
    ensures w.Valid() && end <= |s| && s[0..end] == w.Text() && end == |w.Text()| == time.end
    ensures w.date.Scanned(date.end) == date && w.time.Scanned(time.end) == time
  {
    var d, p := TripleReads(s, 0, 4, '-');
    var t, q := TripleReads(s, p + 1, 2, ':');
    w, end := Wall(d, t), q;
    JoinWall(s, p, q, d.Text('-'), t.Text(':'));
  }

  lemma JoinWall(s: string, p: nat, end: nat, date: string, time: string)
    requires p < end <= |s| && s[0..p] == date && s[p] == 'T' && s[p + 1..end] == time
    ensures s[0..end] == date + ("T" + time) && end == |date + ("T" + time)|
  {
    CharSlice(s, p, 'T');
    Join(s, p, p + 1, end, "T", time);
    Join(s, 0, p, end, date, "T" + time);
    assert |s[0..end]| == end;
  }

  lemma FieldsAreScanned(s: string, w: Wall)
    requires w.Valid() && |w.Text()| <= |s| && s[0..|w.Text()|] == w.Text() && !IsDigit(At(s, |w.Text()|))
    ensures ScanFields(s) == Some(w.Scanned())
  {
    var p, end := |w.date.Text('-')|, |w.Text()|;
    SplitWall(s, end, w.date.Text('-'), w.time.Text(':'));
    TripleIsScanned(s, 0, p, 4, '-', w.date);
    TripleIsScanned(s, p + 1, end, 2, ':', w.time);
    PartsAreFields(s, w.date.Scanned(p), w.time.Scanned(end));
  }

  lemma SplitWall(s: string, end: nat, date: string, time: string)
    requires end <= |s| && s[0..end] == date + ("T" + time)
    ensures |date| < end && s[0..|date|] == date && s[|date|] == 'T' && s[|date| + 1..end] == time
  {
    SliceSplit(s, 0, end, date, "T" + time);
    SliceSplit(s, |date|, end, "T", time);
    CharSlice(s, |date|, 'T');
  }

  lemma PartsAreFields(s: string, date: Triple, time: Triple)
    requires ScanTriple(s, 0, 4, '-') == Some(date) && date.end < |s| && s[date.end] == 'T'
    requires ScanTriple(s, date.end + 1, 2, ':') == Some(time)
    ensures ScanFields(s)
      == Some(Fields(date.first, date.second, date.third, time.first, time.second, time.third, time.end))
  {
  }

  // ----- the offset -----

  /** What may follow the fraction. An offset takes four columns besides its sign
      and colon; without a colon, its hours take every digit they can. */
  datatype Tail =
    | NoTail
    | ZTail(upper: bool)
    | OffsetTail(west: bool, hours: Numeral, minutes: Numeral, colon: bool)
  {
    predicate Valid() {
      OffsetTail? ==>
        && hours.Valid(2) && minutes.Valid(2)
        && |hours.Text()| + |minutes.Text()| == 4
        && (colon || hours.Full(2) || !IsDigit(minutes.Text()[0]))
    }

    function Text(): string {
      match this
      case NoTail => ""
      case ZTail(upper) => if upper then "Z" else "z"
      case OffsetTail(west, hours, minutes, colon) => TailText(west, hours, minutes, colon)
    }

    function Ahead(): int {
      match this
      case NoTail => 0
      case ZTail(_) => 0
      case OffsetTail(west, hours, minutes, _) =>
        if west then -3600 * hours.Value() - 60 * minutes.Value() else 3600 * hours.Value() + 60 * minutes.Value()
    }
  }

  function TailText(west: bool, hours: Numeral, minutes: Numeral, colon: bool): string {
    [if west then '-' else '+'] + (hours.Text() + (Between(colon) + minutes.Text()))
  }

  lemma PairParts(s: string, i: nat, colon: bool) returns (a: Scan, q: nat, b: Scan)
    requires ScanPair(s, i, colon).Some?
    ensures ScanInt(s, i, 2) == Some(a) && q == (if colon then a.end + 1 else a.end) && ScanInt(s, q, 2) == Some(b)
    ensures colon ==> a.end < |s| && s[a.end] == ':'
    ensures ScanPair(s, i, colon) == Some(Pair(a.value, b.value, b.end))
  {
    a := ScanInt(s, i, 2).value;
    q := if colon then a.end + 1 else a.end;
    b := ScanInt(s, q, 2).value;
  }

  function Between(colon: bool): string {
    if colon then ":" else ""
  }

  lemma PairReads(s: string, i: nat, colon: bool) returns (h: Numeral, m: Numeral, end: nat)
    requires i <= |s| && ScanPair(s, i, colon).Some?
    ensures ScanPair(s, i, colon) == Some(Pair(h.Value(), m.Value(), end))
    ensures h.Valid(2) && m.Valid(2) && i <= end <= |s| && s[i..end] == h.Text() + (Between(colon) + m.Text())
    ensures colon || h.Full(2) || !IsDigit(At(s, i + |h.Text()|))
  {
    var a, q, b := PairParts(s, i, colon);
    h := ScanReadsAs(s, i, 2, a);
    m := ScanReadsAs(s, q, 2, b);
    end := b.end;
    JoinPair(s, i, a.end, q, end, h.Text(), Between(colon), m.Text());
  }

  lemma JoinPair(s: string, i: nat, p: nat, q: nat, end: nat, h: string, between: string, m: string)
    requires i <= p <= q <= end <= |s| && s[i..p] == h && s[q..end] == m
    requires (between == "" && p == q) || (between == ":" && q == p + 1 && s[p] == ':')
    ensures p == i + |h| && s[i..end] == h + (between + m)
  {
    assert |s[i..p]| == p - i;
    assert s[p..q] == between;
    Join(s, p, q, end, between, m);
    Join(s, i, p, end, h, between + m);
  }

  lemma FirstOf(m: Numeral)
    requires m.Valid(2)
    ensures m.Text() != [] && m.Text()[0] != ':' && m.Text()[0] != '\0'
  {
    if m.space != "" {
      assert m.Text()[0] == m.space[0] && m.space[0] in m.space;
    } else if m.sign != "" {
      assert m.Text()[0] == m.sign[0];
    } else {
      assert m.Text()[0] == m.digits[0] && m.digits[0] in m.digits;
    }
  }

  lemma SplitPair(s: string, i: nat, h: string, between: string, m: string)
    requires i <= |s| && s[i..] == h + (between + m) && m != ""
    ensures var p := i + |h|;
      var q := p + |between|;
      && q < |s| == q + |m| && s[i..p] == h && s[q..|s|] == m && s[q] == m[0]
      && (between == ":" ==> s[p] == ':')
  {
    assert s[i..|s|] == s[i..];
    SliceSplit(s, i, |s|, h, between + m);
    SliceSplit(s, i + |h|, |s|, between, m);
    var p := i + |h|;
    var q := p + |between|;
    assert s[q] == s[q..|s|][0];
    if between == ":" {
      CharSlice(s, p, ':');
    }
  }

  lemma PartsArePair(s: string, i: nat, a: Scan, b: Scan, colon: bool)
    requires ScanInt(s, i, 2) == Some(a)
    requires colon ==> a.end < |s| && s[a.end] == ':'
    requires ScanInt(s, if colon then a.end + 1 else a.end, 2) == Some(b)
    ensures ScanPair(s, i, colon) == Some(Pair(a.value, b.value, b.end))
  {
  }

  lemma PairIsScanned(s: string, i: nat, h: Numeral, m: Numeral, colon: bool)
    requires h.Valid(2) && m.Valid(2) && i <= |s|
    requires s[i..] == h.Text() + (Between(colon) + m.Text())
    requires colon || h.Full(2) || !IsDigit(m.Text()[0])
    ensures ScanPair(s, i, colon) == Some(Pair(h.Value(), m.Value(), |s|))
    ensures !colon ==> ScanPair(s, i, true) == None
  {
    var a := TwoAreScanned(s, i, h, m, colon);
    PartsArePair(s, i, a, Scan(m.Value(), |s|), colon);
    if !colon {
      NoPair(s, i, a);
    }
  }

  lemma TwoAreScanned(s: string, i: nat, h: Numeral, m: Numeral, colon: bool) returns (a: Scan)
    requires h.Valid(2) && m.Valid(2) && i <= |s|
    requires s[i..] == h.Text() + (Between(colon) + m.Text())
    requires colon || h.Full(2) || !IsDigit(m.Text()[0])
    ensures a.value == h.Value() && ScanInt(s, i, 2) == Some(a)
    ensures a.end < |s| && (colon <==> s[a.end] == ':')
    ensures ScanInt(s, if colon then a.end + 1 else a.end, 2) == Some(Scan(m.Value(), |s|))
  {
    FirstOf(m);
    var p, q := PairPlaces(s, i, h.Text(), m.Text(), colon);
    NumeralIsScanned(s, i, p, 2, h);
    NumeralIsScanned(s, q, |s|, 2, m);
    a := Scan(h.Value(), p);
  }

  lemma PairPlaces(s: string, i: nat, h: string, m: string, colon: bool) returns (p: nat, q: nat)
    requires i <= |s| && m != "" && m[0] != ':' && s[i..] == h + (Between(colon) + m)
    ensures i <= p <= q < |s| && q == (if colon then p + 1 else p)
    ensures s[i..p] == h && s[q..|s|] == m && s[q] == m[0] && (colon <==> s[p] == ':')
  {
    SplitPair(s, i, h, Between(colon), m);
    p := i + |h|;
    q := p + |Between(colon)|;
  }

  lemma NoPair(s: string, i: nat, a: Scan)
    requires ScanInt(s, i, 2) == Some(a) && a.end < |s| && s[a.end] != ':'
    ensures ScanPair(s, i, true) == None
  {
  }

  /** What an accepted end of the text has read. */
  lemma SuffixReads(s: string, i: nat) returns (tail: Tail)
    requires i <= |s| && ParseSuffix(s, i).Some? && ParseSuffix(s, i).value.end == |s|
    ensures tail.Valid() && s[i..] == tail.Text() && ParseSuffix(s, i).value.value == tail.Ahead()
  {
    if At(s, i) == 'Z' || At(s, i) == 'z' {
      tail := ZTail(s[i] == 'Z');
      assert s[i..] == [s[i]];
    } else if At(s, i) == '+' || At(s, i) == '-' {
      tail := OffsetReads(s, i);
    } else {
      tail := NoTail;
    }
  }

  /** The form in which an accepted offset was read. */
  lemma OffsetForm(s: string, i: nat) returns (colon: bool)
    requires ParseUtcOffset(s, i).Some?
    ensures ScanPair(s, i + 1, colon).Some?
    ensures var pair := ScanPair(s, i + 1, colon).value;
      && pair.end == (if colon then i + 6 else i + 5)
      && ParseUtcOffset(s, i) == Some(Scan(OffsetSeconds(At(s, i) == '-', pair.first, pair.second), pair.end))
  {
    colon := ScanPair(s, i + 1, true).Some? && ScanPair(s, i + 1, true).value.end == i + 6;
  }

  lemma OffsetReads(s: string, i: nat) returns (tail: Tail)
    requires i < |s| && (s[i] == '+' || s[i] == '-')
    requires ParseUtcOffset(s, i).Some? && ParseUtcOffset(s, i).value.end == |s|
    ensures tail.Valid() && s[i..] == tail.Text() && ParseUtcOffset(s, i).value.value == tail.Ahead()
  {
    var colon := OffsetForm(s, i);
    var h, m, end := PairReads(s, i + 1, colon);
    tail := OffsetTail(s[i] == '-', h, m, colon);
    TailIsRead(s, i, h, m, colon);
  }

  lemma TailIsRead(s: string, i: nat, h: Numeral, m: Numeral, colon: bool)
    requires i < |s| && (s[i] == '+' || s[i] == '-') && |s| == (if colon then i + 6 else i + 5)
    requires h.Valid(2) && m.Valid(2) && s[i + 1..|s|] == h.Text() + (Between(colon) + m.Text())
    requires colon || h.Full(2) || !IsDigit(At(s, i + 1 + |h.Text()|))
    ensures OffsetTail(s[i] == '-', h, m, colon).Valid()
    ensures s[i..] == TailText(s[i] == '-', h, m, colon)
  {
    FirstOf(m);
    assert s[i + 1..|s|] == s[i + 1..];
    SplitPair(s, i + 1, h.Text(), Between(colon), m.Text());
    assert s[i..] == [s[i]] + s[i + 1..];
  }

  lemma SuffixIsParsed(s: string, i: nat, tail: Tail)
    requires tail.Valid() && i <= |s| && s[i..] == tail.Text()
    ensures ParseSuffix(s, i) == Some(Scan(tail.Ahead(), |s|))
  {
    assert i < |s| ==> s[i] == s[i..][0];
    if tail.OffsetTail? {
      TailSeconds(tail);
      OffsetIsParsed(s, i, tail, tail.Ahead());
    }
  }

  lemma TailSeconds(tail: Tail)
    requires tail.OffsetTail?
    ensures tail.Ahead() == OffsetSeconds(tail.west, tail.hours.Value(), tail.minutes.Value())
  {
  }

  lemma OffsetIsParsed(s: string, i: nat, tail: Tail, ahead: int)
    requires tail.OffsetTail? && tail.Valid() && i <= |s|
    requires ahead == OffsetSeconds(tail.west, tail.hours.Value(), tail.minutes.Value())
    requires s[i..] == TailText(tail.west, tail.hours, tail.minutes, tail.colon)
    ensures i < |s| && s[i] == if tail.west then '-' else '+'
    ensures ParseUtcOffset(s, i) == Some(Scan(ahead, |s|))
  {
    var sign := [if tail.west then '-' else '+'];
    TailSplit(s, i, sign, tail.hours.Text() + (Between(tail.colon) + tail.minutes.Text()));
    assert s[i] == s[i..][0];
    PairIsScanned(s, i + 1, tail.hours, tail.minutes, tail.colon);
    assert |s[i + 1..]| == if tail.colon then 5 else 4;
  }

  // ----- the whole text -----

  /** One way to read a text, and what may stand after it: nothing, or anything
      behind a NUL. */
  datatype Reading = Reading(wall: Wall, fraction: string, tail: Tail, after: string) {
    predicate Valid() {
      wall.Valid() && AllDigits(fraction) && tail.Valid() && (after == "" || after[0] == '\0')
    }

    function Visible(): string {
      wall.Text() + (FractionText(fraction) + tail.Text())
    }

    function Text(): string {
      Visible() + after
    }

    /** The instant, if the date exists and the upper limits of the clock are kept. */
    function Instant(): Option<int> {
      Shifted(ClockSeconds(wall.Clock()), tail.Ahead())
    }
  }

  ghost predicate Reads(r: Reading, text: string) {
    r.Valid() && r.Text() == text
  }

  lemma NumeralHasNoNul(n: Numeral, width: nat)
    requires n.Valid(width)
    ensures NoNul(n.Text())
  {
    NoNulJoin(n.space, n.sign, n.digits);
  }

  lemma ThreeHaveNoNul(w: Three, width: nat, c: char)
    requires w.Valid(width) && c != '\0'
    ensures NoNul(w.Text(c))
  {
    NumeralHasNoNul(w.first, width);
    NumeralHasNoNul(w.second, 2);
    NumeralHasNoNul(w.third, 2);
    NoNulConcat([c], w.third.Text());
    NoNulConcat(w.second.Text(), [c] + w.third.Text());
    NoNulConcat([c], w.second.Text() + ([c] + w.third.Text()));
    NoNulConcat(w.first.Text(), [c] + (w.second.Text() + ([c] + w.third.Text())));
  }

  lemma WallHasNoNul(w: Wall)
    requires w.Valid()
    ensures NoNul(w.Text())
  {
    ThreeHaveNoNul(w.date, 4, '-');
    ThreeHaveNoNul(w.time, 2, ':');
    NoNulConcat("T", w.time.Text(':'));
    NoNulConcat(w.date.Text('-'), "T" + w.time.Text(':'));
  }

  lemma TailTextHasNoNul(tail: Tail)
    requires tail.Valid()
    ensures NoNul(tail.Text())
  {
    if tail.OffsetTail? {
      NumeralHasNoNul(tail.hours, 2);
      NumeralHasNoNul(tail.minutes, 2);
      NoNulConcat(Between(tail.colon), tail.minutes.Text());
      NoNulConcat(tail.hours.Text(), Between(tail.colon) + tail.minutes.Text());
    }
  }

  lemma VisibleHasNoNul(r: Reading)
    requires r.Valid()
    ensures NoNul(r.Visible())
  {
    WallHasNoNul(r.wall);
    TailTextHasNoNul(r.tail);
    TailHasNoNul(r.fraction, NoOffset);
    NoNulConcat(FractionText(r.fraction), r.tail.Text());
    NoNulConcat(r.wall.Text(), FractionText(r.fraction) + r.tail.Text());
  }

  lemma CStrStops(body: string, after: string)
    requires NoNul(body) && (after == "" || after[0] == '\0')
    ensures CStr(body + after) == body
  {
    var text := body + after;
    assert text[0..|body|] == text[..|body|] == body;
    assert |body| < |text| ==> text[|body|] == after[0];
    NulIs(text, 0, |body|);
  }

  lemma {:induction false} NulStops(text: string, i: nat)
    requires i <= |text|
    ensures NoNul(text[i..NulAt(text, i)])
    ensures NulAt(text, i) < |text| ==> text[NulAt(text, i)] == '\0'
    decreases |text| - i
  {
    if i < |text| && text[i] != '\0' {
      NulStops(text, i + 1);
      assert text[i..NulAt(text, i)] == [text[i]] + text[i + 1..NulAt(text, i)];
    }
  }

  lemma CStrSplits(text: string) returns (after: string)
    ensures NoNul(CStr(text)) && text == CStr(text) + after && (after == "" || after[0] == '\0')
  {
    NulStops(text, 0);
    assert text[0..NulAt(text, 0)] == CStr(text);
    after := text[NulAt(text, 0)..];
  }

  lemma FractionReads(s: string, i: nat) returns (digits: string)
    requires i <= |s| && SkipFraction(s, i).Some?
    ensures AllDigits(digits) && SkipFraction(s, i) == Some(i + |FractionText(digits)|)
    ensures i + |FractionText(digits)| <= |s| && s[i..] == FractionText(digits) + s[i + |FractionText(digits)|..]
  {
    if At(s, i) != '.' {
      digits := "";
    } else {
      var p := DigitRunEnd(s, i + 1);
      DigitRunReads(s, i + 1);
      digits := s[i + 1..p];
      assert s[i..] == [s[i]] + s[i + 1..p] + s[p..];
    }
  }

  lemma {:induction false} DigitRunReads(s: string, i: nat)
    requires i <= |s|
    ensures i <= DigitRunEnd(s, i) <= |s| && AllDigits(s[i..DigitRunEnd(s, i)])
    ensures IsDigit(At(s, i)) ==> DigitRunEnd(s, i) > i
    decreases |s| - i
  {
    if i < |s| && IsDigit(s[i]) {
      DigitRunReads(s, i + 1);
      assert s[i..DigitRunEnd(s, i)] == [s[i]] + s[i + 1..DigitRunEnd(s, i)];
    }
  }

  lemma TailStart(tail: Tail)
    requires tail.Valid()
    ensures tail.Text() != "" ==> !IsDigit(tail.Text()[0]) && tail.Text()[0] != '.'
  {
  }

  lemma EndReads(s: string, f: Fields, p: nat) returns (tail: Tail)
    requires NoNul(s) && p <= |s| && ParsedEnd(s, f, p).Some?
    ensures tail.Valid() && s[p..] == tail.Text()
    ensures ParsedEnd(s, f, p) == Shifted(ClockSeconds(CivilOf(f)), tail.Ahead())
  {
    SuffixEnds(s, p);
    tail := SuffixReads(s, p);
  }

  /** The suffix ends within the text, so a NUL after it is the end of the text. */
  lemma SuffixEnds(s: string, p: nat)
    requires p <= |s| && ParseSuffix(s, p).Some?
    ensures ParseSuffix(s, p).value.end <= |s|
  {
    if At(s, p) == '+' || At(s, p) == '-' {
      var colon := OffsetForm(s, p);
      var h, m, end := PairReads(s, p + 1, colon);
    }
  }

  lemma TextReads(text: string) returns (r: Reading)
    requires ParsedInstant(text).Some?
    ensures Reads(r, text) && ParsedInstant(text) == r.Instant()
  {
    var after := CStrSplits(text);
    InstantParts(text);
    var body := BodyReads(CStr(text));
    r := body.(after := after);
  }

  lemma InstantParts(text: string)
    requires ParsedInstant(text).Some?
    ensures var s := CStr(text);
      ScanFields(s).Some? && ParsedRest(s, ScanFields(s).value) == ParsedInstant(text)
  {
  }

  lemma RestParts(s: string, f: Fields)
    requires ParsedRest(s, f).Some?
    ensures SkipFraction(s, f.end).Some? && ParsedEnd(s, f, SkipFraction(s, f.end).value) == ParsedRest(s, f)
  {
  }

  lemma RestReads(s: string, f: Fields) returns (digits: string, tail: Tail)
    requires NoNul(s) && f.end <= |s| && ParsedRest(s, f).Some?
    ensures AllDigits(digits) && tail.Valid() && s[f.end..] == FractionText(digits) + tail.Text()
    ensures ParsedRest(s, f) == Shifted(ClockSeconds(CivilOf(f)), tail.Ahead())
  {
    RestParts(s, f);
    var p := SkipFraction(s, f.end).value;
    digits := FractionBefore(s, f.end, p);
    tail := EndReads(s, f, p);
  }

  lemma FractionBefore(s: string, i: nat, p: nat) returns (digits: string)
    requires i <= |s| && SkipFraction(s, i) == Some(p)
    ensures AllDigits(digits) && p <= |s| && s[i..] == FractionText(digits) + s[p..]
  {
    digits := FractionReads(s, i);
  }

  lemma BodyReads(s: string) returns (r: Reading)
    requires NoNul(s) && ScanFields(s).Some? && ParsedRest(s, ScanFields(s).value).Some?
    ensures r.Valid() && r.Visible() == s && r.after == ""
    ensures ParsedRest(s, ScanFields(s).value) == r.Instant()
  {
    var wall := FieldsRead(s);
    var digits, tail := RestReads(s, wall.Scanned());
    r := Reading(wall, digits, tail, "");
    Halves(s, |wall.Text()|, wall.Text(), FractionText(digits) + tail.Text());
  }

  lemma Halves(s: string, i: nat, a: string, b: string)
    requires i <= |s| && s[0..i] == a && s[i..] == b
    ensures s == a + b
  {
    assert s == s[0..i] + s[i..];
  }

  lemma BodyStart(s: string, a: string, b: string)
    requires s == a + b && (b != "" ==> !IsDigit(b[0]))
    ensures |a| <= |s| && s[0..|a|] == a && s[|a|..] == b && !IsDigit(At(s, |a|))
  {
    if b != "" {
      assert s[|a|] == b[0];
    }
  }

  lemma RestStart(digits: string, tail: Tail)
    requires AllDigits(digits) && tail.Valid()
    ensures var rest := FractionText(digits) + tail.Text();
      rest != "" ==> !IsDigit(rest[0])
  {
    TailStart(tail);
  }

  lemma RestIsParsed(s: string, f: Fields, digits: string, tail: Tail)
    requires AllDigits(digits) && tail.Valid() && f.end <= |s| && s[f.end..] == FractionText(digits) + tail.Text()
    ensures ParsedRest(s, f) == Shifted(ClockSeconds(CivilOf(f)), tail.Ahead())
  {
    var p := f.end + |FractionText(digits)|;
    TailStart(tail);
    FractionSkipped(s, f.end, p, digits, tail.Text());
    SuffixIsParsed(s, p, tail);
    RestMeaning(s, f, p, tail.Ahead());
  }

  lemma FractionSkipped(s: string, i: nat, p: nat, digits: string, rest: string)
    requires AllDigits(digits) && i <= |s| && s[i..] == FractionText(digits) + rest && p == i + |FractionText(digits)|
    requires rest != "" ==> !IsDigit(rest[0]) && rest[0] != '.'
    ensures SkipFraction(s, i) == Some(p) && p <= |s| && s[p..] == rest
  {
    SkipFractionThen(s, i, digits, rest);
  }

  lemma RestMeaning(s: string, f: Fields, p: nat, ahead: int)
    requires SkipFraction(s, f.end) == Some(p) && ParseSuffix(s, p) == Some(Scan(ahead, |s|))
    ensures ParsedRest(s, f) == Shifted(ClockSeconds(CivilOf(f)), ahead)
  {
    EndMeaning(s, f, p, ahead);
  }

  lemma BodyIsParsed(s: string, r: Reading)
    requires r.Valid() && s == r.Visible()
    ensures ScanFields(s) == Some(r.wall.Scanned())
    ensures ParsedRest(s, r.wall.Scanned()) == r.Instant()
  {
    RestStart(r.fraction, r.tail);
    BodyStart(s, r.wall.Text(), FractionText(r.fraction) + r.tail.Text());
    FieldsAreScanned(s, r.wall);
    RestIsParsed(s, r.wall.Scanned(), r.fraction, r.tail);
  }

  /** The reading of a text is what the parser makes of it. */
  lemma ReadingIsParsed(text: string, r: Reading)
    requires Reads(r, text)
    ensures ParsedInstant(text) == r.Instant()
  {
    VisibleHasNoNul(r);
    CStrStops(r.Visible(), r.after);
    BodyIsParsed(r.Visible(), r);
  }

  /** A text can be read as an existing date and a clock within its upper limits. */
  ghost predicate Readable(text: string) {
    exists r: Reading :: Reads(r, text) && r.Instant().Some?
  }

  /** The accepted language, exactly: a text denotes an instant if and only if it
      has a reading that does. */
  lemma AcceptedExactly(text: string, t: int)
    ensures ParsedInstant(text) == Some(t) <==> exists r: Reading :: Reads(r, text) && r.Instant() == Some(t)
    ensures ParsedInstant(text).Some? <==> Readable(text)
  {
    if ParsedInstant(text).Some? {
      var r := TextReads(text);
    }
    forall r: Reading | Reads(r, text) ensures ParsedInstant(text) == r.Instant() {
      ReadingIsParsed(text, r);
    }
  }

  // ----- what the documentation promises -----

  predicate TimeOfDay(c: Civil) {
    0 <= c.hour <= 23 && 0 <= c.minute <= 59 && 0 <= c.second <= 60
  }

  predicate InDay(suffix: Suffix) {
    suffix.Offset? ==> 0 <= suffix.hours <= 23 && 0 <= suffix.minutes <= 59
  }

  /** A date that exists, a time of day, perhaps a fraction, and an offset within a
      day, every field printed in all its columns. */
  ghost predicate IsTimestampOf(text: string, c: Civil, digits: string, suffix: Suffix) {
    && 0 <= c.date.year <= 9999 && ValidDate(c.date) && TimeOfDay(c)
    && AllDigits(digits) && InDay(suffix)
    && text == Timestamp(c, digits, suffix)
  }

  ghost predicate IsTimestamp(text: string) {
    exists c, digits, suffix :: IsTimestampOf(text, c, digits, suffix)
  }

  predicate DigitsAt(s: string, i: nat, width: nat) {
    i + width <= |s| && forall j :: i <= j < i + width ==> IsDigit(s[j])
  }

  /** Where the offset starts: after the seconds or after the fraction. */
  function OffsetAt(s: string): nat {
    if At(s, 19) == '.' then DigitRunEnd(s, 20) else 19
  }

  predicate OffsetInColumns(s: string, p: nat) {
    At(s, p) == '+' || At(s, p) == '-' ==>
      && DigitsAt(s, p + 1, 2) && NumberAt(s, p + 1, p + 3) <= 23
      && |s| >= 2 && DigitsAt(s, |s| - 2, 2) && NumberAt(s, |s| - 2, |s|) <= 59
  }

  predicate WallInColumns(s: string) {
    && DigitsAt(s, 0, 4) && DigitsAt(s, 5, 2) && DigitsAt(s, 8, 2)
    && DigitsAt(s, 11, 2) && DigitsAt(s, 14, 2) && DigitsAt(s, 17, 2)
  }

  /** There are digits in the columns of the fields, the offset is at most 23 hours
      and 59 minutes, and there is no NUL. */
  predicate InColumns(s: string) {
    NoNul(s) && WallInColumns(s) && OffsetInColumns(s, OffsetAt(s))
  }

  // ----- a timestamp is accepted, and in columns -----

  lemma FieldInColumns(s: string, i: nat, n: int)
    requires 0 <= n <= 99 && i + 2 <= |s| && s[i..i + 2] == FieldText(n)
    ensures DigitsAt(s, i, 2) && NumberAt(s, i, i + 2) == n
  {
    FieldTextTwo(n);
    SliceInColumns(s, i, 2);
    NumberIsValue(s, i, i + 2);
  }

  lemma SliceInColumns(s: string, i: nat, width: nat)
    requires i + width <= |s|
    ensures DigitsAt(s, i, width) <==> AllDigits(s[i..i + width])
  {
    var t := s[i..i + width];
    if AllDigits(t) {
      forall j | i <= j < i + width ensures IsDigit(s[j]) {
        assert s[j] == t[j - i] && t[j - i] in t;
      }
    }
  }

  lemma WallIsInColumns(s: string, c: Civil)
    requires 0 <= c.date.year <= 9999 && ValidDate(c.date) && TimeOfDay(c) && WallAt(s, c)
    ensures WallInColumns(s)
  {
    PaddedFor(c.date.year, 4, Power10(4));
    assert s[0..4] == s[..4];
    SliceInColumns(s, 0, 4);
    FieldInColumns(s, 5, c.date.month);
    FieldInColumns(s, 8, c.date.day);
    FieldInColumns(s, 11, c.hour);
    FieldInColumns(s, 14, c.minute);
    FieldInColumns(s, 17, c.second);
  }

  lemma OffsetIsInColumns(s: string, p: nat, suffix: Suffix)
    requires InDay(suffix) && p <= |s| && s[p..] == suffix.Text()
    ensures OffsetInColumns(s, p)
  {
    assert p < |s| ==> s[p] == s[p..][0];
    if suffix.Offset? {
      var sign, h, m := if suffix.west then '-' else '+', FieldText(suffix.hours), FieldText(suffix.minutes);
      FieldTextTwo(suffix.hours);
      FieldTextTwo(suffix.minutes);
      if suffix.colon {
        ColonPieces(s, p, sign, h, m);
      } else {
        PlainPieces(s, p, sign, h, m);
      }
      FieldInColumns(s, p + 1, suffix.hours);
      FieldInColumns(s, |s| - 2, suffix.minutes);
    }
  }

  lemma TimestampIsInColumns(s: string, c: Civil, digits: string, suffix: Suffix)
    requires IsTimestampOf(s, c, digits, suffix)
    ensures InColumns(s) && ParsedInstant(s).Some?
  {
    TimestampShows(c, digits, suffix);
    WallIsInColumns(s, c);
    RestIsInColumns(s, digits, suffix);
    ShownIsAccepted(s, c, digits, suffix);
  }

  lemma ShownIsAccepted(s: string, c: Civil, digits: string, suffix: Suffix)
    requires Shows(s, c, digits, suffix) && ValidDate(c.date) && TimeOfDay(c)
    ensures ParsedInstant(s).Some?
  {
    TimestampMeaning(s, c, digits, suffix);
  }

  lemma RestIsInColumns(s: string, digits: string, suffix: Suffix)
    requires |s| >= 19 && AllDigits(digits) && InDay(suffix) && s[19..] == FractionText(digits) + suffix.Text()
    ensures OffsetInColumns(s, OffsetAt(s))
  {
    SkipFractionText(s, 19, digits, suffix);
    OffsetIsInColumns(s, OffsetAt(s), suffix);
  }

  // ----- what is accepted in columns is a timestamp -----

  lemma LastDigit(t: string)
    requires AllDigits(t) && t != []
    ensures IsDigit(t[|t| - 1]) && AllDigits(t[..|t| - 1])
  {
    assert t == t[..|t| - 1] + [t[|t| - 1]];
  }

  lemma {:induction false} DigitsInRange(t: string)
    requires AllDigits(t)
    ensures 0 <= DigitsValue(t) < Power10(|t|)
  {
    if t != [] {
      LastDigit(t);
      DigitsInRange(t[..|t| - 1]);
    }
  }

  lemma {:induction false} DigitsPrintBack(t: string)
    requires AllDigits(t)
    ensures DigitsValue(t) >= 0 && Padded(DigitsValue(t), |t|) == t
  {
    DigitsInRange(t);
    if t != [] {
      var init, last := t[..|t| - 1], t[|t| - 1];
      LastDigit(t);
      DigitsPrintBack(init);
      assert DigitsValue(t) / 10 == DigitsValue(init) && DigitsValue(t) % 10 == DigitValue(last);
      assert DigitChar(DigitValue(last)) == last;
      assert t == init + [last];
    }
  }

  lemma ColumnsAreScanned(s: string, i: nat, width: nat)
    requires width > 0 && DigitsAt(s, i, width)
    ensures ScanInt(s, i, width) == Some(Scan(NumberAt(s, i, i + width), i + width))
  {
    DigitsEndExact(s, i, width);
    assert IsDigit(s[i]);
  }

  lemma ColumnsArePadded(s: string, i: nat, width: nat)
    requires DigitsAt(s, i, width)
    ensures 0 <= NumberAt(s, i, i + width) < Power10(width)
    ensures Padded(NumberAt(s, i, i + width), width) == s[i..i + width]
  {
    SliceInColumns(s, i, width);
    NumberIsValue(s, i, i + width);
    DigitsPrintBack(s[i..i + width]);
    DigitsInRange(s[i..i + width]);
  }

  lemma TwoColumnsPrinted(s: string, i: nat)
    requires DigitsAt(s, i, 2)
    ensures var n := NumberAt(s, i, i + 2);
      0 <= n <= 99 && FieldText(n) == s[i..i + 2]
  {
    ColumnsArePadded(s, i, 2);
    assert Power10(2) == 100;
  }

  lemma WallFromColumns(s: string, f: Fields)
    requires WallInColumns(s) && ScanFields(s) == Some(f)
    ensures f.end == 19 && WallAt(s, CivilOf(f)) && TwoColumns(CivilOf(f))
    ensures f.hour >= 0 && f.minute >= 0 && f.second >= 0 && 0 <= f.year <= 9999
  {
    var date, time := FieldsParts(s);
    YearColumns(s);
    ColumnsAreScanned(s, 11, 2);
    TripleFromColumns(s, 0, 4, '-', date, Scan(NumberAt(s, 0, 4), 4));
    TripleFromColumns(s, 11, 2, ':', time, Scan(NumberAt(s, 11, 13), 13));
    ColumnsArePrinted(s, date, time);
  }

  lemma ColumnsArePrinted(s: string, date: Triple, time: Triple)
    requires WallInColumns(s) && ColumnsOf(s, 4, '-', date) && ColumnsOf(s, 13, ':', time) && s[10] == 'T'
    requires 0 <= date.first <= 9999 && YearText(date.first) == s[..4] && time.first == NumberAt(s, 11, 13)
    ensures var c := Civil(Date(date.first, date.second, date.third), time.first, time.second, time.third);
      WallAt(s, c) && TwoColumns(c) && c.hour >= 0 && c.minute >= 0 && c.second >= 0
  {
    TwoColumnsPrinted(s, 5);
    TwoColumnsPrinted(s, 8);
    TwoColumnsPrinted(s, 11);
    TwoColumnsPrinted(s, 14);
    TwoColumnsPrinted(s, 17);
  }

  lemma YearColumns(s: string)
    requires DigitsAt(s, 0, 4)
    ensures var year := NumberAt(s, 0, 4);
      ScanInt(s, 0, 4) == Some(Scan(year, 4)) && 0 <= year <= 9999 && YearText(year) == s[..4]
  {
    ColumnsAreScanned(s, 0, 4);
    ColumnsArePadded(s, 0, 4);
    assert Power10(4) == 10000;
    assert s[..4] == s[0..4];
  }

  /** Two numbers in their columns after a first number in its columns. */
  lemma TripleFromColumns(s: string, i: nat, width: nat, c: char, t: Triple, first: Scan)
    requires width > 0 && ScanTriple(s, i, width, c) == Some(t)
    requires ScanInt(s, i, width) == Some(first) && first.end == i + width
    requires DigitsAt(s, i + width + 1, 2) && DigitsAt(s, i + width + 4, 2)
    ensures ColumnsOf(s, i + width, c, t) && first.value == t.first
  {
    var a, b, e := TripleParts(s, i, width, c);
    PartsStand(s, i + width, c, a, b, e);
  }

  lemma PartsStand(s: string, p: nat, c: char, a: Scan, b: Scan, e: Scan)
    requires a.end == p < |s| && s[p] == c && ScanInt(s, p + 1, 2) == Some(b)
    requires b.end < |s| && s[b.end] == c && ScanInt(s, b.end + 1, 2) == Some(e)
    requires DigitsAt(s, p + 1, 2) && DigitsAt(s, p + 4, 2)
    ensures ColumnsOf(s, p, c, Triple(a.value, b.value, e.value, e.end))
  {
    PartsFromColumns(s, p, a, b, e);
  }

  /** The second and third number stand in their columns behind position `p`. */
  ghost predicate ColumnsOf(s: string, p: nat, c: char, t: Triple) {
    && p + 6 <= |s| && s[p] == s[p + 3] == c && t.end == p + 6
    && t.second == NumberAt(s, p + 1, p + 3) && t.third == NumberAt(s, p + 4, p + 6)
  }

  lemma PartsFromColumns(s: string, p: nat, a: Scan, b: Scan, e: Scan)
    requires a.end == p && ScanInt(s, p + 1, 2) == Some(b) && ScanInt(s, b.end + 1, 2) == Some(e)
    requires DigitsAt(s, p + 1, 2) && DigitsAt(s, p + 4, 2)
    ensures b == Scan(NumberAt(s, p + 1, p + 3), p + 3)
    ensures e == Scan(NumberAt(s, p + 4, p + 6), p + 6)
  {
    ColumnsAreScanned(s, p + 1, 2);
    ColumnsAreScanned(s, p + 4, 2);
  }

  lemma SuffixFromColumns(s: string, p: nat) returns (suffix: Suffix)
    requires p <= |s| && OffsetInColumns(s, p)
    requires ParseSuffix(s, p).Some? && ParseSuffix(s, p).value.end == |s|
    ensures InDay(suffix) && s[p..] == suffix.Text()
  {
    if At(s, p) == 'Z' || At(s, p) == 'z' {
      suffix := Zulu(s[p] == 'Z');
      assert s[p..] == [s[p]];
    } else if At(s, p) == '+' || At(s, p) == '-' {
      suffix := OffsetFromColumns(s, p);
    } else {
      suffix := NoOffset;
    }
  }

  lemma OffsetColumns(s: string, p: nat) returns (colon: bool)
    requires p < |s| && (s[p] == '+' || s[p] == '-') && DigitsAt(s, p + 1, 2)
    requires ParseUtcOffset(s, p).Some? && ParseUtcOffset(s, p).value.end == |s|
    ensures |s| == (if colon then p + 6 else p + 5) && (colon ==> s[p + 3] == ':')
  {
    colon := OffsetForm(s, p);
    var a, q, b := PairParts(s, p + 1, colon);
    ColumnsAreScanned(s, p + 1, 2);
  }

  lemma OffsetFromColumns(s: string, p: nat) returns (suffix: Suffix)
    requires p < |s| && (s[p] == '+' || s[p] == '-') && OffsetInColumns(s, p)
    requires ParseUtcOffset(s, p).Some? && ParseUtcOffset(s, p).value.end == |s|
    ensures InDay(suffix) && s[p..] == suffix.Text()
  {
    var colon := OffsetColumns(s, p);
    suffix := OffsetPrinted(s, p, colon);
  }

  lemma OffsetPrinted(s: string, p: nat, colon: bool) returns (suffix: Suffix)
    requires p < |s| && (s[p] == '+' || s[p] == '-') && OffsetInColumns(s, p)
    requires |s| == (if colon then p + 6 else p + 5) && (colon ==> s[p + 3] == ':')
    ensures InDay(suffix) && s[p..] == suffix.Text()
  {
    TwoColumnsPrinted(s, p + 1);
    TwoColumnsPrinted(s, |s| - 2);
    var h, m := NumberAt(s, p + 1, p + 3), NumberAt(s, |s| - 2, |s|);
    suffix := Offset(s[p] == '-', h, m, colon);
    OffsetJoins(s, p, FieldText(h), FieldText(m), colon);
  }

  lemma OffsetJoins(s: string, p: nat, h: string, m: string, colon: bool)
    requires p < |s| == (if colon then p + 6 else p + 5) && (colon ==> s[p + 3] == ':')
    requires s[p + 1..p + 3] == h && s[|s| - 2..|s| - 2 + 2] == m
    ensures s[p..] == [s[p]] + h + (if colon then ":" else "") + m
  {
    if colon {
      assert s[p..] == [s[p]] + s[p + 1..p + 3] + [s[p + 3]] + s[p + 4..p + 6];
    } else {
      assert s[p..] == [s[p]] + s[p + 1..p + 3] + "" + s[p + 3..p + 5];
    }
  }

  lemma RestFromColumns(s: string, f: Fields) returns (digits: string, suffix: Suffix)
    requires NoNul(s) && f.end == 19 <= |s| && OffsetInColumns(s, OffsetAt(s)) && ParsedRest(s, f).Some?
    ensures AllDigits(digits) && InDay(suffix) && s[19..] == FractionText(digits) + suffix.Text()
  {
    RestParts(s, f);
    digits := FractionReads(s, 19);
    SuffixEnds(s, OffsetAt(s));
    suffix := SuffixFromColumns(s, OffsetAt(s));
  }

  lemma AcceptedInColumns(s: string)
    requires InColumns(s) && ParsedInstant(s).Some?
    ensures IsTimestamp(s)
  {
    CStrWhole(s);
    InstantParts(s);
    var f := ScanFields(s).value;
    WallFromColumns(s, f);
    var digits, suffix := RestFromColumns(s, f);
    ValidParts(s, f);
    IsPrinted(s, CivilOf(f), digits, suffix);
  }

  lemma ValidParts(s: string, f: Fields)
    requires ParsedRest(s, f).Some?
    ensures ValidDate(CivilOf(f).date) && f.hour <= 23 && f.minute <= 59 && f.second <= 60
  {
    RestParts(s, f);
  }

  lemma IsPrinted(s: string, c: Civil, digits: string, suffix: Suffix)
    requires Shows(s, c, digits, suffix) && InDay(suffix)
    requires 0 <= c.date.year <= 9999 && ValidDate(c.date) && TimeOfDay(c)
    ensures IsTimestamp(s)
  {
    ShownIsTimestamp(s, c, digits, suffix);
    assert IsTimestampOf(s, c, digits, suffix);
  }

  /** The documentation promises that a text is accepted if and only if it is a
      timestamp. For every text: that is so if and only if the text cannot be read at
      all or is in columns. */
  lemma AcceptanceIsValidity(text: string)
    ensures (ParsedInstant(text).Some? <==> IsTimestamp(text)) <==> (Readable(text) ==> InColumns(text))
    ensures IsTimestamp(text) ==> ParsedInstant(text).Some?
  {
    AcceptedExactly(text, 0);
    if IsTimestamp(text) {
      var c, digits, suffix :| IsTimestampOf(text, c, digits, suffix);
      TimestampIsInColumns(text, c, digits, suffix);
    } else if InColumns(text) && ParsedInstant(text).Some? {
      AcceptedInColumns(text);
    }
  }

  lemma OutOfColumns(text: string)
    requires !InColumns(text)
    ensures !IsTimestamp(text)
  {
    if IsTimestamp(text) {
      var c, digits, suffix :| IsTimestampOf(text, c, digits, suffix);
      TimestampIsInColumns(text, c, digits, suffix);
    }
  }

  // ----- texts that are accepted and are no timestamps -----

  const SECOND_DAY := Date(1970, 1, 2)

  lemma SecondDay(c: Civil)
    requires c.date == SECOND_DAY && c.hour <= 23 && c.minute <= 59 && c.second <= 60
    ensures ClockSeconds(c) == Some(86400 + 3600 * c.hour + 60 * c.minute + c.second)
  {
    assert DayNumber(SECOND_DAY) == 1;
  }

  lemma BadHour(text: string)
    requires |text| >= 13 && text[11] == '-'
    ensures !IsTimestamp(text)
  {
    assert !IsDigit(text[11]);
    OutOfColumns(text);
  }

  /** An hour of -1. */
  lemma NegativeHourIsAccepted(text: string, c: Civil)
    requires c == Civil(SECOND_DAY, -1, 0, 0) && text == Timestamp(c, "", Zulu(true))
    ensures ParsedInstant(text) == Some(82800) && !IsTimestamp(text)
  {
    TimestampShows(c, "", Zulu(true));
    NegativeHour(text, c);
  }

  lemma NegativeHour(text: string, c: Civil)
    requires c == Civil(SECOND_DAY, -1, 0, 0) && Shows(text, c, "", Zulu(true))
    ensures ParsedInstant(text) == Some(82800) && !IsTimestamp(text)
  {
    SecondDay(c);
    TimestampMeaning(text, c, "", Zulu(true));
    NegativeField(text, 11, -1);
    BadHour(text);
  }

  lemma NegativeField(s: string, i: nat, n: int)
    requires -9 <= n < 0 && i + 2 <= |s| && s[i..i + 2] == FieldText(n)
    ensures s[i] == '-'
  {
    assert s[i] == s[i..i + 2][0];
  }

  /** An offset of +99:99. */
  lemma WideOffsetIsAccepted(text: string, c: Civil, suffix: Suffix)
    requires c == Civil(SECOND_DAY, 0, 0, 0) && suffix == Offset(false, 99, 99, true)
    requires text == Timestamp(c, "", suffix)
    ensures ParsedInstant(text) == Some(86400 - 362340) && !IsTimestamp(text)
  {
    TimestampShows(c, "", suffix);
    WideOffsetShown(text, c, suffix);
  }

  lemma WideOffsetShown(text: string, c: Civil, suffix: Suffix)
    requires c == Civil(SECOND_DAY, 0, 0, 0) && suffix == Offset(false, 99, 99, true)
    requires Shows(text, c, "", suffix)
    ensures ParsedInstant(text) == Some(86400 - 362340) && !IsTimestamp(text)
  {
    SecondDay(c);
    TimestampMeaning(text, c, "", suffix);
    WideAhead(suffix, ParsedInstant(text), ClockSeconds(c));
    WideOffset(text, suffix);
    OutOfColumns(text);
  }

  lemma WideAhead(suffix: Suffix, parsed: Option<int>, clock: Option<int>)
    requires suffix == Offset(false, 99, 99, true) && clock == Some(86400) && parsed == Shifted(clock, suffix.Ahead())
    ensures parsed == Some(86400 - 362340)
  {
  }

  lemma WideOffset(s: string, suffix: Suffix)
    requires suffix == Offset(false, 99, 99, true)
    requires |s| >= 19 && s[19..] == FractionText("") + suffix.Text()
    ensures !InColumns(s)
  {
    var h := FieldText(99);
    FieldTextTwo(99);
    assert s[19..] == "" + suffix.Text() == ['+'] + h + ":" + h;
    ColonPieces(s, 19, '+', h, h);
    FieldInColumns(s, 20, 99);
  }

  function Digits(digits: string): Numeral {
    Numeral("", "", digits)
  }

  const SHORT :=
    Wall(Three(Digits("1970"), Digits("1"), Digits("2")), Three(Digits("0"), Digits("0"), Digits("0")))

  /** Fields that are shorter than their columns. */
  lemma ShortFieldsAreAccepted()
    ensures ParsedInstant("1970-1-2T0:0:0Z") == Some(86400) && !IsTimestamp("1970-1-2T0:0:0Z")
  {
    var r := Reading(SHORT, "", ZTail(true), "");
    ShortReading(r);
    ReadingIsParsed("1970-1-2T0:0:0Z", r);
    SecondDay(r.wall.Clock());
    assert !DigitsAt("1970-1-2T0:0:0Z", 17, 2);
    OutOfColumns("1970-1-2T0:0:0Z");
  }

  lemma ShortReading(r: Reading)
    requires r == Reading(SHORT, "", ZTail(true), "")
    ensures Reads(r, "1970-1-2T0:0:0Z") && r.wall.Clock() == Civil(SECOND_DAY, 0, 0, 0)
  {
    ShortDigits();
    ThreeDigits("1970", "1", "2", '-');
    ThreeDigits("0", "0", "0", ':');
    assert "1970" + ("-" + ("1" + ("-" + "2"))) == "1970-1-2";
    assert "0" + (":" + ("0" + (":" + "0"))) == "0:0:0";
    assert "1970-1-2" + ("T" + "0:0:0") + ("" + "Z") + "" == "1970-1-2T0:0:0Z";
  }

  lemma ThreeDigits(x: string, y: string, z: string, c: char)
    ensures Three(Digits(x), Digits(y), Digits(z)).Text(c) == x + ([c] + (y + ([c] + z)))
  {
    assert Digits(x).Text() == x && Digits(y).Text() == y && Digits(z).Text() == z;
  }

  lemma ShortDigits()
    ensures DigitsValue("1970") == 1970 && DigitsValue("1") == 1 && DigitsValue("2") == 2 && DigitsValue("0") == 0
  {
    assert "1970"[..3] == "197" && "197"[..2] == "19" && "19"[..1] == "1";
    assert "1"[..0] == "" && "2"[..0] == "" && "0"[..0] == "";
    assert DigitsValue("19") == 19;
    assert DigitsValue("197") == 197;
  }

  /** Whatever stands behind a NUL is not looked at. */
  lemma TextAfterNulIsAccepted(text: string, after: string)
    requires NoNul(text) && after != "" && after[0] == '\0'
    ensures ParsedInstant(text + after) == ParsedInstant(text) && !IsTimestamp(text + after)
  {
    CStrStops(text, after);
    CStrStops(text, "");
    assert text + "" == text;
    assert after[0] in after && after[0] in text + after;
    OutOfColumns(text + after);
  }
}
