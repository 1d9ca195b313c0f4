/** Printed forms that read back exactly: lamports as SOL, and event-log file names. */
module Printers {
  import opened Metrics

  const LAMPORTS_PER_SOL: nat := 1_000_000_000

  // ---- decimal digits -------------------------------------------------------

  function Digit(d: nat): char
    requires d < 10
  {
    ['0', '1', '2', '3', '4', '5', '6', '7', '8', '9'][d]
  }

  predicate IsDigit(c: char) {
    '0' <= c <= '9'
  }

  function DigitValue(c: char): nat
    requires IsDigit(c)
  {
    c as int - '0' as int
  }

  predicate AllDigits(s: string) {
    forall c | c in s :: IsDigit(c)
  }

  /** The number a digit string spells. */
  function ReadNat(s: string): nat
    requires AllDigits(s)
  {
    if s == [] then 0 else 10 * ReadNat(s[..|s| - 1]) + DigitValue(s[|s| - 1])
  }

  function ShowNat(n: nat): (s: string)
    ensures s != [] && AllDigits(s)
  {
    if n < 10 then [Digit(n)] else ShowNat(n / 10) + [Digit(n % 10)]
  }

  /** Exactly `width` digits, leading zeros included. */
  function ShowPadded(n: nat, width: nat): (s: string)
    ensures |s| == width && AllDigits(s)
  {
    if width == 0 then [] else ShowPadded(n / 10, width - 1) + [Digit(n % 10)]
  }

  lemma {:induction false} ShownReadsBack(n: nat)
    ensures ReadNat(ShowNat(n)) == n
  {
    if n >= 10 {
      ShownReadsBack(n / 10);
      assert ShowNat(n)[..|ShowNat(n)| - 1] == ShowNat(n / 10);
    }
  }

  function Power10(k: nat): nat {
    if k == 0 then 1 else 10 * Power10(k - 1)
  }

  lemma {:induction false} PaddedReadsBack(n: nat, width: nat)
    requires n < Power10(width)
    ensures ReadNat(ShowPadded(n, width)) == n
  {
    if width > 0 {
      PaddedReadsBack(n / 10, width - 1);
      assert ShowPadded(n, width)[..width - 1] == ShowPadded(n / 10, width - 1);
    }
  }

  // ---- SOL labels -----------------------------------------------------------

  function TrimZeros(s: string): (t: string)
    ensures |t| <= |s| && t == s[..|t|]
    ensures forall i | |t| <= i < |s| :: s[i] == '0'
  {
    if s == [] || s[|s| - 1] != '0' then s else TrimZeros(s[..|s| - 1])
  }

  function SolLabel(lamports: nat): string {
    var whole := lamports / LAMPORTS_PER_SOL;
    var frac := lamports % LAMPORTS_PER_SOL;
    if frac == 0 then ShowNat(whole)
    else TrimZeros(ShowNat(whole) + "." + ShowPadded(frac, 9))
  }

  function Zeros(n: nat): (s: string)
    ensures |s| == n && AllDigits(s) && forall i | 0 <= i < n :: s[i] == '0'
  {
    seq(n, _ => '0')
  }

  /** The position of the first dot, or the length. */
  function DotAt(s: string): (i: nat)
    ensures i <= |s|
    ensures i < |s| ==> s[i] == '.'
    ensures forall j | 0 <= j < i :: s[j] != '.'
  {
    if s == [] || s[0] == '.' then 0 else 1 + DotAt(s[1..])
  }

  /** What follows a position. */
  function After(s: string, i: nat): string
    requires i < |s|
  {
    s[i + 1..]
  }

  function PadZeros(s: string): (t: string)
    requires |s| <= 9
    ensures AllDigits(s) ==> AllDigits(t)
  {
    s + Zeros(9 - |s|)
  }

  function Lamports(whole: nat, frac: nat): nat {
    whole * LAMPORTS_PER_SOL + frac
  }

  /** Read a label back: the digits before the dot are SOL, those after it are padded to nine
      and are lamports. */
  function ReadSol(s: string): Option<nat> {
    var dot := DotAt(s);
    if dot == |s| then
      if AllDigits(s) then Some(ReadNat(s) * LAMPORTS_PER_SOL) else None
    else
      var frac := After(s, dot);
      if AllDigits(s[..dot]) && AllDigits(frac) && |frac| <= 9
      then Some(Lamports(ReadNat(s[..dot]), ReadNat(PadZeros(frac))))
      else None
  }

  lemma DotIs(s: string, i: nat)
    requires i <= |s| && (i < |s| ==> s[i] == '.') && forall j | 0 <= j < i :: s[j] != '.'
    ensures DotAt(s) == i
  {
  }

  lemma DigitsAreNotDots(s: string, i: nat)
    requires AllDigits(s) && i < |s|
    ensures s[i] != '.'
  {
    assert IsDigit(s[i]);
  }

  lemma WholeLabelHasNoDot(w: string)
    requires AllDigits(w)
    ensures DotAt(w) == |w|
  {
    forall i | 0 <= i < |w|
      ensures w[i] != '.'
    {
      DigitsAreNotDots(w, i);
    }
    DotIs(w, |w|);
  }

  lemma LabelDotIs(w: string, t: string)
    requires AllDigits(w) && |w| < |t| && t[..|w| + 1] == w + "."
    ensures DotAt(t) == |w| && t[..|w|] == w
  {
    var head := t[..|w| + 1];
    forall i | 0 <= i < |w|
      ensures t[i] != '.'
    {
      DigitsAreNotDots(w, i);
      assert t[i] == head[i] == (w + ".")[i];
    }
    assert t[|w|] == head[|w|] == '.';
    DotIs(t, |w|);
    assert t[..|w|] == head[..|w|];
  }

  lemma {:induction false} AllZerosReadZero(s: string)
    requires forall i | 0 <= i < |s| :: s[i] == '0'
    ensures AllDigits(s) && ReadNat(s) == 0
  {
    if s != [] {
      AllZerosReadZero(s[..|s| - 1]);
      assert s[|s| - 1] == '0';
    }
  }

  /** What trimming leaves still has its dot, and padding the rest restores the digits. */
  lemma TrimKeepsTheNumber(whole: string, frac: string)
    requires AllDigits(whole) && AllDigits(frac) && |frac| == 9 && ReadNat(frac) > 0
    ensures var t := TrimZeros(whole + "." + frac);
            && |whole| + 1 <= |t| <= |whole| + 10 && t[..|whole| + 1] == whole + "."
            && |After(t, |whole|)| <= 9 && PadZeros(After(t, |whole|)) == frac
  {
    var s := whole + "." + frac;
    var t := TrimZeros(s);
    if |t| <= |whole| + 1 {
      forall i | 0 <= i < 9
        ensures frac[i] == '0'
      {
        assert s[|whole| + 1 + i] == frac[i];
      }
      AllZerosReadZero(frac);
      assert false;
    }
    assert t[..|whole| + 1] == s[..|whole| + 1] == whole + ".";
    var kept := After(t, |whole|);
    assert kept == frac[..|kept|];
    forall i | |kept| <= i < 9
      ensures frac[i] == '0'
    {
      assert s[|whole| + 1 + i] == frac[i];
    }
    assert kept + Zeros(9 - |kept|) == frac;
  }

  lemma PointLabelReadsBack(w: string, f: string)
    requires AllDigits(w) && AllDigits(f) && |f| == 9 && ReadNat(f) > 0
    ensures ReadSol(TrimZeros(w + "." + f)) == Some(Lamports(ReadNat(w), ReadNat(f)))
  {
    TrimKeepsTheNumber(w, f);
    var t := TrimZeros(w + "." + f);
    LabelDotIs(w, t);
  }

  lemma NinePlacesReadBack(frac: nat)
    requires frac < 1_000_000_000
    ensures ReadNat(ShowPadded(frac, 9)) == frac
  {
    assert Power10(9) == 1_000_000_000 by {
      assert Power10(3) == 1_000;
      assert Power10(6) == 1_000_000;
    }
    PaddedReadsBack(frac, 9);
  }

  lemma WholeSolReadsBack(whole: nat)
    ensures ReadSol(ShowNat(whole)) == Some(Lamports(whole, 0))
  {
    WholeLabelHasNoDot(ShowNat(whole));
    ShownReadsBack(whole);
  }

  lemma SplitSolReadsBack(whole: nat, frac: nat)
    requires 0 < frac < 1_000_000_000
    ensures ReadSol(TrimZeros(ShowNat(whole) + "." + ShowPadded(frac, 9))) == Some(Lamports(whole, frac))
  {
    ShownReadsBack(whole);
    NinePlacesReadBack(frac);
    PointLabelReadsBack(ShowNat(whole), ShowPadded(frac, 9));
  }

  /** A SOL label reads back to the same lamports, so no two amounts share one. */
  lemma SolLabelReadsBack(lamports: nat)
    ensures ReadSol(SolLabel(lamports)) == Some(lamports)
  {
    var whole, frac := lamports / LAMPORTS_PER_SOL, lamports % LAMPORTS_PER_SOL;
    assert Lamports(whole, frac) == lamports;
    if frac == 0 {
      WholeSolReadsBack(whole);
    } else {
      SplitSolReadsBack(whole, frac);
    }
  }

  lemma SolLabelsAreDistinct(a: nat, b: nat)
    requires a != b
    ensures SolLabel(a) != SolLabel(b)
  {
    SolLabelReadsBack(a);
    SolLabelReadsBack(b);
  }

  // ---- event-log file names -------------------------------------------------

  const PREFIX: string := "events-"
  const SUFFIX: string := ".jsonl"

  datatype Date = Date(year: nat, month: nat, day: nat)

  predicate LeapYear(y: nat) {
    y % 4 == 0 && (y % 100 != 0 || y % 400 == 0)
  }

  function DaysIn(y: nat, m: nat): nat {
    if m == 2 then (if LeapYear(y) then 29 else 28) else if m in {4, 6, 9, 11} then 30 else 31
  }

  /** A calendar date with a four-digit year. */
  predicate ValidDate(d: Date) {
    d.year <= 9_999 && 1 <= d.month <= 12 && 1 <= d.day <= DaysIn(d.year, d.month)
  }

  /** Century years are leap years every fourth time only; the months of a common year. */
  lemma KnownCalendar(m: nat)
    requires 1 <= m <= 12
    ensures LeapYear(2000) && LeapYear(2024) && LeapYear(2400) && !LeapYear(1900) && !LeapYear(2023) && !LeapYear(2100)
    ensures DaysIn(2023, m) == [31, 28, 31, 30, 31, 30, 31, 31, 30, 31, 30, 31][m - 1]
    ensures ValidDate(Date(2024, 2, 29)) && !ValidDate(Date(2023, 2, 29)) && ValidDate(Date(1, 1, 1)) && ValidDate(Date(9_999, 12, 31))
    ensures !ValidDate(Date(2024, m, 0)) && !ValidDate(Date(2024, 0, 1)) && !ValidDate(Date(2024, 13, 1)) && !ValidDate(Date(2024, m, 32))
  {
  }

  function ShowDate(d: Date): (s: string)
    ensures |s| == 10
  {
    ShowPadded(d.year, 4) + "-" + ShowPadded(d.month, 2) + "-" + ShowPadded(d.day, 2)
  }

  /** The printed shape of a date only; a parser that accepts more reads these the same. */
  function ReadDate(s: string): Option<Date> {
    if |s| == 10 && AllDigits(s[..4]) && s[4] == '-' && AllDigits(s[5..7]) && s[7] == '-' && AllDigits(s[8..]) then
      var d := Date(ReadNat(s[..4]), ReadNat(s[5..7]), ReadNat(s[8..]));
      if ValidDate(d) then Some(d) else None
    else None
  }

  lemma DateReadsBack(d: Date)
    requires ValidDate(d)
    ensures ReadDate(ShowDate(d)) == Some(d)
  {
    var y, m, n := ShowPadded(d.year, 4), ShowPadded(d.month, 2), ShowPadded(d.day, 2);
    assert Power10(2) == 100 && Power10(4) == 10_000 by {
      assert Power10(3) == 1_000;
    }
    PaddedReadsBack(d.year, 4);
    PaddedReadsBack(d.month, 2);
    PaddedReadsBack(d.day, 2);
    var s := ShowDate(d);
    assert s[..4] == y && s[5..7] == m && s[8..] == n;
  }

  /** At least two digits. */
  function ShowSegment(seq_: nat): (s: string)
    ensures s != [] && AllDigits(s)
  {
    if seq_ < 10 then "0" + ShowNat(seq_) else ShowNat(seq_)
  }

  lemma {:induction false} LeadingZeroReadsTheSame(s: string)
    requires AllDigits(s)
    ensures AllDigits("0" + s) && ReadNat("0" + s) == ReadNat(s)
  {
    if s == [] {
      assert "0" + s == "0";
      assert ReadNat("0") == 10 * ReadNat("0"[..0]) + DigitValue('0');
    } else {
      var n := |s| - 1;
      LeadingZeroReadsTheSame(s[..n]);
      assert ("0" + s)[..|"0" + s| - 1] == "0" + s[..n];
    }
  }

  lemma SegmentReadsBack(seq_: nat)
    ensures ReadNat(ShowSegment(seq_)) == seq_
  {
    ShownReadsBack(seq_);
    LeadingZeroReadsTheSame(ShowNat(seq_));
  }

  /** Two digits up to ninety-nine, and as many as it takes beyond. */
  lemma SegmentWidth(seq_: nat)
    ensures |ShowSegment(seq_)| == if seq_ < 100 then 2 else |ShowNat(seq_)|
  {
    assert seq_ >= 10 ==> |ShowNat(seq_)| == |ShowNat(seq_ / 10)| + 1;
  }

  lemma SegmentStartsWithADigit(seq_: nat)
    ensures ShowSegment(seq_)[0] != '+'
  {
    assert IsDigit(ShowSegment(seq_)[0]);
  }

  /** The first segment of a day has no number. */
  function Stem(d: Date, seq_: nat): string {
    if seq_ == 0 then ShowDate(d) else ShowDate(d) + "." + ShowSegment(seq_)
  }

  function LogFileName(d: Date, seq_: nat): string {
    PREFIX + Stem(d, seq_) + SUFFIX
  }

  /** An unsigned number may be read with one plus sign in front. */
  function WithoutPlus(s: string): string {
    if s != [] && s[0] == '+' then s[1..] else s
  }

  function ReadSegment(s: string): Option<nat> {
    var digits := WithoutPlus(s);
    if digits != [] && AllDigits(digits) && 0 < ReadNat(digits) <= U32_MAX then Some(ReadNat(digits)) else None
  }

  lemma SegmentIsRead(seq_: nat)
    requires 0 < seq_ <= U32_MAX
    ensures ReadSegment(ShowSegment(seq_)) == Some(seq_)
  {
    SegmentStartsWithADigit(seq_);
    SegmentReadsBack(seq_);
  }

  function ReadStem(stem: string): Option<(Date, nat)> {
    var dot := DotAt(stem);
    if dot == |stem| then
      match ReadDate(stem)
      case None => None
      case Some(d) => Some((d, 0))
    else
      match (ReadDate(stem[..dot]), ReadSegment(After(stem, dot)))
      case (Some(d), Some(n)) => Some((d, n))
      case _ => None
  }

  function ParseLogFileName(name: string): Option<(Date, nat)> {
    if |name| < |PREFIX| + |SUFFIX| || !(PREFIX <= name) || name[|name| - |SUFFIX|..] != SUFFIX then None
    else ReadStem(name[|PREFIX|..|name| - |SUFFIX|])
  }

  lemma DateHasNoDot(d: Date, i: nat)
    requires i < 10
    ensures ShowDate(d)[i] != '.'
  {
    var y, m, n := ShowPadded(d.year, 4), ShowPadded(d.month, 2), ShowPadded(d.day, 2);
    var s := ShowDate(d);
    if i < 4 {
      assert s[i] == y[i];
      DigitsAreNotDots(y, i);
    } else if 5 <= i < 7 {
      assert s[i] == m[i - 5];
      DigitsAreNotDots(m, i - 5);
    } else if i >= 8 {
      assert s[i] == n[i - 8];
      DigitsAreNotDots(n, i - 8);
    }
  }

  lemma StemDotIs(d: Date, rest: string)
    requires rest != [] ==> rest[0] == '.'
    ensures DotAt(ShowDate(d) + rest) == 10
  {
    var date, stem := ShowDate(d), ShowDate(d) + rest;
    forall i | 0 <= i < 10
      ensures stem[i] == date[i] != '.'
    {
      DateHasNoDot(d, i);
    }
    DotIs(stem, 10);
  }

  lemma StemReadsBack(d: Date, seq_: nat)
    requires ValidDate(d) && seq_ <= U32_MAX
    ensures ReadStem(Stem(d, seq_)) == Some((d, seq_))
  {
    var date, stem := ShowDate(d), Stem(d, seq_);
    DateReadsBack(d);
    if seq_ == 0 {
      StemDotIs(d, "");
      assert stem == date == date + "";
    } else {
      var rest := "." + ShowSegment(seq_);
      StemDotIs(d, rest);
      assert stem == date + rest;
      SegmentIsRead(seq_);
      assert stem[..10] == date;
      assert After(stem, 10) == ShowSegment(seq_);
    }
  }

  /** A file name reads back to its date and segment, for every four-digit year and every
      32-bit segment. */
  lemma LogFileNameReadsBack(d: Date, seq_: nat)
    requires ValidDate(d) && seq_ <= U32_MAX
    ensures ParseLogFileName(LogFileName(d, seq_)) == Some((d, seq_))
  {
    var name, stem := LogFileName(d, seq_), Stem(d, seq_);
    assert PREFIX <= name;
    assert name[|name| - |SUFFIX|..] == SUFFIX;
    assert name[|PREFIX|..|name| - |SUFFIX|] == stem;
    StemReadsBack(d, seq_);
  }

  /** A number of one more digit is its leading digits, then the last. */
  lemma OneMoreDigit(m: nat, q: nat, d: nat, width: nat)
    requires width > 0 && d < 10 && m / 10 == q && m % 10 == d
    ensures ShowPadded(m, width) == ShowPadded(q, width - 1) + [Digit(d)]
  {
  }

  lemma LeadingAndLast(m: nat, q: nat, d: nat)
    requires d < 10 && m == 10 * q + d
    ensures m / 10 == q && m % 10 == d
  {
  }

  lemma DigitIsItself(ch: char)
    requires IsDigit(ch)
    ensures Digit(DigitValue(ch)) == ch
  {
  }

  lemma {:induction false} PaddedIsTheDigits(s: string)
    requires AllDigits(s)
    ensures ShowPadded(ReadNat(s), |s|) == s
  {
    if s != [] {
      var n := |s| - 1;
      assert IsDigit(s[n]);
      PaddedIsTheDigits(s[..n]);
      LeadingAndLast(ReadNat(s), ReadNat(s[..n]), DigitValue(s[n]));
      DigitIsItself(s[n]);
      OneMoreDigit(ReadNat(s), ReadNat(s[..n]), DigitValue(s[n]), |s|);
      assert s == s[..n] + [s[n]];
    }
  }

  lemma DateIsThePrintedOne(s: string, d: Date)
    requires ReadDate(s) == Some(d)
    ensures s == ShowDate(d)
  {
    var y, m, n := s[..4], s[5..7], s[8..];
    PaddedIsTheDigits(y);
    PaddedIsTheDigits(m);
    PaddedIsTheDigits(n);
    assert ShowDate(d) == y + "-" + m + "-" + n;
    DateParts(s, y, m, n);
  }

  lemma DateParts(s: string, y: string, m: string, n: string)
    requires |s| == 10 && y == s[..4] && m == s[5..7] && n == s[8..] && s[4] == '-' && s[7] == '-'
    ensures s == y + "-" + m + "-" + n
  {
  }

  /** Segment zero has one spelling: a name that reads as the first segment of a day is the
      one printed for it, and no number follows the date, however many zeros or signs. */
  lemma SegmentZeroHasOneSpelling(name: string, d: Date)
    requires ParseLogFileName(name) == Some((d, 0))
    ensures name == LogFileName(d, 0)
  {
    var stem := name[|PREFIX|..|name| - |SUFFIX|];
    assert DotAt(stem) == |stem| && ReadDate(stem) == Some(d);
    DateIsThePrintedOne(stem, d);
    assert name == PREFIX + stem + SUFFIX;
  }
}
