/** The timestamp part of backup names: Go's layout 20060102-150405, written by
    time.Format and read by time.Parse (internal/backup/backup.go). */
module Stamps {
  import opened Wrappers
  import opened Seqs
  import opened Text
  import opened Calendar

  /** n in exactly w digits. */
  function Digits(w: nat, n: nat): (s: string)
    ensures |s| == w && AllDigits(s)
  {
    if w == 0 then "" else Digits(w - 1, n / 10) + [DigitOf(n % 10)]
  }

  /** Month, day, hour, minute or second. */
  function Two(n: nat): string { Digits(2, n) }

  function DatePart(c: Civil): (s: string)
    ensures |s| == 8
  {
    Digits(4, c.year) + Two(c.month) + Two(c.day)
  }

  function TimePart(c: Civil): (s: string)
    ensures |s| == 6
  {
    Two(c.hour) + Two(c.minute) + Two(c.second)
  }

  /** time.Format. */
  function Format(c: Civil): (s: string)
    ensures |s| == 15
  {
    DatePart(c) + "-" + TimePart(c)
  }

  function Number(s: string, from: nat, to: nat): Option<nat>
    requires from <= to <= |s|
  {
    if AllDigits(s[from..to]) then Some(Value(s[from..to])) else None
  }

  /** The fixed-width numbers of a stamp, without range checks. */
  function ReadFields(s: string): Option<Civil>
    requires |s| >= 15
  {
    var y, mo, d := Number(s, 0, 4), Number(s, 4, 6), Number(s, 6, 8);
    var h, mi, se := Number(s, 9, 11), Number(s, 11, 13), Number(s, 13, 15);
    if y.None? || mo.None? || d.None? || s[8] != '-' || h.None? || mi.None? || se.None? then None
    else Some(Civil(y.value, mo.value, d.value, h.value, mi.value, se.value))
  }

  const NANOS := 1_000_000_000

  /** The fraction time.Parse accepts after the seconds although the layout has none: a
      period or comma and digits, of which the first nine count. */
  function ReadFraction(s: string): Option<nat>
  {
    if s == "" then Some(0)
    else if |s| >= 2 && (s[0] == '.' || s[0] == ',') && AllDigits(s[1..]) then
      var t := s[1..];
      var nine := if |t| < 9 then t + Zeros(9 - |t|) else t[..9];
      assert AllDigits(t[..if |t| < 9 then |t| else 9]);
      Some(Value(nine))
    else None
  }

  function Zeros(n: nat): (s: string)
    ensures |s| == n && AllDigits(s) && Value(s) == 0
  {
    if n == 0 then ""
    else
      assert (Zeros(n - 1) + "0")[..n - 1] == Zeros(n - 1);
      Zeros(n - 1) + "0"
  }

  /** time.Parse: the instant in nanoseconds, None for a text it refuses. */
  function ParseStamp(s: string): Option<int>
  {
    if |s| < 15 then None
    else
      var c, f := ReadFields(s), ReadFraction(s[15..]);
      if c.None? || !IsCivil(c.value) || f.None? then None
      else Some(NANOS * Seconds(c.value) + f.value)
  }

  // -------------------------------------------------------------------------
  // Reading what was written
  // -------------------------------------------------------------------------

  function Power10(w: nat): nat
  {
    if w == 0 then 1 else 10 * Power10(w - 1)
  }

  lemma {:induction false} DigitsRead(w: nat, n: nat)
    requires n < Power10(w)
    ensures Value(Digits(w, n)) == n
  {
    if w == 0 {
    } else {
      DigitsRead(w - 1, n / 10);
      assert Digits(w, n)[..w - 1] == Digits(w - 1, n / 10);
    }
  }

  lemma SmallDigitsRead(n: nat)
    ensures n < 10000 ==> Value(Digits(4, n)) == n
    ensures n < 100 ==> Value(Two(n)) == n
  {
    assert Power10(2) == 100;
    assert Power10(4) == 100 * Power10(2);
    if n < 10000 {
      DigitsRead(4, n);
    }
    if n < 100 {
      DigitsRead(2, n);
    }
  }

  lemma FormatParts(c: Civil)
    ensures var s := Format(c);
      && s[0..4] == Digits(4, c.year) && s[4..6] == Two(c.month) && s[6..8] == Two(c.day) && s[8] == '-'
      && s[9..11] == Two(c.hour) && s[11..13] == Two(c.minute) && s[13..15] == Two(c.second)
  {
  }

  lemma NumberIs(s: string, from: nat, to: nat, c: Civil, tail: string, n: nat)
    requires s == Format(c) + tail && from <= to <= 15
    requires Format(c)[from..to] == if from == 0 then Digits(4, n) else Two(n)
    requires n < if from == 0 then 10000 else 100
    ensures Number(s, from, to) == Some(n)
  {
    assert s[from..to] == Format(c)[from..to];
    SmallDigitsRead(n);
  }

  /** The fields of a formatted time are the time, whatever follows the stamp. */
  lemma FieldsOfFormat(c: Civil, tail: string)
    requires IsCivil(c)
    ensures ReadFields(Format(c) + tail) == Some(c)
  {
    hide Format, Number, Digits;
    var s := Format(c) + tail;
    FormatParts(c);
    assert s[8] == Format(c)[8];
    NumberIs(s, 0, 4, c, tail, c.year);
    NumberIs(s, 4, 6, c, tail, c.month);
    NumberIs(s, 6, 8, c, tail, c.day);
    NumberIs(s, 9, 11, c, tail, c.hour);
    NumberIs(s, 11, 13, c, tail, c.minute);
    NumberIs(s, 13, 15, c, tail, c.second);
  }

  /** Parsing a formatted time gives its instant, to the second. */
  lemma ParseFormat(c: Civil)
    requires IsCivil(c)
    ensures ParseStamp(Format(c)) == Some(NANOS * Seconds(c))
  {
    FieldsOfFormat(c, "");
    assert Format(c) + "" == Format(c);
    assert Format(c)[15..] == "";
  }

  /** A name no Create makes can tie with one it makes: a fraction of zero. */
  lemma FractionsTie(c: Civil)
    requires IsCivil(c)
    ensures Format(c) + ".0" != Format(c)
    ensures ParseStamp(Format(c) + ".0") == ParseStamp(Format(c))
  {
    hide Format, ReadFields, ReadFraction, IsCivil;
    FieldsOfFormat(c, ".0");
    ParseFormat(c);
    ZeroFraction();
    assert (Format(c) + ".0")[15..] == ".0";
  }

  lemma ZeroFraction()
    ensures ReadFraction(".0") == Some(0)
  {
    assert ".0"[1..] == "0";
    ZerosAreZeros(8);
    ZerosAreZeros(9);
    assert "0" + Zeros(8) == Zeros(9);
  }

  lemma {:induction false} ZerosAreZeros(n: nat)
    ensures forall i :: 0 <= i < n ==> Zeros(n)[i] == '0'
  {
    if n == 0 {
    } else {
      ZerosAreZeros(n - 1);
    }
  }

  // -------------------------------------------------------------------------
  // Order
  // -------------------------------------------------------------------------

  /** Bytewise order of texts of one length. */
  predicate Less(a: string, b: string)
    requires |a| == |b|
  {
    a != "" && (a[0] < b[0] || (a[0] == b[0] && Less(a[1..], b[1..])))
  }

  lemma {:induction false} LessAppend(a: string, b: string, x: string, y: string)
    requires |a| == |b| && |x| == |y|
    ensures Less(a + x, b + y) <==> Less(a, b) || (a == b && Less(x, y))
  {
    if a == "" {
      assert a + x == x && b + y == y;
    } else {
      assert (a + x)[1..] == a[1..] + x && (b + y)[1..] == b[1..] + y;
      LessAppend(a[1..], b[1..], x, y);
      assert a == b <==> a[0] == b[0] && a[1..] == b[1..];
    }
  }

  lemma {:induction false} DigitsOrder(w: nat, m: nat, n: nat)
    requires m < Power10(w) && n < Power10(w)
    ensures Less(Digits(w, m), Digits(w, n)) <==> m < n
    ensures Digits(w, m) == Digits(w, n) <==> m == n
  {
    if w == 0 {
    } else {
      DigitsOrder(w - 1, m / 10, n / 10);
      LessAppend(Digits(w - 1, m / 10), Digits(w - 1, n / 10), [DigitOf(m % 10)], [DigitOf(n % 10)]);
      assert Less([DigitOf(m % 10)], [DigitOf(n % 10)]) <==> m % 10 < n % 10;
      DigitsRead(w, m);
      DigitsRead(w, n);
    }
  }

  lemma TwoOrder(m: nat, n: nat)
    requires m < 100 && n < 100
    ensures Less(Two(m), Two(n)) <==> m < n
    ensures Two(m) == Two(n) <==> m == n
  {
    assert Power10(2) == 100;
    DigitsOrder(2, m, n);
  }

  lemma YearOrder(m: nat, n: nat)
    requires m < 10000 && n < 10000
    ensures Less(Digits(4, m), Digits(4, n)) <==> m < n
    ensures Digits(4, m) == Digits(4, n) <==> m == n
  {
    assert Power10(2) == 100;
    assert Power10(4) == 100 * Power10(2);
    DigitsOrder(4, m, n);
  }

  lemma TimePartOrder(a: Civil, b: Civil)
    requires IsCivil(a) && IsCivil(b)
    ensures Less(TimePart(a), TimePart(b)) <==>
            a.hour < b.hour || (a.hour == b.hour &&
              (a.minute < b.minute || (a.minute == b.minute && a.second < b.second)))
    ensures TimePart(a) == TimePart(b) <==> (a.hour, a.minute, a.second) == (b.hour, b.minute, b.second)
  {
    LessAppend(Two(a.hour) + Two(a.minute), Two(b.hour) + Two(b.minute), Two(a.second), Two(b.second));
    LessAppend(Two(a.hour), Two(b.hour), Two(a.minute), Two(b.minute));
    TwoOrder(a.hour, b.hour);
    TwoOrder(a.minute, b.minute);
    TwoOrder(a.second, b.second);
    ThreeEqual(Two(a.hour), Two(a.minute), Two(a.second), Two(b.hour), Two(b.minute), Two(b.second));
    PairEqual(Two(a.hour), Two(a.minute), Two(b.hour), Two(b.minute));
  }

  lemma DatePartOrder(a: Civil, b: Civil)
    requires IsCivil(a) && IsCivil(b)
    ensures Less(DatePart(a), DatePart(b)) <==>
            a.year < b.year || (a.year == b.year &&
              (a.month < b.month || (a.month == b.month && a.day < b.day)))
    ensures DatePart(a) == DatePart(b) <==> (a.year, a.month, a.day) == (b.year, b.month, b.day)
  {
    LessAppend(Digits(4, a.year) + Two(a.month), Digits(4, b.year) + Two(b.month), Two(a.day), Two(b.day));
    LessAppend(Digits(4, a.year), Digits(4, b.year), Two(a.month), Two(b.month));
    YearOrder(a.year, b.year);
    TwoOrder(a.month, b.month);
    TwoOrder(a.day, b.day);
    ThreeEqual(Digits(4, a.year), Two(a.month), Two(a.day), Digits(4, b.year), Two(b.month), Two(b.day));
    PairEqual(Digits(4, a.year), Two(a.month), Digits(4, b.year), Two(b.month));
  }

  lemma PairEqual(a: string, b: string, x: string, y: string)
    requires |a| == |x| && |b| == |y|
    ensures a + b == x + y <==> a == x && b == y
  {
    assert a + b == x + y ==> (a + b)[..|a|] == (x + y)[..|a|] && (a + b)[|a|..] == (x + y)[|a|..];
    assert (a + b)[..|a|] == a && (x + y)[..|a|] == x;
    assert (a + b)[|a|..] == b && (x + y)[|a|..] == y;
  }

  lemma ThreeEqual(a: string, b: string, c: string, x: string, y: string, z: string)
    requires |a| == |x| && |b| == |y| && |c| == |z|
    ensures a + b + c == x + y + z <==> a == x && b == y && c == z
  {
    PairEqual(a + b, c, x + y, z);
    PairEqual(a, b, x, y);
  }

  /** Names are an order-preserving code of instants: bytewise order of formatted times is
      the order of the times, and no two times share a name. */
  lemma FormatOrder(a: Civil, b: Civil)
    requires IsCivil(a) && IsCivil(b)
    ensures Less(Format(a), Format(b)) <==> Seconds(a) < Seconds(b)
    ensures Format(a) == Format(b) <==> Seconds(a) == Seconds(b)
  {
    LessAppend(DatePart(a) + "-", DatePart(b) + "-", TimePart(a), TimePart(b));
    LessAppend(DatePart(a), DatePart(b), "-", "-");
    PairEqual(DatePart(a), "-", DatePart(b), "-");
    PairEqual(DatePart(a) + "-", TimePart(a), DatePart(b) + "-", TimePart(b));
    DatePartOrder(a, b);
    TimePartOrder(a, b);
    CalendarOrder(a, b);
  }

  // -------------------------------------------------------------------------
  // What time.Parse accepts
  // -------------------------------------------------------------------------

  /** Nothing, or a period or comma and some digits. */
  predicate IsFraction(t: string)
  {
    t == "" || (|t| >= 2 && (t[0] == '.' || t[0] == ',') && AllDigits(t[1..]))
  }

  lemma ValueSnoc(s: string, c: char)
    requires AllDigits(s) && IsDigit(c)
    ensures AllDigits(s + [c]) && Value(s + [c]) == 10 * Value(s) + (c as int - '0' as int)
  {
    assert (s + [c])[..|s|] == s;
  }

  lemma TenTimes(v: nat, d: nat)
    requires d < 10
    ensures (10 * v + d) / 10 == v && (10 * v + d) % 10 == d
  {
  }

  lemma {:induction false} DigitsOfValue(t: string)
    requires AllDigits(t)
    ensures Digits(|t|, Value(t)) == t && Value(t) < Power10(|t|)
  {
    if t == "" {
    } else {
      hide Value;
      var init, last := t[..|t| - 1], t[|t| - 1];
      assert t == init + [last] && last in t;
      DigitsOfValue(init);
      ValueSnoc(init, last);
      TenTimes(Value(init), last as int - '0' as int);
    }
  }

  lemma NumberWrites(s: string, from: nat, to: nat)
    requires from <= to <= |s| && Number(s, from, to).Some?
    ensures Digits(to - from, Number(s, from, to).value) == s[from..to]
  {
    DigitsOfValue(s[from..to]);
  }

  lemma FieldsWrite(s: string)
    requires |s| >= 15 && ReadFields(s).Some?
    ensures Format(ReadFields(s).value) == s[..15]
  {
    hide Number, Digits;
    NumberWrites(s, 0, 4);
    NumberWrites(s, 4, 6);
    NumberWrites(s, 6, 8);
    NumberWrites(s, 9, 11);
    NumberWrites(s, 11, 13);
    NumberWrites(s, 13, 15);
    assert s[..15] == s[0..4] + s[4..6] + s[6..8] + [s[8]] + (s[9..11] + s[11..13] + s[13..15]);
  }

  /** Exactly the texts of a valid time with or without a fraction are accepted, and read as
      that time and fraction. */
  lemma ParseIsExact(s: string, c: Civil, tail: string)
    requires s == Format(c) + tail
    ensures ParseStamp(s).Some? && ReadFields(s) == Some(c) <==> IsCivil(c) && IsFraction(tail)
    ensures IsCivil(c) && IsFraction(tail) ==> ParseStamp(s) == Some(NANOS * Seconds(c) + ReadFraction(tail).value)
  {
    hide Format, ReadFields, IsCivil;
    assert s[15..] == tail;
    if IsCivil(c) {
      FieldsOfFormat(c, tail);
    }
  }

  /** Every accepted text is such a text. */
  lemma AcceptedIsFormatted(s: string) returns (c: Civil)
    requires ParseStamp(s).Some?
    ensures IsCivil(c) && |s| >= 15 && s == Format(c) + s[15..] && IsFraction(s[15..])
  {
    hide Format, ReadFields, IsCivil;
    c := ReadFields(s).value;
    FieldsWrite(s);
    assert s == s[..15] + s[15..];
  }

  lemma {:induction false} ValueShifts(t: string, n: nat)
    requires AllDigits(t)
    ensures AllDigits(t + Zeros(n)) && Value(t + Zeros(n)) == Value(t) * Power10(n)
  {
    hide Value;
    if n == 0 {
      assert t + Zeros(0) == t;
    } else {
      ValueShifts(t, n - 1);
      ValueSnoc(t + Zeros(n - 1), '0');
      assert t + Zeros(n) == t + Zeros(n - 1) + ['0'];
      Tenfold(Value(t), Power10(n - 1));
    }
  }

  lemma Tenfold(v: nat, p: nat)
    ensures 10 * (v * p) == v * (10 * p)
  {
  }

  /** A fraction counts nanoseconds: its digits, up to nine, after the decimal sign. */
  lemma FractionValue(t: string)
    requires t != "" && IsFraction(t)
    ensures var digits := t[1..];
      && (|digits| <= 9 ==> ReadFraction(t) == Some(Value(digits) * Power10(9 - |digits|)))
      && (|digits| > 9 ==> AllDigits(digits[..9]) && ReadFraction(t) == Some(Value(digits[..9])))
  {
    var digits := t[1..];
    if |digits| <= 9 {
      ValueShifts(digits, 9 - |digits|);
      assert digits[..9 - (9 - |digits|)] == digits;
      assert |digits| == 9 ==> digits[..9] == digits && Power10(0) == 1;
    } else {
      assert forall c :: c in digits[..9] ==> c in digits;
    }
  }
}
