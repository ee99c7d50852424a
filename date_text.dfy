/**
 * Text forms of dates: the ISO 8601 calendar date in extended format `YYYY-MM-DD`
 * (section 5.2.1.1 of ISO 8601:2004), the `toISOString()` timestamp
 * `YYYY-MM-DDTHH:mm:ss.sssZ`, the date-library display patterns the charts use
 * (`EEE`, `MMM`, `MMM d`, `MMM yyyy`, `MMM d, yyyy`, English names), and the
 * code-unit order that the source's `<` and `>` apply to strings.
 */
module DateText {
  import opened Calendar

  predicate IsDigit(c: char) {
    '0' <= c <= '9'
  }

  function Digit(n: int): (c: char)
    requires 0 <= n <= 9
    ensures IsDigit(c)
  {
    (48 + n) as char
  }

  /** Decimal digits of n, without leading zeros (`String(n)` for n >= 0). */
  function NatToString(n: nat): (s: string)
    ensures |s| > 0
    ensures forall i :: 0 <= i < |s| ==> IsDigit(s[i])
  {
    if n < 10 then [Digit(n)] else NatToString(n / 10) + [Digit(n % 10)]
  }

  /** `String(i)` for any integer: a minus sign before the digits of a negative one. */
  function IntToString(i: int): (s: string)
    ensures |s| > 0
  {
    if i < 0 then "-" + NatToString(-i) else NatToString(i)
  }

  function Pad2(n: int): (s: string)
    requires 0 <= n <= 99
    ensures |s| == 2 && IsDigit(s[0]) && IsDigit(s[1])
  {
    [Digit(n / 10), Digit(n % 10)]
  }

  function Pad3(n: int): (s: string)
    requires 0 <= n <= 999
    ensures |s| == 3 && forall i :: 0 <= i < 3 ==> IsDigit(s[i])
  {
    [Digit(n / 100)] + Pad2(n % 100)
  }

  function Pad4(n: int): (s: string)
    requires 0 <= n <= 9999
    ensures |s| == 4 && forall i :: 0 <= i < 4 ==> IsDigit(s[i])
  {
    Pad2(n / 100) + Pad2(n % 100)
  }

  predicate FourDigitYear(y: int) {
    0 <= y <= 9999
  }

  /**
   * The year as written in a date: four digits for years 0..9999; outside that range
   * a sign and the decimal digits (the expanded representation of ISO 8601).
   */
  function YearText(y: int): (s: string)
    ensures |s| > 0 && 'T' !in s && ',' !in s
    ensures FourDigitYear(y) ==> s == Pad4(y)
  {
    if FourDigitYear(y) then Pad4(y)
    else if y < 0 then "-" + NatToString(-y)
    else "+" + NatToString(y)
  }

  /** `format(d, 'yyyy-MM-dd')`, also the first ten characters of `toISOString()`. */
  function IsoDate(d: CalendarDate): (s: string)
    ensures 'T' !in s
  {
    YearText(d.year) + "-" + Pad2(d.month) + "-" + Pad2(d.day)
  }

  /** `toISOString()`: the date, `T`, hours, minutes, seconds, milliseconds and `Z`. */
  function IsoTimestamp(t: DateTime): (s: string)
    ensures 'T' in s
  {
    var ms := t.msOfDay;
    var s := IsoDate(t.date) + "T" + Pad2(ms / HourMs) + ":" + Pad2(ms % HourMs / 60000) + ":"
      + Pad2(ms % 60000 / 1000) + "." + Pad3(ms % 1000) + "Z";
    assert s[|IsoDate(t.date)|] == 'T';
    s
  }

  /** `a < b` on strings: code unit by code unit, a proper prefix first. */
  predicate StrLess(a: string, b: string)
    decreases |a|
  {
    if |a| == 0 then |b| > 0
    else if |b| == 0 then false
    else if a[0] != b[0] then a[0] < b[0]
    else StrLess(a[1..], b[1..])
  }

  /** Exactly one of `a < b`, `a === b`, `a > b` holds. */
  lemma {:induction false} StrTrichotomy(a: string, b: string)
    ensures !(StrLess(a, b) && StrLess(b, a))
    ensures a == b ==> !StrLess(a, b)
    ensures a != b ==> StrLess(a, b) || StrLess(b, a)
    decreases |a|
  {
    if |a| > 0 && |b| > 0 && a[0] == b[0] {
      StrTrichotomy(a[1..], b[1..]);
      if a != b {
        assert a == [a[0]] + a[1..] && b == [b[0]] + b[1..];
      }
    }
  }

  /** Comparing two strings that start with equally long parts compares those parts first. */
  lemma {:induction false} StrLessConcat(p: string, q: string, s: string, t: string)
    requires |p| == |q|
    ensures StrLess(p + s, q + t) <==> StrLess(p, q) || (p == q && StrLess(s, t))
    decreases |p|
  {
    if |p| == 0 {
      assert p + s == s && q + t == t;
    } else {
      assert (p + s)[0] == p[0] && (q + t)[0] == q[0];
      assert (p + s)[1..] == p[1..] + s && (q + t)[1..] == q[1..] + t;
      StrLessConcat(p[1..], q[1..], s, t);
      if p[0] == q[0] && p[1..] == q[1..] {
        assert p == q;
      }
      if p == q {
        assert p[1..] == q[1..];
        StrTrichotomy(p[1..], q[1..]);
      }
    }
  }

  lemma Pad2Order(m: int, n: int)
    requires 0 <= m <= 99 && 0 <= n <= 99
    ensures StrLess(Pad2(m), Pad2(n)) <==> m < n
    ensures Pad2(m) == Pad2(n) <==> m == n
  {
    var a, b := Pad2(m), Pad2(n);
    StrLessConcat([a[0]], [b[0]], [a[1]], [b[1]]);
    assert a == [a[0]] + [a[1]] && b == [b[0]] + [b[1]];
    assert StrLess([a[0]], [b[0]]) <==> a[0] < b[0];
    assert StrLess([a[1]], [b[1]]) <==> a[1] < b[1];
  }

  lemma Pad4Order(m: int, n: int)
    requires 0 <= m <= 9999 && 0 <= n <= 9999
    ensures StrLess(Pad4(m), Pad4(n)) <==> m < n
    ensures Pad4(m) == Pad4(n) <==> m == n
  {
    StrLessConcat(Pad2(m / 100), Pad2(n / 100), Pad2(m % 100), Pad2(n % 100));
    Pad2Order(m / 100, n / 100);
    Pad2Order(m % 100, n % 100);
    if Pad4(m) == Pad4(n) {
      assert Pad4(m)[..2] == Pad2(m / 100) && Pad4(n)[..2] == Pad2(n / 100);
      assert Pad4(m)[2..] == Pad2(m % 100) && Pad4(n)[2..] == Pad2(n % 100);
    }
  }

  /**
   * For four-digit years, comparing `yyyy-MM-dd` strings compares the days
   * chronologically; the calendar screens rely on this when they test `dateString < today`.
   */
  lemma IsoDateOrder(a: CalendarDate, b: CalendarDate)
    requires FourDigitYear(a.year) && FourDigitYear(b.year)
    ensures StrLess(IsoDate(a), IsoDate(b)) <==> DayNumber(a) < DayNumber(b)
    ensures IsoDate(a) == IsoDate(b) <==> a == b
  {
    var ya, yb := Pad4(a.year) + "-", Pad4(b.year) + "-";
    var ma, mb := Pad2(a.month) + "-", Pad2(b.month) + "-";
    assert IsoDate(a) == ya + (ma + Pad2(a.day));
    assert IsoDate(b) == yb + (mb + Pad2(b.day));
    StrLessConcat(ya, yb, ma + Pad2(a.day), mb + Pad2(b.day));
    StrLessConcat(ma, mb, Pad2(a.day), Pad2(b.day));
    StrLessConcat(Pad4(a.year), Pad4(b.year), "-", "-");
    StrLessConcat(Pad2(a.month), Pad2(b.month), "-", "-");
    assert !StrLess("-", "-");
    Pad4Order(a.year, b.year);
    Pad2Order(a.month, b.month);
    Pad2Order(a.day, b.day);
    SplitEqual(Pad4(a.year), Pad4(b.year), "-", "-");
    SplitEqual(Pad2(a.month), Pad2(b.month), "-", "-");
    SplitEqual(ya, yb, ma + Pad2(a.day), mb + Pad2(b.day));
    SplitEqual(ma, mb, Pad2(a.day), Pad2(b.day));
    assert ya == yb <==> a.year == b.year;
    assert ma == mb <==> a.month == b.month;
    DayNumberOrder(a, b);
  }

  lemma SplitEqual(p: string, q: string, s: string, t: string)
    requires |p| == |q|
    ensures p + s == q + t <==> p == q && s == t
  {
    if p + s == q + t {
      assert (p + s)[..|p|] == p && (q + t)[..|q|] == q;
      assert (p + s)[|p|..] == s && (q + t)[|q|..] == t;
    }
  }

  /** The text a completion's `date` field holds: a bare day, or a full timestamp. */
  datatype DateField = DateOnly(day: CalendarDate) | Timestamp(at: DateTime)

  function Text(f: DateField): string {
    match f
    case DateOnly(d) => IsoDate(d)
    case Timestamp(t) => IsoTimestamp(t)
  }

  /** `parseISO(s)` and `new Date(s)`: a bare day parses to its midnight. */
  function Parse(f: DateField): (t: DateTime)
    ensures f.DateOnly? ==> t == Stamp(f.day, 0)
    ensures f.Timestamp? ==> t == f.at
  {
    match f
    case DateOnly(d) => Stamp(d, 0)
    case Timestamp(t) => t
  }

  /** The English weekday and month abbreviations `format` prints. */
  const WeekdayNames: seq<string> := ["Sun", "Mon", "Tue", "Wed", "Thu", "Fri", "Sat"]
  const MonthNames: seq<string> :=
    ["Jan", "Feb", "Mar", "Apr", "May", "Jun", "Jul", "Aug", "Sep", "Oct", "Nov", "Dec"]

  /** The display patterns passed to `format`. */
  datatype Pattern = Weekday | MonthName | MonthDay | MonthYear | MonthDayYear

  /** `format(d, p)` in English: `EEE`, `MMM`, `MMM d`, `MMM yyyy`, `MMM d, yyyy`. */
  function Format(d: CalendarDate, p: Pattern): (s: string)
    ensures |s| > 0
    ensures p != MonthDayYear ==> ',' !in s
  {
    var month := MonthNames[d.month - 1];
    match p
    case Weekday => WeekdayNames[DayOfWeek(d)]
    case MonthName => month
    case MonthDay => month + " " + NatToString(d.day)
    case MonthYear => month + " " + YearText(d.year)
    case MonthDayYear => month + " " + NatToString(d.day) + ", " + YearText(d.year)
  }
}
