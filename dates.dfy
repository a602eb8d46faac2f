/** Calendar dates as `datetime` handles them in `split_date_range`
    (scu.py:91-114): proleptic Gregorian dates from 0001-01-01 to 9999-12-31,
    compared field by field, advanced a day at a time, read and written as `YYYYMMDD`. */
module Dates {

  import opened Outcomes
  import opened Text

  datatype Date = Date(year: int, month: int, day: int)

  predicate IsLeap(y: int)
  {
    y % 4 == 0 && (y % 100 != 0 || y % 400 == 0)
  }

  function DaysInMonth(y: int, m: int): int
    requires 1 <= m <= 12
  {
    if m == 2 then (if IsLeap(y) then 29 else 28)
    else if m == 4 || m == 6 || m == 9 || m == 11 then 30
    else 31
  }

  /** The range `datetime` accepts. */
  predicate Valid(d: Date)
  {
    1 <= d.year <= 9999 && 1 <= d.month <= 12 && 1 <= d.day <= DaysInMonth(d.year, d.month)
  }

  const MaxDate := Date(9999, 12, 31)

  /** `a < b` on dates: year, then month, then day. */
  predicate Before(a: Date, b: Date)
  {
    a.year < b.year
    || (a.year == b.year && a.month < b.month)
    || (a.year == b.year && a.month == b.month && a.day < b.day)
  }

  /** Python's `min(a, b)`: `a` unless `b < a`. */
  function Min(a: Date, b: Date): (r: Date)
    ensures r == a || r == b
    ensures !Before(a, r) && !Before(b, r)
  {
    if Before(b, a) then b else a
  }

  /** The following calendar day. */
  function NextDay(d: Date): Date
    requires Valid(d)
  {
    if d.day < DaysInMonth(d.year, d.month) then Date(d.year, d.month, d.day + 1)
    else if d.month < 12 then Date(d.year, d.month + 1, 1)
    else Date(d.year + 1, 1, 1)
  }

  /** `d + timedelta(days=n)`; None where `datetime` raises OverflowError,
      that is, past 9999-12-31. */
  function AddDays(d: Date, n: nat): (r: Option<Date>)
    requires Valid(d)
    ensures r.Some? ==> Valid(r.value)
    decreases n
  {
    if n == 0 then Some(d)
    else if d == MaxDate then None
    else AddDays(NextDay(d), n - 1)
  }

  // ---------------------------------------------------------------------------
  // Day ordinals (0001-01-01 is day 1, as `date.toordinal`)

  function DaysInYear(y: int): int
  {
    if IsLeap(y) then 366 else 365
  }

  function DaysBeforeYear(y: int): int
    requires y >= 1
  {
    if y == 1 then 0 else DaysBeforeYear(y - 1) + DaysInYear(y - 1)
  }

  function DaysBeforeMonth(y: int, m: int): int
    requires 1 <= m <= 12
  {
    (if m == 1 then 0 else if m == 2 then 31 else if m == 3 then 59
     else if m == 4 then 90 else if m == 5 then 120 else if m == 6 then 151
     else if m == 7 then 181 else if m == 8 then 212 else if m == 9 then 243
     else if m == 10 then 273 else if m == 11 then 304 else 334)
    + (if m > 2 && IsLeap(y) then 1 else 0)
  }

  function Ordinal(d: Date): int
    requires Valid(d)
  {
    DaysBeforeYear(d.year) + DaysBeforeMonth(d.year, d.month) + d.day
  }

  lemma {:induction false} DaysBeforeYearGrows(y1: int, y2: int)
    requires 1 <= y1 < y2
    ensures DaysBeforeYear(y1) + DaysInYear(y1) <= DaysBeforeYear(y2)
    decreases y2
  {
    if y2 > y1 + 1 {
      DaysBeforeYearGrows(y1, y2 - 1);
    }
  }

  lemma MonthBounds(y: int, m1: int, m2: int)
    requires 1 <= m1 <= 12 && 1 <= m2 <= 12
    ensures DaysBeforeMonth(y, m1) + DaysInMonth(y, m1) <= DaysInYear(y)
    ensures m1 < m2 ==> DaysBeforeMonth(y, m1) + DaysInMonth(y, m1) <= DaysBeforeMonth(y, m2)
  {
  }

  /** Field-by-field order and day-ordinal order agree. */
  lemma OrdinalOrder(a: Date, b: Date)
    requires Valid(a) && Valid(b)
    ensures Before(a, b) <==> Ordinal(a) < Ordinal(b)
    ensures a == b <==> Ordinal(a) == Ordinal(b)
  {
    MonthBounds(a.year, a.month, b.month);
    MonthBounds(b.year, b.month, a.month);
    if a.year < b.year {
      DaysBeforeYearGrows(a.year, b.year);
    } else if b.year < a.year {
      DaysBeforeYearGrows(b.year, a.year);
    }
  }

  /** The next day is one ordinal further on, and exists below the maximum date. */
  lemma NextDayOrdinal(d: Date)
    requires Valid(d) && d != MaxDate
    ensures Valid(NextDay(d))
    ensures Ordinal(NextDay(d)) == Ordinal(d) + 1
  {
    MonthBounds(d.year, d.month, d.month);
  }

  lemma {:induction false} AddDaysOrdinal(d: Date, n: nat)
    requires Valid(d)
    ensures AddDays(d, n).Some? <==> Ordinal(d) + n <= Ordinal(MaxDate)
    ensures AddDays(d, n).Some? ==> Ordinal(AddDays(d, n).value) == Ordinal(d) + n
    decreases n
  {
    OrdinalOrder(d, MaxDate);
    if n > 0 && d != MaxDate {
      NextDayOrdinal(d);
      AddDaysOrdinal(NextDay(d), n - 1);
    }
  }

  /** Adding one more day is taking the next day of the previous sum. */
  lemma {:induction false} AddDaysStep(d: Date, n: nat)
    requires Valid(d) && AddDays(d, n + 1).Some?
    ensures AddDays(d, n).Some? && AddDays(d, n).value != MaxDate
    ensures AddDays(d, n + 1) == Some(NextDay(AddDays(d, n).value))
    decreases n
  {
    if n > 0 {
      AddDaysStep(NextDay(d), n - 1);
    }
  }

  // ---------------------------------------------------------------------------
  // YYYYMMDD

  /** A field the `strptime` pattern matched: its value and how many
      characters it took. */
  datatype Field = Field(value: int, width: nat)

  function DigitValue(c: char): int { c as int - '0' as int }

  /** The alternatives of `%m`, `1[0-2]|0[1-9]|[1-9]`, that match at `p`, in
      the order the regular expression tries them. */
  function MonthFields(s: string, p: nat): (r: seq<Field>)
    ensures forall f :: f in r ==> 1 <= f.width <= 2 && p + f.width <= |s| && 1 <= f.value <= 12
  {
    (if p + 2 <= |s| && s[p] == '1' && '0' <= s[p + 1] <= '2' then [Field(10 + DigitValue(s[p + 1]), 2)] else [])
    + (if p + 2 <= |s| && s[p] == '0' && '1' <= s[p + 1] <= '9' then [Field(DigitValue(s[p + 1]), 2)] else [])
    + (if p + 1 <= |s| && '1' <= s[p] <= '9' then [Field(DigitValue(s[p]), 1)] else [])
  }

  /** The first alternative of `%d`, `3[01]|[12]\d|0[1-9]|[1-9]| [1-9]`, that
      matches at `p`. */
  function DayField(s: string, p: nat): (r: Option<Field>)
    ensures r.Some? ==> 1 <= r.value.width <= 2 && p + r.value.width <= |s| && 1 <= r.value.value <= 31
  {
    if p + 2 <= |s| && s[p] == '3' && '0' <= s[p + 1] <= '1' then Some(Field(30 + DigitValue(s[p + 1]), 2))
    else if p + 2 <= |s| && '1' <= s[p] <= '2' && IsDigit(s[p + 1]) then Some(Field(10 * DigitValue(s[p]) + DigitValue(s[p + 1]), 2))
    else if p + 2 <= |s| && s[p] == '0' && '1' <= s[p + 1] <= '9' then Some(Field(DigitValue(s[p + 1]), 2))
    else if p + 1 <= |s| && '1' <= s[p] <= '9' then Some(Field(DigitValue(s[p]), 1))
    else if p + 2 <= |s| && s[p] == ' ' && '1' <= s[p + 1] <= '9' then Some(Field(DigitValue(s[p + 1]), 2))
    else None
  }

  /** The match the regular expression finds after the four year digits: the
      first month alternative after which some day alternative matches (the
      engine backtracks over the month alternatives, never past a match). */
  function FirstMatch(s: string, months: seq<Field>): (r: Option<(Field, Field)>)
    ensures r.Some? ==> r.value.0 in months && DayField(s, 4 + r.value.0.width) == Some(r.value.1)
    ensures r.None? <==> forall i :: 0 <= i < |months| ==> DayField(s, 4 + months[i].width).None?
  {
    if months == [] then None
    else if DayField(s, 4 + months[0].width).Some? then Some((months[0], DayField(s, 4 + months[0].width).value))
    else
      assert forall i :: 1 <= i < |months| ==> months[i] == months[1..][i - 1];
      FirstMatch(s, months[1..])
  }

  /** `strptime(s, '%Y%m%d')`: four digits of year, then the month and day
      alternatives the pattern matches first; ValueError when the pattern does
      not match, when characters remain after the match, or when the fields do
      not name an existing date. The month and the day may each take one
      character, so `202411` is 2024-01-01. */
  function Parse(s: string): (r: Result<Date>)
    ensures r.Ok? ==> Valid(r.value) && 6 <= |s| <= 8
    ensures r.Err? ==> r.error == ValueError
  {
    if |s| < 4 || !AllDigits(s[..4]) then Err(ValueError)
    else match FirstMatch(s, MonthFields(s, 4))
      case None => Err(ValueError)
      case Some((m, d)) =>
        if 4 + m.width + d.width != |s| then Err(ValueError)
        else
          var date := Date(ValueOf(s[..4]), m.value, d.value);
          if Valid(date) then Ok(date) else Err(ValueError)
  }

  /** The date eight digits name when read as fixed-width fields. */
  function FixedWidth(s: string): Date
    requires |s| == 8 && AllDigits(s)
  {
    Date(ValueOf(s[..4]), ValueOf(s[4..6]), ValueOf(s[6..]))
  }

  lemma TwoDigits(t: string)
    requires |t| == 2 && AllDigits(t)
    ensures ValueOf(t) == 10 * DigitValue(t[0]) + DigitValue(t[1])
  {
    assert t[..1][..0] == [];
    assert ValueOf(t[..1]) == DigitValue(t[0]);
    assert t[..|t| - 1] == t[..1];
  }

  /** On eight digits the pattern reads fixed-width fields: the string parses
      exactly when they name an existing date, and then to that date. */
  lemma EightDigits(s: string)
    requires |s| == 8 && AllDigits(s)
    ensures Valid(FixedWidth(s)) ==> Parse(s) == Ok(FixedWidth(s))
    ensures !Valid(FixedWidth(s)) ==> Parse(s) == Err(ValueError)
  {
    if Valid(FixedWidth(s)) {
      EightDigitsValid(s);
    } else {
      EightDigitsInvalid(s);
    }
  }

  lemma EightDigitsValid(s: string)
    requires |s| == 8 && AllDigits(s) && Valid(FixedWidth(s))
    ensures Parse(s) == Ok(FixedWidth(s))
  {
    var fixed := FixedWidth(s);
    MonthTwo(s);
    DayTwo(s);
    var months := MonthFields(s, 4);
    assert FirstMatch(s, months) == Some((Field(fixed.month, 2), Field(fixed.day, 2)));
  }

  lemma EightDigitsInvalid(s: string)
    requires |s| == 8 && AllDigits(s) && !Valid(FixedWidth(s))
    ensures Parse(s) == Err(ValueError)
  {
    var months := MonthFields(s, 4);
    match FirstMatch(s, months)
    case None =>
    case Some((m, d)) =>
      if m.width + d.width == 4 {
        MonthWidthTwo(s, m);
        DayWidthTwo(s, d);
      }
  }

  /** Two digits naming a month are matched whole by the first alternative that applies. */
  lemma MonthTwo(s: string)
    requires |s| == 8 && AllDigits(s) && 1 <= FixedWidth(s).month <= 12
    ensures MonthFields(s, 4) != [] && MonthFields(s, 4)[0] == Field(FixedWidth(s).month, 2)
  {
    assert AllDigits(s[4..6]);
    TwoDigits(s[4..6]);
  }

  /** Two digits naming a day are matched whole by the first alternative that applies. */
  lemma DayTwo(s: string)
    requires |s| == 8 && AllDigits(s) && 1 <= FixedWidth(s).day <= 31
    ensures DayField(s, 6) == Some(Field(FixedWidth(s).day, 2))
  {
    assert AllDigits(s[6..]);
    TwoDigits(s[6..]);
  }

  /** A two-character month alternative reads the two digits. */
  lemma MonthWidthTwo(s: string, m: Field)
    requires |s| == 8 && AllDigits(s) && m in MonthFields(s, 4) && m.width == 2
    ensures m.value == FixedWidth(s).month
  {
    assert AllDigits(s[4..6]);
    TwoDigits(s[4..6]);
  }

  /** A two-character day alternative of a digit string reads the two digits. */
  lemma DayWidthTwo(s: string, d: Field)
    requires |s| == 8 && AllDigits(s) && DayField(s, 6) == Some(d) && d.width == 2
    ensures d.value == FixedWidth(s).day
  {
    assert AllDigits(s[6..]);
    TwoDigits(s[6..]);
  }

  /** `strptime` also takes one-character months and days and a space before
      a one-digit day. */
  lemma ShortForms()
    ensures Parse("2024011") == Ok(Date(2024, 1, 1))
    ensures Parse("202411") == Ok(Date(2024, 1, 1))
    ensures Parse("2024131") == Ok(Date(2024, 1, 31))
    ensures Parse("202401 1") == Ok(Date(2024, 1, 1))
    ensures Parse("20241301") == Err(ValueError)
  {
    ShortDay();
    ShortMonthAndDay();
    ShortMonth();
    SpacedDay();
    MonthThirteen();
  }

  lemma ShortDay()
    ensures Parse("2024011") == Ok(Date(2024, 1, 1))
  {
    Year2024("2024011");
    assert MonthFields("2024011", 4) == [Field(1, 2)];
  }

  lemma ShortMonthAndDay()
    ensures Parse("202411") == Ok(Date(2024, 1, 1))
  {
    Year2024("202411");
    assert MonthFields("202411", 4) == [Field(11, 2), Field(1, 1)];
  }

  lemma ShortMonth()
    ensures Parse("2024131") == Ok(Date(2024, 1, 31))
  {
    Year2024("2024131");
    assert MonthFields("2024131", 4) == [Field(1, 1)];
  }

  lemma SpacedDay()
    ensures Parse("202401 1") == Ok(Date(2024, 1, 1))
  {
    Year2024("202401 1");
    assert MonthFields("202401 1", 4) == [Field(1, 2)];
  }

  lemma MonthThirteen()
    ensures Parse("20241301") == Err(ValueError)
  {
    Year2024("20241301");
    assert MonthFields("20241301", 4) == [Field(1, 1)];
  }

  lemma Year2024(s: string)
    requires |s| >= 4 && s[..4] == "2024"
    ensures AllDigits(s[..4]) && ValueOf(s[..4]) == 2024
  {
    var y := s[..4];
    assert y[..3] == "202" && y[..3][..2] == "20" && y[..3][..2][..1] == "2" && y[..3][..2][..1][..0] == "";
    assert ValueOf("2") == 2;
    assert ValueOf("20") == 20;
    assert ValueOf("202") == 202;
  }

  /** `strftime('%Y%m%d')`, with the year zero-padded to four digits. */
  function Format(d: Date): (s: string)
    requires Valid(d)
    ensures |s| == 8 && AllDigits(s)
  {
    Digits(d.year, 4) + Digits(d.month, 2) + Digits(d.day, 2)
  }

  /** Formatting a date and parsing it back gives the same date. */
  lemma FormatParse(d: Date)
    requires Valid(d)
    ensures Parse(Format(d)) == Ok(d)
  {
    var s := Format(d);
    assert s[..4] == Digits(d.year, 4);
    assert s[4..6] == Digits(d.month, 2);
    assert s[6..] == Digits(d.day, 2);
    ValueOfDigits(d.year, 4);
    ValueOfDigits(d.month, 2);
    ValueOfDigits(d.day, 2);
    assert FixedWidth(s) == d;
    EightDigits(s);
  }

  /** An eight-digit string that parses is the formatting of the date it
      parses to; shorter accepted forms format to their padded spelling. */
  lemma ParseFormat(s: string)
    requires Parse(s).Ok?
    ensures |s| == 8 && AllDigits(s) ==> Format(Parse(s).value) == s
    ensures Parse(Format(Parse(s).value)) == Parse(s)
  {
    FormatParse(Parse(s).value);
    if |s| == 8 && AllDigits(s) {
      EightDigits(s);
      FormatFixedWidth(s);
    }
  }

  lemma FormatFixedWidth(s: string)
    requires |s| == 8 && AllDigits(s) && Valid(FixedWidth(s))
    ensures Format(FixedWidth(s)) == s
  {
    var y, m, dd := s[..4], s[4..6], s[6..];
    assert AllDigits(y) && AllDigits(m) && AllDigits(dd);
    DigitsOfValue(y);
    DigitsOfValue(m);
    DigitsOfValue(dd);
    assert s == y + m + dd;
  }

  // ---------------------------------------------------------------------------
  // Five-day windows

  /** An inclusive range of days `first`..`last`. */
  datatype Window = Window(first: Date, last: Date)

  predicate InWindow(w: Window, d: Date)
  {
    !Before(d, w.first) && !Before(w.last, d)
  }

  /** The windows the loop of `split_date_range` produces from `cur` on: while
      `cur <= end`, the window from `cur` to the smaller of `cur + 4 days` (the day
      before `cur + 5 days`) and `end`, then `cur` moves on by five days. Err when
      `cur + 5 days` leaves the range of `datetime`. */
  function Windows(cur: Date, end: Date): (r: Result<seq<Window>>)
    requires Valid(cur) && Valid(end)
    ensures r.Ok? ==> AllValid(r.value)
    decreases Ordinal(end) - Ordinal(cur) + 1
  {
    if Before(end, cur) then Ok([])
    else
      match AddDays(cur, 5)
      case None => Err(OverflowError)
      case Some(next) =>
        OrdinalOrder(cur, end);
        AddDaysOrdinal(cur, 5);
        AddDaysStep(cur, 4);
        var w := Window(cur, Min(AddDays(cur, 4).value, end));
        match Windows(next, end)
        case Ok(rest) => Ok([w] + rest)
        case Err(e) => Err(e)
  }

  predicate AllValid(ws: seq<Window>)
  {
    forall i :: 0 <= i < |ws| ==> Valid(ws[i].first) && Valid(ws[i].last)
  }

  /** The ordinal span of each window and the seam between neighbours: every
      window starts on or before its end and covers at most five days; every
      window but the last covers exactly five and the next starts the day after. */
  ghost predicate Tiles(ws: seq<Window>, lo: int, hi: int)
  {
    && AllValid(ws)
    && (forall i :: 0 <= i < |ws| ==> 0 <= Ordinal(ws[i].last) - Ordinal(ws[i].first) <= 4)
    && (forall i :: 0 <= i < |ws| - 1 ==> Ordinal(ws[i].last) - Ordinal(ws[i].first) == 4)
    && (forall i :: 0 <= i < |ws| - 1 ==> Ordinal(ws[i + 1].first) == Ordinal(ws[i].last) + 1)
    && (ws == [] <==> hi < lo)
    && (ws != [] ==> Ordinal(ws[0].first) == lo && Ordinal(ws[|ws| - 1].last) == hi)
  }

  /** A full five-day window followed by a tiling of the days after it is a tiling. */
  lemma TilesCons(w: Window, rest: seq<Window>, hi: int)
    requires Valid(w.first) && Valid(w.last)
    requires 0 <= Ordinal(w.last) - Ordinal(w.first) <= 4
    requires rest == [] ==> Ordinal(w.last) == hi
    requires rest != [] ==> Ordinal(w.last) - Ordinal(w.first) == 4
    requires rest != [] ==> Tiles(rest, Ordinal(w.last) + 1, hi)
    requires rest != [] ==> Ordinal(rest[0].first) == Ordinal(w.last) + 1
    ensures Tiles([w] + rest, Ordinal(w.first), hi)
  {
    var ws := [w] + rest;
    forall i | 0 <= i < |ws| - 1
      ensures Ordinal(ws[i + 1].first) == Ordinal(ws[i].last) + 1
      ensures Ordinal(ws[i].last) - Ordinal(ws[i].first) == 4
    {
      if i > 0 {
        assert ws[i] == rest[i - 1] && ws[i + 1] == rest[i];
      }
    }
  }

  /** The windows tile `[start, end]` exactly: they are empty when `end < start`,
      start at `start`, end at `end`, and are consecutive, inclusive and at most
      five days long, with only the last one possibly shorter. */
  lemma {:induction false} WindowsTile(start: Date, end: Date)
    requires Valid(start) && Valid(end)
    requires Windows(start, end).Ok?
    ensures Tiles(Windows(start, end).value, Ordinal(start), Ordinal(end))
    decreases Ordinal(end) - Ordinal(start) + 1
  {
    OrdinalOrder(start, end);
    if !Before(end, start) {
      var next := AddDays(start, 5).value;
      AddDaysOrdinal(start, 5);
      AddDaysStep(start, 4);
      var four := AddDays(start, 4).value;
      AddDaysOrdinal(start, 4);
      var w := Window(start, Min(four, end));
      OrdinalOrder(four, end);
      var rest := Windows(next, end).value;
      assert Windows(start, end).value == [w] + rest;
      OrdinalOrder(next, end);
      WindowsTile(next, end);
      TilesCons(w, rest, Ordinal(end));
    }
  }

  /** The window `w` holds ordinal `k`. */
  ghost predicate Covers(w: Window, k: int)
    requires Valid(w.first) && Valid(w.last)
  {
    Ordinal(w.first) <= k <= Ordinal(w.last)
  }

  /** Every day of `[lo, hi]` lies in some window of a tiling. */
  lemma {:induction false} TilesCover(ws: seq<Window>, lo: int, hi: int, k: int)
    requires Tiles(ws, lo, hi) && lo <= k <= hi
    ensures exists i :: 0 <= i < |ws| && Covers(ws[i], k)
    decreases |ws|
  {
    if k > Ordinal(ws[0].last) {
      var rest := ws[1..];
      assert |ws| > 1;
      assert Tiles(rest, Ordinal(ws[1].first), hi) by {
        forall i | 0 <= i < |rest| - 1
          ensures Ordinal(rest[i + 1].first) == Ordinal(rest[i].last) + 1
        {
          assert rest[i] == ws[i + 1] && rest[i + 1] == ws[i + 2];
        }
      }
      TilesCover(rest, Ordinal(ws[1].first), hi, k);
      var i :| 0 <= i < |rest| && Covers(rest[i], k);
      assert ws[i + 1] == rest[i];
    } else {
      assert Covers(ws[0], k);
    }
  }

  /** Windows of a tiling come in increasing order without overlap. */
  lemma {:induction false} TilesOrdered(ws: seq<Window>, lo: int, hi: int, i: int, j: int)
    requires Tiles(ws, lo, hi) && 0 <= i < j < |ws|
    ensures Ordinal(ws[i].last) < Ordinal(ws[j].first)
    decreases j - i
  {
    if j > i + 1 {
      TilesOrdered(ws, lo, hi, i, j - 1);
    }
  }

  /** In a tiling of `[lo, hi]`, an ordinal lies in some window exactly when it lies
      in `[lo, hi]`, and then in only one. */
  lemma TilesPartition(ws: seq<Window>, lo: int, hi: int, k: int)
    requires Tiles(ws, lo, hi)
    ensures (lo <= k <= hi) <==> exists i :: 0 <= i < |ws| && Covers(ws[i], k)
    ensures forall i, j :: 0 <= i < |ws| && 0 <= j < |ws| && Covers(ws[i], k) && Covers(ws[j], k) ==> i == j
  {
    if lo <= k <= hi {
      TilesCover(ws, lo, hi, k);
    }
    forall i | 0 <= i < |ws| && Covers(ws[i], k) ensures lo <= k <= hi {
      TilesWithin(ws, lo, hi, i, k);
    }
    forall i, j | 0 <= i < |ws| && 0 <= j < |ws| && Covers(ws[i], k) && Covers(ws[j], k)
      ensures i == j
    {
      if i < j { TilesOrdered(ws, lo, hi, i, j); }
      if j < i { TilesOrdered(ws, lo, hi, j, i); }
    }
  }

  /** A day a window of a tiling of `[lo, hi]` holds lies in `[lo, hi]`. */
  lemma TilesWithin(ws: seq<Window>, lo: int, hi: int, i: int, k: int)
    requires Tiles(ws, lo, hi) && 0 <= i < |ws| && Covers(ws[i], k)
    ensures lo <= k <= hi
  {
    if i > 0 { TilesOrdered(ws, lo, hi, 0, i); }
    if i < |ws| - 1 { TilesOrdered(ws, lo, hi, i, |ws| - 1); }
  }

  lemma InWindowCovers(w: Window, d: Date)
    requires Valid(w.first) && Valid(w.last) && Valid(d)
    ensures InWindow(w, d) <==> Covers(w, Ordinal(d))
  {
    OrdinalOrder(d, w.first);
    OrdinalOrder(w.last, d);
  }

  /** A day lies in some window exactly when it lies in `[start, end]`, and then
      in only one. */
  lemma WindowsPartition(start: Date, end: Date, d: Date)
    requires Valid(start) && Valid(end) && Valid(d)
    requires Windows(start, end).Ok?
    ensures var ws := Windows(start, end).value;
            (!Before(d, start) && !Before(end, d)) <==> (exists i :: 0 <= i < |ws| && InWindow(ws[i], d))
    ensures var ws := Windows(start, end).value;
            forall i, j :: 0 <= i < |ws| && 0 <= j < |ws| && InWindow(ws[i], d) && InWindow(ws[j], d) ==> i == j
  {
    var ws := Windows(start, end).value;
    WindowsTile(start, end);
    OrdinalOrder(d, start);
    OrdinalOrder(end, d);
    TilesPartition(ws, Ordinal(start), Ordinal(end), Ordinal(d));
    forall i | 0 <= i < |ws|
      ensures InWindow(ws[i], d) <==> Covers(ws[i], Ordinal(d))
    {
      InWindowCovers(ws[i], d);
    }
  }

  /** The split never overflows when the end lies five days or more before 9999-12-31. */
  lemma {:induction false} WindowsDefined(cur: Date, end: Date)
    requires Valid(cur) && Valid(end)
    requires Ordinal(end) + 5 <= Ordinal(MaxDate)
    ensures Windows(cur, end).Ok?
    decreases Ordinal(end) - Ordinal(cur) + 1
  {
    OrdinalOrder(cur, end);
    if !Before(end, cur) {
      AddDaysOrdinal(cur, 5);
      OrdinalOrder(AddDays(cur, 5).value, end);
      WindowsDefined(AddDays(cur, 5).value, end);
    }
  }

  // ---------------------------------------------------------------------------
  // split_date_range

  /** A window as `YYYYMMDD-YYYYMMDD`. */
  function RenderWindow(w: Window): string
    requires Valid(w.first) && Valid(w.last)
  {
    Format(w.first) + "-" + Format(w.last)
  }

  /** The `YYYYMMDD-YYYYMMDD` strings of a list of windows. */
  function Render(ws: seq<Window>): (r: seq<string>)
    requires AllValid(ws)
    ensures |r| == |ws|
    ensures forall i :: 0 <= i < |ws| ==> r[i] == RenderWindow(ws[i])
  {
    if ws == [] then [] else [RenderWindow(ws[0])] + Render(ws[1..])
  }

  /** What `split_date_range` returns or raises: the input alone when it is empty
      or has no `-`; ValueError unless it is two valid `YYYYMMDD` dates joined by
      one `-`; otherwise the rendered windows from the first date to the second. */
  function DateRanges(dateRange: string): (r: Result<seq<string>>)
    ensures dateRange == "" || '-' !in dateRange ==> r == Ok([dateRange])
    ensures '-' in dateRange && |Split(dateRange, '-')| != 2 ==> r == Err(ValueError)
  {
    if dateRange == "" || '-' !in dateRange then Ok([dateRange])
    else
      var parts := Split(dateRange, '-');
      if |parts| != 2 then Err(ValueError)
      else
        var start :- Parse(parts[0]);
        var end :- Parse(parts[1]);
        match Windows(start, end)
        case Ok(ws) => Ok(Render(ws))
        case Err(e) => Err(e)
  }

  /** `acc` followed by what the windows from some point on render to. */
  function Continue(acc: seq<string>, r: Result<seq<Window>>): Result<seq<string>>
    requires r.Ok? ==> AllValid(r.value)
  {
    match r
    case Ok(ws) => Ok(acc + Render(ws))
    case Err(e) => Err(e)
  }

  /** Once both dates parse, the result is the rendering of the windows between them. */
  lemma DateRangesParsed(dateRange: string, start: Date, end: Date)
    requires dateRange != "" && '-' in dateRange
    requires |Split(dateRange, '-')| == 2
    requires Parse(Split(dateRange, '-')[0]) == Ok(start)
    requires Parse(Split(dateRange, '-')[1]) == Ok(end)
    ensures DateRanges(dateRange) == Continue([], Windows(start, end))
  {
    assert DateRanges(dateRange) == match Windows(start, end) case Ok(ws) => Ok(Render(ws)) case Err(e) => Err(e);
    if Windows(start, end).Ok? {
      assert [] + Render(Windows(start, end).value) == Render(Windows(start, end).value);
    }
  }

  /** A range whose end comes before its start yields no window at all: the
      loop never runs. */
  lemma ReversedRangeEmpty(dateRange: string, start: Date, end: Date)
    requires dateRange != "" && '-' in dateRange
    requires |Split(dateRange, '-')| == 2
    requires Parse(Split(dateRange, '-')[0]) == Ok(start)
    requires Parse(Split(dateRange, '-')[1]) == Ok(end)
    requires Ordinal(end) < Ordinal(start)
    ensures DateRanges(dateRange) == Ok([])
  {
    OrdinalOrder(end, start);
  }

  /** One turn of the loop: the window from `cur` is rendered onto `acc` and the
      rest continues five days later. */
  lemma ContinueStep(acc: seq<string>, cur: Date, end: Date)
    requires Valid(cur) && Valid(end) && !Before(end, cur) && AddDays(cur, 5).Some?
    ensures AddDays(cur, 4).Some?
    ensures Continue(acc, Windows(cur, end))
         == Continue(acc + [RenderWindow(Window(cur, Min(AddDays(cur, 4).value, end)))],
                     Windows(AddDays(cur, 5).value, end))
  {
    AddDaysStep(cur, 4);
    var w := Window(cur, Min(AddDays(cur, 4).value, end));
    var rest := Windows(AddDays(cur, 5).value, end);
    if rest.Ok? {
      assert Windows(cur, end).value == [w] + rest.value;
      assert ([w] + rest.value)[1..] == rest.value;
      assert acc + Render([w] + rest.value) == (acc + [RenderWindow(w)]) + Render(rest.value);
    }
  }

  /** split_date_range: the while loop advancing `current_date` by five days and
      appending one `YYYYMMDD-YYYYMMDD` string per window. */
  method SplitDateRange(dateRange: string) returns (r: Result<seq<string>>)
    ensures r == DateRanges(dateRange)
  {
    if dateRange == "" || '-' !in dateRange {
      return Ok([dateRange]);
    }
    var parts := Split(dateRange, '-');
    if |parts| != 2 {
      assert DateRanges(dateRange) == Err(ValueError);
      return Err(ValueError);
    }
    var startParsed := Parse(parts[0]);
    if startParsed.Err? {
      assert DateRanges(dateRange) == Err(startParsed.error);
      return Err(startParsed.error);
    }
    var endParsed := Parse(parts[1]);
    if endParsed.Err? {
      assert DateRanges(dateRange) == Err(endParsed.error);
      return Err(endParsed.error);
    }
    var startDate, endDate := startParsed.value, endParsed.value;
    DateRangesParsed(dateRange, startDate, endDate);
    var dateRanges: seq<string> := [];
    var current := startDate;
    while !Before(endDate, current)
      invariant Valid(current)
      invariant DateRanges(dateRange) == Continue(dateRanges, Windows(current, endDate))
      decreases Ordinal(endDate) - Ordinal(current) + 1
    {
      var nextPeriod := AddDays(current, 5);
      if nextPeriod.None? {
        assert Windows(current, endDate) == Err(OverflowError);
        return Err(OverflowError);
      }
      ContinueStep(dateRanges, current, endDate);
      OrdinalOrder(current, endDate);
      AddDaysOrdinal(current, 5);
      // the day before `nextPeriod`, or `endDate` if that comes first
      var periodEndDate := Min(AddDays(current, 4).value, endDate);
      dateRanges := dateRanges + [RenderWindow(Window(current, periodEndDate))];
      current := nextPeriod.value;
    }
    assert Windows(current, endDate) == Ok([]);
    assert dateRanges + Render([]) == dateRanges;
    return Ok(dateRanges);
  }
}
