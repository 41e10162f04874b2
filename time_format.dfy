/** `datetime.strptime` and `datetime.strftime` for the fixed-width patterns the
    pipeline uses. A pattern is a list of directives: `%Y` (four digits), `%y`
    (two digits, 69..99 read as 19xx and 00..68 as 20xx), `%m`, `%d`, `%H`, `%M`,
    `%S` (two digits each) and literal characters. */
module TimeFormat {
  import opened Outcomes
  import opened Text
  import opened Calendar

  datatype Directive = Year4 | Year2 | Month | Day | Hour | Minute | Second | Lit(c: char)

  type Format = seq<Directive>

  /** '%Y-%m-%d' */
  const IsoDate: Format := [Year4, Lit('-'), Month, Lit('-'), Day]

  /** '%H:%M:%S' */
  const IsoTime: Format := [Hour, Lit(':'), Minute, Lit(':'), Second]

  /** '%Y-%m-%d %H:%M:%S' */
  const IsoDateTime: Format := IsoDate + [Lit(' ')] + IsoTime

  /** '%d.%m.%y' */
  const DisplayDate: Format := [Day, Lit('.'), Month, Lit('.'), Year2]

  /** '%d.%m.%y %H:%M:%S' */
  const DisplayDateTime: Format := DisplayDate + [Lit(' ')] + IsoTime

  /** '%H.%M.%S' */
  const DottedTime: Format := [Hour, Lit('.'), Minute, Lit('.'), Second]

  /** '%d.%m.%y %H.%M.%S' */
  const FileStamp: Format := DisplayDate + [Lit(' ')] + DottedTime

  /** strptime's starting point: fields the pattern does not mention stay 1900-01-01 00:00:00. */
  const Unset := DateTime(1900, 1, 1, 0, 0, 0)

  function Width(d: Directive): nat {
    match d
    case Year4 => 4
    case Lit(_) => 1
    case _ => 2
  }

  function TotalWidth(fmt: Format): nat {
    if fmt == [] then 0 else Width(fmt[0]) + TotalWidth(fmt[1..])
  }

  /** What reading the number `v` for directive `d` records in the date-time being built. */
  function Store(acc: DateTime, d: Directive, v: nat): DateTime {
    match d
    case Year4 => acc.(year := v)
    case Year2 => acc.(year := if v <= 68 then 2000 + v else 1900 + v)
    case Month => acc.(month := v)
    case Day => acc.(day := v)
    case Hour => acc.(hour := v)
    case Minute => acc.(minute := v)
    case Second => acc.(second := v)
    case Lit(_) => acc
  }

  /** Match `s` against `fmt` in full, each numeric directive taking exactly its width in digits. */
  function Scan(s: string, fmt: Format, acc: DateTime): Option<DateTime>
    decreases fmt
  {
    if fmt == [] then
      (if s == [] then Some(acc) else None)
    else
      match fmt[0]
      case Lit(c) =>
        if |s| > 0 && s[0] == c then Scan(s[1..], fmt[1..], acc) else None
      case d =>
        var w := Width(d);
        if |s| >= w && AllDigits(s[..w]) then Scan(s[w..], fmt[1..], Store(acc, d, DecimalValue(s[..w])))
        else None
  }

  /** `datetime.strptime(s, fmt)`: the string must match the whole pattern and name a valid date-time. */
  function Strptime(s: string, fmt: Format): (r: Result<DateTime>)
    ensures r.Ok? ==> Valid(r.value) && |s| == TotalWidth(fmt)
    ensures r.Err? ==> r.error == MalformedTimestamp(s)
  {
    match Scan(s, fmt, Unset)
    case None => Err(MalformedTimestamp(s))
    case Some(dt) =>
      ScanLength(s, fmt, Unset);
      if Valid(dt) then Ok(dt) else Err(MalformedTimestamp(s))
  }

  /** Only a string of exactly the pattern's width can match it. */
  lemma {:induction false} ScanLength(s: string, fmt: Format, acc: DateTime)
    requires Scan(s, fmt, acc).Some?
    ensures |s| == TotalWidth(fmt)
    decreases fmt
  {
    if fmt != [] {
      match fmt[0]
      case Lit(c) => ScanLength(s[1..], fmt[1..], acc);
      case d =>
        var w := Width(d);
        ScanLength(s[w..], fmt[1..], Store(acc, d, DecimalValue(s[..w])));
    }
  }

  /** Field values that fit the directives' widths. */
  predicate Printable(dt: DateTime) {
    0 <= dt.year < 10000 && 0 <= dt.month < 100 && 0 <= dt.day < 100 &&
    0 <= dt.hour < 100 && 0 <= dt.minute < 100 && 0 <= dt.second < 100
  }

  /** The number strftime prints for directive `d` (`%y` is the year modulo 100). */
  function Printed(dt: DateTime, d: Directive): (n: nat)
    requires Printable(dt)
    ensures n < Pow10(Width(d))
  {
    match d
    case Year4 => assert Pow10(4) == 10000; dt.year
    case Year2 => dt.year % 100
    case Month => dt.month
    case Day => dt.day
    case Hour => dt.hour
    case Minute => dt.minute
    case Second => dt.second
    case Lit(_) => 0
  }

  /** `dt.strftime(fmt)`: every numeric field zero padded to its width. */
  function Strftime(dt: DateTime, fmt: Format): (s: string)
    requires Printable(dt)
    ensures |s| == TotalWidth(fmt)
  {
    if fmt == [] then []
    else
      (match fmt[0] case Lit(c) => [c] case d => Digits(Printed(dt, d), Width(d))) + Strftime(dt, fmt[1..])
  }

  /** The date-time that reading back `Strftime(dt, fmt)` builds from `acc`. */
  function Replay(acc: DateTime, dt: DateTime, fmt: Format): DateTime
    requires Printable(dt)
    decreases |fmt|
  {
    if fmt == [] then acc else Replay(Store(acc, fmt[0], Printed(dt, fmt[0])), dt, fmt[1..])
  }

  /** Any pattern reads back what it printed, field by field. */
  lemma {:induction false} ScanStrftime(dt: DateTime, fmt: Format, acc: DateTime)
    requires Printable(dt)
    ensures Scan(Strftime(dt, fmt), fmt, acc) == Some(Replay(acc, dt, fmt))
  {
    if fmt != [] {
      var s := Strftime(dt, fmt);
      var rest := Strftime(dt, fmt[1..]);
      match fmt[0]
      case Lit(c) =>
        assert s[1..] == rest;
        ScanStrftime(dt, fmt[1..], acc);
      case d =>
        var w := Width(d);
        var piece := Digits(Printed(dt, d), w);
        assert s == piece + rest;
        assert s[..w] == piece && s[w..] == rest;
        DigitsRoundTrip(Printed(dt, d), w);
        ScanStrftime(dt, fmt[1..], Store(acc, d, Printed(dt, d)));
    }
  }

  /** Printing a pattern made of two parts prints the parts one after the other. */
  lemma {:induction false} StrftimeConcat(dt: DateTime, f1: Format, f2: Format)
    requires Printable(dt)
    ensures Strftime(dt, f1 + f2) == Strftime(dt, f1) + Strftime(dt, f2)
  {
    if f1 == [] {
      assert f1 + f2 == f2;
    } else {
      assert (f1 + f2)[0] == f1[0] && (f1 + f2)[1..] == f1[1..] + f2;
      StrftimeConcat(dt, f1[1..], f2);
    }
  }

  /** A printed pattern contains a non-digit only where the pattern has it as a literal. */
  lemma {:induction false} StrftimeAvoids(dt: DateTime, fmt: Format, c: char)
    requires Printable(dt) && !IsDigit(c) && Lit(c) !in fmt
    ensures c !in Strftime(dt, fmt)
  {
    if fmt != [] {
      assert Lit(c) !in fmt[1..];
      StrftimeAvoids(dt, fmt[1..], c);
      match fmt[0]
      case Lit(x) =>
      case d =>
        var piece := Digits(Printed(dt, d), Width(d));
        assert forall i :: 0 <= i < |piece| ==> IsDigit(piece[i]);
    }
  }

  /** Reading `%y` back yields the year in the pivot window with the same last two digits. */
  function PivotedYear(year: int): int {
    var v := year % 100;
    if v <= 68 then 2000 + v else 1900 + v
  }

  /** What reading back a pattern without repeated fields sets: each field it mentions
      comes from `dt`, every other field keeps its value from `acc`. */
  lemma {:induction false} ReplayFields(acc: DateTime, dt: DateTime, fmt: Format)
    requires Printable(dt)
    requires !(Year4 in fmt && Year2 in fmt)
    ensures var r := Replay(acc, dt, fmt);
      && r.year == (if Year4 in fmt then dt.year else if Year2 in fmt then PivotedYear(dt.year) else acc.year)
      && r.month == (if Month in fmt then dt.month else acc.month)
      && r.day == (if Day in fmt then dt.day else acc.day)
      && r.hour == (if Hour in fmt then dt.hour else acc.hour)
      && r.minute == (if Minute in fmt then dt.minute else acc.minute)
      && r.second == (if Second in fmt then dt.second else acc.second)
    decreases |fmt|
  {
    if fmt != [] {
      assert fmt == [fmt[0]] + fmt[1..];
      ReplayFields(Store(acc, fmt[0], Printed(dt, fmt[0])), dt, fmt[1..]);
    }
  }

  /** The two-digit year of `%y` read back by strptime is the year itself exactly in 1969..2068. */
  lemma PivotYear(year: int)
    requires 0 <= year < 10000
    ensures PivotedYear(year) == year <==> 1969 <= year <= 2068
  {
  }

  // ------------------------------------------------------------ round trips for the pipeline's patterns

  /** The width of a pattern made of two parts is the sum of their widths. */
  lemma {:induction false} TotalWidthConcat(f1: Format, f2: Format)
    ensures TotalWidth(f1 + f2) == TotalWidth(f1) + TotalWidth(f2)
  {
    if f1 == [] {
      assert f1 + f2 == f2;
    } else {
      assert (f1 + f2)[1..] == f1[1..] + f2;
      TotalWidthConcat(f1[1..], f2);
    }
  }

  /** How many characters each of the pipeline's patterns matches. */
  lemma PatternWidths()
    ensures TotalWidth(IsoDateTime) == 19 && TotalWidth(IsoDate) == 10 && TotalWidth(IsoTime) == 8
    ensures TotalWidth(DisplayDateTime) == 17 && TotalWidth(DisplayDate) == 8 && TotalWidth(FileStamp) == 17
  {
    assert TotalWidth(IsoDate) == 10 && TotalWidth(DisplayDate) == 8;
    assert TotalWidth(IsoTime) == 8 && TotalWidth(DottedTime) == 8;
    assert TotalWidth([Lit(' ')]) == 1;
    TotalWidthConcat(IsoDate, [Lit(' ')]);
    TotalWidthConcat(IsoDate + [Lit(' ')], IsoTime);
    TotalWidthConcat(DisplayDate, [Lit(' ')]);
    TotalWidthConcat(DisplayDate + [Lit(' ')], IsoTime);
    TotalWidthConcat(DisplayDate + [Lit(' ')], DottedTime);
  }

  /** Which fields each of the pipeline's patterns mentions. */
  lemma PatternFields()
    ensures Year4 in IsoDateTime && Year2 !in IsoDateTime && Year4 in IsoDate && Year2 !in IsoDate
    ensures Year2 in DisplayDateTime && Year4 !in DisplayDateTime
    ensures Year2 in DisplayDate && Year4 !in DisplayDate
    ensures Year2 in FileStamp && Year4 !in FileStamp
    ensures forall d :: d in {Month, Day} ==>
      d in IsoDateTime && d in IsoDate && d in DisplayDateTime && d in DisplayDate && d in FileStamp
    ensures forall d :: d in {Hour, Minute, Second} ==>
      d in IsoDateTime && d !in IsoDate && d in DisplayDateTime && d !in DisplayDate && d in FileStamp
  {
  }

  /** An ISO timestamp is its date, a blank and its time. */
  lemma IsoDateTimeParts(dt: DateTime)
    requires Printable(dt)
    ensures Strftime(dt, IsoDateTime) == Strftime(dt, IsoDate) + " " + Strftime(dt, IsoTime)
  {
    StrftimeConcat(dt, IsoDate + [Lit(' ')], IsoTime);
    StrftimeConcat(dt, IsoDate, [Lit(' ')]);
  }

  lemma IsoDateTimeRoundTrip(dt: DateTime)
    requires Valid(dt)
    ensures Strptime(Strftime(dt, IsoDateTime), IsoDateTime) == Ok(dt)
  {
    ScanStrftime(dt, IsoDateTime, Unset);
    PatternFields();
    ReplayFields(Unset, dt, IsoDateTime);
  }

  /** '%d.%m.%y %H:%M:%S' loses the century: reading it back recovers the date-time
      exactly when the year lies in the pivot window 1969..2068. */
  lemma DisplayDateTimeRoundTrip(dt: DateTime)
    requires Valid(dt)
    ensures Strptime(Strftime(dt, DisplayDateTime), DisplayDateTime) == Ok(dt) <==> 1969 <= dt.year <= 2068
  {
    ScanStrftime(dt, DisplayDateTime, Unset);
    PatternFields();
    ReplayFields(Unset, dt, DisplayDateTime);
    PivotYear(dt.year);
    var back := Replay(Unset, dt, DisplayDateTime);
    assert back == dt.(year := PivotedYear(dt.year));
    assert Scan(Strftime(dt, DisplayDateTime), DisplayDateTime, Unset) == Some(back);
  }

  /** '%d.%m.%y' read back gives the date, under the same pivot window. */
  lemma DisplayDateRoundTrip(dt: DateTime)
    requires Valid(dt)
    ensures Strptime(Strftime(dt, DisplayDate), DisplayDate) == Ok(DateTime(dt.year, dt.month, dt.day, 0, 0, 0))
      <==> 1969 <= dt.year <= 2068
  {
    ScanStrftime(dt, DisplayDate, Unset);
    PatternFields();
    ReplayFields(Unset, dt, DisplayDate);
    PivotYear(dt.year);
  }

  /** '%Y-%m-%d' read back gives the date at midnight. */
  lemma IsoDateRoundTrip(dt: DateTime)
    requires Valid(dt)
    ensures Strptime(Strftime(dt, IsoDate), IsoDate) == Ok(DateTime(dt.year, dt.month, dt.day, 0, 0, 0))
  {
    ScanStrftime(dt, IsoDate, Unset);
    PatternFields();
    ReplayFields(Unset, dt, IsoDate);
  }

  /** The date '%d.%m.%y' reads back is the printed date exactly in the pivot window. */
  lemma DisplayDateReadsBack(dt: DateTime)
    requires Valid(dt)
    ensures var r := Strptime(Strftime(dt, DisplayDate), DisplayDate);
      (r.Ok? && DateOf(r.value) == DateOf(dt)) <==> 1969 <= dt.year <= 2068
  {
    DisplayDateRoundTrip(dt);
    ScanStrftime(dt, DisplayDate, Unset);
    PatternFields();
    ReplayFields(Unset, dt, DisplayDate);
    PivotYear(dt.year);
  }

  /** A pattern without time directives prints the same for any time of day. */
  lemma {:induction false} StrftimeIgnoresTime(dt: DateTime, fmt: Format)
    requires Printable(dt) && Hour !in fmt && Minute !in fmt && Second !in fmt
    ensures Strftime(DateTime(dt.year, dt.month, dt.day, 0, 0, 0), fmt) == Strftime(dt, fmt)
  {
    if fmt != [] {
      assert Hour !in fmt[1..] && Minute !in fmt[1..] && Second !in fmt[1..];
      StrftimeIgnoresTime(dt, fmt[1..]);
      assert Printed(DateTime(dt.year, dt.month, dt.day, 0, 0, 0), fmt[0]) == Printed(dt, fmt[0]);
    }
  }

  lemma FileStampRoundTrip(dt: DateTime)
    requires Valid(dt) && 1969 <= dt.year <= 2068
    ensures Strptime(Strftime(dt, FileStamp), FileStamp) == Ok(dt)
  {
    ScanStrftime(dt, FileStamp, Unset);
    PatternFields();
    ReplayFields(Unset, dt, FileStamp);
    PivotYear(dt.year);
    assert Replay(Unset, dt, FileStamp) == dt;
  }

  /** A display string of one profile never parses under the other profile's pattern. */
  lemma ProfilesDoNotMix(s: string)
    ensures Strptime(s, DisplayDateTime).Ok? ==> Strptime(s, DisplayDate).Err?
    ensures Strptime(s, DisplayDate).Ok? ==> Strptime(s, DisplayDateTime).Err?
  {
    PatternWidths();
  }
}
