/** The three textual forms of a date-time the application uses:
    ISO 8601 (`isoformat` / `fromisoformat`) in the archive, `%d/%m/%Y`
    (`strftime` / `strptime`) in the form and the PDF, and the
    `%Y%m%d-%H%M%S` document number. */
module DateText {

  import opened Wrappers
  import opened Text
  import opened Calendar

  /** `t.isoformat()` for a time with no microseconds: ISO 8601 complete
      date-time in extended format, `YYYY-MM-DDTHH:MM:SS`. */
  function IsoFormat(t: DateTime): (s: string)
    requires InRange(t)
    ensures |s| == 19
  {
    PadDigits(t.year, 4) + "-" + PadDigits(t.month, 2) + "-" + PadDigits(t.day, 2)
    + "T" + PadDigits(t.hour, 2) + ":" + PadDigits(t.minute, 2) + ":" + PadDigits(t.second, 2)
  }

  /** The number in `s[i..i+w]`, when that slice is all digits. */
  function NumberAt(s: string, i: nat, w: nat): (r: Option<nat>)
    requires i + w <= |s|
    ensures r.Some? ==> r.value < Pow10(w)
  {
    ParseNat(s[i..i + w])
  }

  /** Builds a date-time from parsed fields, refusing any field that did
      not parse and any value Python's `datetime` constructor refuses. */
  function Assemble(y: Option<nat>, mo: Option<nat>, d: Option<nat>,
                    h: Option<nat>, mi: Option<nat>, se: Option<nat>): (r: Option<DateTime>)
    ensures r.Some? ==> InRange(r.value)
    ensures r.Some? <==> (y.Some? && mo.Some? && d.Some? && h.Some? && mi.Some? && se.Some?
                          && InRange(DateTime(y.value, mo.value, d.value, h.value, mi.value, se.value)))
    ensures r.Some? ==> r.value == DateTime(y.value, mo.value, d.value, h.value, mi.value, se.value)
  {
    if y.None? || mo.None? || d.None? || h.None? || mi.None? || se.None? then None
    else
      var t := DateTime(y.value, mo.value, d.value, h.value, mi.value, se.value);
      if InRange(t) then Some(t) else None
  }

  /** `datetime.fromisoformat(s)` on the shapes `YYYY-MM-DD`, and
      `YYYY-MM-DD?HH`, `YYYY-MM-DD?HH:MM`, `YYYY-MM-DD?HH:MM:SS` with any
      single separator character `?`; missing time fields are zero. */
  function ParseIso(s: string): (r: Option<DateTime>)
    ensures r.Some? ==> InRange(r.value)
    ensures r.Some? ==> |s| in {10, 13, 16, 19} && s[4] == '-' && s[7] == '-'
  {
    if !(|s| == 10 || |s| == 13 || |s| == 16 || |s| == 19) then None
    else if s[4] != '-' || s[7] != '-' then None
    else if |s| >= 16 && s[13] != ':' then None
    else if |s| == 19 && s[16] != ':' then None
    else
      Assemble(NumberAt(s, 0, 4), NumberAt(s, 5, 2), NumberAt(s, 8, 2),
               if |s| >= 13 then NumberAt(s, 11, 2) else Some(0),
               if |s| >= 16 then NumberAt(s, 14, 2) else Some(0),
               if |s| == 19 then NumberAt(s, 17, 2) else Some(0))
  }

  /** Reading back what `isoformat` wrote gives the same date-time. */
  lemma IsoRoundTrip(t: DateTime)
    requires InRange(t)
    ensures ParseIso(IsoFormat(t)) == Some(t)
  {
    var s := IsoFormat(t);
    assert s[0..4] == PadDigits(t.year, 4);
    assert s[5..7] == PadDigits(t.month, 2);
    assert s[8..10] == PadDigits(t.day, 2);
    assert s[11..13] == PadDigits(t.hour, 2);
    assert s[14..16] == PadDigits(t.minute, 2);
    assert s[17..19] == PadDigits(t.second, 2);
    PadDigitsRoundTrip(t.year, 4);
    PadDigitsRoundTrip(t.month, 2);
    PadDigitsRoundTrip(t.day, 2);
    PadDigitsRoundTrip(t.hour, 2);
    PadDigitsRoundTrip(t.minute, 2);
    PadDigitsRoundTrip(t.second, 2);
  }

  /** The full-length form with a `T` separator is canonical: anything it
      accepts is exactly what `isoformat` writes for the result. */
  lemma IsoCanonical(s: string)
    requires |s| == 19 && s[10] == 'T'
    requires ParseIso(s).Some?
    ensures IsoFormat(ParseIso(s).value) == s
  {
    DigitsValueRoundTrip(s[0..4]);
    DigitsValueRoundTrip(s[5..7]);
    DigitsValueRoundTrip(s[8..10]);
    DigitsValueRoundTrip(s[11..13]);
    DigitsValueRoundTrip(s[14..16]);
    DigitsValueRoundTrip(s[17..19]);
    var f := IsoFormat(ParseIso(s).value);
    assert f == s[0..4] + "-" + s[5..7] + "-" + s[8..10] + "T" + s[11..13] + ":" + s[14..16] + ":" + s[17..19];
    assert f == s;
  }

  /** `t.strftime('%d/%m/%Y')`. */
  function FormatDmy(t: DateTime): (s: string)
    requires InRange(t)
    ensures |s| == 10 && s[2] == '/' && s[5] == '/'
  {
    PadDigits(t.day, 2) + "/" + PadDigits(t.month, 2) + "/" + PadDigits(t.year, 4)
  }

  /** strptime's `%d`: `01`..`31`, `1`..`9`, or a space then `1`..`9`. */
  function DayField(p: string): (r: Option<nat>)
    ensures r.Some? ==> 1 <= r.value <= 31
  {
    if |p| == 1 && IsDigit(p[0]) && p[0] != '0' then Some(DigitValue(p[0]))
    else if |p| == 2 && p[0] == ' ' && IsDigit(p[1]) && p[1] != '0' then Some(DigitValue(p[1]))
    else if |p| == 2 && AllDigits(p) && 1 <= DigitsValue(p) <= 31 then Some(DigitsValue(p))
    else None
  }

  /** strptime's `%m`: `01`..`12` or `1`..`9`. */
  function MonthField(p: string): (r: Option<nat>)
    ensures r.Some? ==> 1 <= r.value <= 12
  {
    if |p| == 1 && IsDigit(p[0]) && p[0] != '0' then Some(DigitValue(p[0]))
    else if |p| == 2 && AllDigits(p) && 1 <= DigitsValue(p) <= 12 then Some(DigitsValue(p))
    else None
  }

  /** The length of a one- or two-character field of `s` that ends at a '/'. */
  function FieldBeforeSlash(s: string): (n: nat)
    ensures n <= 2
  {
    if |s| >= 2 && s[1] == '/' then 1
    else if |s| >= 3 && s[2] == '/' then 2
    else 0
  }

  /** `datetime.strptime(s, '%d/%m/%Y')`: the whole text must be a day
      field, '/', a month field, '/', and exactly four year digits naming a
      real date; the result is at midnight. */
  function ParseDmy(s: string): (r: Option<DateTime>)
    ensures r.Some? ==> InRange(r.value) && r.value == Midnight(r.value)
  {
    var i := FieldBeforeSlash(s);
    if i == 0 then None
    else
      var rest := s[i + 1..];
      var j := FieldBeforeSlash(rest);
      if j == 0 then None
      else
        var yearText := rest[j + 1..];
        var d := DayField(s[..i]);
        var m := MonthField(rest[..j]);
        if |yearText| != 4 || d.None? || m.None? then None
        else Assemble(NumberAt(yearText, 0, 4), m, d, Some(0), Some(0), Some(0))
  }

  /** The form's date text, written by `strftime`, reads back as the same
      day at midnight. */
  lemma DmyRoundTrip(t: DateTime)
    requires InRange(t)
    ensures ParseDmy(FormatDmy(t)) == Some(Midnight(t))
  {
    var s := FormatDmy(t);
    assert s[..2] == PadDigits(t.day, 2);
    var rest := s[3..];
    assert rest[..2] == PadDigits(t.month, 2);
    assert rest[3..] == PadDigits(t.year, 4);
    assert rest[3..][0..4] == rest[3..];
    PadDigitsRoundTrip(t.year, 4);
    PadDigitsRoundTrip(t.month, 2);
    PadDigitsRoundTrip(t.day, 2);
  }

  /** The canonical form of 2025-01-01 reads back. */
  lemma DmyExampleCanonical()
    ensures ParseDmy("01/01/2025") == Some(DateTime(2025, 1, 1, 0, 0, 0))
  {
    assert FormatDmy(DateTime(2025, 1, 1, 0, 0, 0)) == "01/01/2025";
    DmyRoundTrip(DateTime(2025, 1, 1, 0, 0, 0));
  }

  /** What `ParseDmy` accepts, field by field: a text made of a short day
      field, '/', a short month field, '/' and a rest is read as a date
      exactly when the fields are well formed, the rest is four digits, and
      the three name a real date. */
  lemma ParseDmyFields(s: string, dt: string, mt: string, yt: string)
    requires s == dt + "/" + mt + "/" + yt
    requires 1 <= |dt| <= 2 && 1 <= |mt| <= 2
    requires '/' !in dt && '/' !in mt
    ensures ParseDmy(s) ==
      if |yt| != 4 || DayField(dt).None? || MonthField(mt).None? then None
      else Assemble(ParseNat(yt), MonthField(mt), DayField(dt), Some(0), Some(0), Some(0))
  {
    var i := FieldBeforeSlash(s);
    if |dt| == 1 {
      assert s[1] == '/';
    } else {
      assert s[1] == dt[1] && s[2] == '/';
    }
    assert i == |dt|;
    assert s[..i] == dt;
    var rest := s[i + 1..];
    assert rest == mt + "/" + yt;
    if |mt| == 1 {
      assert rest[1] == '/';
    } else {
      assert rest[1] == mt[1] && rest[2] == '/';
    }
    assert rest[..|mt|] == mt;
    assert rest[|mt| + 1..] == yt;
    if |yt| == 4 {
      assert yt[0..4] == yt;
    }
  }

  /** strptime's fields accept unpadded and space-padded values and refuse
      zero and out-of-range values. */
  lemma DmyFieldExamples()
    ensures DayField("1") == Some(1) && DayField(" 5") == Some(5) && DayField("31") == Some(31)
    ensures DayField("0") == None && DayField("00") == None && DayField("32") == None
    ensures MonthField("2") == Some(2) && MonthField("12") == Some(12)
    ensures MonthField(" 2") == None && MonthField("13") == None
  {
    assert DigitsValue("31") == 31;
    assert DigitsValue("32") == 32;
    assert DigitsValue("12") == 12;
    assert DigitsValue("13") == 13;
  }

  /** The date part `YYYYMMDD` of a document number. */
  function NumeroDate(t: DateTime): (s: string)
    requires InRange(t)
    ensures |s| == 8
  {
    PadDigits(t.year, 4) + PadDigits(t.month, 2) + PadDigits(t.day, 2)
  }

  /** The time part `HHMMSS` of a document number. */
  function NumeroTime(t: DateTime): (s: string)
    requires InRange(t)
    ensures |s| == 6
  {
    PadDigits(t.hour, 2) + PadDigits(t.minute, 2) + PadDigits(t.second, 2)
  }

  /** The automatic document number for the instant `now`, read once:
      `now.strftime('%Y%m%d') + '-' + now.strftime('%H%M%S')`. */
  function GenerateNumero(now: DateTime): (s: string)
    requires InRange(now)
    ensures |s| == 15 && s[8] == '-'
    ensures s != ""
  {
    NumeroDate(now) + "-" + NumeroTime(now)
  }

  /** The instant a generated document number stands for. */
  function NumeroInstant(s: string): (r: Option<DateTime>)
    ensures r.Some? ==> InRange(r.value)
  {
    if |s| != 15 || s[8] != '-' then None
    else Assemble(NumberAt(s, 0, 4), NumberAt(s, 4, 2), NumberAt(s, 6, 2),
                  NumberAt(s, 9, 2), NumberAt(s, 11, 2), NumberAt(s, 13, 2))
  }

  /** A generated number names exactly the instant it was generated at, so
      numbers generated at different seconds never collide. */
  lemma GenerateNumeroRoundTrip(now: DateTime)
    requires InRange(now)
    ensures NumeroInstant(GenerateNumero(now)) == Some(now)
  {
    var s := GenerateNumero(now);
    assert s[0..4] == PadDigits(now.year, 4);
    assert s[4..6] == PadDigits(now.month, 2);
    assert s[6..8] == PadDigits(now.day, 2);
    assert s[9..11] == PadDigits(now.hour, 2);
    assert s[11..13] == PadDigits(now.minute, 2);
    assert s[13..15] == PadDigits(now.second, 2);
    PadDigitsRoundTrip(now.year, 4);
    PadDigitsRoundTrip(now.month, 2);
    PadDigitsRoundTrip(now.day, 2);
    PadDigitsRoundTrip(now.hour, 2);
    PadDigitsRoundTrip(now.minute, 2);
    PadDigitsRoundTrip(now.second, 2);
  }

  lemma GenerateNumeroInjective(a: DateTime, b: DateTime)
    requires InRange(a) && InRange(b) && a != b
    ensures GenerateNumero(a) != GenerateNumero(b)
  {
    GenerateNumeroRoundTrip(a);
    GenerateNumeroRoundTrip(b);
  }

  /** The number as `generer_numero_document` writes it: the clock is read
      twice, once for the date part and once for the time part. */
  function GenerateNumeroTwoReads(first: DateTime, second: DateTime): (s: string)
    requires InRange(first) && InRange(second)
    ensures |s| == 15 && s[8] == '-'
  {
    NumeroDate(first) + "-" + NumeroTime(second)
  }

  /** The two clock reads `generer_numero_document` makes, in order: the
      first for the date part, the second for the time part. */
  datatype ClockReads = ClockReads(first: DateTime, second: DateTime)

  predicate ReadsInRange(c: ClockReads) {
    InRange(c.first) && InRange(c.second)
  }

  /** The instant made of the first read's date and the second read's
      time. */
  function MixedInstant(first: DateTime, second: DateTime): DateTime {
    first.(hour := second.hour, minute := second.minute, second := second.second)
  }

  /** The number read across two clock reads is the number of the instant
      made of the first read's date and the second read's time; when both
      reads return the same instant it is the one-read number. */
  lemma TwoReadsMix(first: DateTime, second: DateTime)
    requires InRange(first) && InRange(second)
    ensures var mixed := MixedInstant(first, second);
      && InRange(mixed)
      && GenerateNumeroTwoReads(first, second) == GenerateNumero(mixed)
      && NumeroInstant(GenerateNumeroTwoReads(first, second)) == Some(mixed)
    ensures first == second ==> GenerateNumeroTwoReads(first, second) == GenerateNumero(first)
  {
    var mixed := MixedInstant(first, second);
    assert NumeroDate(mixed) == NumeroDate(first);
    assert NumeroTime(mixed) == NumeroTime(second);
    GenerateNumeroRoundTrip(mixed);
  }

  /** When the two clock reads fall on the two sides of midnight the number
      names the start of the first day: an instant almost a day earlier
      than either read, and different from the number of either read. */
  lemma TwoReadsAcrossMidnight()
    ensures var first := DateTime(2025, 1, 1, 23, 59, 59);
            var second := DateTime(2025, 1, 2, 0, 0, 0);
            var s := GenerateNumeroTwoReads(first, second);
            && s != GenerateNumero(first) && s != GenerateNumero(second)
            && NumeroInstant(s) == Some(DateTime(2025, 1, 1, 0, 0, 0))
            && Before(NumeroInstant(s).value, first)
  {
    var first := DateTime(2025, 1, 1, 23, 59, 59);
    var second := DateTime(2025, 1, 2, 0, 0, 0);
    var mixed := DateTime(2025, 1, 1, 0, 0, 0);
    assert MixedInstant(first, second) == mixed;
    TwoReadsMix(first, second);
    GenerateNumeroInjective(first, mixed);
    GenerateNumeroInjective(second, mixed);
  }
}
