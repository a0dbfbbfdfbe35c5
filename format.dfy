/** Text formats produced and read by the board script: the `datetime-local`
    value `YYYY-MM-DDTHH:MM` and the DOM element id `clue-<id>` of a clue node. */
module Format {
  import opened Common
  import opened Text

  /** The local calendar fields of a JavaScript `Date`, as its getters return them:
      `getMonth()` counts from 0. */
  datatype LocalDateTime = LocalDateTime(year: int, month0: nat, day: nat, hours: nat, minutes: nat)

  ghost predicate ValidDateTime(d: LocalDateTime)
  {
    d.month0 < 12 && 1 <= d.day <= 31 && d.hours < 24 && d.minutes < 60
  }

  /** `${year}`: a minus sign in front of the digits for years before 1 BC. */
  function YearText(y: int): (s: string)
    ensures |s| >= 1
  {
    if y < 0 then "-" + Digits(-y) else Digits(y)
  }

  /** `toLocalISOString`: the year unpadded, the other four fields padded to two digits. */
  function ToLocalISOString(d: LocalDateTime): (s: string)
    requires ValidDateTime(d)
  {
    YearText(d.year) + TailText(d)
  }

  /** Everything after the year: `-MM-DDTHH:MM`. */
  function TailText(d: LocalDateTime): string
    requires ValidDateTime(d)
  {
    "-" + Pad2(Digits(d.month0 + 1)) + "-" + Pad2(Digits(d.day))
    + "T" + Pad2(Digits(d.hours)) + ":" + Pad2(Digits(d.minutes))
  }

  /** The year text: an optional minus sign and at least one digit. */
  function ParseYear(y: string): (r: Option<int>)
  {
    if |y| >= 2 && y[0] == '-' && AllDigits(y[1..]) then Some(0 - DigitsValue(y[1..]))
    else if |y| >= 1 && AllDigits(y) then Some(DigitsValue(y))
    else None
  }

  /** The twelve characters `-MM-DDTHH:MM` after the year, as (month0, day, hours, minutes). */
  function ParseTail(t: string): (r: Option<(nat, nat, nat, nat)>)
    requires |t| == 12
  {
    var mo, da, ho, mi := t[1..3], t[4..6], t[7..9], t[10..12];
    if t[0] != '-' || t[3] != '-' || t[6] != 'T' || t[9] != ':' then None
    else if !(AllDigits(mo) && AllDigits(da) && AllDigits(ho) && AllDigits(mi)) then None
    else if DigitsValue(mo) == 0 then None
    else Some((DigitsValue(mo) - 1, DigitsValue(da), DigitsValue(ho), DigitsValue(mi)))
  }

  /** Reads the five fields back: the last twelve characters have the fixed shape
      `-MM-DDTHH:MM`, everything before them is the year. */
  function ParseLocalISOString(s: string): (r: Option<LocalDateTime>)
  {
    if |s| < 13 then None
    else
      match (ParseYear(s[..|s| - 12]), ParseTail(s[|s| - 12..]))
      case (Some(y), Some((mo, da, ho, mi))) => Some(LocalDateTime(y, mo, da, ho, mi))
      case _ => None
  }

  lemma YearRoundTrip(y: int)
    ensures ParseYear(YearText(y)) == Some(y)
  {
    if y < 0 {
      SignedDigitsRead(Digits(-y));
      DigitsRoundTrip(-y);
    } else {
      var ds := Digits(y);
      assert IsDigit(ds[0]);
      DigitsRoundTrip(y);
    }
  }

  /** A minus sign before digits reads as the negated value. */
  lemma SignedDigitsRead(ds: string)
    requires |ds| >= 1 && AllDigits(ds)
    ensures ParseYear("-" + ds) == Some(0 - DigitsValue(ds))
  {
    assert ("-" + ds)[1..] == ds;
  }

  lemma TailRoundTrip(d: LocalDateTime)
    requires ValidDateTime(d)
    ensures |TailText(d)| == 12
    ensures ParseTail(TailText(d)) == Some((d.month0, d.day, d.hours, d.minutes))
  {
    TwoDigitsRoundTrip(d.month0 + 1);
    TwoDigitsRoundTrip(d.day);
    TwoDigitsRoundTrip(d.hours);
    TwoDigitsRoundTrip(d.minutes);
    TailSlices(Pad2(Digits(d.month0 + 1)), Pad2(Digits(d.day)), Pad2(Digits(d.hours)), Pad2(Digits(d.minutes)));
  }

  /** Where the four two-character fields sit inside `-MM-DDTHH:MM`. */
  lemma TailSlices(mo: string, da: string, ho: string, mi: string)
    requires |mo| == 2 && |da| == 2 && |ho| == 2 && |mi| == 2
    ensures var t := "-" + mo + "-" + da + "T" + ho + ":" + mi;
      |t| == 12 && t[0] == '-' && t[3] == '-' && t[6] == 'T' && t[9] == ':'
      && t[1..3] == mo && t[4..6] == da && t[7..9] == ho && t[10..12] == mi
  {
    var t := "-" + mo + "-" + da + "T" + ho + ":" + mi;
    assert t[1..3] == mo;
    assert t[4..6] == da;
    assert t[7..9] == ho;
    assert t[10..12] == mi;
  }

  /** Every field survives formatting: the string is the year followed by twelve
      fixed-shape characters, and reading it back gives the same date-time. */
  lemma LocalISOStringRoundTrip(d: LocalDateTime)
    requires ValidDateTime(d)
    ensures |ToLocalISOString(d)| == |YearText(d.year)| + 12
    ensures ParseLocalISOString(ToLocalISOString(d)) == Some(d)
  {
    var s := ToLocalISOString(d);
    var yt, tail := YearText(d.year), TailText(d);
    TailRoundTrip(d);
    YearRoundTrip(d.year);
    assert s == yt + tail;
    assert s[..|s| - 12] == yt && s[|s| - 12..] == tail;
  }

  /** A four-digit year gives the sixteen characters of `YYYY-MM-DDTHH:MM`. */
  lemma FourDigitYearLength(d: LocalDateTime)
    requires ValidDateTime(d) && 1000 <= d.year <= 9999
    ensures |ToLocalISOString(d)| == 16
  {
    LocalISOStringRoundTrip(d);
    assert |Digits(d.year / 10)| == 3 by {
      assert |Digits(d.year / 100)| == 2;
    }
  }

  /** The DOM id given to a clue's node: `clue-${clue.id}`. */
  function ElementId(id: nat): (s: string)
    ensures |s| > 5 && s[..5] == "clue-"
  {
    "clue-" + Digits(id)
  }

  /** `s.split('-')[1]`: the text between the first dash and the next one (or the
      end); `undefined`, None here, when there is no dash. */
  function SecondDashField(s: string): (r: Option<string>)
    ensures r.Some? ==> '-' !in r.value
  {
    if s == [] then None
    else if s[0] == '-' then Some(UpToDash(s[1..]))
    else SecondDashField(s[1..])
  }

  function UpToDash(s: string): (r: string)
    ensures |r| <= |s| && '-' !in r && r == s[..|r|]
    ensures |r| < |s| ==> s[|r|] == '-'
  {
    if s == [] || s[0] == '-' then [] else [s[0]] + UpToDash(s[1..])
  }

  /** `parseInt(node.id.split('-')[1])`: None stands for NaN. */
  function ParseElementId(s: string): (r: Option<nat>)
  {
    match SecondDashField(s)
    case None => None
    case Some(f) =>
      var ds := LeadingDigits(f);
      if ds == [] then None else Some(DigitsValue(ds))
  }

  lemma {:induction false} UpToDashOfDigits(s: string)
    requires AllDigits(s)
    ensures UpToDash(s) == s
  {
    if s != [] {
      UpToDashOfDigits(s[1..]);
    }
  }

  /** A dash-free prefix is skipped: the field is what follows the first dash. */
  lemma {:induction false} SecondDashFieldAfter(p: string, rest: string)
    requires '-' !in p
    ensures SecondDashField(p + "-" + rest) == Some(UpToDash(rest))
  {
    if p == [] {
      assert p + "-" + rest == "-" + rest;
    } else {
      assert (p + "-" + rest)[1..] == p[1..] + "-" + rest;
      SecondDashFieldAfter(p[1..], rest);
    }
  }

  /** The id a node is rendered with is the id read back from it. */
  lemma ElementIdRoundTrip(id: nat)
    ensures ParseElementId(ElementId(id)) == Some(id)
  {
    var ds := Digits(id);
    assert ElementId(id) == "clue" + "-" + ds;
    SecondDashFieldAfter("clue", ds);
    UpToDashOfDigits(ds);
    LeadingDigitsOfDigits(ds, []);
    assert ds + [] == ds;
    DigitsRoundTrip(id);
  }
}
