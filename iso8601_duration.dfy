/** The duration parser (src/DashPlayer/iso8601-duration.ts): the designator
    form PnYnMnDTnHnMnS of section 4.4.3.2 of ISO 8601:2004, converted to
    seconds with a 30-day month and a year of 30 x 365 days. */
module Iso8601 {
  import opened Wrappers
  import opened Decimal

  /** A number as the pattern `\d+\.?\d*` admits it: the digits before the
      point and, when a point is written, the (possibly empty) digits after it. */
  datatype Numeral = Numeral(whole: string, fraction: Option<string>)

  predicate ValidNumeral(n: Numeral)
  {
    n.whole != [] && AllDigits(n.whole) && (n.fraction.Some? ==> AllDigits(n.fraction.value))
  }

  function NumeralText(n: Numeral): string
  {
    n.whole + (match n.fraction case Some(f) => "." + f case None => "")
  }

  /** The value of the digits after the point. */
  function FractionValue(digits: string): (r: real)
    requires AllDigits(digits)
    ensures 0.0 <= r < 1.0
  {
    if digits == [] then 0.0
    else (DigitValue(digits[0]) as real + FractionValue(digits[1..])) / 10.0
  }

  /** What `parseFloat` reads from the numeral. */
  function NumeralValue(n: Numeral): (r: real)
    requires ValidNumeral(n)
    ensures r >= 0.0
  {
    DigitsValue(n.whole) as real + (match n.fraction case Some(f) => FractionValue(f) case None => 0.0)
  }

  /** An absent component (`undefined`, so `parseFloat` gives NaN and `|| 0` gives 0). */
  function ComponentValue(c: Option<Numeral>): (r: real)
    requires c.Some? ==> ValidNumeral(c.value)
    ensures r >= 0.0
  {
    match c case Some(n) => NumeralValue(n) case None => 0.0
  }

  datatype TimePart = TimePart(hours: Option<Numeral>, minutes: Option<Numeral>, seconds: Option<Numeral>)

  /** The captured groups of one match; `time` is present when a `T` was written. */
  datatype Duration = Duration(years: Option<Numeral>, months: Option<Numeral>, days: Option<Numeral>, time: Option<TimePart>)

  predicate ValidComponent(c: Option<Numeral>)
  {
    c.Some? ==> ValidNumeral(c.value)
  }

  predicate ValidDuration(d: Duration)
  {
    && ValidComponent(d.years) && ValidComponent(d.months) && ValidComponent(d.days)
    && (d.time.Some? ==>
          ValidComponent(d.time.value.hours) && ValidComponent(d.time.value.minutes)
          && ValidComponent(d.time.value.seconds))
  }

  /** One optional group `(?:(\d+\.?\d*)X)?` as written. */
  function Component(c: Option<Numeral>, designator: char): string
  {
    match c case Some(n) => NumeralText(n) + [designator] case None => ""
  }

  /** Three consecutive optional groups. */
  function Three(c1: Option<Numeral>, c2: Option<Numeral>, c3: Option<Numeral>, d1: char, d2: char, d3: char): string
  {
    Component(c1, d1) + (Component(c2, d2) + Component(c3, d3))
  }

  /** `T` followed by the hour, minute and second groups. */
  function RenderTime(t: TimePart): string
  {
    "T" + Three(t.hours, t.minutes, t.seconds, 'H', 'M', 'S')
  }

  /** The string the pattern matches with these groups: this defines the
      accepted language independently of the parser. */
  function Render(d: Duration): string
  {
    "P" + (Three(d.years, d.months, d.days, 'Y', 'M', 'D')
    + (match d.time case Some(t) => RenderTime(t) case None => ""))
  }

  /** The conversion to seconds, with the source's own constants. */
  function Seconds(d: Duration): (r: real)
    requires ValidDuration(d)
    ensures r >= 0.0
  {
    var hours := if d.time.Some? then ComponentValue(d.time.value.hours) else 0.0;
    var minutes := if d.time.Some? then ComponentValue(d.time.value.minutes) else 0.0;
    var seconds := if d.time.Some? then ComponentValue(d.time.value.seconds) else 0.0;
    ComponentValue(d.years) * 3600.0 * 24.0 * 30.0 * 365.0
    + ComponentValue(d.months) * 3600.0 * 24.0 * 30.0
    + ComponentValue(d.days) * 3600.0 * 24.0
    + hours * 3600.0 + minutes * 60.0 + seconds
  }

  // ---------------------------------------------------------------- parser

  predicate IsNumeralChar(c: char)
  {
    IsDigit(c) || c == '.'
  }

  /** Length of the leading run of digits and points. */
  function NumeralRun(s: string): (k: nat)
    ensures k <= |s|
    ensures forall i :: 0 <= i < k ==> IsNumeralChar(s[i])
    ensures k < |s| ==> !IsNumeralChar(s[k])
  {
    if s == [] || !IsNumeralChar(s[0]) then 0 else 1 + NumeralRun(s[1..])
  }

  /** Length of the leading run of digits. */
  function DigitRun(s: string): (k: nat)
    ensures k <= |s|
    ensures forall i :: 0 <= i < k ==> IsDigit(s[i])
    ensures k < |s| ==> !IsDigit(s[k])
  {
    if s == [] || !IsDigit(s[0]) then 0 else 1 + DigitRun(s[1..])
  }

  /** Reads `\d+\.?\d*` spanning all of `text`. */
  function ReadNumeral(text: string): Option<Numeral>
  {
    var k := DigitRun(text);
    if k == 0 then None
    else if k == |text| then Some(Numeral(text, None))
    else if text[k] == '.' && AllDigits(text[k + 1..]) then Some(Numeral(text[..k], Some(text[k + 1..])))
    else None
  }

  /** Tries one optional group with the given designator at the head of `s`;
      when it does not match, nothing is consumed. */
  function ReadComponent(s: string, designator: char): (Option<Numeral>, string)
  {
    var k := NumeralRun(s);
    if k < |s| && s[k] == designator then
      match ReadNumeral(s[..k])
      case Some(n) => (Some(n), s[k + 1..])
      case None => (None, s)
    else (None, s)
  }

  /** Three groups read in a row, and what is left after them. */
  datatype Groups = Groups(first: Option<Numeral>, second: Option<Numeral>, third: Option<Numeral>, rest: string)

  function ReadGroups(s: string, d1: char, d2: char, d3: char): Groups
  {
    var (c1, r1) := ReadComponent(s, d1);
    var (c2, r2) := ReadComponent(r1, d2);
    var (c3, r3) := ReadComponent(r2, d3);
    Groups(c1, c2, c3, r3)
  }

  /** The optional `T` part, which must end the string. */
  function ParseTime(s: string): Option<TimePart>
  {
    var g := ReadGroups(s, 'H', 'M', 'S');
    if g.rest == [] then Some(TimePart(g.first, g.second, g.third)) else None
  }

  /** Matches the whole string against the pattern, returning the groups. */
  function ParseFields(s: string): Option<Duration>
  {
    if s == [] || s[0] != 'P' then None
    else
      var g := ReadGroups(s[1..], 'Y', 'M', 'D');
      if g.rest == [] then Some(Duration(g.first, g.second, g.third, None))
      else if g.rest[0] != 'T' then None
      else
        match ParseTime(g.rest[1..])
        case Some(t) => Some(Duration(g.first, g.second, g.third, Some(t)))
        case None => None
  }

  /** `parseDuration`: throws on a string the pattern rejects. */
  function ParseDuration(s: string): (r: Result<real>)
    ensures r.Ok? ==> r.value >= 0.0
  {
    match ParseFields(s)
    case None => Err("Invalid duration: " + s)
    case Some(d) =>
      ParseFieldsSound(s);
      Ok(Seconds(d))
  }

  // ---------------------------------------------------------------- proofs

  lemma {:induction false} DigitRunStops(a: string, b: string)
    requires AllDigits(a)
    requires b == [] || !IsDigit(b[0])
    ensures DigitRun(a + b) == |a|
  {
    if a != [] {
      assert (a + b)[1..] == a[1..] + b;
      DigitRunStops(a[1..], b);
    } else {
      assert a + b == b;
    }
  }

  lemma {:induction false} NumeralRunStops(a: string, b: string)
    requires forall i :: 0 <= i < |a| ==> IsNumeralChar(a[i])
    requires b == [] || !IsNumeralChar(b[0])
    ensures NumeralRun(a + b) == |a|
  {
    if a != [] {
      assert (a + b)[1..] == a[1..] + b;
      NumeralRunStops(a[1..], b);
    } else {
      assert a + b == b;
    }
  }

  /** Reading a numeral's text gives the numeral back. */
  lemma ReadNumeralText(n: Numeral)
    requires ValidNumeral(n)
    ensures ReadNumeral(NumeralText(n)) == Some(n)
  {
    var t := NumeralText(n);
    match n.fraction
    case None =>
      DigitRunStops(n.whole, "");
      assert t == n.whole + "";
      assert t == n.whole;
    case Some(f) =>
      DigitRunStops(n.whole, "." + f);
      assert t == n.whole + ("." + f);
      assert t[..|n.whole|] == n.whole;
      assert t[|n.whole| + 1..] == f;
  }

  /** A numeral read from text spells that text. */
  lemma ReadNumeralSpells(text: string)
    requires ReadNumeral(text).Some?
    ensures ValidNumeral(ReadNumeral(text).value)
    ensures NumeralText(ReadNumeral(text).value) == text
  {
    var k := DigitRun(text);
    if k < |text| {
      assert text == text[..k] + "." + text[k + 1..];
    } else {
      assert text == text + "";
    }
  }

  /** The character that ends the leading numeral run, if any. */
  function StopChar(s: string): Option<char>
  {
    var k := NumeralRun(s);
    if k < |s| then Some(s[k]) else None
  }

  predicate IsDesignator(c: char)
  {
    c == 'Y' || c == 'M' || c == 'D' || c == 'H' || c == 'S' || c == 'T'
  }

  /** A group written out is read back, and the rest is left over. */
  lemma ReadWrittenComponent(n: Numeral, designator: char, rest: string)
    requires ValidNumeral(n) && IsDesignator(designator)
    ensures ReadComponent(Component(Some(n), designator) + rest, designator) == (Some(n), rest)
    ensures StopChar(Component(Some(n), designator) + rest) == Some(designator)
  {
    var t := NumeralText(n);
    var s := Component(Some(n), designator) + rest;
    assert s == t + ([designator] + rest);
    assert forall i :: 0 <= i < |t| ==> IsNumeralChar(t[i]);
    NumeralRunStops(t, [designator] + rest);
    assert s[..|t|] == t;
    assert s[|t| + 1..] == rest;
    ReadNumeralText(n);
  }

  /** A group whose designator does not come next consumes nothing. */
  lemma SkipComponent(s: string, designator: char)
    requires StopChar(s) != Some(designator)
    ensures ReadComponent(s, designator) == (None, s)
  {
  }

  /** Where the numeral run of `Component(c, x) + rest` stops. */
  lemma StopAfter(c: Option<Numeral>, designator: char, rest: string)
    requires ValidComponent(c) && IsDesignator(designator)
    ensures StopChar(Component(c, designator) + rest) == if c.Some? then Some(designator) else StopChar(rest)
  {
    match c
    case Some(n) => ReadWrittenComponent(n, designator, rest);
    case None => assert Component(c, designator) + rest == rest;
  }

  /** Reading one group of a rendered sequence of groups. */
  lemma ReadGroup(c: Option<Numeral>, designator: char, rest: string)
    requires ValidComponent(c) && IsDesignator(designator)
    requires StopChar(rest) != Some(designator)
    ensures ReadComponent(Component(c, designator) + rest, designator) == (c, rest)
  {
    match c
    case Some(n) => ReadWrittenComponent(n, designator, rest);
    case None =>
      assert Component(c, designator) + rest == rest;
      SkipComponent(rest, designator);
  }

  lemma StopOfT(rest: string)
    ensures StopChar("T" + rest) == Some('T')
  {
  }

  /** Three rendered groups read back, leaving what follows them. */
  lemma ReadThreeRendered(c1: Option<Numeral>, c2: Option<Numeral>, c3: Option<Numeral>,
                          d1: char, d2: char, d3: char, rest: string)
    requires ValidComponent(c1) && ValidComponent(c2) && ValidComponent(c3)
    requires IsDesignator(d1) && IsDesignator(d2) && IsDesignator(d3)
    requires d1 != d2 && d1 != d3 && d2 != d3
    requires StopChar(rest) != Some(d1) && StopChar(rest) != Some(d2) && StopChar(rest) != Some(d3)
    ensures ReadGroups(Three(c1, c2, c3, d1, d2, d3) + rest, d1, d2, d3) == Groups(c1, c2, c3, rest)
    ensures StopChar(Three(c1, c2, c3, d1, d2, d3) + rest) in {None, Some(d1), Some(d2), Some(d3)} + {StopChar(rest)}
  {
    var a1, a2, a3 := Component(c1, d1), Component(c2, d2), Component(c3, d3);
    assert Three(c1, c2, c3, d1, d2, d3) + rest == a1 + (a2 + (a3 + rest));
    StopAfter(c3, d3, rest);
    StopAfter(c2, d2, a3 + rest);
    StopAfter(c1, d1, a2 + (a3 + rest));
    ReadGroup(c1, d1, a2 + (a3 + rest));
    ReadGroup(c2, d2, a3 + rest);
    ReadGroup(c3, d3, rest);
  }

  /** Dropping a one-character prefix. */
  lemma DropFirst(c: char, rest: string)
    ensures ([c] + rest)[1..] == rest
  {
  }

  /** The groups after `T` read back. */
  lemma ParseTimeRendered(t: TimePart)
    requires ValidComponent(t.hours) && ValidComponent(t.minutes) && ValidComponent(t.seconds)
    ensures ParseTime(Three(t.hours, t.minutes, t.seconds, 'H', 'M', 'S')) == Some(t)
  {
    var inner := Three(t.hours, t.minutes, t.seconds, 'H', 'M', 'S');
    assert inner + "" == inner;
    ReadThreeRendered(t.hours, t.minutes, t.seconds, 'H', 'M', 'S', "");
  }

  /** Every rendered duration parses back to the same groups. */
  lemma ParseRendered(d: Duration)
    requires ValidDuration(d)
    ensures ParseFields(Render(d)) == Some(d)
  {
    var tail := match d.time case Some(t) => RenderTime(t) case None => "";
    var date := Three(d.years, d.months, d.days, 'Y', 'M', 'D');
    var s := Render(d);
    DropFirst('P', date + tail);
    assert StopChar(tail) == None || StopChar(tail) == Some('T') by {
      if d.time.Some? {
        StopOfT(Three(d.time.value.hours, d.time.value.minutes, d.time.value.seconds, 'H', 'M', 'S'));
      }
    }
    ReadThreeRendered(d.years, d.months, d.days, 'Y', 'M', 'D', tail);
    if d.time.Some? {
      var t := d.time.value;
      DropFirst('T', Three(t.hours, t.minutes, t.seconds, 'H', 'M', 'S'));
      ParseTimeRendered(t);
    }
  }

  /** What `ReadComponent` consumed is exactly one written group. */
  lemma ReadComponentSplits(s: string, designator: char)
    ensures ValidComponent(ReadComponent(s, designator).0)
    ensures s == Component(ReadComponent(s, designator).0, designator) + ReadComponent(s, designator).1
  {
    var k := NumeralRun(s);
    if k < |s| && s[k] == designator && ReadNumeral(s[..k]).Some? {
      ReadNumeralSpells(s[..k]);
      assert s == s[..k] + [designator] + s[k + 1..];
    } else {
      assert s == "" + s;
    }
  }

  lemma Regroup(a: string, b: string, c: string, d: string)
    ensures a + (b + (c + d)) == a + (b + c) + d
  {
  }

  /** What `ReadGroups` consumed is exactly three written groups. */
  lemma ReadGroupsSplits(s: string, d1: char, d2: char, d3: char)
    ensures var g := ReadGroups(s, d1, d2, d3);
      ValidComponent(g.first) && ValidComponent(g.second) && ValidComponent(g.third)
      && s == Three(g.first, g.second, g.third, d1, d2, d3) + g.rest
  {
    var x1 := ReadComponent(s, d1);
    var x2 := ReadComponent(x1.1, d2);
    var x3 := ReadComponent(x2.1, d3);
    assert ReadGroups(s, d1, d2, d3) == Groups(x1.0, x2.0, x3.0, x3.1);
    ReadComponentSplits(s, d1);
    ReadComponentSplits(x1.1, d2);
    ReadComponentSplits(x2.1, d3);
    var a1, a2, a3 := Component(x1.0, d1), Component(x2.0, d2), Component(x3.0, d3);
    assert s == a1 + (a2 + (a3 + x3.1));
    Regroup(a1, a2, a3, x3.1);
  }

  /** A successful parse of the `T` part spells its groups. */
  lemma ParseTimeSound(s: string)
    requires ParseTime(s).Some?
    ensures var t := ParseTime(s).value;
      ValidComponent(t.hours) && ValidComponent(t.minutes) && ValidComponent(t.seconds)
      && s == Three(t.hours, t.minutes, t.seconds, 'H', 'M', 'S')
  {
    ReadGroupsSplits(s, 'H', 'M', 'S');
    var g := ReadGroups(s, 'H', 'M', 'S');
    assert s == Three(g.first, g.second, g.third, 'H', 'M', 'S') + [];
  }

  /** What a successful parse is made of. */
  lemma ParseFieldsShape(s: string)
    requires ParseFields(s).Some?
    ensures s != [] && s[0] == 'P'
    ensures var g := ReadGroups(s[1..], 'Y', 'M', 'D');
      && (g.rest != [] ==> g.rest[0] == 'T' && ParseTime(g.rest[1..]).Some?)
      && ParseFields(s).value
         == Duration(g.first, g.second, g.third, if g.rest == [] then None else ParseTime(g.rest[1..]))
  {
  }

  /** Reassembling the rendering from the parsed pieces. */
  lemma Reassemble(s: string, date: string, rest: string, d: Duration)
    requires s != [] && s[0] == 'P' && s[1..] == date + rest
    requires date == Three(d.years, d.months, d.days, 'Y', 'M', 'D')
    requires rest == [] ==> d.time.None?
    requires rest != [] ==> d.time.Some? && rest == RenderTime(d.time.value)
    ensures Render(d) == s
  {
    assert s == [s[0]] + s[1..];
    if rest == [] {
      assert date + rest == date + "";
    }
  }

  /** Every successful parse comes from a valid rendering of its groups. */
  lemma ParseFieldsSound(s: string)
    requires ParseFields(s).Some?
    ensures ValidDuration(ParseFields(s).value)
    ensures Render(ParseFields(s).value) == s
  {
    ParseFieldsShape(s);
    var g := ReadGroups(s[1..], 'Y', 'M', 'D');
    ReadGroupsSplits(s[1..], 'Y', 'M', 'D');
    var d := ParseFields(s).value;
    if g.rest != [] {
      var r := g.rest[1..];
      ParseTimeSound(r);
      assert g.rest == [g.rest[0]] + r;
    }
    Reassemble(s, Three(g.first, g.second, g.third, 'Y', 'M', 'D'), g.rest, d);
  }

  /** The accepted strings are exactly the renderings of valid groups, and
      each parses to its value in seconds. */
  lemma ParseDurationExact(s: string)
    ensures ParseDuration(s).Ok? <==> exists d :: ValidDuration(d) && Render(d) == s
    ensures forall d :: ValidDuration(d) && Render(d) == s ==> ParseDuration(s) == Ok(Seconds(d))
  {
    forall d | ValidDuration(d) && Render(d) == s
      ensures ParseDuration(s) == Ok(Seconds(d))
    {
      ParseRendered(d);
    }
    if ParseDuration(s).Ok? {
      ParseFieldsSound(s);
    }
  }

  /** "P" and "PT" both mean zero seconds. */
  lemma EmptyDurationsAreZero()
    ensures ParseDuration("P") == Ok(0.0)
    ensures ParseDuration("PT") == Ok(0.0)
  {
    var d1 := Duration(None, None, None, None);
    var d2 := Duration(None, None, None, Some(TimePart(None, None, None)));
    ParseRendered(d1);
    ParseRendered(d2);
    assert Render(d1) == "P";
    assert Render(d2) == "PT";
  }

  /** M before T counts months, M after T counts minutes. */
  lemma MonthsVersusMinutes()
    ensures ParseDuration("P1M") == Ok(2592000.0)
    ensures ParseDuration("PT1M") == Ok(60.0)
  {
    var one := Numeral("1", None);
    var d1 := Duration(None, Some(one), None, None);
    var d2 := Duration(None, None, None, Some(TimePart(None, Some(one), None)));
    assert DigitsValue("1") == 1 by { assert "1"[..0] == ""; }
    assert NumeralValue(one) == 1.0;
    assert Render(d1) == "P1M";
    assert Render(d2) == "PT1M";
    ParseRendered(d1);
    ParseRendered(d2);
    assert Seconds(d1) == 2592000.0;
    assert Seconds(d2) == 60.0;
  }

  /** Designators out of order are rejected. */
  lemma OutOfOrderRejected()
    ensures ParseDuration("PT1S1M").Err?
  {
    var s := "PT1S1M";
    assert s[1..] == "T1S1M";
    assert NumeralRun("T1S1M") == 0;
    assert ReadComponent("T1S1M", 'Y') == (None, "T1S1M");
    assert ReadComponent("T1S1M", 'M') == (None, "T1S1M");
    assert ReadComponent("T1S1M", 'D') == (None, "T1S1M");
    assert "T1S1M"[1..] == "1S1M";
    NumeralRunStops("1", "S1M");
    assert "1" + "S1M" == "1S1M";
    assert NumeralRun("1S1M") == 1;
    assert ReadComponent("1S1M", 'H') == (None, "1S1M");
    assert ReadComponent("1S1M", 'M') == (None, "1S1M");
    assert "1S1M"[..1] == "1";
    assert ReadNumeral("1") == Some(Numeral("1", None));
    assert ReadComponent("1S1M", 'S') == (Some(Numeral("1", None)), "1M");
  }
}
