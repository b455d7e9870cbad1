/** Segment URL construction from a DASH SegmentTemplate
    (src/DashPlayer/DashSegmentFetcher.ts). The identifiers `$RepresentationID$`
    and `$Number$` are those of section 5.3.9.4.4 of ISO/IEC 23009-1. */
module SegmentFetcher {
  import opened Wrappers
  import opened Decimal

  const RepresentationIdPattern: string := "$RepresentationID$"
  const NumberPattern: string := "$Number$"

  /** s begins with p. */
  predicate StartsWith(s: string, p: string)
  {
    |p| <= |s| && s[..|p|] == p
  }

  /** p occurs somewhere in s. */
  ghost predicate Occurs(p: string, s: string)
  {
    exists i :: 0 <= i <= |s| && StartsWith(s[i..], p)
  }

  predicate PlainText(s: string)
  {
    forall i :: 0 <= i < |s| ==> s[i] != '$'
  }

  /** `String.prototype.replace` with a global regular expression for a fixed
      pattern: scan left to right, replace each match, resume after it. */
  function ReplaceAll(s: string, pattern: string, replacement: string): string
    requires pattern != []
    decreases |s|
  {
    if |s| < |pattern| then s
    else if s[..|pattern|] == pattern then replacement + ReplaceAll(s[|pattern|..], pattern, replacement)
    else [s[0]] + ReplaceAll(s[1..], pattern, replacement)
  }

  /** A match at the head is replaced and scanning resumes after it. */
  lemma ReplaceAtHead(rest: string, pattern: string, replacement: string)
    requires pattern != []
    ensures ReplaceAll(pattern + rest, pattern, replacement) == replacement + ReplaceAll(rest, pattern, replacement)
  {
    var s := pattern + rest;
    assert s[..|pattern|] == pattern && s[|pattern|..] == rest;
  }

  /** Without a match at the head, the first character is kept. */
  lemma SkipHead(s: string, pattern: string, replacement: string)
    requires pattern != [] && s != []
    requires !StartsWith(s, pattern)
    ensures ReplaceAll(s, pattern, replacement) == [s[0]] + ReplaceAll(s[1..], pattern, replacement)
  {
    if |s| < |pattern| {
      assert ReplaceAll(s[1..], pattern, replacement) == s[1..];
      assert s == [s[0]] + s[1..];
    }
  }

  /** No match of p starts inside `a` when `a` is followed by `b`: neither
      within `a` nor straddling its end. */
  ghost predicate NoMatchWithin(a: string, b: string, p: string)
  {
    forall i :: 0 <= i < |a| ==> !StartsWith((a + b)[i..], p)
  }

  /** A prefix in which no match starts passes through unchanged. */
  lemma {:induction false} ReplaceCleanPrefix(a: string, b: string, pattern: string, replacement: string)
    requires pattern != []
    requires NoMatchWithin(a, b, pattern)
    ensures ReplaceAll(a + b, pattern, replacement) == a + ReplaceAll(b, pattern, replacement)
    decreases |a|
  {
    if a != [] {
      var s := a + b;
      assert s[0..] == s;
      assert !StartsWith(s, pattern);
      SkipHead(s, pattern, replacement);
      assert s[1..] == a[1..] + b;
      assert NoMatchWithin(a[1..], b, pattern) by {
        forall i | 0 <= i < |a[1..]|
          ensures !StartsWith((a[1..] + b)[i..], pattern)
        {
          assert (a[1..] + b)[i..] == s[i + 1..];
        }
      }
      ReplaceCleanPrefix(a[1..], b, pattern, replacement);
      assert a == [a[0]] + a[1..];
    } else {
      assert a + b == b;
    }
  }

  /** Text without '$' contains no start of a pattern beginning with '$'. */
  lemma PlainNoMatch(a: string, b: string, pattern: string)
    requires pattern != [] && pattern[0] == '$'
    requires PlainText(a)
    ensures NoMatchWithin(a, b, pattern)
  {
    forall i | 0 <= i < |a|
      ensures !StartsWith((a + b)[i..], pattern)
    {
      assert (a + b)[i..][0] == a[i];
    }
  }

  /** Text without '$' passes through a pass whose pattern starts with '$'. */
  lemma ReplacePlainPrefix(a: string, b: string, pattern: string, replacement: string)
    requires pattern != [] && pattern[0] == '$'
    requires PlainText(a)
    ensures ReplaceAll(a + b, pattern, replacement) == a + ReplaceAll(b, pattern, replacement)
  {
    PlainNoMatch(a, b, pattern);
    ReplaceCleanPrefix(a, b, pattern, replacement);
  }

  /** A string in which the pattern does not occur is left unchanged. */
  lemma {:induction false} ReplaceAbsent(s: string, pattern: string, replacement: string)
    requires pattern != []
    requires !Occurs(pattern, s)
    ensures ReplaceAll(s, pattern, replacement) == s
    decreases |s|
  {
    if |s| >= |pattern| {
      assert s[0..] == s;
      assert !StartsWith(s[0..], pattern);
      assert !Occurs(pattern, s[1..]) by {
        forall i | 0 <= i <= |s[1..]|
          ensures !StartsWith(s[1..][i..], pattern)
        {
          assert s[1..][i..] == s[i + 1..];
        }
      }
      ReplaceAbsent(s[1..], pattern, replacement);
      assert s == [s[0]] + s[1..];
    }
  }

  /** `getSegmentUrl`: fails without a representation id; otherwise the id
      pass runs first and the number pass second. */
  function GetSegmentUrl(url: string, representationId: string, segmentNumber: int): (r: Result<string>)
    ensures r.Err? <==> representationId == []
  {
    if representationId == [] then Err("No current representation id set")
    else
      var withId := ReplaceAll(url, RepresentationIdPattern, representationId);
      Ok(ReplaceAll(withId, NumberPattern, IntToString(segmentNumber)))
  }

  /** A template with neither placeholder comes back unchanged. */
  lemma GetSegmentUrlWithoutPlaceholders(url: string, representationId: string, segmentNumber: int)
    requires representationId != []
    requires !Occurs(RepresentationIdPattern, url) && !Occurs(NumberPattern, url)
    ensures GetSegmentUrl(url, representationId, segmentNumber) == Ok(url)
  {
    ReplaceAbsent(url, RepresentationIdPattern, representationId);
    ReplaceAbsent(url, NumberPattern, IntToString(segmentNumber));
  }

  /** A template viewed as literal text and placeholders. */
  datatype Piece = Literal(text: string) | RepresentationIdSlot | NumberSlot

  function PieceText(p: Piece): string
  {
    match p
    case Literal(text) => text
    case RepresentationIdSlot => RepresentationIdPattern
    case NumberSlot => NumberPattern
  }

  /** The template string a list of pieces spells. */
  function Render(t: seq<Piece>): string
  {
    if t == [] then [] else PieceText(t[0]) + Render(t[1..])
  }

  /** The intended URL: each placeholder stands for its value. */
  function Expand(t: seq<Piece>, id: string, number: string): string
  {
    if t == [] then []
    else
      var head := match t[0]
        case Literal(text) => text
        case RepresentationIdSlot => id
        case NumberSlot => number;
      head + Expand(t[1..], id, number)
  }

  /** The template with every id placeholder already replaced by the id. */
  function SubstituteId(t: seq<Piece>, id: string): (r: seq<Piece>)
    ensures |r| == |t|
    ensures forall i :: 0 <= i < |t| ==>
      r[i] == (if t[i].RepresentationIdSlot? then Literal(id) else t[i])
  {
    if t == [] then [] else [if t[0].RepresentationIdSlot? then Literal(id) else t[0]] + SubstituteId(t[1..], id)
  }

  /** For a pass replacing `pattern`, the only matches are the `slot` pieces:
      no match starts inside any other piece or straddles its end. */
  ghost predicate Separated(t: seq<Piece>, pattern: string, slot: Piece)
  {
    forall k :: 0 <= k < |t| && t[k] != slot ==> NoMatchWithin(PieceText(t[k]), Render(t[k + 1..]), pattern)
  }

  /** Dropping the first piece keeps a template separated. */
  lemma SeparatedTail(t: seq<Piece>, pattern: string, slot: Piece)
    requires Separated(t, pattern, slot) && t != []
    ensures Separated(t[1..], pattern, slot)
  {
    forall k | 0 <= k < |t| - 1 && t[1..][k] != slot
      ensures NoMatchWithin(PieceText(t[1..][k]), Render(t[1..][k + 1..]), pattern)
    {
      assert t[1..][k] == t[k + 1] && t[1..][k + 1..] == t[k + 2..];
    }
  }

  /** Render of a non-empty template starts with its first piece. */
  lemma RenderCons(t: seq<Piece>)
    requires t != []
    ensures Render(t) == PieceText(t[0]) + Render(t[1..])
  {
  }

  /** The id pass turns a separated template into the template with the id
      spelled in place of each id placeholder. */
  lemma {:induction false} IdPass(t: seq<Piece>, id: string)
    requires Separated(t, RepresentationIdPattern, RepresentationIdSlot)
    ensures ReplaceAll(Render(t), RepresentationIdPattern, id) == Render(SubstituteId(t, id))
  {
    var p := RepresentationIdPattern;
    if t != [] {
      var rest := t[1..];
      SeparatedTail(t, p, RepresentationIdSlot);
      IdPass(rest, id);
      var t' := SubstituteId(t, id);
      assert t'[1..] == SubstituteId(rest, id);
      RenderCons(t);
      RenderCons(t');
      assert t[1..] == rest;
      if t[0].RepresentationIdSlot? {
        ReplaceAtHead(Render(rest), p, id);
      } else {
        ReplaceCleanPrefix(PieceText(t[0]), Render(rest), p, id);
      }
    }
  }

  /** The number pass on a separated template whose only placeholders are numbers. */
  lemma {:induction false} NumberPass(t: seq<Piece>, id: string, number: string)
    requires forall i :: 0 <= i < |t| ==> !t[i].RepresentationIdSlot?
    requires Separated(t, NumberPattern, NumberSlot)
    ensures ReplaceAll(Render(t), NumberPattern, number) == Expand(t, id, number)
  {
    if t != [] {
      var rest := t[1..];
      SeparatedTail(t, NumberPattern, NumberSlot);
      NumberPass(rest, id, number);
      match t[0]
      case Literal(text) =>
        ReplaceCleanPrefix(text, Render(rest), NumberPattern, number);
      case NumberSlot =>
        ReplaceAtHead(Render(rest), NumberPattern, number);
    }
  }

  /** Substituting the id first leaves the same intended URL. */
  lemma {:induction false} ExpandAfterSubstitute(t: seq<Piece>, id: string, number: string)
    ensures Expand(SubstituteId(t, id), id, number) == Expand(t, id, number)
  {
    if t != [] {
      assert SubstituteId(t, id)[1..] == SubstituteId(t[1..], id);
      ExpandAfterSubstitute(t[1..], id, number);
    }
  }

  /** When the only matches of each pass are its own placeholders (the id
      pass on the template, the number pass on the template with the id
      spliced in), `getSegmentUrl` yields exactly the intended URL. */
  lemma GetSegmentUrlExpandsTemplate(t: seq<Piece>, id: string, segmentNumber: int)
    requires id != []
    requires Separated(t, RepresentationIdPattern, RepresentationIdSlot)
    requires Separated(SubstituteId(t, id), NumberPattern, NumberSlot)
    ensures GetSegmentUrl(Render(t), id, segmentNumber) == Ok(Expand(t, id, IntToString(segmentNumber)))
  {
    var number := IntToString(segmentNumber);
    IdPass(t, id);
    var t' := SubstituteId(t, id);
    NumberPass(t', id, number);
    ExpandAfterSubstitute(t, id, number);
  }

  // ------------------------------------------- templates without other '$'

  /** Canonical templates whose literal text has no '$': literals are
      non-empty, never adjacent, and never the bare word between the two '$'
      of an id placeholder. */
  ghost predicate WellFormedTemplate(t: seq<Piece>)
  {
    && (forall i :: 0 <= i < |t| && t[i].Literal? ==>
          t[i].text != [] && PlainText(t[i].text) && t[i].text != "RepresentationID")
    && (forall i :: 0 <= i < |t| - 1 ==> !(t[i].Literal? && t[i + 1].Literal?))
  }

  /** A mismatch at position k rules out a match at the head. */
  lemma MismatchAt(u: string, p: string, k: nat)
    requires k < |p| && k < |u| && u[k] != p[k]
    ensures !StartsWith(u, p)
  {
    if |p| <= |u| {
      assert u[..|p|][k] == u[k];
    }
  }

  /** The shape of the id placeholder: '$', sixteen letters, '$'. */
  lemma IdPatternShape()
    ensures |RepresentationIdPattern| == 18
    ensures RepresentationIdPattern[0] == '$' && RepresentationIdPattern[17] == '$'
    ensures RepresentationIdPattern[1..17] == "RepresentationID"
    ensures forall i :: 1 <= i < 17 ==> RepresentationIdPattern[i] != '$'
    ensures RepresentationIdPattern[1] == 'R'
  {
  }

  /** A '$', a literal and then nothing or another placeholder never spell the
      id placeholder, unless the literal is the bare word inside it. */
  lemma LiteralThenSlotNoIdMatch(text: string, v: string)
    requires PlainText(text) && text != "RepresentationID"
    requires v == [] || v[0] == '$'
    ensures !StartsWith("$" + text + v, RepresentationIdPattern)
  {
    var p := RepresentationIdPattern;
    var u := "$" + text + v;
    IdPatternShape();
    if |u| >= 18 {
      var k: int;
      if |text| >= 17 {
        k := 17;
        assert u[k] == text[16];
      } else if |text| == 16 {
        assert text != p[1..17];
        var j :| 0 <= j < 16 && text[j] != p[1..17][j];
        k := j + 1;
        assert u[k] == text[j];
      } else {
        k := 1 + |text|;
        assert u[k] == v[0];
      }
      assert u[..18][k] != p[k];
    }
  }

  /** A well-formed template does not start with a literal after a literal. */
  lemma TailAfterLiteral(t: seq<Piece>)
    requires WellFormedTemplate(t) && t != [] && t[0].Literal?
    ensures Render(t[1..]) == [] || Render(t[1..])[0] == '$'
  {
    if t[1..] != [] {
      assert !t[1].Literal?;
      RenderCons(t[1..]);
    }
  }

  /** After a well-formed template's pieces, a '$' never starts an id match. */
  lemma DollarThenTemplateNoIdMatch(t: seq<Piece>)
    requires WellFormedTemplate(t)
    ensures !StartsWith("$" + Render(t), RepresentationIdPattern)
  {
    IdPatternShape();
    if t != [] {
      RenderCons(t);
      if t[0].Literal? {
        TailAfterLiteral(t);
        LiteralThenSlotNoIdMatch(t[0].text, Render(t[1..]));
        assert "$" + Render(t) == "$" + t[0].text + Render(t[1..]);
      } else {
        assert ("$" + Render(t))[1] == '$';
        MismatchAt("$" + Render(t), RepresentationIdPattern, 1);
      }
    }
  }

  /** No id match starts inside a number placeholder followed by a
      well-formed template, not even at its closing '$'. */
  lemma NumberSlotHasNoIdMatch(rest: seq<Piece>)
    requires WellFormedTemplate(rest)
    ensures NoMatchWithin(NumberPattern, Render(rest), RepresentationIdPattern)
  {
    var p := RepresentationIdPattern;
    var v := Render(rest);
    var u := NumberPattern + v;
    assert p[0] == '$' && p[1] == 'R';
    forall i | 0 <= i < |NumberPattern|
      ensures !StartsWith(u[i..], p)
    {
      if i == 0 {
        assert u[1] == 'N';
        MismatchAt(u, p, 1);
      } else if i < 7 {
        assert u[i..][0] == NumberPattern[i] != '$';
        MismatchAt(u[i..], p, 0);
      } else {
        NumberPatternLast(v);
        DollarThenTemplateNoIdMatch(rest);
      }
    }
  }

  lemma NumberPatternLast(v: string)
    ensures (NumberPattern + v)[7..] == "$" + v
  {
  }

  /** Every suffix of a well-formed template is well formed. */
  lemma WellFormedSuffix(t: seq<Piece>, k: nat)
    requires WellFormedTemplate(t) && k <= |t|
    ensures WellFormedTemplate(t[k..])
  {
    assert forall i :: 0 <= i < |t| - k ==> t[k..][i] == t[k + i];
  }

  /** A well-formed template with an id free of '$' is separated for both passes. */
  lemma WellFormedIsSeparated(t: seq<Piece>, id: string)
    requires WellFormedTemplate(t) && PlainText(id)
    ensures Separated(t, RepresentationIdPattern, RepresentationIdSlot)
    ensures Separated(SubstituteId(t, id), NumberPattern, NumberSlot)
  {
    forall k | 0 <= k < |t| && t[k] != RepresentationIdSlot
      ensures NoMatchWithin(PieceText(t[k]), Render(t[k + 1..]), RepresentationIdPattern)
    {
      if t[k].Literal? {
        PlainNoMatch(t[k].text, Render(t[k + 1..]), RepresentationIdPattern);
      } else {
        WellFormedSuffix(t, k + 1);
        NumberSlotHasNoIdMatch(t[k + 1..]);
      }
    }
    var t' := SubstituteId(t, id);
    forall k | 0 <= k < |t'| && t'[k] != NumberSlot
      ensures NoMatchWithin(PieceText(t'[k]), Render(t'[k + 1..]), NumberPattern)
    {
      PlainNoMatch(t'[k].text, Render(t'[k + 1..]), NumberPattern);
    }
  }

  /** For a well-formed template and an id without '$', `getSegmentUrl`
      yields exactly the intended URL. */
  lemma WellFormedTemplateExpands(t: seq<Piece>, id: string, segmentNumber: int)
    requires WellFormedTemplate(t)
    requires id != [] && PlainText(id)
    ensures GetSegmentUrl(Render(t), id, segmentNumber) == Ok(Expand(t, id, IntToString(segmentNumber)))
  {
    WellFormedIsSeparated(t, id);
    GetSegmentUrlExpandsTemplate(t, id, segmentNumber);
  }

  /** No `$Number$` starts inside `/$Time$/` followed by a number placeholder. */
  lemma TimeLiteralHasNoNumberMatch()
    ensures NoMatchWithin("/$Time$/", NumberPattern, NumberPattern)
  {
    var lit := "/$Time$/";
    forall i | 0 <= i < |lit|
      ensures !StartsWith((lit + NumberPattern)[i..], NumberPattern)
    {
      var u := (lit + NumberPattern)[i..];
      if i == 1 || i == 6 {
        assert u[..8][1] != NumberPattern[1];
      } else {
        assert u[0] == lit[i];
      }
    }
  }

  /** The `$Time$` template as pieces. */
  function TimePieces(): seq<Piece>
  {
    [RepresentationIdSlot, Literal("/$Time$/"), NumberSlot]
  }

  /** Its text. */
  lemma TimeTemplateRender()
    ensures Render(TimePieces()) == "$RepresentationID$/$Time$/$Number$"
  {
    var t := TimePieces();
    var lit := "/$Time$/";
    assert t[1..] == [Literal(lit), NumberSlot] && t[2..] == [NumberSlot] && t[3..] == [];
    assert Render(t[2..]) == NumberPattern;
    assert Render(t[1..]) == lit + NumberPattern;
    TimeTemplateWords();
  }

  /** Its intended URL. */
  lemma TimeTemplateExpand()
    ensures Expand(TimePieces(), "video", "3") == "video/$Time$/3"
  {
    var t := TimePieces();
    var lit := "/$Time$/";
    assert t[1..] == [Literal(lit), NumberSlot] && t[2..] == [NumberSlot] && t[3..] == [];
    assert Expand(t[2..], "video", "3") == "3";
    assert Expand(t[1..], "video", "3") == lit + "3";
    TimeTemplateWords();
  }

  /** The two literal concatenations behind the `$Time$` example. */
  lemma TimeTemplateWords()
    ensures RepresentationIdPattern + ("/$Time$/" + NumberPattern) == "$RepresentationID$/$Time$/$Number$"
    ensures "video" + ("/$Time$/" + "3") == "video/$Time$/3"
  {
  }

  /** Its separation for both passes. */
  lemma TimeTemplateSeparated()
    ensures Separated(TimePieces(), RepresentationIdPattern, RepresentationIdSlot)
    ensures Separated(SubstituteId(TimePieces(), "video"), NumberPattern, NumberSlot)
  {
    var t := TimePieces();
    var lit := "/$Time$/";
    assert t[1..] == [Literal(lit), NumberSlot] && t[2..] == [NumberSlot] && t[3..] == [];
    assert Render(t[2..]) == NumberPattern;
    var t' := SubstituteId(t, "video");
    assert t' == [Literal("video"), Literal(lit), NumberSlot];
    assert t'[1..] == t[1..] && t'[2..] == t[2..] && t'[3..] == [];
    PlainNoMatch("video", Render(t'[1..]), NumberPattern);
    TimeLiteralHasNoNumberMatch();
  }

  /** A `$Time$` identifier, which the code does not handle, passes through
      as text while the id and the number are substituted. */
  lemma TimeIdentifierPassesThrough()
    ensures GetSegmentUrl("$RepresentationID$/$Time$/$Number$", "video", 3) == Ok("video/$Time$/3")
  {
    var t := TimePieces();
    TimeTemplateRender();
    TimeTemplateExpand();
    TimeTemplateSeparated();
    assert IntToString(3) == "3";
    GetSegmentUrlExpandsTemplate(t, "video", 3);
  }

  /** Neither placeholder starts inside `/$$$Number%05d$.m4s`. */
  lemma FormatTagLiteralHasNoMatch()
    ensures NoMatchWithin("/$$$Number%05d$.m4s", [], RepresentationIdPattern)
    ensures NoMatchWithin("/$$$Number%05d$.m4s", [], NumberPattern)
  {
    var lit := "/$$$Number%05d$.m4s";
    forall i | 0 <= i < |lit|
      ensures !StartsWith((lit + [])[i..], RepresentationIdPattern)
    {
      var u := (lit + [])[i..];
      if |u| >= 18 {
        assert u[..18][1] != RepresentationIdPattern[1];
      }
    }
    forall i | 0 <= i < |lit|
      ensures !StartsWith((lit + [])[i..], NumberPattern)
    {
      var u := (lit + [])[i..];
      if i == 1 || i == 2 {
        assert u[..8][1] != NumberPattern[1];
      } else if i == 3 {
        assert u[..8][7] != NumberPattern[7];
      } else if i != 14 {
        assert u[0] == lit[i];
      }
    }
  }

  /** The format-tag template as pieces: its text, its intended URL and its separation. */
  lemma FormatTagTemplate() returns (t: seq<Piece>)
    ensures Render(t) == "$RepresentationID$/$$$Number%05d$.m4s"
    ensures Expand(t, "video", "3") == "video/$$$Number%05d$.m4s"
    ensures Separated(t, RepresentationIdPattern, RepresentationIdSlot)
    ensures Separated(SubstituteId(t, "video"), NumberPattern, NumberSlot)
  {
    var lit := "/$$$Number%05d$.m4s";
    t := [RepresentationIdSlot, Literal(lit)];
    assert t[1..] == [Literal(lit)] && t[2..] == [];
    assert Render(t[2..]) == [];
    assert Render(t[1..]) == lit by { assert lit + [] == lit; }
    FormatTagLiteralHasNoMatch();
    assert Separated(t, RepresentationIdPattern, RepresentationIdSlot);
    var t' := SubstituteId(t, "video");
    assert t' == [Literal("video"), Literal(lit)];
    assert t'[1..] == t[1..] && t'[2..] == [];
    PlainNoMatch("video", Render(t'[1..]), NumberPattern);
    assert Separated(t', NumberPattern, NumberSlot);
    assert Expand(t[1..], "video", "3") == lit by { assert lit + [] == lit; }
    assert Render(t) == RepresentationIdPattern + lit;
    assert Expand(t, "video", "3") == "video" + lit;
    FormatTagText();
  }

  lemma FormatTagText()
    ensures RepresentationIdPattern + "/$$$Number%05d$.m4s" == "$RepresentationID$/$$$Number%05d$.m4s"
    ensures "video" + "/$$$Number%05d$.m4s" == "video/$$$Number%05d$.m4s"
  {
  }

  /** A `$Number$` with a format tag and the `$$` escape, which the code does
      not handle, pass through as text. */
  lemma FormatTagPassesThrough()
    ensures GetSegmentUrl("$RepresentationID$/$$$Number%05d$.m4s", "video", 3) == Ok("video/$$$Number%05d$.m4s")
  {
    var t := FormatTagTemplate();
    assert IntToString(3) == "3";
    GetSegmentUrlExpandsTemplate(t, "video", 3);
  }

  /** The number pass runs over the inserted id too: an id that itself
      contains `$Number$` gets the number spliced in. */
  lemma NumberInsideIdIsSubstituted()
    ensures GetSegmentUrl("$RepresentationID$", "v$Number$", 7) == Ok("v7")
  {
    var id := "v$Number$";
    ReplaceAtHead([], RepresentationIdPattern, id);
    assert RepresentationIdPattern + [] == "$RepresentationID$";
    assert ReplaceAll("$RepresentationID$", RepresentationIdPattern, id) == id;
    assert IntToString(7) == "7";
    ReplacePlainPrefix("v", NumberPattern, NumberPattern, "7");
    ReplaceAtHead([], NumberPattern, "7");
    assert NumberPattern + [] == NumberPattern;
    assert "v" + NumberPattern == id;
    assert ReplaceAll(id, NumberPattern, "7") == "v7";
  }

  /** The attributes of the manifest's SegmentTemplate element, as text. */
  datatype SegmentTemplate = SegmentTemplate(
    duration: string, timescale: string, media: string, initialization: string, startNumber: string)

  /** A fetcher for one representation: template, id and base URL are fixed
      at construction. */
  datatype DashSegmentFetcher = DashSegmentFetcher(
    segmentTemplate: SegmentTemplate, currentRepresentationId: string, baseURL: string)
  {
    /** The URL `loadInitSegment` requests: the initialization template with the default number 0. */
    function InitSegmentRequestUrl(): (r: Result<string>)
      ensures r.Err? <==> currentRepresentationId == []
      ensures r.Ok? ==> r.value == baseURL + "/" + GetSegmentUrl(segmentTemplate.initialization, currentRepresentationId, 0).value
    {
      match GetSegmentUrl(segmentTemplate.initialization, currentRepresentationId, 0)
      case Ok(url) => Ok(baseURL + "/" + url)
      case Err(message) => Err(message)
    }

    /** The URL `loadSegment(segmentNumber)` requests. */
    function SegmentRequestUrl(segmentNumber: int): (r: Result<string>)
      ensures r.Err? <==> currentRepresentationId == []
      ensures r.Ok? ==> r.value == baseURL + "/" + GetSegmentUrl(segmentTemplate.media, currentRepresentationId, segmentNumber).value
    {
      match GetSegmentUrl(segmentTemplate.media, currentRepresentationId, segmentNumber)
      case Ok(url) => Ok(baseURL + "/" + url)
      case Err(message) => Err(message)
    }
  }
}
