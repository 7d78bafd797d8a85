/**
 The parser that finds an agent's completion report in a terminal transcript
 (app/services/completion_report_parser.py), and the printer it inverts.
 */
module CompletionReport {
  import opened Wrappers
  import opened Transcript
  import opened Markers
  import opened FieldBody
  import opened ReportText

  const FIELDS: seq<Field> :=
    [WorkStatus, WhatChanged, AutomatedTests, HowToVerify, ExpectedResult, TestData, RuntimeRequirements, Risks]

  function Name(f: Field): string {
    match f
    case WorkStatus => "WORK_STATUS"
    case WhatChanged => "WHAT_CHANGED"
    case AutomatedTests => "AUTOMATED_TESTS"
    case HowToVerify => "HOW_TO_VERIFY"
    case ExpectedResult => "EXPECTED_RESULT"
    case TestData => "TEST_DATA"
    case RuntimeRequirements => "RUNTIME_REQUIREMENTS"
    case Risks => "RISKS"
  }

  predicate IsBlank(s: string) { forall c :: c in s ==> c == ' ' || c == '\t' }

  // The line is the name, an optional colon, then only blanks.
  predicate Titled(line: string, name: string) {
    && name <= line
    && var rest := line[|name|..];
    IsBlank(rest) || (rest != "" && rest[0] == ':' && IsBlank(rest[1..]))
  }

  predicate Marks(line: string, f: Field) { Titled(line, Name(f)) }

  function FirstMarked(line: string, fs: seq<Field>): Option<Field> {
    if fs == [] then None else if Marks(line, fs[0]) then Some(fs[0]) else FirstMarked(line, fs[1..])
  }

  function MarkedField(line: string): Option<Field> { FirstMarked(line, FIELDS) }

  // ---------------------------------------------------------------- parsing

  // str.upper, as far as it can give one of the two status words: no other character outside ASCII has an
  // upper case made of their letters. The ligature U+FB01 becomes two letters, the dotless U+0131 an I.
  function UpperOf(c: char): (u: string)
    ensures |u| >= 1
  {
    if 'a' <= c <= 'z' then [(c as int - 32) as char]
    else if c == '\U{FB01}' then "FI"
    else if c == '\U{0131}' then "I"
    else [c]
  }

  function ToUpper(s: string): string {
    if s == "" then "" else UpperOf(s[0]) + ToUpper(s[1..])
  }

  function StatusOf(r: Report): string
    requires WorkStatus in r
  {
    ToUpper(Trim(r[WorkStatus], IsSpace))
  }

  // The checks on the bodies that were found.
  function Judge(r: Report): Option<Report>
    requires WorkStatus in r && WhatChanged in r
  {
    if IsStatus(StatusOf(r)) && r[WhatChanged] != "" then Some(r[WorkStatus := StatusOf(r)])
    else None
  }

  function Bodies(s: string): Report { LastBodies(MarkedField, CleanFieldBody, s) }

  // parse_completion_report
  function Parse(transcript: string): Option<Report> {
    var s := CleanTranscript(transcript);
    if RequiredFieldsClose(MarkedField, s) then Judge(Bodies(s)) else None
  }

  // The loop over FIELDS that cleans the body of every field found.
  method CleanBodies(mark: Mark, fs: seq<Field>, last: map<Field, string>) returns (result: Report)
    requires forall f: Field :: f in fs
    ensures forall f: Field :: f in result <==> f in last
    ensures forall f: Field :: f in result ==> result[f] == CleanFieldBody(BodyIn(mark, last[f]))
  {
    result := map[];
    for i := 0 to |fs|
      invariant forall f: Field :: f in result <==> f in last && f in fs[..i]
      invariant forall f: Field :: f in result ==> result[f] == CleanFieldBody(BodyIn(mark, last[f]))
    {
      var f := fs[i];
      if f in last {
        var body := CleanBody(BodyIn(mark, last[f]));
        result := result[f := body];
      }
    }
    assert fs[..|fs|] == fs;
  }

  method ParseReport(transcript: string) returns (report: Option<Report>)
    ensures report == Parse(transcript)
  {
    if transcript == "" {
      return None;
    }
    var clean := CleanTranscript(transcript);
    var last := GroupMatches(MarkedField, clean);
    if WorkStatus !in last || WhatChanged !in last {
      return None;
    }
    if Spread(last[WorkStatus], last[WhatChanged]) > MAX_SPREAD {
      return None;
    }
    AllListed();
    var result := CleanBodies(MarkedField, FIELDS, last);
    GroupedBodies(MarkedField, CleanFieldBody, clean, last, result);
    report := Judge(result);
  }

  lemma {:induction false} FieldListed(f: Field)
    ensures f in FIELDS
  {
    var k := match f
      case WorkStatus => 0 case WhatChanged => 1 case AutomatedTests => 2 case HowToVerify => 3
      case ExpectedResult => 4 case TestData => 5 case RuntimeRequirements => 6 case Risks => 7;
    assert FIELDS[k] == f;
  }

  // ---------------------------------------------------------------- marker lines of the eight fields

  lemma {:induction false} UnmarkedBy(line: string, fs: seq<Field>)
    requires forall f: Field :: f in fs ==> !Marks(line, f)
    ensures FirstMarked(line, fs) == None
  {
    if fs != [] { UnmarkedBy(line, fs[1..]); }
  }

  lemma {:induction false} MarkedBy(line: string, f: Field, fs: seq<Field>)
    requires f in fs && Marks(line, f)
    requires forall g: Field :: g != f ==> !Marks(line, g)
    ensures FirstMarked(line, fs) == Some(f)
  {
    if fs[0] != f { MarkedBy(line, f, fs[1..]); }
  }

  lemma {:induction false} EmptyLine()
    ensures MarkedField("") == None
  {
    forall f: Field ensures !Marks("", f) { assert |Name(f)| > 0; }
    UnmarkedBy("", FIELDS);
  }

  lemma {:induction false} NamesDiffer(f: Field, g: Field)
    requires f != g
    ensures |Name(f)| >= 2 && |Name(g)| >= 2 && (Name(f)[0] != Name(g)[0] || Name(f)[1] != Name(g)[1])
  {
  }

  lemma {:induction false} OnlyMark(f: Field, g: Field)
    requires g != f
    ensures !Marks(Name(f) + ":", g)
  {
    NamesDiffer(f, g);
    assert (Name(f) + ":")[0] == Name(f)[0] && (Name(f) + ":")[1] == Name(f)[1];
  }

  // A line with a field's name and a colon marks that field and no other.
  lemma {:induction false} MarkerLine(f: Field)
    ensures MarkedField(Name(f) + ":") == Some(f)
  {
    var line := Name(f) + ":";
    assert line[|Name(f)|..] == ":";
    assert Marks(line, f);
    forall g: Field | g != f ensures !Marks(line, g) { OnlyMark(f, g); }
    FieldListed(f);
    MarkedBy(line, f, FIELDS);
  }

  // The line is the name, with or without a colon, and blanks after it.
  ghost predicate IsMarker(line: string, name: string) { exists blanks :: MarkerWith(line, name, blanks) }

  ghost predicate MarkerWith(line: string, name: string, blanks: string) {
    (forall c :: c in blanks ==> c == ' ' || c == '\t') && (line == name + blanks || line == name + (":" + blanks))
  }

  lemma {:induction false} TitledExactly(line: string, name: string)
    ensures Titled(line, name) <==> IsMarker(line, name)
  {
    if Titled(line, name) {
      var rest := line[|name|..];
      assert line == name + rest;
      if IsBlank(rest) {
        assert MarkerWith(line, name, rest);
      } else {
        assert rest == ":" + rest[1..];
        assert MarkerWith(line, name, rest[1..]);
      }
    }
    if blanks :| MarkerWith(line, name, blanks) {
      if line == name + blanks {
        assert line[|name|..] == blanks;
      } else {
        assert line[|name|..] == ":" + blanks && (":" + blanks)[1..] == blanks;
      }
    }
  }

  lemma {:induction false} MarksOnce(line: string, f: Field, g: Field)
    requires f != g
    ensures !(Marks(line, f) && Marks(line, g))
  {
    NamesDiffer(f, g);
  }

  // MAIN: a line marks a field if and only if it consists of its name, an optional colon and blanks.
  lemma {:induction false} MarkedExactly(line: string, f: Field)
    ensures MarkedField(line) == Some(f) <==> IsMarker(line, Name(f))
  {
    AllListed();
    TitledExactly(line, Name(f));
    if Marks(line, f) {
      forall g: Field | g != f ensures !Marks(line, g) { MarksOnce(line, f, g); }
      MarkedBy(line, f, FIELDS);
    } else if MarkedField(line) == Some(f) {
      MarkedMarks(line, f, FIELDS);
    }
  }

  lemma {:induction false} MarkedMarks(line: string, f: Field, fs: seq<Field>)
    requires FirstMarked(line, fs) == Some(f)
    ensures Marks(line, f)
  {
    if !Marks(line, fs[0]) { MarkedMarks(line, f, fs[1..]); }
  }

  // The marker lines of the documented format.
  lemma {:induction false} DocumentedMarkers()
    ensures MarkedField("WORK_STATUS:") == Some(WorkStatus) && MarkedField("WHAT_CHANGED:") == Some(WhatChanged)
    ensures MarkedField("AUTOMATED_TESTS:") == Some(AutomatedTests)
    ensures MarkedField("HOW_TO_VERIFY:") == Some(HowToVerify)
    ensures MarkedField("EXPECTED_RESULT:") == Some(ExpectedResult) && MarkedField("TEST_DATA:") == Some(TestData)
    ensures MarkedField("RUNTIME_REQUIREMENTS:") == Some(RuntimeRequirements) && MarkedField("RISKS:") == Some(Risks)
  {
    forall f: Field ensures MarkedField(Name(f) + ":") == Some(f) { MarkerLine(f); }
    assert Name(WorkStatus) + ":" == "WORK_STATUS:" && Name(WhatChanged) + ":" == "WHAT_CHANGED:";
    assert Name(AutomatedTests) + ":" == "AUTOMATED_TESTS:" && Name(HowToVerify) + ":" == "HOW_TO_VERIFY:";
    assert Name(ExpectedResult) + ":" == "EXPECTED_RESULT:" && Name(TestData) + ":" == "TEST_DATA:";
    assert Name(RuntimeRequirements) + ":" == "RUNTIME_REQUIREMENTS:" && Name(Risks) + ":" == "RISKS:";
  }

  lemma {:induction false} AllListed()
    ensures forall f: Field :: f in FIELDS
  {
    forall f: Field ensures f in FIELDS { FieldListed(f); }
  }

  // ---------------------------------------------------------------- printing

  function Title(f: Field): string { Name(f) + ":" }

  function Print(r: Report): string { PrintFields(Title, r, FIELDS) }

  predicate IsStatus(s: string) { s in {"READY", "FIX_REQUIRED"} }

  // Any report that can be printed: its bodies are plain text without marker lines, and the two required
  // fields are there.
  ghost predicate Printable(r: Report) {
    && (forall f: Field :: f in r ==> PlainText(r[f]) && Unmarked(MarkedField, r[f]))
    && WorkStatus in r && WhatChanged in r
  }

  // Besides, no body has a heading, outer blank space or trailing blanks, and something was changed: what the
  // format can carry.
  ghost predicate Carriable(r: Report) {
    Printable(r) && (forall f: Field :: f in r ==> PlainBody(r[f])) && r[WhatChanged] != ""
  }

  // With a status written as the format asks.
  ghost predicate WellFormedReport(r: Report) { Carriable(r) && IsStatus(r[WorkStatus]) }

  // The bodies of a report that can be carried are not changed by cleaning.
  lemma {:induction false} CarriedUnchanged(r: Report)
    requires Carriable(r)
    ensures Cleaned(CleanFieldBody, r) == r
  {
    forall f: Field | f in r ensures CleanFieldBody(Framed(r[f])) == r[f] { CleanPlainBody(r[f]); }
  }

  lemma {:induction false} TitlesRead()
    ensures Reads(MarkedField, Title)
  {
    EmptyLine();
    forall f: Field ensures MarkedField(Title(f)) == Some(f) && '\n' !in Title(f) {
      MarkerLine(f);
      NameCharacters(f);
    }
  }

  lemma {:induction false} TitlesPlain()
    ensures forall f: Field :: PlainText(Title(f))
  {
    forall f: Field ensures PlainText(Title(f)) { NameCharacters(f); }
  }

  lemma {:induction false} FieldsComplete(r: Report)
    requires Printable(r)
    ensures Complete(r, FIELDS)
  {
    AllListed();
    FieldsDistinct();
  }

  lemma {:induction false} FieldsDistinct()
    ensures Distinct(FIELDS)
  {
  }

  lemma {:induction false} NameCharacters(f: Field)
    ensures forall c :: c in Name(f) ==> 'A' <= c <= '_'
  {
  }

  lemma {:induction false} UpperFixed(w: string)
    requires forall i :: 0 <= i < |w| ==> 'A' <= w[i] <= '_'
    ensures ToUpper(w) == w
  {
    if w != "" { UpperFixed(w[1..]); }
  }

  lemma {:induction false} StatusIsUpper(w: string)
    requires IsStatus(w)
    ensures ToUpper(w) == w
  {
    UpperFixed(w);
  }

  // Upper case letter by letter.
  lemma {:induction false} UpperLetters(w: string, u: string)
    requires |w| == |u| && forall i :: 0 <= i < |w| ==> UpperOf(w[i]) == [u[i]]
    ensures ToUpper(w) == u
  {
    if w != "" {
      UpperLetters(w[1..], u[1..]);
      assert u == [u[0]] + u[1..];
    }
  }

  lemma {:induction false} ReadyInUpperCase()
    ensures ToUpper("ready") == "READY"
  {
    UpperLetters("ready", "READY");
  }

  lemma {:induction false} RequiredInUpperCase()
    ensures ToUpper("x_required") == "X_REQUIRED"
  {
    UpperLetters("x_required", "X_REQUIRED");
  }

  // The letters of the alphabet, one by one.
  lemma {:induction false} LettersInUpperCase(i: nat)
    requires i < 26
    ensures UpperOf("abcdefghijklmnopqrstuvwxyz"[i]) == ["ABCDEFGHIJKLMNOPQRSTUVWXYZ"[i]]
  {
  }

  lemma {:induction false} DotlessInUpperCase()
    ensures ToUpper("f" + (['\U{0131}'] + "x_required")) == "FIX_REQUIRED"
  {
    RequiredInUpperCase();
    UpperFirst('\U{0131}', "x_required");
    UpperFirst('f', ['\U{0131}'] + "x_required");
    assert ["f"[0]] == "f";
    RequiredSpelled("I");
  }

  lemma {:induction false} RequiredSpelled(i: string)
    requires i == "I"
    ensures "F" + (i + "X_REQUIRED") == "FIX_REQUIRED"
  {
  }

  lemma {:induction false} UpperFirst(c: char, w: string)
    ensures ToUpper([c] + w) == UpperOf(c) + ToUpper(w)
  {
    assert ([c] + w)[1..] == w;
  }

  lemma {:induction false} LigatureInUpperCase()
    ensures ToUpper(['\U{FB01}'] + "x_required") == "FIX_REQUIRED"
  {
    RequiredInUpperCase();
    UpperFirst('\U{FB01}', "x_required");
    assert "FI" + "X_REQUIRED" == "FIX_REQUIRED";
  }

  lemma {:induction false} SameEntry(r: Report, f: Field)
    requires f in r
    ensures r[f := r[f]] == r
  {
  }

  lemma {:induction false} TrimmedOnce(s: string)
    ensures Trim(Trim(s, IsSpace), IsSpace) == Trim(s, IsSpace)
  {
    var l := TrimLeft(s, IsSpace);
    LeftTrimmed(s);
    RightTrimmed(l);
  }

  lemma {:induction false} LeftTrimmed(s: string)
    ensures var l := TrimLeft(s, IsSpace); l != "" ==> !IsSpace(l[0])
  {
    if s != "" && IsSpace(s[0]) { LeftTrimmed(s[1..]); }
  }

  lemma {:induction false} RightTrimmed(s: string)
    ensures var r := TrimRight(s, IsSpace); r <= s && (r != "" ==> !IsSpace(r[|r| - 1]))
  {
    if s != "" && IsSpace(s[|s| - 1]) { RightTrimmed(s[..|s| - 1]); }
  }

  // ---------------------------------------------------------------- main results

  // Printed text is plain and ends a line.
  lemma {:induction false} PrintedText(r: Report)
    requires Printable(r)
    ensures Reads(MarkedField, Title) && Complete(r, FIELDS) && AllUnmarked(MarkedField, r)
    ensures PlainText(Print(r)) && EndsLine(Print(r)) && BEL !in Print(r)
  {
    TitlesRead();
    TitlesPlain();
    FieldsComplete(r);
    PrintedPlain(Title, r, FIELDS);
    PrintedFields(MarkedField, Title, r, FIELDS, WorkStatus);
  }

  // What a transcript holds after a report was printed at its end.
  lemma {:induction false} PrintedHeld(t: string, r: Report)
    requires EndsLine(t) && Printable(r)
    ensures CleanTranscript(t + Print(r)) == CleanTranscript(t) + Print(r) && EndsLine(CleanTranscript(t))
    ensures EndsLine(t + Print(r))
    ensures Bodies(CleanTranscript(t + Print(r))) == Bodies(CleanTranscript(t)) + Cleaned(CleanFieldBody, r)
  {
    PrintedText(r);
    CleanTranscriptConcat(t, Print(r));
    PlainCleans(Print(r));
    PrintedOverrides(MarkedField, CleanFieldBody, Title, CleanTranscript(t), r, FIELDS);
  }

  // Cleaning has trimmed every body already.
  lemma {:induction false} StatusTrimmed(r: Report, body: string)
    requires WorkStatus in r && r[WorkStatus] == CleanFieldBody(body)
    ensures StatusOf(r) == ToUpper(r[WorkStatus])
  {
    TrimmedOnce(JoinLines(RStripAll(BeforeHeading(SplitLines(Trim(body, IsNewline))))));
  }

  lemma {:induction false} PrintedParse(t: string, r: Report)
    requires EndsLine(t) && Printable(r)
    ensures var all := Bodies(CleanTranscript(t)) + Cleaned(CleanFieldBody, r);
      Parse(t + Print(r)) == if |r[WorkStatus]| + 15 <= MAX_SPREAD then Judge(all) else None
  {
    PrintedText(r);
    PrintedHeld(t, r);
    PrintedDistance(MarkedField, Title, CleanTranscript(t), r, FIELDS);
    assert |Title(WhatChanged)| == 13;
  }

  lemma {:induction false} JudgeOver(base: Report, r: Report, body: string)
    requires WorkStatus in r && WhatChanged in r && r[WorkStatus] == CleanFieldBody(body)
    ensures var status := ToUpper(r[WorkStatus]);
      Judge(base + r) == if (status == "READY" || status == "FIX_REQUIRED") && r[WhatChanged] != ""
        then Some((base + r)[WorkStatus := status]) else None
  {
    StatusTrimmed(base + r, body);
  }

  // MAIN: after any transcript that ends a line, a printed report is accepted if and only if its status,
  // cleaned and in upper case, is READY or FIX_REQUIRED, something is left of what was changed, and the two
  // bodies start at most 8000 characters apart; what is read back are the cleaned bodies, the status in upper
  // case, laid over the fields the transcript already held.
  lemma {:induction false} ReportExactly(t: string, r: Report)
    requires EndsLine(t) && Printable(r)
    ensures var clean := Cleaned(CleanFieldBody, r);
      var status := ToUpper(clean[WorkStatus]);
      Parse(t + Print(r)) ==
      if (status == "READY" || status == "FIX_REQUIRED") && clean[WhatChanged] != "" && |r[WorkStatus]| + 15 <= 8000
      then Some((Bodies(CleanTranscript(t)) + clean)[WorkStatus := status]) else None
  {
    PrintedParse(t, r);
    JudgeOver(Bodies(CleanTranscript(t)), Cleaned(CleanFieldBody, r), Framed(r[WorkStatus]));
  }

  // MAIN: escape sequences anywhere in a text, and carriage returns before its line feeds, make no difference
  // to what is read, unless they close a sequence that the transcript left open.
  lemma {:induction false} ShownParsesAlike(t: string, d: string, p: string)
    requires EndsLine(t) && Separate(t, d) && PlainText(p) && Shows(d, p)
    ensures Parse(t + d) == Parse(t + p)
  {
    ShownAfter(t, d, p);
    CleanTranscriptConcat(t, p);
    PlainCleans(p);
  }

  lemma {:induction false} UpperLength(w: string)
    ensures |ToUpper(w)| >= |w|
  {
    if w != "" { UpperLength(w[1..]); }
  }

  // A report the format can carry is accepted if and only if the upper case of its status is one of the two
  // words.
  lemma {:induction false} StatusExactly(t: string, r: Report)
    requires EndsLine(t) && Carriable(r)
    ensures var status := ToUpper(r[WorkStatus]);
      Parse(t + Print(r)) ==
      if IsStatus(status) then Some((Bodies(CleanTranscript(t)) + r)[WorkStatus := status]) else None
  {
    ReportExactly(t, r);
    CarriedUnchanged(r);
    UpperLength(r[WorkStatus]);
  }

  // MAIN: after any transcript that ends a line, a printed report parses to itself laid over the
  // fields the transcript already held. A field the report omits is inherited from earlier text.
  lemma {:induction false} ParsePrinted(t: string, r: Report)
    requires EndsLine(t) && WellFormedReport(r)
    ensures Parse(t + Print(r)) == Some(Bodies(CleanTranscript(t)) + r)
  {
    StatusExactly(t, r);
    StatusIsUpper(r[WorkStatus]);
    SameEntry(Bodies(CleanTranscript(t)) + r, WorkStatus);
  }

  // The format's own words ask for exactly READY; a status written "ready" is accepted all the same.
  lemma {:induction false} LowerCaseAccepted(t: string, r: Report)
    requires EndsLine(t) && Carriable(r) && r[WorkStatus] == "ready"
    ensures Parse(t + Print(r)) == Some((Bodies(CleanTranscript(t)) + r)[WorkStatus := "READY"])
  {
    ReadyInUpperCase();
    StatusExactly(t, r);
  }

  // So is one with a dotless i.
  lemma {:induction false} DotlessAccepted(t: string, r: Report)
    requires EndsLine(t) && Carriable(r) && r[WorkStatus] == "f" + (['\U{0131}'] + "x_required")
    ensures Parse(t + Print(r)) == Some((Bodies(CleanTranscript(t)) + r)[WorkStatus := "FIX_REQUIRED"])
  {
    DotlessInUpperCase();
    StatusExactly(t, r);
  }

  // And so is one whose upper case is a status word only by way of a ligature.
  lemma {:induction false} LigatureAccepted(t: string, r: Report)
    requires EndsLine(t) && Carriable(r) && r[WorkStatus] == ['\U{FB01}'] + "x_required"
    ensures Parse(t + Print(r)) == Some((Bodies(CleanTranscript(t)) + r)[WorkStatus := "FIX_REQUIRED"])
  {
    LigatureInUpperCase();
    StatusExactly(t, r);
  }

  // MAIN: a report that fills in all eight fields is read back exactly, whatever came before it and however
  // a terminal decorates it.
  lemma {:induction false} RoundTrip(t: string, r: Report, d: string)
    requires EndsLine(t) && WellFormedReport(r) && forall f: Field :: f in r
    requires Shows(d, Print(r)) && Separate(t, d)
    ensures Parse(t + Print(r)) == Some(r)
    ensures Parse(t + d) == Some(r)
  {
    ParsePrinted(t, r);
    OverrideAll(Bodies(CleanTranscript(t)), r);
    PrintedText(r);
    ShownParsesAlike(t, d, Print(r));
  }

  // Two reports in a row: the second wins on its fields, the first fills its gaps.
  lemma {:induction false} SecondReportOverridesFirst(t: string, draft: Report, final: Report)
    requires EndsLine(t) && WellFormedReport(draft) && WellFormedReport(final)
    requires forall f: Field :: f in draft
    ensures Parse(t + Print(draft) + Print(final)) == Some(draft + final)
  {
    PrintedHeld(t, draft);
    CarriedUnchanged(draft);
    OverrideAll(Bodies(CleanTranscript(t)), draft);
    ParsePrinted(t + Print(draft), final);
  }
}
