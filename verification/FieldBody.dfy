/**
 Cleaning of one field's text (_clean_field_body), with the Python string operations it uses.
 */
module FieldBody {

  // str.isspace
  predicate IsSpace(c: char) {
    var n := c as int;
    || 0x09 <= n <= 0x0d || 0x1c <= n <= 0x20 || n == 0x85 || n == 0xa0 || n == 0x1680
    || 0x2000 <= n <= 0x200a || n == 0x2028 || n == 0x2029 || n == 0x202f || n == 0x205f || n == 0x3000
  }

  // The characters str.splitlines breaks at.
  predicate IsLineBreak(c: char) {
    var n := c as int;
    0x0a <= n <= 0x0d || 0x1c <= n <= 0x1e || n == 0x85 || n == 0x2028 || n == 0x2029
  }

  predicate IsNewline(c: char) { c == '\n' }

  function TrimLeft(s: string, p: char -> bool): string {
    if s != "" && p(s[0]) then TrimLeft(s[1..], p) else s
  }

  function TrimRight(s: string, p: char -> bool): string {
    if s != "" && p(s[|s| - 1]) then TrimRight(s[..|s| - 1], p) else s
  }

  function Trim(s: string, p: char -> bool): string { TrimRight(TrimLeft(s, p), p) }

  // The part of s before its first line break.
  function BeforeBreak(s: string): (r: string)
    ensures |r| <= |s|
  {
    if s == "" || IsLineBreak(s[0]) then "" else [s[0]] + BeforeBreak(s[1..])
  }

  // str.splitlines
  function SplitLines(s: string): seq<string>
    decreases |s|
  {
    if s == "" then []
    else
      var line := BeforeBreak(s);
      var e := |line|;
      if e == |s| then [s]
      else
        var next := if s[e] == '\r' && e + 1 < |s| && s[e + 1] == '\n' then e + 2 else e + 1;
        [line] + SplitLines(s[next..])
  }

  function JoinLines(ls: seq<string>): string {
    if ls == [] then "" else if |ls| == 1 then ls[0] else ls[0] + "\n" + JoinLines(ls[1..])
  }

  // line.lstrip().startswith("#")
  predicate IsHeading(line: string) {
    var l := TrimLeft(line, IsSpace);
    l != "" && l[0] == '#'
  }

  function BeforeHeading(ls: seq<string>): seq<string> {
    if ls == [] || IsHeading(ls[0]) then [] else [ls[0]] + BeforeHeading(ls[1..])
  }

  function RStripAll(ls: seq<string>): seq<string> {
    if ls == [] then [] else [TrimRight(ls[0], IsSpace)] + RStripAll(ls[1..])
  }

  function CleanFieldBody(text: string): string {
    Trim(JoinLines(RStripAll(BeforeHeading(SplitLines(Trim(text, IsNewline))))), IsSpace)
  }

  // The source's loop: cut at the first heading line.
  method CutAtHeading(all: seq<string>) returns (lines: seq<string>)
    ensures lines == BeforeHeading(all)
  {
    lines := all;
    var i := 0;
    while i < |lines|
      invariant 0 <= i <= |lines| && lines == all
      invariant BeforeHeading(all) == all[..i] + BeforeHeading(all[i..])
    {
      if IsHeading(lines[i]) {
        return lines[..i];
      }
      assert all[i..][1..] == all[i + 1..];
      assert all[..i + 1] == all[..i] + [all[i]];
      i := i + 1;
    }
  }

  method CleanBody(text: string) returns (body: string)
    ensures body == CleanFieldBody(text)
  {
    var lines := CutAtHeading(SplitLines(Trim(text, IsNewline)));
    body := Trim(JoinLines(RStripAll(lines)), IsSpace);
  }

  // ---------------------------------------------------------------- what cleaning does to a text

  // White space within a line, and the breaks between lines, of text without control characters.
  ghost predicate Blank(c: char) {
    || c == ' ' || c == '\t' || c == '\U{A0}' || c == '\U{1680}' || '\U{2000}' <= c <= '\U{200A}'
    || c == '\U{202F}' || c == '\U{205F}' || c == '\U{3000}'
  }

  ghost predicate Stop(c: char) { c == '\n' || c == '\U{85}' || c == '\U{2028}' || c == '\U{2029}' }

  ghost predicate Inline(c: char) { (' ' <= c || c == '\t') && !Stop(c) }

  // A line: text, blanks behind it, and the break after it, which the last line goes without.
  datatype Line = Line(text: string, blanks: string, stop: char)

  ghost function Whole(l: Line): string { l.text + l.blanks }

  // Lines one after the other, with breaks between them.
  ghost function Lay(ws: seq<string>, stops: seq<char>): string
    requires |stops| == |ws|
  {
    if ws == [] then "" else if |ws| == 1 then ws[0] else ws[0] + ([stops[0]] + Lay(ws[1..], stops[1..]))
  }

  ghost function Laid(ls: seq<Line>): string { Lay(Wholes(ls), Stops(ls)) }

  ghost function Wholes(ls: seq<Line>): seq<string> { seq(|ls|, i requires 0 <= i < |ls| => Whole(ls[i])) }

  ghost function Stops(ls: seq<Line>): seq<char> { seq(|ls|, i requires 0 <= i < |ls| => ls[i].stop) }

  ghost function Texts(ls: seq<Line>): seq<string> { seq(|ls|, i requires 0 <= i < |ls| => ls[i].text) }

  ghost predicate AllBlank(s: string) { forall c :: c in s ==> Blank(c) }

  // Something else than a blank stands before every #.
  ghost predicate NoHeading(s: string) {
    forall k :: 0 <= k < |s| && s[k] == '#' ==> !AllBlank(s[..k])
  }

  ghost predicate LineOk(l: Line) {
    && (forall c :: c in l.text ==> Inline(c)) && NoHeading(l.text)
    && (l.text != "" ==> !Blank(l.text[|l.text| - 1]))
    && AllBlank(l.blanks) && Stop(l.stop)
  }

  ghost predicate LinesOk(ls: seq<Line>) {
    && (forall i :: 0 <= i < |ls| ==> LineOk(ls[i]))
    && (ls != [] ==> Whole(ls[0]) != "" && Whole(ls[|ls| - 1]) != "")
  }

  // What may follow the lines: line feeds, or a heading and anything after it.
  ghost predicate Unrelated(tail: string) {
    || (forall c :: c in tail ==> c == '\n')
    || exists stop, blanks, rest :: HeadingAfter(tail, stop, blanks, rest)
  }

  ghost predicate HeadingAfter(tail: string, stop: char, blanks: string, rest: string) {
    Stop(stop) && AllBlank(blanks) && tail == [stop] + (blanks + ("#" + rest))
  }

  ghost predicate Outer(s: string) { forall c :: c in s ==> Blank(c) || c == '\n' }

  ghost predicate Solid(s: string) {
    s != "" ==> !Blank(s[0]) && s[0] != '\n' && !Blank(s[|s| - 1]) && s[|s| - 1] != '\n'
  }

  lemma {:induction false} SpacesAre(c: char)
    ensures Inline(c) ==> (IsSpace(c) <==> Blank(c)) && !IsLineBreak(c)
    ensures Stop(c) ==> IsLineBreak(c)
    ensures Blank(c) ==> Inline(c)
  {
  }

  // White space is blanks, line breaks and the unit separator; line breaks are the stops and six control
  // characters.
  lemma {:induction false} SpacesExactly(c: char)
    ensures IsSpace(c) <==> Blank(c) || IsLineBreak(c) || c as int == 0x1f
    ensures IsLineBreak(c) <==> Stop(c) || c as int in {0x0b, 0x0c, 0x0d, 0x1c, 0x1d, 0x1e}
  {
  }

  lemma {:induction false} TrimLeftSkips(a: string, s: string, p: char -> bool)
    requires (forall c :: c in a ==> p(c)) && (s != "" ==> !p(s[0]))
    ensures TrimLeft(a + s, p) == s
  {
    if a == "" {
      assert a + s == s;
    } else {
      assert (a + s)[0] == a[0] && a[0] in a && (a + s)[1..] == a[1..] + s;
      TrimLeftSkips(a[1..], s, p);
    }
  }

  lemma {:induction false} TrimRightSkips(s: string, b: string, p: char -> bool)
    requires (forall c :: c in b ==> p(c)) && (s != "" ==> !p(s[|s| - 1]))
    ensures TrimRight(s + b, p) == s
  {
    var u := s + b;
    if b == "" {
      assert u == s;
    } else {
      assert u[|u| - 1] == b[|b| - 1] && b[|b| - 1] in b && u[..|u| - 1] == s + b[..|b| - 1];
      TrimRightSkips(s, b[..|b| - 1], p);
    }
  }

  lemma {:induction false} TrimRightKeeps(s: string, b: string, p: char -> bool, k: nat)
    requires k < |b| && !p(b[k])
    ensures TrimRight(s + b, p) == s + TrimRight(b, p) && b[..k + 1] <= TrimRight(b, p)
  {
    var u := s + b;
    assert u[|u| - 1] == b[|b| - 1];
    if p(b[|b| - 1]) {
      assert u[..|u| - 1] == s + b[..|b| - 1];
      TrimRightKeeps(s, b[..|b| - 1], p, k);
    }
  }

  lemma {:induction false} TrimBetween(a: string, s: string, b: string)
    requires Outer(a) && Outer(b) && Solid(s) && forall c :: c in s ==> Inline(c) || c == '\n'
    ensures Trim(a + s + b, IsSpace) == s
  {
    forall c | c in a || c in b ensures IsSpace(c) { SpacesAre(c); }
    if s == "" {
      assert a + s + b == a + b + "";
      TrimLeftSkips(a + b, "", IsSpace);
    } else {
      SpacesAre(s[0]);
      SpacesAre(s[|s| - 1]);
      assert a + s + b == a + (s + b);
      assert s[0] in s && s[|s| - 1] in s;
      TrimLeftSkips(a, s + b, IsSpace);
      TrimRightSkips(s, b, IsSpace);
    }
  }

  // str.splitlines, line by line.
  lemma {:induction false} BreakAfter(line: string, rest: string)
    requires forall c :: c in line ==> Inline(c)
    requires rest != "" ==> Stop(rest[0])
    ensures BeforeBreak(line + rest) == line
  {
    if line == "" {
      assert line + rest == rest;
      if rest != "" { SpacesAre(rest[0]); }
    } else {
      assert (line + rest)[0] == line[0] && line[0] in line && (line + rest)[1..] == line[1..] + rest;
      SpacesAre(line[0]);
      BreakAfter(line[1..], rest);
    }
  }

  lemma {:induction false} SplitOne(line: string, stop: char, rest: string)
    requires (forall c :: c in line ==> Inline(c)) && Stop(stop)
    ensures SplitLines(line + ([stop] + rest)) == [line] + SplitLines(rest)
  {
    var s := line + ([stop] + rest);
    BreakAfter(line, [stop] + rest);
    assert s[|line|] == stop && s[|line| + 1..] == rest;
  }

  // A carriage return ends a line as well, alone or before a line feed.
  lemma {:induction false} SplitAtCrLf(line: string, rest: string)
    requires forall c :: c in line ==> Inline(c)
    ensures SplitLines(line + ("\r\n" + rest)) == [line] + SplitLines(rest)
  {
    var more := "\r\n" + rest;
    var s, e := line + more, |line|;
    BreakBefore(line, more);
    assert s[e] == more[0] && s[e + 1] == more[1] && s[e + 2..] == more[2..] == rest;
  }

  lemma {:induction false} SplitAtCr(line: string, rest: string)
    requires (forall c :: c in line ==> Inline(c)) && (rest == "" || rest[0] != '\n')
    ensures SplitLines(line + ("\r" + rest)) == [line] + SplitLines(rest)
  {
    var more := "\r" + rest;
    var s, e := line + more, |line|;
    BreakBefore(line, more);
    assert s[e] == more[0] && (rest != "" ==> s[e + 1] == more[1] == rest[0]);
    assert s[e + 1..] == more[1..] == rest;
  }

  lemma {:induction false} BreakBefore(line: string, more: string)
    requires (forall c :: c in line ==> Inline(c)) && more != "" && IsLineBreak(more[0])
    ensures BeforeBreak(line + more) == line
  {
    if line == "" {
      assert line + more == more;
    } else {
      assert (line + more)[0] == line[0] && line[0] in line && (line + more)[1..] == line[1..] + more;
      SpacesAre(line[0]);
      BreakBefore(line[1..], more);
    }
  }

  lemma {:induction false} WholeInline(l: Line)
    requires LineOk(l)
    ensures forall c :: c in Whole(l) ==> Inline(c)
  {
    forall c | c in Whole(l) ensures Inline(c) { SpacesAre(c); }
  }

  ghost function AfterStop(more: string): seq<string> { if more == "" then [] else SplitLines(more[1..]) }

  lemma {:induction false} SplitEither(line: string, more: string)
    requires (forall c :: c in line ==> Inline(c)) && (more != "" ==> Stop(more[0])) && line + more != ""
    ensures SplitLines(line + more) == [line] + AfterStop(more)
  {
    if more == "" {
      BreakAfter(line, "");
      assert line + "" == line;
    } else {
      assert more == [more[0]] + more[1..];
      SplitOne(line, more[0], more[1..]);
    }
  }

  lemma {:induction false} SplitNext(line: string, stop: char, rest: string, more: string, lines: seq<string>)
    requires (forall c :: c in line ==> Inline(c)) && Stop(stop) && SplitLines(rest + more) == lines
    ensures SplitLines(line + ([stop] + rest) + more) == [line] + lines
  {
    SplitOne(line, stop, rest + more);
    assert line + ([stop] + rest) + more == line + ([stop] + (rest + more));
  }

  ghost predicate InlineAll(ws: seq<string>) { forall i, c :: 0 <= i < |ws| && c in ws[i] ==> Inline(c) }

  // Lines laid out are split into the same lines, with or without something after a further break.
  lemma {:induction false} SplitLaid(ws: seq<string>, stops: seq<char>, more: string)
    requires ws != [] && |stops| == |ws| && InlineAll(ws) && ws[|ws| - 1] != ""
    requires (forall i :: 0 <= i < |stops| ==> Stop(stops[i])) && (more != "" ==> Stop(more[0]))
    ensures SplitLines(Lay(ws, stops) + more) == ws + AfterStop(more)
  {
    var after, rest, restStops := AfterStop(more), ws[1..], stops[1..];
    assert ws + after == [ws[0]] + (rest + after);
    if rest == [] {
      SplitEither(ws[0], more);
      assert [] + after == after;
    } else {
      var laid := Lay(rest, restStops);
      SplitLaid(rest, restStops, more);
      SplitNext(ws[0], stops[0], laid, more, rest + after);
    }
  }

  // The first character that is no blank decides.
  lemma {:induction false} HeadingIs(s: string, k: nat)
    requires k <= |s| && AllBlank(s[..k]) && (k < |s| ==> Inline(s[k]) && !Blank(s[k]))
    ensures IsHeading(s) <==> k < |s| && s[k] == '#'
  {
    forall c | c in s[..k] ensures IsSpace(c) { SpacesAre(c); }
    if k < |s| { SpacesAre(s[k]); }
    assert s == s[..k] + s[k..];
    TrimLeftSkips(s[..k], s[k..], IsSpace);
  }

  // Where the blanks at the start of a line end.
  lemma {:induction false} BlanksEnd(s: string) returns (k: nat)
    ensures k <= |s| && AllBlank(s[..k]) && (k < |s| ==> !Blank(s[k]))
  {
    k := 0;
    while k < |s| && Blank(s[k])
      invariant k <= |s| && AllBlank(s[..k])
    {
      assert s[..k + 1] == s[..k] + [s[k]];
      k := k + 1;
    }
  }

  lemma {:induction false} LineIsPlain(l: Line)
    requires LineOk(l)
    ensures !IsHeading(Whole(l)) && TrimRight(Whole(l), IsSpace) == l.text
  {
    var k := BlanksEnd(l.text);
    WholeInline(l);
    forall c | c in l.blanks ensures IsSpace(c) { SpacesAre(c); }
    if l.text != "" {
      assert l.text[|l.text| - 1] in l.text;
      SpacesAre(l.text[|l.text| - 1]);
    }
    TrimRightSkips(l.text, l.blanks, IsSpace);
    if k < |l.text| {
      assert Whole(l)[..k] == l.text[..k] && Whole(l)[k] == l.text[k] && l.text[k] in l.text;
      HeadingIs(Whole(l), k);
    } else {
      assert l.text == l.text[..k];
      assert l.text == "";
      HeadingIs(Whole(l), |Whole(l)|);
    }
  }

  lemma {:induction false} PlainLinesBefore(ws: seq<string>, ts: seq<string>, after: seq<string>)
    requires |ws| == |ts| && (after != [] ==> IsHeading(after[0]))
    requires forall i :: 0 <= i < |ws| ==> !IsHeading(ws[i]) && TrimRight(ws[i], IsSpace) == ts[i]
    ensures RStripAll(BeforeHeading(ws + after)) == ts
  {
    if ws == [] {
      assert ws + after == after;
    } else {
      assert (ws + after)[0] == ws[0] && (ws + after)[1..] == ws[1..] + after;
      PlainLinesBefore(ws[1..], ts[1..], after);
    }
  }

  lemma {:induction false} LinesKept(ls: seq<Line>, after: seq<string>)
    requires forall i :: 0 <= i < |ls| ==> LineOk(ls[i])
    requires after != [] ==> IsHeading(after[0])
    ensures RStripAll(BeforeHeading(Wholes(ls) + after)) == Texts(ls)
  {
    forall i | 0 <= i < |ls| ensures !IsHeading(Wholes(ls)[i]) && TrimRight(Wholes(ls)[i], IsSpace) == Texts(ls)[i] {
      LineIsPlain(ls[i]);
    }
    PlainLinesBefore(Wholes(ls), Texts(ls), after);
  }

  lemma {:induction false} StartsHeading(blanks: string, rest: string)
    requires AllBlank(blanks)
    ensures var s := blanks + ("#" + rest); SplitLines(s) != [] && IsHeading(SplitLines(s)[0])
  {
    var s := blanks + ("#" + rest);
    var k := |BeforeBreak(s)|;
    BreakSplits(s);
    forall i | 0 <= i <= |blanks| ensures !IsLineBreak(s[i]) {
      assert i < |blanks| ==> s[i] in blanks;
      SpacesAre(s[i]);
    }
    assert k > |blanks|;
    var line := if k == |s| then s else s[..k];
    assert SplitLines(s)[0] == line;
    assert line[..|blanks|] == blanks && line[|blanks|] == '#';
    HeadingIs(line, |blanks|);
  }

  lemma {:induction false} LaidEnds(ws: seq<string>, stops: seq<char>)
    requires ws != [] && |stops| == |ws| && InlineAll(ws) && ws[|ws| - 1] != ""
    ensures var s := Lay(ws, stops); s != "" && s[|s| - 1] != '\n' && (ws[0] != "" ==> s[0] != '\n')
  {
    var s := Lay(ws, stops);
    assert ws[0] != "" ==> ws[0][0] in ws[0] && s[0] == ws[0][0] && Inline(s[0]);
    if |ws| == 1 {
      assert s[|s| - 1] in ws[0] && Inline(s[|s| - 1]);
    } else {
      var rest := Lay(ws[1..], stops[1..]);
      LaidEnds(ws[1..], stops[1..]);
      assert s[|s| - 1] == rest[|rest| - 1];
    }
  }

  lemma {:induction false} WholesInline(ls: seq<Line>)
    requires LinesOk(ls)
    ensures InlineAll(Wholes(ls)) && forall i :: 0 <= i < |ls| ==> Stop(Stops(ls)[i])
  {
    forall i | 0 <= i < |ls| ensures (forall c :: c in Wholes(ls)[i] ==> Inline(c)) && Stop(Stops(ls)[i]) {
      WholeInline(ls[i]);
    }
  }

  // What is left of a heading and the text after it once line feeds are trimmed from the end.
  lemma {:induction false} HeadingTrimmed(s: string, stop: char, blanks: string, rest: string)
    returns (h: string)
    requires AllBlank(blanks)
    ensures TrimRight(s + ([stop] + (blanks + ("#" + rest))), IsNewline) == s + ([stop] + h)
    ensures SplitLines(h) != [] && IsHeading(SplitLines(h)[0])
  {
    var all := blanks + ("#" + rest);
    TrimRightKeeps(s + [stop], all, IsNewline, |blanks|);
    h := TrimRight(all, IsNewline);
    assert s + ([stop] + all) == s + [stop] + all && s + ([stop] + h) == s + [stop] + h;
    assert all[..|blanks| + 1] == blanks + "#";
    assert h == blanks + ("#" + h[|blanks| + 1..]);
    StartsHeading(blanks, h[|blanks| + 1..]);
  }

  // Line feeds around the lines are trimmed; a heading and all that follows it is cut off.
  lemma {:induction false} TextLines(lead: string, ls: seq<Line>, tail: string)
    requires (forall c :: c in lead ==> c == '\n') && LinesOk(ls) && ls != [] && Unrelated(tail)
    ensures RStripAll(BeforeHeading(SplitLines(Trim(lead + (Laid(ls) + tail), IsNewline)))) == Texts(ls)
  {
    var s := Laid(ls);
    WholesInline(ls);
    LaidEnds(Wholes(ls), Stops(ls));
    TrimLeftSkips(lead, s + tail, IsNewline);
    if forall c :: c in tail ==> c == '\n' {
      TrimRightSkips(s, tail, IsNewline);
      SplitLaid(Wholes(ls), Stops(ls), "");
      assert s + "" == s;
      LinesKept(ls, []);
    } else {
      var stop, blanks, rest :| HeadingAfter(tail, stop, blanks, rest);
      var h := HeadingTrimmed(s, stop, blanks, rest);
      var more := [stop] + h;
      SplitLaid(Wholes(ls), Stops(ls), more);
      assert more[1..] == h;
      LinesKept(ls, SplitLines(h));
    }
  }

  lemma {:induction false} JoinedTexts(ls: seq<string>)
    requires forall i, c :: 0 <= i < |ls| && c in ls[i] ==> Inline(c)
    ensures forall c :: c in JoinLines(ls) ==> Inline(c) || c == '\n'
  {
    if ls != [] { JoinedTexts(ls[1..]); }
  }

  // MAIN: of a text that consists of lines with blanks behind them, whatever breaks stand between them,
  // with line feeds before it and line feeds or a heading and anything else after it, cleaning leaves the
  // lines without those blanks, joined by line feeds, less the white space around the whole.
  lemma {:induction false} CleanExactly(
    lead: string, ls: seq<Line>, tail: string, before: string, core: string, after: string)
    requires (forall c :: c in lead ==> c == '\n') && LinesOk(ls) && ls != [] && Unrelated(tail)
    requires JoinLines(Texts(ls)) == before + core + after && Outer(before) && Outer(after) && Solid(core)
    ensures CleanFieldBody(lead + (Laid(ls) + tail)) == core
  {
    TextLines(lead, ls, tail);
    JoinedTexts(Texts(ls));
    assert forall c :: c in core ==> c in before + core + after;
    TrimBetween(before, core, after);
  }

  // ---------------------------------------------------------------- bodies that cleaning leaves alone

  // A line without trailing white space that is not a heading.
  ghost predicate PlainLine(l: string) {
    !IsHeading(l) && (l != "" ==> !IsSpace(l[|l| - 1]))
  }

  ghost predicate PlainBody(b: string) {
    && (forall c :: c in b && IsLineBreak(c) ==> c == '\n')
    && (b != "" ==> !IsSpace(b[0]) && !IsSpace(b[|b| - 1]))
    && forall l :: l in SplitLines(b) ==> PlainLine(l)
  }

  lemma {:induction false} BreakSplits(b: string)
    ensures BeforeBreak(b) == b[..|BeforeBreak(b)|]
    ensures |BeforeBreak(b)| < |b| ==> IsLineBreak(b[|BeforeBreak(b)|])
  {
    if b != "" && !IsLineBreak(b[0]) { BreakSplits(b[1..]); }
  }

  lemma {:induction false} JoinFirst(line: string, ls: seq<string>)
    requires ls != []
    ensures JoinLines([line] + ls) == line + ("\n" + JoinLines(ls))
  {
    assert ([line] + ls)[1..] == ls;
  }

  // The first line, and the rest from behind its line feed.
  lemma {:induction false} SplitFirst(b: string) returns (line: string, rest: string)
    requires |BeforeBreak(b)| < |b| && b[|BeforeBreak(b)|] == '\n'
    ensures b == line + ("\n" + rest) && SplitLines(b) == [line] + SplitLines(rest)
  {
    BreakSplits(b);
    var e := |BeforeBreak(b)|;
    line, rest := b[..e], b[e + 1..];
  }

  lemma {:induction false} JoinSplit(b: string)
    requires forall c :: c in b && IsLineBreak(c) ==> c == '\n'
    requires b != "" ==> b[|b| - 1] != '\n'
    ensures JoinLines(SplitLines(b)) == b
    ensures SplitLines(b) == [] <==> b == ""
    decreases |b|
  {
    if b != "" {
      var e := |BeforeBreak(b)|;
      BreakSplits(b);
      if e < |b| {
        assert b[e] in b;
        var line, rest := SplitFirst(b);
        assert b[|line| + 1..] == rest;
        JoinSplit(rest);
        JoinFirst(line, SplitLines(rest));
      }
    }
  }

  lemma {:induction false} PlainLinesKept(ls: seq<string>)
    requires forall l :: l in ls ==> PlainLine(l)
    ensures RStripAll(BeforeHeading(ls)) == ls
  {
    if ls != [] {
      assert ls[0] in ls;
      PlainLinesKept(ls[1..]);
    }
  }

  lemma TrimFrame(b: string)
    requires b != "" ==> b[0] != '\n' && b[|b| - 1] != '\n'
    ensures Trim("\n" + (b + "\n"), IsNewline) == b
  {
    var t := "\n" + (b + "\n");
    assert t[1..] == b + "\n";
    if b == "" {
      assert t[1..] == "\n" && "\n"[1..] == "";
      assert TrimLeft("", IsNewline) == "";
      assert TrimLeft("\n", IsNewline) == "";
    } else {
      var u := b + "\n";
      assert u[0] == b[0] && u[..|b|] == b && u[|b|] == '\n';
      assert TrimLeft(t, IsNewline) == u;
      assert TrimRight(u, IsNewline) == TrimRight(b, IsNewline) == b;
    }
  }

  lemma CleanPlainBody(b: string)
    requires PlainBody(b)
    ensures CleanFieldBody("\n" + (b + "\n")) == b
  {
    TrimFrame(b);
    JoinSplit(b);
    PlainLinesKept(SplitLines(b));
  }
}
