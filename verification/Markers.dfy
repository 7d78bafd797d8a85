/**
 Marker lines and the text that follows them, for any way of recognising a marker line: the scan
 (re.MULTILINE, finditer) and the last-wins grouping of parse_completion_report.

 A text is read line by line. What follows a marker line is kept as the rest of the text from the
 end of that line, so the position of the line is |text| - |rest|.
 */
module Markers {
  import opened Wrappers
  import opened Transcript

  function FirstLine(s: string): string {
    if s == "" || s[0] == '\n' then "" else [s[0]] + FirstLine(s[1..])
  }

  // What follows the first line and its line feed.
  function AfterLine(s: string): (r: string)
    ensures |r| <= |s|
    ensures s != "" ==> |r| < |s|
  {
    if s == "" then "" else if s[0] == '\n' then s[1..] else AfterLine(s[1..])
  }

  // The rest of the text from the end of the first line.
  function RestOfLine(s: string): string {
    if '\n' in s then "\n" + AfterLine(s) else ""
  }

  lemma {:induction false} LineConcat(t: string, r: string)
    requires t != "" && EndsLine(t)
    ensures FirstLine(t + r) == FirstLine(t) && AfterLine(t + r) == AfterLine(t) + r
    ensures '\n' in t && '\n' in t + r && EndsLine(AfterLine(t))
  {
    assert (t + r)[0] == t[0] && (t + r)[1..] == t[1..] + r;
    assert t[|t| - 1] in t && (t + r)[|t| - 1] in t + r;
    if t[0] != '\n' {
      assert t[1..] != "";
      LineConcat(t[1..], r);
    }
  }

  // ---------------------------------------------------------------- last occurrence, text up to the next one

  // What follows the last line that marks f.
  function LastRest<F(==)>(mark: string -> Option<F>, s: string, f: F): Option<string>
    decreases |s|
  {
    if s == "" then None
    else
      var later := LastRest(mark, AfterLine(s), f);
      if later.Some? then later
      else if mark(FirstLine(s)) == Some(f) then Some(RestOfLine(s)) else None
  }

  // The text before the first marker line.
  function UpToMarker<F>(mark: string -> Option<F>, s: string): string
    decreases |s|
  {
    if s == "" || mark(FirstLine(s)).Some? then ""
    else FirstLine(s) + if '\n' in s then "\n" + UpToMarker(mark, AfterLine(s)) else ""
  }

  // The body of a marker, cut from the text that follows the marker's line.
  function BodyIn<F>(mark: string -> Option<F>, rest: string): string {
    if rest == "" then "" else [rest[0]] + UpToMarker(mark, rest[1..])
  }

  function LastBody<F(==)>(mark: string -> Option<F>, s: string, f: F): Option<string> {
    match LastRest(mark, s, f)
    case Some(rest) => Some(BodyIn(mark, rest))
    case None => None
  }

  // Text that opens with a marker line: nothing of it is part of an earlier body.
  ghost predicate OpensWithMarker<F>(mark: string -> Option<F>, r: string) {
    r != "" && mark(FirstLine(r)).Some?
  }

  lemma {:induction false} RestOfLineConcat(t: string, r: string)
    requires t != "" && EndsLine(t)
    ensures RestOfLine(t + r) == RestOfLine(t) + r
  {
    LineConcat(t, r);
    Assoc("\n", AfterLine(t), r);
  }

  lemma {:induction false} LastRestShape<F>(mark: string -> Option<F>, t: string, f: F)
    requires EndsLine(t) && LastRest(mark, t, f).Some?
    ensures var rest := LastRest(mark, t, f).value; rest != "" && rest[0] == '\n' && EndsLine(rest)
    decreases |t|
  {
    LineConcat(t, "");
    if LastRest(mark, AfterLine(t), f).Some? { LastRestShape(mark, AfterLine(t), f); }
  }

  lemma {:induction false} LastRestConcat<F>(mark: string -> Option<F>, t: string, r: string, f: F)
    requires EndsLine(t)
    ensures LastRest(mark, t + r, f) ==
      if LastRest(mark, r, f).Some? then LastRest(mark, r, f)
      else if LastRest(mark, t, f).Some? then Some(LastRest(mark, t, f).value + r) else None
    decreases |t|
  {
    if t == "" {
      assert t + r == r;
    } else {
      LineConcat(t, r);
      LastRestConcat(mark, AfterLine(t), r, f);
      RestOfLineConcat(t, r);
    }
  }

  lemma {:induction false} UpToMarkerConcat<F>(mark: string -> Option<F>, t: string, r: string)
    requires EndsLine(t) && OpensWithMarker(mark, r)
    ensures UpToMarker(mark, t + r) == UpToMarker(mark, t)
    decreases |t|
  {
    if t == "" {
      assert t + r == r;
    } else {
      LineConcat(t, r);
      UpToMarkerConcat(mark, AfterLine(t), r);
    }
  }

  lemma {:induction false} BodyConcat<F>(mark: string -> Option<F>, rest: string, r: string)
    requires rest != "" && rest[0] == '\n' && EndsLine(rest) && OpensWithMarker(mark, r)
    ensures BodyIn(mark, rest + r) == BodyIn(mark, rest)
  {
    assert (rest + r)[0] == rest[0] && (rest + r)[1..] == rest[1..] + r;
    UpToMarkerConcat(mark, rest[1..], r);
  }

  // Joining at a marker line: the fields the second text mentions are read from it, the others keep
  // the body they had in the first.
  lemma {:induction false} LastBodyConcat<F>(mark: string -> Option<F>, t: string, r: string, f: F)
    requires EndsLine(t) && OpensWithMarker(mark, r)
    ensures LastBody(mark, t + r, f) == if LastBody(mark, r, f).Some? then LastBody(mark, r, f)
      else LastBody(mark, t, f)
  {
    LastRestConcat(mark, t, r, f);
    if LastRest(mark, r, f).None? && LastRest(mark, t, f).Some? {
      LastRestShape(mark, t, f);
      BodyConcat(mark, LastRest(mark, t, f).value, r);
    }
  }

  // ---------------------------------------------------------------- texts without markers

  ghost predicate Unmarked<F>(mark: string -> Option<F>, s: string)
    decreases |s|
  {
    s != "" ==> mark(FirstLine(s)) == None && Unmarked(mark, AfterLine(s))
  }

  lemma {:induction false} UnmarkedText<F>(mark: string -> Option<F>, s: string, f: F)
    requires Unmarked(mark, s)
    ensures LastRest(mark, s, f) == None
    ensures UpToMarker(mark, s) == s
    decreases |s|
  {
    if s != "" {
      UnmarkedText(mark, AfterLine(s), f);
      SplitFirstLine(s);
    }
  }

  lemma {:induction false} SplitFirstLine(s: string)
    ensures s == FirstLine(s) + RestOfLine(s)
  {
    if s != "" {
      assert s == [s[0]] + s[1..];
      if s[0] != '\n' {
        SplitFirstLine(s[1..]);
        assert '\n' in s <==> '\n' in s[1..];
      }
    }
  }

  lemma {:induction false} WholeLine(line: string, r: string)
    requires '\n' !in line
    ensures FirstLine(line) == line && AfterLine(line) == ""
    ensures FirstLine(line + "\n" + r) == line && AfterLine(line + "\n" + r) == r
  {
    var s := line + "\n" + r;
    if line == "" {
      assert s[1..] == r;
    } else {
      assert line[0] in line;
      assert s[0] == line[0] && s[1..] == line[1..] + "\n" + r;
      WholeLine(line[1..], r);
    }
  }

  // A final line feed adds no marker.
  lemma {:induction false} UnmarkedTerminated<F>(mark: string -> Option<F>, b: string)
    requires Unmarked(mark, b) && mark("") == None
    ensures Unmarked(mark, b + "\n")
    decreases |b|
  {
    var t := b + "\n";
    if '\n' !in b {
      WholeLine(b, "");
      assert b + "\n" + "" == t;
    } else {
      FeedInside(b);
      UnmarkedTerminated(mark, AfterLine(b));
    }
  }

  lemma {:induction false} FeedInside(b: string)
    requires '\n' in b
    ensures FirstLine(b + "\n") == FirstLine(b) && AfterLine(b + "\n") == AfterLine(b) + "\n"
  {
    assert (b + "\n")[0] == b[0] && (b + "\n")[1..] == b[1..] + "\n";
    if b[0] != '\n' { FeedInside(b[1..]); }
  }

  // One marker line and a body without marker lines: a single field, with exactly that text.
  lemma {:induction false} MarkedBlock<F>(mark: string -> Option<F>, line: string, b: string, f: F, g: F)
    requires '\n' !in line && mark(line) == Some(f) && mark("") == None && Unmarked(mark, b)
    ensures var s := line + "\n" + (b + "\n");
      && OpensWithMarker(mark, s)
      && LastRest(mark, s, g) == (if g == f then Some("\n" + (b + "\n")) else None)
      && LastBody(mark, s, g) == (if g == f then Some("\n" + (b + "\n")) else None)
  {
    var tail := b + "\n";
    var s := line + "\n" + tail;
    UnmarkedTerminated(mark, b);
    UnmarkedText(mark, tail, g);
    WholeLine(line, tail);
    assert s[|line|] == '\n';
    assert ("\n" + tail)[1..] == tail;
  }

  // ---------------------------------------------------------------- the list of matches

  datatype Match<F> = Match(field: F, rest: string)

  // Every marker line with the text that follows it.
  function Matches<F>(mark: string -> Option<F>, s: string): seq<Match<F>>
    decreases |s|
  {
    if s == "" then []
    else
      match mark(FirstLine(s))
      case Some(f) => [Match(f, RestOfLine(s))] + Matches(mark, AfterLine(s))
      case None => Matches(mark, AfterLine(s))
  }

  // The last entry for a field among the matches from j on.
  function LastMatch<F(==)>(ms: seq<Match<F>>, j: nat, f: F): Option<string>
    decreases |ms| - j
  {
    if j >= |ms| then None
    else
      var later := LastMatch(ms, j + 1, f);
      if later.Some? then later else if ms[j].field == f then Some(ms[j].rest) else None
  }

  lemma {:induction false} LastMatchTail<F>(m: Match<F>, ms: seq<Match<F>>, j: nat, f: F)
    ensures LastMatch([m] + ms, j + 1, f) == LastMatch(ms, j, f)
    decreases |ms| - j
  {
    if j < |ms| {
      assert ([m] + ms)[j + 1] == ms[j];
      LastMatchTail(m, ms, j + 1, f);
    }
  }

  lemma {:induction false} LastOfMatches<F>(mark: string -> Option<F>, s: string, f: F)
    ensures LastMatch(Matches(mark, s), 0, f) == LastRest(mark, s, f)
    decreases |s|
  {
    if s != "" {
      LastOfMatches(mark, AfterLine(s), f);
      if mark(FirstLine(s)).Some? {
        LastMatchTail(Match(mark(FirstLine(s)).value, RestOfLine(s)), Matches(mark, AfterLine(s)), 0, f);
      }
    }
  }

  function Entry<F(==)>(last: map<F, string>, f: F): Option<string> {
    if f in last then Some(last[f]) else None
  }

  // The source's loop: one pass over the matches, overwriting the entry of each field.
  method GroupMatches<F(==)>(mark: string -> Option<F>, s: string) returns (last: map<F, string>)
    ensures forall f :: f in last <==> LastRest(mark, s, f).Some?
    ensures forall f :: f in last ==> LastRest(mark, s, f) == Some(last[f])
  {
    var ms := Matches(mark, s);
    last := map[];
    for i := 0 to |ms|
      invariant forall f :: LastMatch(ms, 0, f) ==
                            if LastMatch(ms, i, f).Some? then LastMatch(ms, i, f) else Entry(last, f)
    {
      last := last[ms[i].field := ms[i].rest];
    }
    forall f ensures LastRest(mark, s, f) == Entry(last, f) {
      LastOfMatches(mark, s, f);
    }
  }
}
