/**
 Reports as text: the fields a text holds, and a printer for them, for any naming of the fields and
 any way of recognising a marker line that reads those names.
 */
module ReportText {
  import opened Wrappers
  import opened Transcript
  import opened Markers

  datatype Field =
    | WorkStatus | WhatChanged | AutomatedTests | HowToVerify
    | ExpectedResult | TestData | RuntimeRequirements | Risks

  type Report = map<Field, string>

  type Mark = string -> Option<Field>

  type Clean = string -> string

  // The cleaned body of the last occurrence of every field that occurs.
  function LastBodies(mark: Mark, clean: Clean, s: string): Report {
    map f: Field | LastBody(mark, s, f).Some? :: clean(LastBody(mark, s, f).value)
  }

  // The bodies cut from grouped matches are those bodies.
  lemma {:induction false} GroupedBodies(mark: Mark, clean: Clean, s: string, last: map<Field, string>, r: Report)
    requires forall f: Field :: f in last <==> LastRest(mark, s, f).Some?
    requires forall f: Field :: f in last ==> LastRest(mark, s, f) == Some(last[f])
    requires forall f: Field :: f in r <==> f in last
    requires forall f: Field :: f in r ==> r[f] == clean(BodyIn(mark, last[f]))
    ensures r == LastBodies(mark, clean, s)
  {
    var bodies := LastBodies(mark, clean, s);
    forall f: Field
      ensures f in r <==> f in bodies
      ensures f in r ==> r[f] == bodies[f]
    {
    }
  }

  const MAX_SPREAD := 8000

  // Positions counted from the end of the text: |s| - |rest| is where a body starts.
  function Spread(a: string, b: string): nat {
    if |a| < |b| then |b| - |a| else |a| - |b|
  }

  predicate RequiredFieldsClose(mark: Mark, s: string) {
    var w, c := LastRest(mark, s, WorkStatus), LastRest(mark, s, WhatChanged);
    w.Some? && c.Some? && Spread(w.value, c.value) <= MAX_SPREAD
  }

  // ---------------------------------------------------------------- the printer

  // No body holds a marker line.
  ghost predicate AllUnmarked(mark: Mark, r: Report) { forall f: Field :: f in r ==> Unmarked(mark, r[f]) }

  ghost function Framed(body: string): string { "\n" + (body + "\n") }

  // What is left of the bodies after they were printed and cleaned.
  ghost function Cleaned(clean: Clean, r: Report): Report { map f: Field | f in r :: clean(Framed(r[f])) }

  function Block(title: string, body: string): string { title + "\n" + (body + "\n") }

  function PrintFields(title: Field -> string, r: Report, fs: seq<Field>): string {
    if fs == [] then ""
    else if fs[0] in r then Block(title(fs[0]), r[fs[0]]) + PrintFields(title, r, fs[1..])
    else PrintFields(title, r, fs[1..])
  }

  // The marker lines are exactly recognised.
  ghost predicate Reads(mark: Mark, title: Field -> string) {
    && mark("") == None
    && forall f: Field :: mark(title(f)) == Some(f) && '\n' !in title(f)
  }

  ghost predicate Distinct(fs: seq<Field>) { forall i, j :: 0 <= i < j < |fs| ==> fs[i] != fs[j] }

  lemma {:induction false} BlockFields(mark: Mark, title: Field -> string, f: Field, b: string, g: Field)
    requires Reads(mark, title) && Unmarked(mark, b)
    ensures OpensWithMarker(mark, Block(title(f), b)) && EndsLine(Block(title(f), b))
    ensures LastRest(mark, Block(title(f), b), g) == if g == f then Some(Framed(b)) else None
    ensures LastBody(mark, Block(title(f), b), g) == if g == f then Some(Framed(b)) else None
  {
    MarkedBlock(mark, title(f), b, f, g);
  }

  lemma {:induction false} OpensConcat(mark: Mark, head: string, p: string)
    requires OpensWithMarker(mark, head) && EndsLine(head) && EndsLine(p)
    ensures OpensWithMarker(mark, head + p) && EndsLine(head + p)
  {
    LineConcat(head, p);
    assert p != "" ==> (head + p)[|head| + |p| - 1] == p[|p| - 1];
    assert p == "" ==> head + p == head;
  }

  // Joining two texts that open with a marker line (the second may be empty).
  lemma {:induction false} JoinAtMarker(mark: Mark, head: string, p: string, g: Field)
    requires EndsLine(head) && (p != "" ==> OpensWithMarker(mark, p))
    ensures LastBody(mark, head + p, g) == if LastBody(mark, p, g).Some? then LastBody(mark, p, g)
      else LastBody(mark, head, g)
  {
    if p != "" {
      LastBodyConcat(mark, head, p, g);
    } else {
      assert head + "" == head;
    }
  }

  lemma {:induction false} PrependBlock(mark: Mark, title: Field -> string, f: Field, b: string, p: string, g: Field)
    requires Reads(mark, title) && Unmarked(mark, b)
    requires EndsLine(p) && (p != "" ==> OpensWithMarker(mark, p)) && LastBody(mark, p, f) == None
    ensures var s := Block(title(f), b) + p;
      && LastBody(mark, s, g) == (if g == f then Some(Framed(b)) else LastBody(mark, p, g))
      && OpensWithMarker(mark, s) && EndsLine(s)
  {
    BlockFields(mark, title, f, b, g);
    OpensConcat(mark, Block(title(f), b), p);
    JoinAtMarker(mark, Block(title(f), b), p, g);
  }

  // Printed text holds the printed fields and opens with a marker line.
  lemma {:induction false} PrintedFields(
    mark: Mark, title: Field -> string, r: Report, fs: seq<Field>, g: Field)
    requires Reads(mark, title) && AllUnmarked(mark, r) && Distinct(fs)
    ensures LastBody(mark, PrintFields(title, r, fs), g) == if g in fs && g in r then Some(Framed(r[g])) else None
    ensures PrintFields(title, r, fs) != "" ==> OpensWithMarker(mark, PrintFields(title, r, fs))
    ensures EndsLine(PrintFields(title, r, fs))
  {
    if fs != [] {
      var f, p := fs[0], PrintFields(title, r, fs[1..]);
      PrintedFields(mark, title, r, fs[1..], g);
      PrintedFields(mark, title, r, fs[1..], f);
      assert f !in fs[1..];
      if f in r {
        PrependBlock(mark, title, f, r[f], p, g);
      }
    }
  }

  lemma {:induction false} PrintedPlain(title: Field -> string, r: Report, fs: seq<Field>)
    requires forall f: Field :: PlainText(title(f)) && (f in r ==> PlainText(r[f]))
    ensures PlainText(PrintFields(title, r, fs))
  {
    if fs != [] { PrintedPlain(title, r, fs[1..]); }
  }

  // A report with at least the two required fields, both in the list and first there.
  ghost predicate Complete(r: Report, fs: seq<Field>) {
    && (forall f: Field :: f in fs)
    && Distinct(fs) && |fs| >= 2 && fs[0] == WorkStatus && fs[1] == WhatChanged
    && WorkStatus in r && WhatChanged in r
  }

  lemma {:induction false} RestOfRequired(mark: Mark, title: Field -> string, r: Report, fs: seq<Field>, f: Field)
    requires Reads(mark, title) && AllUnmarked(mark, r) && Complete(r, fs)
    requires f == WorkStatus || f == WhatChanged
    ensures var p := PrintFields(title, r, fs[2..]);
      LastRest(mark, PrintFields(title, r, fs), f) ==
      Some(if f == WhatChanged then Framed(r[WhatChanged]) + p
           else Framed(r[WorkStatus]) + (Block(title(WhatChanged), r[WhatChanged]) + p))
  {
    var p := PrintFields(title, r, fs[2..]);
    var b0, b1 := Block(title(WorkStatus), r[WorkStatus]), Block(title(WhatChanged), r[WhatChanged]);
    var tail := fs[1..];
    assert tail[0] == WhatChanged && tail[1..] == fs[2..];
    assert PrintFields(title, r, tail) == b1 + p;
    assert PrintFields(title, r, fs) == b0 + (b1 + p);
    assert f !in fs[2..];
    PrintedFields(mark, title, r, fs[2..], f);
    BlockFields(mark, title, WorkStatus, r[WorkStatus], f);
    BlockFields(mark, title, WhatChanged, r[WhatChanged], f);
    LastRestConcat(mark, b1, p, f);
    LastRestConcat(mark, b0, b1 + p, f);
  }

  // The two required fields are printed first: between the starts of their bodies stand the first body with
  // its frame and the second title.
  lemma {:induction false} PrintedDistance(
    mark: Mark, title: Field -> string, t: string, r: Report, fs: seq<Field>)
    requires Reads(mark, title) && AllUnmarked(mark, r) && Complete(r, fs) && EndsLine(t)
    ensures RequiredFieldsClose(mark, t + PrintFields(title, r, fs)) <==>
      |r[WorkStatus]| + |title(WhatChanged)| + 2 <= MAX_SPREAD
  {
    RestOfRequired(mark, title, r, fs, WorkStatus);
    RestOfRequired(mark, title, r, fs, WhatChanged);
    LastRestConcat(mark, t, PrintFields(title, r, fs), WorkStatus);
    LastRestConcat(mark, t, PrintFields(title, r, fs), WhatChanged);
  }

  lemma {:induction false} PrintedOverridesField(
    mark: Mark, title: Field -> string, t: string, r: Report, fs: seq<Field>, g: Field)
    requires Reads(mark, title) && AllUnmarked(mark, r) && Complete(r, fs) && EndsLine(t)
    ensures LastBody(mark, t + PrintFields(title, r, fs), g) ==
      if g in r then Some(Framed(r[g])) else LastBody(mark, t, g)
  {
    PrintedFields(mark, title, r, fs, g);
    PrintedFields(mark, title, r, fs, WorkStatus);
    LastBodyConcat(mark, t, PrintFields(title, r, fs), g);
  }

  lemma {:induction false} OverrideAll(a: Report, b: Report)
    requires forall f: Field :: f in b
    ensures a + b == b
  {
  }

  // Printed after any text that ends a line, a report overrides the text field by field, and every body of
  // it is cleaned.
  lemma {:induction false} PrintedOverrides(
    mark: Mark, clean: Clean, title: Field -> string, t: string, r: Report, fs: seq<Field>)
    requires Reads(mark, title) && AllUnmarked(mark, r) && Complete(r, fs) && EndsLine(t)
    ensures LastBodies(mark, clean, t + PrintFields(title, r, fs)) == LastBodies(mark, clean, t) + Cleaned(clean, r)
  {
    var p := PrintFields(title, r, fs);
    var after := LastBodies(mark, clean, t + p);
    forall g: Field
      ensures g in after <==> g in LastBodies(mark, clean, t) || g in r
      ensures g in after ==> after[g] == if g in r then clean(Framed(r[g])) else LastBodies(mark, clean, t)[g]
    {
      PrintedOverridesField(mark, title, t, r, fs, g);
    }
  }
}
