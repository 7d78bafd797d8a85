/**
 Terminal transcripts as text: removal of escape sequences and line-ending normalization
 (strip_ansi and the two replaces of parse_completion_report).
 */
module Transcript {

  const ESC := '\U{1B}'
  const BEL := '\U{07}'

  // The class [\x00-\x08\x0b\x0c\x0e-\x1f]: every control character but tab, line feed and CR.
  predicate IsControl(c: char) {
    c as int <= 0x08 || c as int == 0x0b || c as int == 0x0c || 0x0e <= c as int <= 0x1f
  }

  predicate IsAsciiLetter(c: char) { 'a' <= c <= 'z' || 'A' <= c <= 'Z' }

  predicate IsParameter(c: char) { '0' <= c <= '9' || c == ';' || c == '?' }

  predicate NotBel(c: char) { c != BEL }

  // Text that is empty or ends with a line feed.
  ghost predicate EndsLine(t: string) { t == "" || t[|t| - 1] == '\n' }

  function SkipWhile(s: string, i: nat, p: char -> bool): (j: nat)
    requires i <= |s|
    ensures i <= j <= |s|
    ensures j < |s| ==> !p(s[j])
    ensures forall k :: i <= k < j ==> p(s[k])
    decreases |s| - i
  {
    if i < |s| && p(s[i]) then SkipWhile(s, i + 1, p) else i
  }

  lemma {:induction false} SkipWhileConcat(t: string, r: string, i: nat, p: char -> bool)
    requires i <= |t| && SkipWhile(t, i, p) < |t|
    ensures SkipWhile(t + r, i, p) == SkipWhile(t, i, p)
    decreases |t| - i
  {
    assert (t + r)[i] == t[i];
    if p(t[i]) { SkipWhileConcat(t, r, i + 1, p); }
  }

  // re.sub(pattern, "", s), the pattern given by the length of its match at the start of a text.
  function DeleteMatches(m: string -> nat, s: string): string
    decreases |s|
  {
    if s == "" then ""
    else if 0 < m(s) <= |s| then DeleteMatches(m, s[m(s)..])
    else [s[0]] + DeleteMatches(m, s[1..])
  }

  lemma {:induction false} DeleteOne(m: string -> nat, s: string)
    requires s != "" && m(s) <= |s|
    ensures DeleteMatches(m, s) == if m(s) > 0 then DeleteMatches(m, s[m(s)..]) else [s[0]] + DeleteMatches(m, s[1..])
  {
  }

  // No match that starts in t takes its last character or runs into r.
  ghost predicate StopsAt(m: string -> nat, t: string, r: string) {
    forall i :: 0 <= i < |t| ==> m(t[i..] + r) == m(t[i..]) < |t| - i
  }

  lemma {:induction false} StopsAtTail(m: string -> nat, t: string, r: string, n: nat)
    requires StopsAt(m, t, r) && n <= |t|
    ensures StopsAt(m, t[n..], r)
  {
    forall i | 0 <= i < |t[n..]| ensures m(t[n..][i..] + r) == m(t[n..][i..]) < |t[n..]| - i {
      assert t[n..][i..] == t[n + i..];
    }
  }

  lemma {:induction false} DeleteKeepsEnd(m: string -> nat, t: string, r: string)
    requires EndsLine(t) && StopsAt(m, t, r)
    ensures EndsLine(DeleteMatches(m, t)) && (t != "" ==> DeleteMatches(m, t) != "")
    decreases |t|
  {
    if t != "" {
      assert t[0..] == t;
      StopsAtTail(m, t, r, if m(t) > 0 then m(t) else 1);
      DeleteKeepsEnd(m, t[if m(t) > 0 then m(t) else 1..], r);
      DeleteOne(m, t);
    }
  }

  lemma {:induction false} JoinSkips(t: string, r: string, n: nat)
    requires 0 < n <= |t|
    ensures (t + r)[n..] == t[n..] + r && (t + r)[0] == t[0] && (EndsLine(t) ==> EndsLine(t[n..]))
  {
  }

  lemma {:induction false} CharConcat(c: char, a: string, b: string)
    ensures [c] + (a + b) == ([c] + a) + b
  {
  }

  // One deletion step at the start of both texts; a and b are what the rest and r come to.
  lemma {:induction false} DeleteBoth(m: string -> nat, t: string, r: string, n: nat, a: string, b: string)
    requires t != "" && m(t + r) == m(t) < |t| && n == if m(t) > 0 then m(t) else 1
    requires DeleteMatches(m, t[n..]) == a && DeleteMatches(m, t[n..] + r) == a + b
    ensures DeleteMatches(m, t + r) == DeleteMatches(m, t) + b
  {
    JoinSkips(t, r, n);
    DeleteOne(m, t);
    DeleteOne(m, t + r);
    CharConcat(t[0], a, b);
  }

  lemma {:induction false} DeleteMatchesConcat(m: string -> nat, t: string, r: string)
    requires EndsLine(t) && StopsAt(m, t, r)
    ensures DeleteMatches(m, t + r) == DeleteMatches(m, t) + DeleteMatches(m, r)
    decreases |t|
  {
    if t == "" {
      assert t + r == r;
    } else {
      assert t[0..] == t;
      assert m(t + r) == m(t) < |t|;
      var n := if m(t) > 0 then m(t) else 1;
      var rest := t[n..];
      JoinSkips(t, r, n);
      StopsAtTail(m, t, r, n);
      DeleteMatchesConcat(m, rest, r);
      DeleteBoth(m, t, r, n, DeleteMatches(m, rest), DeleteMatches(m, r));
    }
  }

  // ---------------------------------------------------------------- strip_ansi

  function CsiEnd(s: string): (n: nat)
    requires |s| >= 2
    ensures n <= |s|
  {
    var j := SkipWhile(s, 2, IsParameter);
    if j < |s| && IsAsciiLetter(s[j]) then j + 1 else 0
  }

  function OscEnd(s: string): (n: nat)
    requires |s| >= 2
    ensures n <= |s|
  {
    var j := SkipWhile(s, 2, NotBel);
    if j < |s| then j + 1 else 0
  }

  // Length of the match of the escape-sequence expression at the start of s; 0 when it does not match.
  function MatchLength(s: string): (n: nat)
    ensures n <= |s|
  {
    if s == "" then 0
    else if s[0] == ESC && |s| >= 2 && s[1] == '[' && CsiEnd(s) > 0 then CsiEnd(s)
    else if s[0] == ESC && |s| >= 2 && s[1] == ']' && OscEnd(s) > 0 then OscEnd(s)
    else if s[0] == ESC && |s| >= 2 && (s[1] == '=' || s[1] == '>') then 2
    else if IsControl(s[0]) then 1
    else 0
  }

  function StripAnsi(s: string): string { DeleteMatches(MatchLength, s) }

  lemma {:induction false} CsiEndConcat(t: string, r: string)
    requires |t| >= 3 && EndsLine(t)
    ensures CsiEnd(t + r) == CsiEnd(t) < |t|
  {
    var j := SkipWhile(t, 2, IsParameter);
    assert !IsParameter(t[|t| - 1]);
    SkipWhileConcat(t, r, 2, IsParameter);
    assert (t + r)[j] == t[j];
  }

  // Every OSC sequence that t opens is closed in t.
  ghost predicate OscClosed(t: string) {
    forall i :: 0 <= i < |t| - 1 && t[i] == ESC && t[i + 1] == ']' ==> BEL in t[i + 2..]
  }

  // Nothing of r can close a sequence that t left open.
  ghost predicate Separate(t: string, r: string) { BEL !in r || OscClosed(t) }

  lemma {:induction false} SeparateTail(t: string, r: string, n: nat)
    requires Separate(t, r) && n <= |t|
    ensures Separate(t[n..], r)
  {
    if BEL in r {
      var u := t[n..];
      forall i | 0 <= i < |u| - 1 && u[i] == ESC && u[i + 1] == ']' ensures BEL in u[i + 2..] {
        assert t[n + i] == ESC && t[n + i + 1] == ']';
        assert u[i + 2..] == t[n + i + 2..];
      }
    }
  }

  lemma {:induction false} OscEndConcat(t: string, r: string)
    requires |t| >= 3 && EndsLine(t) && (BEL !in r || BEL in t[2..])
    ensures OscEnd(t + r) == OscEnd(t) < |t|
  {
    var u := t + r;
    if SkipWhile(t, 2, NotBel) < |t| {
      SkipWhileConcat(t, r, 2, NotBel);
    } else {
      assert forall k :: 2 <= k < |t| ==> u[k] == t[k];
      assert forall k :: |t| <= k < |u| ==> u[k] == r[k - |t|] && u[k] in r;
      assert SkipWhile(u, 2, NotBel) == |u|;
    }
  }

  // A terminated line keeps every escape sequence inside it, unless what follows closes an open one.
  lemma {:induction false} MatchLengthConcat(t: string, r: string)
    requires t != "" && EndsLine(t) && Separate(t, r)
    ensures MatchLength(t + r) == MatchLength(t) < |t|
  {
    var u := t + r;
    assert u[0] == t[0];
    if t[0] == ESC {
      assert u[1] == t[1];
      if t[1] == '[' {
        CsiEndConcat(t, r);
      } else if t[1] == ']' {
        OscEndConcat(t, r);
      }
    }
  }

  // strip_ansi distributes over a join at a line boundary, unless the second text closes a sequence that
  // the first one left open, and keeps the boundary.
  lemma {:induction false} StripAnsiConcat(t: string, r: string)
    requires EndsLine(t) && Separate(t, r)
    ensures StripAnsi(t + r) == StripAnsi(t) + StripAnsi(r)
    ensures EndsLine(StripAnsi(t))
  {
    forall i | 0 <= i < |t| ensures MatchLength(t[i..] + r) == MatchLength(t[i..]) < |t| - i {
      SeparateTail(t, r, i);
      MatchLengthConcat(t[i..], r);
    }
    DeleteKeepsEnd(MatchLength, t, r);
    DeleteMatchesConcat(MatchLength, t, r);
  }

  lemma {:induction false} StripAnsiLeavesNoControl(s: string)
    ensures forall c :: c in StripAnsi(s) ==> !IsControl(c)
    decreases |s|
  {
    if s != "" {
      var n := if MatchLength(s) > 0 then MatchLength(s) else 1;
      StripAnsiLeavesNoControl(s[n..]);
    }
  }

  lemma {:induction false} StripAnsiIdentity(s: string)
    requires forall c :: c in s ==> !IsControl(c)
    ensures StripAnsi(s) == s
  {
    if s != "" {
      assert s[0] in s;
      StripAnsiIdentity(s[1..]);
    }
  }

  lemma {:induction false} StripAnsiIdempotent(s: string)
    ensures StripAnsi(StripAnsi(s)) == StripAnsi(s)
  {
    StripAnsiLeavesNoControl(s);
    StripAnsiIdentity(StripAnsi(s));
  }

  // ---------------------------------------------------------------- what is deleted and what is kept

  // One complete escape sequence: CSI with parameters and a letter, OSC up to BEL, or a keypad mode.
  ghost predicate Sequence(q: string) {
    || (exists params, letter :: IsCsi(q, params, letter))
    || (exists body :: IsOsc(q, body))
    || q == [ESC, '='] || q == [ESC, '>']
  }

  ghost predicate IsCsi(q: string, params: string, letter: char) {
    && (forall c :: c in params ==> '0' <= c <= '9' || c == ';' || c == '?')
    && ('a' <= letter <= 'z' || 'A' <= letter <= 'Z')
    && q == [ESC, '['] + params + [letter]
  }

  ghost predicate IsOsc(q: string, body: string) { BEL !in body && q == [ESC, ']'] + body + [BEL] }

  // The parts of a sequence, found again at the start of a text.
  lemma {:induction false} CsiMatched(q: string, params: string, letter: char, rest: string)
    requires IsCsi(q, params, letter)
    ensures MatchLength(q + rest) == |q|
  {
    var s, j := q + rest, 2 + |params|;
    assert s[0] == ESC && s[1] == '[' && s[j] == letter;
    forall k | 2 <= k < j ensures IsParameter(s[k]) { assert s[k] == params[k - 2] && s[k] in params; }
    assert SkipWhile(s, 2, IsParameter) == j;
  }

  lemma {:induction false} OscMatched(q: string, body: string, rest: string)
    requires IsOsc(q, body)
    ensures MatchLength(q + rest) == |q|
  {
    var s, j := q + rest, 2 + |body|;
    assert s[0] == ESC && s[1] == ']' && s[j] == BEL;
    forall k | 2 <= k < j ensures NotBel(s[k]) { assert s[k] == body[k - 2] && s[k] in body; }
    assert SkipWhile(s, 2, NotBel) == j;
  }

  lemma {:induction false} SequenceMatched(q: string, rest: string)
    requires Sequence(q)
    ensures |q| >= 2 && MatchLength(q + rest) == |q|
  {
    if params, letter :| IsCsi(q, params, letter) {
      CsiMatched(q, params, letter, rest);
    } else if body :| IsOsc(q, body) {
      OscMatched(q, body, rest);
    } else {
      assert (q + rest)[0] == ESC && (q + rest)[1] == q[1];
    }
  }

  lemma {:induction false} SequenceDeleted(q: string, rest: string)
    requires Sequence(q)
    ensures StripAnsi(q + rest) == StripAnsi(rest)
  {
    SequenceMatched(q, rest);
    assert (q + rest)[|q|..] == rest;
  }

  // A match of more than one character is a sequence.
  lemma {:induction false} MatchIsSequence(s: string)
    requires s != "" && MatchLength(s) > 1
    ensures exists q :: Sequence(q) && q <= s
  {
    var n := MatchLength(s);
    var q := s[..n];
    if s[1] == '[' && CsiEnd(s) > 0 {
      assert q == [ESC, '['] + s[2..n - 1] + [s[n - 1]];
      assert IsCsi(q, s[2..n - 1], s[n - 1]);
    } else if s[1] == ']' && OscEnd(s) > 0 {
      assert q == [ESC, ']'] + s[2..n - 1] + [s[n - 1]];
      assert IsOsc(q, s[2..n - 1]);
    } else {
      assert q == [ESC, s[1]];
    }
    assert Sequence(q) && q <= s;
  }

  // MAIN: an escape sequence at the start of a text is deleted as a whole; where none starts, the first
  // character is deleted if it is a control character other than tab, line feed and carriage return, and
  // kept otherwise. Together this says what strip_ansi gives for every text.
  lemma {:induction false} StripAnsiExactly(s: string)
    ensures forall q :: Sequence(q) && q <= s ==> StripAnsi(s) == StripAnsi(s[|q|..])
    ensures s != "" && (forall q :: Sequence(q) ==> !(q <= s)) ==>
      StripAnsi(s) ==
      (if s[0] < ' ' && s[0] != '\t' && s[0] != '\n' && s[0] != '\r' then "" else [s[0]]) + StripAnsi(s[1..])
  {
    forall q | Sequence(q) && q <= s ensures StripAnsi(s) == StripAnsi(s[|q|..]) {
      SequenceDeleted(q, s[|q|..]);
      assert q + s[|q|..] == s;
    }
    if s != "" && forall q :: Sequence(q) ==> !(q <= s) {
      if MatchLength(s) > 1 { MatchIsSequence(s); }
      OneIsControl(s);
      DeleteOne(MatchLength, s);
    }
  }

  lemma {:induction false} OneIsControl(s: string)
    requires s != "" && MatchLength(s) <= 1
    ensures MatchLength(s) == 1 <==> s[0] < ' ' && s[0] != '\t' && s[0] != '\n' && s[0] != '\r'
  {
  }

  ghost function Joined(qs: seq<string>): string { if qs == [] then "" else qs[0] + Joined(qs[1..]) }

  // p with texts put before each of its characters and after the last.
  ghost function Woven(p: string, between: seq<seq<string>>): string
    requires |between| == |p| + 1
  {
    if p == "" then Joined(between[0]) else Joined(between[0]) + ([p[0]] + Woven(p[1..], between[1..]))
  }

  ghost predicate AllSequences(between: seq<seq<string>>) {
    forall i, q :: 0 <= i < |between| && q in between[i] ==> Sequence(q)
  }

  lemma {:induction false} Assoc(a: string, b: string, c: string)
    ensures a + b + c == a + (b + c)
  {
  }

  lemma {:induction false} JoinedDeleted(qs: seq<string>, rest: string)
    requires forall q :: q in qs ==> Sequence(q)
    ensures StripAnsi(Joined(qs) + rest) == StripAnsi(rest)
  {
    if qs == [] {
      assert Joined(qs) + rest == rest;
    } else {
      JoinedDeleted(qs[1..], rest);
      Assoc(qs[0], Joined(qs[1..]), rest);
      SequenceDeleted(qs[0], Joined(qs[1..]) + rest);
    }
  }

  lemma {:induction false} PlainKept(c: char, rest: string)
    requires !IsControl(c)
    ensures StripAnsi([c] + rest) == [c] + StripAnsi(rest)
  {
    assert ([c] + rest)[1..] == rest;
  }

  lemma {:induction false} WovenStrips(p: string, between: seq<seq<string>>)
    requires |between| == |p| + 1 && AllSequences(between)
    requires forall c :: c in p ==> !IsControl(c)
    ensures StripAnsi(Woven(p, between)) == p
  {
    if p == "" {
      JoinedDeleted(between[0], "");
      assert Joined(between[0]) + "" == Joined(between[0]);
    } else {
      var rest := Woven(p[1..], between[1..]);
      assert p[0] in p;
      WovenStrips(p[1..], between[1..]);
      JoinedDeleted(between[0], [p[0]] + rest);
      PlainKept(p[0], rest);
    }
  }

  // ---------------------------------------------------------------- line endings

  // replace("\r\n", "\n")
  function ReplaceCrLf(s: string): string {
    if s == "" then ""
    else if |s| >= 2 && s[0] == '\r' && s[1] == '\n' then "\n" + ReplaceCrLf(s[2..])
    else [s[0]] + ReplaceCrLf(s[1..])
  }

  // replace("\r", "\n")
  function ReplaceCr(s: string): string {
    seq(|s|, i requires 0 <= i < |s| => if s[i] == '\r' then '\n' else s[i])
  }

  function LineEnds(s: string): string { ReplaceCr(ReplaceCrLf(s)) }

  function CleanTranscript(s: string): string { LineEnds(StripAnsi(s)) }

  // A carriage return ends a line, with a line feed after it or without.
  lemma {:induction false} LineEndsExactly(s: string)
    ensures "\r\n" <= s ==> LineEnds(s) == "\n" + LineEnds(s[2..])
    ensures s != "" && !("\r\n" <= s) ==> LineEnds(s) == [if s[0] == '\r' then '\n' else s[0]] + LineEnds(s[1..])
  {
  }

  lemma {:induction false} ReplaceCrLfConcat(t: string, r: string)
    requires EndsLine(t)
    ensures ReplaceCrLf(t + r) == ReplaceCrLf(t) + ReplaceCrLf(r)
    ensures EndsLine(ReplaceCrLf(t)) && (t != "" ==> ReplaceCrLf(t) != "")
    decreases |t|
  {
    if t == "" {
      assert t + r == r;
    } else {
      var n := if |t| >= 2 && t[0] == '\r' && t[1] == '\n' then 2 else 1;
      assert (t + r)[0] == t[0] && (|t| >= 2 ==> (t + r)[1] == t[1]);
      assert (t + r)[n..] == t[n..] + r;
      ReplaceCrLfConcat(t[n..], r);
    }
  }

  lemma {:induction false} ReplaceCrLfIdentity(s: string)
    requires '\r' !in s
    ensures ReplaceCrLf(s) == s
  {
    if s != "" {
      assert s[0] in s;
      ReplaceCrLfIdentity(s[1..]);
    }
  }

  lemma {:induction false} ReplaceCrConcat(a: string, b: string)
    ensures ReplaceCr(a + b) == ReplaceCr(a) + ReplaceCr(b)
    ensures EndsLine(a) ==> EndsLine(ReplaceCr(a))
  {
  }

  // Cleaning distributes over a join at a line boundary.
  lemma {:induction false} CleanTranscriptConcat(t: string, r: string)
    requires EndsLine(t) && Separate(t, r)
    ensures CleanTranscript(t + r) == CleanTranscript(t) + CleanTranscript(r)
    ensures EndsLine(CleanTranscript(t))
  {
    StripAnsiConcat(t, r);
    ReplaceCrLfConcat(StripAnsi(t), StripAnsi(r));
    ReplaceCrConcat(ReplaceCrLf(StripAnsi(t)), ReplaceCrLf(StripAnsi(r)));
  }

  // ---------------------------------------------------------------- text as a terminal receives it

  ghost predicate PlainText(s: string) { forall c :: c in s ==> !IsControl(c) && c != '\r' }

  // p with a carriage return before some of its line feeds.
  ghost function Typed(p: string, crs: seq<bool>): string
    requires |crs| == |p|
  {
    if p == "" then ""
    else (if p[0] == '\n' && crs[0] then "\r\n" else [p[0]]) + Typed(p[1..], crs[1..])
  }

  // d shows the text p: with carriage returns before some line feeds, and escape sequences anywhere.
  ghost predicate Shows(d: string, p: string) {
    exists crs: seq<bool>, between: seq<seq<string>> ::
      |crs| == |p| && |between| == |Typed(p, crs)| + 1 && AllSequences(between)
      && d == Woven(Typed(p, crs), between)
  }

  lemma {:induction false} TypedCleans(p: string, crs: seq<bool>)
    requires |crs| == |p| && PlainText(p)
    ensures LineEnds(Typed(p, crs)) == p
    ensures forall c :: c in Typed(p, crs) ==> !IsControl(c)
  {
    if p != "" {
      var s, rest := Typed(p, crs), Typed(p[1..], crs[1..]);
      assert p[0] in p;
      TypedCleans(p[1..], crs[1..]);
      LineEndsExactly(s);
      if p[0] == '\n' && crs[0] {
        assert s[..2] == "\r\n" && s[2..] == rest;
      } else {
        assert s[1..] == rest;
      }
    }
  }

  // What shows a plain text is cleaned to it.
  lemma {:induction false} ShownCleans(d: string, p: string)
    requires PlainText(p) && Shows(d, p)
    ensures CleanTranscript(d) == p
  {
    var crs: seq<bool>, between: seq<seq<string>> :|
      |crs| == |p| && |between| == |Typed(p, crs)| + 1 && AllSequences(between)
      && d == Woven(Typed(p, crs), between);
    TypedCleans(p, crs);
    WovenStrips(Typed(p, crs), between);
  }

  lemma {:induction false} PlainCleans(p: string)
    requires PlainText(p)
    ensures CleanTranscript(p) == p
  {
    StripAnsiIdentity(p);
    ReplaceCrLfIdentity(p);
    assert forall i :: 0 <= i < |p| ==> p[i] in p;
  }

  // MAIN: after any transcript that ends a line, text with escape sequences and carriage returns in it is
  // cleaned to the transcript, cleaned, and the plain text it shows; unless it closes a sequence that the
  // transcript left open.
  lemma {:induction false} ShownAfter(t: string, d: string, p: string)
    requires EndsLine(t) && Separate(t, d) && PlainText(p) && Shows(d, p)
    ensures CleanTranscript(t + d) == CleanTranscript(t) + p
    ensures EndsLine(CleanTranscript(t))
  {
    CleanTranscriptConcat(t, d);
    ShownCleans(d, p);
  }
}
