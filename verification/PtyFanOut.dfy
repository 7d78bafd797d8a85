/**
 Output of one PTY session: a bounded buffer, the reader thread that fills it and sends every chunk
 to the subscribers, and viewers that join late (app/services/agent_session_manager.py). The locked
 section of the reader and each of its later sends are separate steps.
 */
module PtyFanOut {

  type Byte = b: int | 0 <= b < 256 witness 0

  const BUFFER_CAP: nat := 200_000

  // `end` is what stands in s from position `from` on.
  ghost predicate StandsAt(s: seq<Byte>, from: int, end: seq<Byte>) {
    0 <= from && from + |end| <= |s| && forall i :: 0 <= i < |end| ==> end[i] == s[from + i]
  }

  // The last n bytes, or all when there are fewer.
  function Last(s: seq<Byte>, n: nat): (r: seq<Byte>)
    ensures |r| == if |s| < n then |s| else n
    ensures StandsAt(s, |s| - |r|, r)
  {
    if |s| <= n then s else s[|s| - n..]
  }

  // The buffer after a chunk: extended, then cut at the front.
  function Trimmed(buffer: seq<Byte>, chunk: seq<Byte>): seq<Byte> {
    var b := buffer + chunk;
    if |b| > BUFFER_CAP then b[|b| - BUFFER_CAP..] else b
  }

  // Cutting what was already cut loses nothing more.
  lemma TrimmedIsLast(output: seq<Byte>, chunk: seq<Byte>)
    ensures Trimmed(Last(output, BUFFER_CAP), chunk) == Last(output + chunk, BUFFER_CAP)
  {
    var kept := Last(output, BUFFER_CAP);
    if |output| > BUFFER_CAP {
      assert output + chunk == output[..|output| - BUFFER_CAP] + (kept + chunk);
    }
  }

  lemma LastOfLast(s: seq<Byte>, m: nat, n: nat)
    ensures Last(Last(s, m), n) == Last(s, if m < n then m else n)
  {
  }

  // ---------------------------------------------------------------- the machine

  // A viewer: the tail it was given when `at` bytes had been put out, the bytes it was sent since and
  // where each stood in the output, and the bytes of sends that failed. gap records that a send to it
  // succeeded after one had failed.
  datatype Viewer = Viewer(at: nat, tail: seq<Byte>, received: seq<Byte>, positions: seq<nat>, missed: nat, gap: bool)

  // output is everything the process wrote; waiting are the viewers the chunk in hand is still to be
  // sent to.
  datatype State = State(
    output: seq<Byte>, buffer: seq<Byte>, subscribers: set<nat>, closed: bool,
    chunk: seq<Byte>, waiting: set<nat>, viewers: map<nat, Viewer>)

  const Opened := State([], [], {}, false, [], {}, map[])

  // Viewers are never reused: every connection subscribes its own callback.
  datatype Step =
    | Append(chunk: seq<Byte>)
    | Send(viewer: nat, ok: bool)
    | Subscribe(viewer: nat)
    | Unsubscribe(viewer: nat)
    | Finish

  predicate Enabled(s: State, step: Step) {
    match step
    case Append(chunk) => !s.closed && s.waiting == {} && chunk != []
    case Send(v, _) => v in s.waiting && v in s.viewers && |s.chunk| <= |s.output|
    case Subscribe(v) => v !in s.viewers
    case Unsubscribe(_) => true
    case Finish => !s.closed && s.waiting == {}
  }

  function NewViewer(at: nat, tail: seq<Byte>): Viewer { Viewer(at, tail, [], [], 0, false) }

  // The chunk that ends at `upTo` is sent to the viewer.
  function Sent(viewer: Viewer, chunk: seq<Byte>, upTo: nat, ok: bool): Viewer
    requires |chunk| <= upTo
  {
    if !ok then viewer.(missed := viewer.missed + |chunk|)
    else viewer.(received := viewer.received + chunk, positions := viewer.positions + Span(upTo - |chunk|, |chunk|),
      gap := viewer.gap || viewer.missed > 0)
  }

  function Span(from: nat, n: nat): (r: seq<nat>)
    ensures |r| == n && forall i :: 0 <= i < n ==> r[i] == from + i
  {
    seq(n, (i: nat) => from + i)
  }

  function Apply(s: State, step: Step): State
    requires Enabled(s, step)
  {
    match step
    case Append(chunk) =>
      s.(output := s.output + chunk, buffer := Trimmed(s.buffer, chunk), chunk := chunk, waiting := s.subscribers)
    case Send(v, ok) =>
      s.(waiting := s.waiting - {v}, viewers := s.viewers[v := Sent(s.viewers[v], s.chunk, |s.output|, ok)])
    case Subscribe(v) =>
      s.(subscribers := s.subscribers + {v}, viewers := s.viewers[v := NewViewer(|s.output|, s.buffer)])
    case Unsubscribe(v) => s.(subscribers := s.subscribers - {v})
    case Finish => s.(closed := true)
  }

  ghost predicate Leads(s: State, step: Step, s': State) { Enabled(s, step) && s' == Apply(s, step) }

  ghost predicate IsRun(states: seq<State>, steps: seq<Step>) {
    && |states| == |steps| + 1 && states[0] == Opened
    && forall i :: 0 <= i < |steps| ==> Leads(states[i], steps[i], states[i + 1])
  }

  lemma StepOf(states: seq<State>, steps: seq<Step>, i: nat)
    requires IsRun(states, steps) && i < |steps|
    ensures Leads(states[i], steps[i], states[i + 1])
  {
  }

  // ---------------------------------------------------------------- no gap and no repeat

  // Bytes of the output that were put out for the viewer since it joined, sent or not.
  ghost function Offered(viewer: Viewer): nat { viewer.at + |viewer.received| + viewer.missed }

  // The viewer's tail and chunks are one piece of the output.
  ghost predicate OnePiece(output: seq<Byte>, viewer: Viewer) {
    var from, upTo := viewer.at - |viewer.tail|, viewer.at + |viewer.received|;
    0 <= from && upTo <= |output| && viewer.tail + viewer.received == output[from..upTo]
  }

  // Every byte the viewer was sent is the one that stands at its position, in the order of the output
  // and none twice.
  ghost predicate Placed(output: seq<Byte>, viewer: Viewer) {
    && |viewer.positions| == |viewer.received|
    && (forall i :: 0 <= i < |viewer.positions| ==> viewer.at <= viewer.positions[i] < Offered(viewer) <= |output|)
    && (forall i :: 0 <= i < |viewer.positions| ==> output[viewer.positions[i]] == viewer.received[i])
    && forall i, j :: 0 <= i < j < |viewer.positions| ==> viewer.positions[i] < viewer.positions[j]
  }

  // No byte was left out before one that was sent.
  ghost predicate Gapless(viewer: Viewer) {
    forall i :: 0 <= i < |viewer.positions| ==> viewer.positions[i] == viewer.at + i
  }

  // Without a gap all is in place; with one, at least the newest byte stands too late.
  ghost predicate GapOk(viewer: Viewer) {
    var n := |viewer.positions|;
    && (!viewer.gap ==> Gapless(viewer))
    && (viewer.gap ==> n > 0 && viewer.missed > 0 && viewer.positions[n - 1] > viewer.at + n - 1)
  }

  // What a viewer was given and sent fits the output.
  ghost predicate Fits(output: seq<Byte>, viewer: Viewer) {
    && viewer.at <= |output| && Offered(viewer) <= |output|
    && |viewer.tail| == (if viewer.at < BUFFER_CAP then viewer.at else BUFFER_CAP)
    && StandsAt(output, viewer.at - |viewer.tail|, viewer.tail)
    && Placed(output, viewer) && GapOk(viewer)
  }

  ghost predicate ViewerOk(s: State, v: nat)
    requires v in s.viewers
  {
    && Fits(s.output, s.viewers[v])
    && (v in s.waiting ==> Offered(s.viewers[v]) + |s.chunk| == |s.output|)
    && (v in s.subscribers && v !in s.waiting ==> Offered(s.viewers[v]) == |s.output|)
  }

  ghost predicate BufferOk(output: seq<Byte>, buffer: seq<Byte>, chunk: seq<Byte>) {
    && buffer == Last(output, BUFFER_CAP)
    && StandsAt(output, |output| - |chunk|, chunk)
  }

  ghost predicate ViewersOk(s: State) { forall v :: v in s.viewers ==> ViewerOk(s, v) }

  // Only known viewers are subscribed or waited for.
  ghost predicate SetsOk(s: State) {
    s.subscribers <= s.viewers.Keys && s.waiting <= s.viewers.Keys && (s.waiting != {} ==> s.chunk != [])
  }

  ghost predicate Inv(s: State) { BufferOk(s.output, s.buffer, s.chunk) && SetsOk(s) && ViewersOk(s) }

  // What stands in the output right behind the tail makes one piece with it.
  lemma OnePieceBehind(output: seq<Byte>, from: nat, tail: seq<Byte>, received: seq<Byte>)
    requires StandsAt(output, from, tail) && StandsAt(output, from + |tail|, received)
    ensures tail + received == output[from..from + |tail| + |received|]
  {
    var piece := tail + received;
    forall i | 0 <= i < |piece| ensures piece[i] == output[from + i] {
      if i >= |tail| { assert received[i - |tail|] == output[from + |tail| + (i - |tail|)]; }
    }
  }

  // A fitting viewer without a gap has one piece.
  lemma FitIsPiece(output: seq<Byte>, viewer: Viewer)
    requires Fits(output, viewer) && Gapless(viewer)
    ensures OnePiece(output, viewer)
  {
    forall i | 0 <= i < |viewer.received| ensures viewer.received[i] == output[viewer.at + i] {
      assert viewer.positions[i] == viewer.at + i;
    }
    OnePieceBehind(output, viewer.at - |viewer.tail|, viewer.tail, viewer.received);
  }

  lemma GrowKeepsPlaces(output: seq<Byte>, chunk: seq<Byte>, viewer: Viewer)
    requires Placed(output, viewer)
    ensures Placed(output + chunk, viewer)
  {
  }

  lemma GrowKeepsFit(output: seq<Byte>, chunk: seq<Byte>, viewer: Viewer)
    requires Fits(output, viewer)
    ensures Fits(output + chunk, viewer)
  {
    GrowKeepsPlaces(output, chunk, viewer);
  }

  lemma AppendKeeps(s: State, chunk: seq<Byte>)
    requires Inv(s) && Enabled(s, Append(chunk))
    ensures Inv(Apply(s, Append(chunk)))
  {
    var s' := Apply(s, Append(chunk));
    TrimmedIsLast(s.output, chunk);
    forall v | v in s'.viewers ensures ViewerOk(s', v) {
      assert ViewerOk(s, v);
      GrowKeepsFit(s.output, chunk, s.viewers[v]);
    }
  }

  lemma SentKeepsPlaces(output: seq<Byte>, chunk: seq<Byte>, viewer: Viewer, ok: bool)
    requires Placed(output, viewer) && Offered(viewer) + |chunk| == |output|
    requires StandsAt(output, |output| - |chunk|, chunk)
    ensures Placed(output, Sent(viewer, chunk, |output|, ok))
  {
    var viewer' := Sent(viewer, chunk, |output|, ok);
    var n := |viewer.positions|;
    forall i | 0 <= i < |viewer'.positions|
      ensures viewer.at <= viewer'.positions[i] < |output| && output[viewer'.positions[i]] == viewer'.received[i]
    {
      if i >= n { assert chunk[i - n] == output[|output| - |chunk| + (i - n)]; }
    }
  }

  lemma SentKeepsGap(output: seq<Byte>, chunk: seq<Byte>, viewer: Viewer, ok: bool)
    requires Placed(output, viewer) && GapOk(viewer) && Offered(viewer) + |chunk| == |output| && chunk != []
    ensures GapOk(Sent(viewer, chunk, |output|, ok))
  {
  }

  lemma SentKeepsFit(output: seq<Byte>, chunk: seq<Byte>, viewer: Viewer, ok: bool)
    requires Fits(output, viewer) && Offered(viewer) + |chunk| == |output| && chunk != []
    requires StandsAt(output, |output| - |chunk|, chunk)
    ensures Fits(output, Sent(viewer, chunk, |output|, ok))
  {
    SentKeepsPlaces(output, chunk, viewer, ok);
    SentKeepsGap(output, chunk, viewer, ok);
  }

  // A step of one viewer leaves the others alone, so only it has to be looked at.
  lemma OneViewerStep(s: State, s': State, v: nat)
    requires ViewersOk(s) && s'.output == s.output && s'.chunk == s.chunk
    requires s'.viewers.Keys == s.viewers.Keys + {v} && forall u :: u in s.viewers && u != v ==>
      s'.viewers[u] == s.viewers[u]
    requires forall u :: u != v ==>
      (u in s'.waiting <==> u in s.waiting) && (u in s'.subscribers <==> u in s.subscribers)
    requires ViewerOk(s', v)
    ensures ViewersOk(s')
  {
    forall u | u in s'.viewers && u != v ensures ViewerOk(s', u) {
      assert ViewerOk(s, u);
    }
  }

  lemma SentViewerOk(s: State, v: nat, ok: bool)
    requires Inv(s) && Enabled(s, Send(v, ok))
    ensures ViewerOk(Apply(s, Send(v, ok)), v)
  {
    assert ViewerOk(s, v);
    SentKeepsFit(s.output, s.chunk, s.viewers[v], ok);
  }

  lemma SendKeeps(s: State, v: nat, ok: bool)
    requires Inv(s) && Enabled(s, Send(v, ok))
    ensures Inv(Apply(s, Send(v, ok)))
  {
    SentViewerOk(s, v, ok);
    OneViewerStep(s, Apply(s, Send(v, ok)), v);
  }

  lemma NewViewerFits(output: seq<Byte>, tail: seq<Byte>)
    requires |tail| == (if |output| < BUFFER_CAP then |output| else BUFFER_CAP) &&
      StandsAt(output, |output| - |tail|, tail)
    ensures Fits(output, NewViewer(|output|, tail))
  {
    var viewer := NewViewer(|output|, tail);
    assert |viewer.positions| == 0 && Offered(viewer) == |output|;
    assert Placed(output, viewer) && GapOk(viewer);
  }

  lemma NewViewerOk(s: State, v: nat)
    requires Inv(s) && Enabled(s, Subscribe(v))
    ensures ViewerOk(Apply(s, Subscribe(v)), v)
  {
    NewViewerFits(s.output, s.buffer);
    assert v !in s.waiting;
  }

  lemma SubscribeKeepsViewers(s: State, v: nat)
    requires Inv(s) && Enabled(s, Subscribe(v))
    ensures ViewersOk(Apply(s, Subscribe(v)))
  {
    NewViewerOk(s, v);
    OneViewerStep(s, Apply(s, Subscribe(v)), v);
  }

  lemma SubscribeKeeps(s: State, v: nat)
    requires Inv(s) && Enabled(s, Subscribe(v))
    ensures Inv(Apply(s, Subscribe(v)))
  {
    SubscribeKeepsViewers(s, v);
  }

  lemma LeaveKeeps(s: State, step: Step)
    requires Inv(s) && Enabled(s, step) && (step.Unsubscribe? || step.Finish?)
    ensures Inv(Apply(s, step))
  {
    forall u | u in s.viewers ensures ViewerOk(Apply(s, step), u) { assert ViewerOk(s, u); }
  }

  lemma StepKeepsInv(s: State, step: Step)
    requires Inv(s) && Enabled(s, step)
    ensures Inv(Apply(s, step))
  {
    match step
    case Append(chunk) => AppendKeeps(s, chunk);
    case Send(v, ok) => SendKeeps(s, v, ok);
    case Subscribe(v) => SubscribeKeeps(s, v);
    case _ => LeaveKeeps(s, step);
  }

  lemma {:induction false} RunKeepsInv(states: seq<State>, steps: seq<Step>, k: nat)
    requires IsRun(states, steps) && k <= |steps|
    ensures Inv(states[k])
  {
    if k > 0 {
      RunKeepsInv(states, steps, k - 1);
      StepOf(states, steps, k - 1);
      StepKeepsInv(states[k - 1], steps[k - 1]);
    }
  }

  // MAIN: in every state of every run the buffer is the last BUFFER_CAP bytes of the output.
  lemma BufferIsLastOutput(states: seq<State>, steps: seq<Step>, k: nat)
    requires IsRun(states, steps) && k <= |steps|
    ensures states[k].buffer == Last(states[k].output, BUFFER_CAP)
  {
    RunKeepsInv(states, steps, k);
  }

  // MAIN: a viewer is sent bytes of the output in order and none twice. They follow on from its tail
  // without a gap if and only if no send to it succeeded after one had failed, and then tail and chunks
  // are one piece of the output that starts at most BUFFER_CAP bytes before it joined. While it stays
  // subscribed it is behind only by the chunk in hand and by the sends that failed.
  lemma ViewerSeesOnePiece(states: seq<State>, steps: seq<Step>, k: nat, v: nat)
    requires IsRun(states, steps) && k <= |steps| && v in states[k].viewers
    ensures
      var s, viewer := states[k], states[k].viewers[v];
      && |viewer.tail| == (if viewer.at < BUFFER_CAP then viewer.at else BUFFER_CAP)
      && Placed(s.output, viewer)
      && (Gapless(viewer) <==> !viewer.gap)
      && (Gapless(viewer) ==> OnePiece(s.output, viewer))
      && (v in s.subscribers ==>
        |s.output| - (viewer.at + |viewer.received|) == viewer.missed + if v in s.waiting then |s.chunk| else 0)
  {
    RunKeepsInv(states, steps, k);
    assert ViewerOk(states[k], v);
    if Gapless(states[k].viewers[v]) { FitIsPiece(states[k].output, states[k].viewers[v]); }
  }

  // The viewer subscribed at step i and has not left since.
  ghost predicate Joined(steps: seq<Step>, k: nat, v: nat, i: nat)
    requires k <= |steps|
  {
    i < k && steps[i] == Subscribe(v) && forall j :: i < j < k ==> steps[j] != Unsubscribe(v)
  }

  lemma JoinedOneMore(steps: seq<Step>, k: nat, next: nat, v: nat)
    requires k < |steps| && next == k + 1
    ensures (exists i: nat :: Joined(steps, next, v, i)) <==>
      steps[k] == Subscribe(v) || (steps[k] != Unsubscribe(v) && exists i: nat :: Joined(steps, k, v, i))
  {
    if steps[k] == Subscribe(v) { assert Joined(steps, next, v, k); }
    if i: nat :| Joined(steps, k, v, i) && steps[k] != Unsubscribe(v) { assert Joined(steps, next, v, i); }
    if i: nat :| Joined(steps, next, v, i) { assert i == k || Joined(steps, k, v, i); }
  }

  // MAIN: in every run the subscribers are exactly the viewers that subscribed and have not left since; every
  // chunk is to be sent to all who are subscribed when it is put out, and to nobody else; and the session is
  // closed once it has finished.
  lemma {:induction false} SubscribersExactly(states: seq<State>, steps: seq<Step>, k: nat, v: nat)
    requires IsRun(states, steps) && k <= |steps|
    ensures v in states[k].subscribers <==> exists i: nat :: Joined(steps, k, v, i)
    ensures k > 0 && steps[k - 1].Append? ==> states[k].waiting == states[k - 1].subscribers
    ensures states[k].closed <==> exists i :: 0 <= i < k && steps[i] == Finish
  {
    if k > 0 {
      SubscribersExactly(states, steps, k - 1, v);
      StepOf(states, steps, k - 1);
      JoinedOneMore(steps, k - 1, k, v);
      assert steps[k - 1] == Finish ==> exists i :: 0 <= i < k && steps[i] == Finish;
    }
  }

  // The reader puts out a chunk, or finishes, only after the last one was sent to all and until it has finished;
  // a viewer may leave at any time.
  lemma ReaderInOrder(s: State, chunk: seq<Byte>, v: nat)
    ensures Enabled(s, Append(chunk)) <==> !s.closed && s.waiting == {} && |chunk| > 0
    ensures Enabled(s, Finish) <==> !s.closed && s.waiting == {}
    ensures Enabled(s, Unsubscribe(v)) && v !in Apply(s, Unsubscribe(v)).subscribers
  {
  }

  // A failed send is swallowed and the viewer stays subscribed, so it gets the next chunk after a gap.
  lemma FailedSendLeavesGap(s: State, v: nat, lost: seq<Byte>, next: seq<Byte>)
    requires Inv(s) && !s.closed && s.waiting == {} && s.subscribers == {v} && lost != [] && next != []
    ensures
      var s1 := Apply(s, Append(lost));
      var s2 := Apply(s1, Send(v, false));
      var s3 := Apply(s2, Append(next));
      var s4 := Apply(s3, Send(v, true));
      v in s4.subscribers && !Gapless(s4.viewers[v])
  {
    var s1 := Apply(s, Append(lost));
    var s2 := Apply(s1, Send(v, false));
    var s3 := Apply(s2, Append(next));
    var s4 := Apply(s3, Send(v, true));
    StepKeepsInv(s, Append(lost));
    StepKeepsInv(s1, Send(v, false));
    StepKeepsInv(s2, Append(next));
    StepKeepsInv(s3, Send(v, true));
    assert ViewerOk(s4, v);
  }

  // ---------------------------------------------------------------- live_tail

  // bytes(buffer)[-n:] with Python's reading of a bound that is zero or negative.
  function LiveTail(buffer: seq<Byte>, n: int): seq<Byte> {
    if n > 0 then Last(buffer, n)
    else if -n <= |buffer| then buffer[-n..] else []
  }

  // For a positive bound live_tail is the end of the whole output; for zero it is the whole buffer; a negative
  // one leaves out that many bytes at the front.
  lemma LiveTailIsLastOutput(s: State, n: int)
    requires Inv(s)
    ensures n > 0 ==> LiveTail(s.buffer, n) == Last(s.output, if n < BUFFER_CAP then n else BUFFER_CAP)
    ensures LiveTail(s.buffer, 0) == s.buffer
    ensures n < 0 && -n <= |s.buffer| ==> s.buffer[..-n] + LiveTail(s.buffer, n) == s.buffer
    ensures n < 0 && -n > |s.buffer| ==> LiveTail(s.buffer, n) == []
  {
    if n > 0 { LastOfLast(s.output, BUFFER_CAP, n); }
  }

  // ---------------------------------------------------------------- _wait_ready

  // One round of the polling loop: whether the session had closed, the buffer's length, the clock.
  datatype Sample = Sample(closed: bool, length: nat, time: int)

  ghost predicate SameLength(samples: seq<Sample>, i: int, j: int) {
    0 <= i <= j < |samples| && forall k :: i <= k <= j ==> samples[k].length == samples[j].length
  }

  // From round i to round j the buffer, not empty, kept its length for at least the window.
  ghost predicate QuietFrom(samples: seq<Sample>, i: int, j: int, window: int) {
    i < j && SameLength(samples, i, j) && samples[j].length > 0 && samples[j].time - samples[i].time >= window
  }

  ghost predicate QuietAt(samples: seq<Sample>, j: int, window: int) {
    && 0 <= j < |samples| && (forall k :: 0 <= k <= j ==> !samples[k].closed)
    && exists i :: 0 <= i && QuietFrom(samples, i, j, window)
  }

  // _wait_ready over the rounds before its deadline.
  method WaitReady(samples: seq<Sample>, window: int) returns (ready: bool)
    requires forall i, j :: 0 <= i <= j < |samples| ==> samples[i].time <= samples[j].time
    ensures ready <==> exists j :: QuietAt(samples, j, window)
  {
    var lastLen: int, lastChange := -1, 0;
    ghost var from := 0;
    var k := 0;
    while k < |samples|
      invariant 0 <= k <= |samples| && forall i :: 0 <= i < k ==> !samples[i].closed
      invariant k == 0 <==> lastLen == -1
      invariant k > 0 ==> 0 <= from < k && lastLen == samples[k - 1].length && lastChange == samples[from].time
      invariant k > 0 ==> SameLength(samples, from, k - 1) && (from > 0 ==> samples[from - 1].length != lastLen)
      invariant forall j :: 0 <= j < k ==> !QuietAt(samples, j, window)
    {
      var s := samples[k];
      if s.closed {
        return false;
      }
      if s.length != lastLen {
        assert forall i :: 0 <= i < k ==> !SameLength(samples, i, k);
        lastLen, lastChange, from := s.length, s.time, k;
      } else {
        assert SameLength(samples, from, k);
        if s.length > 0 && s.time - lastChange >= window {
          assert QuietFrom(samples, from, k, window);
          assert QuietAt(samples, k, window);
          return true;
        }
        forall i | 0 <= i ensures !QuietFrom(samples, i, k, window) {
          assert i < from ==> !SameLength(samples, i, k);
        }
      }
      k := k + 1;
    }
    ready := false;
  }

  // The rounds saw the buffer of a session that had put out totals[k] bytes at round k.
  ghost predicate Observes(samples: seq<Sample>, totals: seq<nat>) {
    && |totals| == |samples|
    && (forall i, j :: 0 <= i <= j < |totals| ==> totals[i] <= totals[j])
    && forall k :: 0 <= k < |samples| ==> samples[k].length == if totals[k] < BUFFER_CAP then totals[k] else BUFFER_CAP
  }

  // Below the cap, a ready answer means that nothing was put out during the window.
  lemma ReadyMeansQuiet(samples: seq<Sample>, totals: seq<nat>, i: int, j: int, window: int)
    requires Observes(samples, totals) && 0 <= i && QuietFrom(samples, i, j, window) && samples[j].length < BUFFER_CAP
    ensures forall k :: i <= k <= j ==> totals[k] == totals[j]
  {
    forall k | i <= k <= j ensures totals[k] == totals[j] {
      assert samples[k].length == samples[j].length;
    }
  }

  // At the cap it means nothing: the answer is ready however much is put out.
  lemma SaturatedAlwaysLooksQuiet(samples: seq<Sample>, totals: seq<nat>, i: int, j: int, window: int)
    requires Observes(samples, totals) && 0 <= i < j < |samples| && totals[i] >= BUFFER_CAP
    requires samples[j].time - samples[i].time >= window && forall k :: 0 <= k <= j ==> !samples[k].closed
    ensures QuietAt(samples, j, window)
  {
    assert forall k :: i <= k <= j ==> totals[i] <= totals[k];
    assert SameLength(samples, i, j);
    assert QuietFrom(samples, i, j, window);
  }

  // ---------------------------------------------------------------- the session object

  class LivePtySession {
    var buffer: seq<Byte>
    var subscribers: set<nat>
    var closed: bool
    ghost var output: seq<Byte>

    ghost predicate Valid()
      reads this
    {
      buffer == Last(output, BUFFER_CAP)
    }

    constructor ()
      ensures Valid() && output == [] && subscribers == {} && !closed
    {
      buffer, subscribers, closed, output := [], {}, false, [];
    }

    // The reader's locked section: returns the callbacks this chunk is to be sent to.
    method Append(chunk: seq<Byte>) returns (subs: set<nat>)
      requires Valid()
      modifies this`buffer, this`output
      ensures Valid() && output == old(output) + chunk && buffer == Trimmed(old(buffer), chunk)
      ensures subs == subscribers
    {
      ghost var was, grown := buffer, output + chunk;
      TrimmedIsLast(output, chunk);
      buffer := buffer + chunk;
      if |buffer| > BUFFER_CAP {
        buffer := buffer[|buffer| - BUFFER_CAP..];
      }
      assert buffer == Trimmed(was, chunk) == Last(grown, BUFFER_CAP);
      output := grown;
      subs := subscribers;
    }

    method Finish()
      modifies this`closed
      ensures closed
    {
      closed := true;
    }

    method Subscribe(v: nat) returns (tail: seq<Byte>)
      requires Valid()
      modifies this`subscribers
      ensures subscribers == old(subscribers) + {v} && tail == Last(output, BUFFER_CAP)
    {
      subscribers := subscribers + {v};
      tail := buffer;
    }

    method Unsubscribe(v: nat)
      modifies this`subscribers
      ensures subscribers == old(subscribers) - {v}
    {
      subscribers := subscribers - {v};
    }

    method Tail(n: int) returns (tail: seq<Byte>)
      requires Valid()
      ensures tail == LiveTail(buffer, n)
      ensures n > 0 ==> tail == Last(output, if n < BUFFER_CAP then n else BUFFER_CAP)
    {
      tail := LiveTail(buffer, n);
      if n > 0 { LastOfLast(output, BUFFER_CAP, n); }
    }
  }
}
