/**
 The two greedy selections behind one execution wave: the safe candidate set of
 app/services/parallel_safety_service.py and the capacity selection at the end of
 plan_execution_wave in app/services/execution_wave_service.py.
 */
module CandidateSets {
  import opened Wrappers
  import opened TaskReadiness

  // True when evaluate_pair answers PARALLEL_SAFE.
  type Safety = (nat, nat) -> bool

  datatype Reason =
    | Waiting(readiness: Readiness)
    | ProjectCapacityReached
    | RepositorySerialExecution
    | NotParallelSafe(against: nat)
    | ProviderCapacityReached(provider: string)

  datatype Deferral = Deferral(task: nat, reason: Reason)

  ghost function DeferredUpTo(ds: seq<Deferral>, k: nat): multiset<nat>
    requires k <= |ds|
  {
    if k == 0 then multiset{} else DeferredUpTo(ds, k - 1) + multiset{ds[k - 1].task}
  }

  ghost function DeferredIds(ds: seq<Deferral>): multiset<nat> { DeferredUpTo(ds, |ds|) }

  lemma {:induction false} DeferredPrefix(a: seq<Deferral>, b: seq<Deferral>, k: nat)
    requires k <= |a| && k <= |b| && forall i :: 0 <= i < k ==> a[i] == b[i]
    ensures DeferredUpTo(a, k) == DeferredUpTo(b, k)
  {
    if k > 0 { DeferredPrefix(a, b, k - 1); }
  }

  lemma {:induction false} DeferredAppend(ds: seq<Deferral>, d: Deferral)
    ensures DeferredIds(ds + [d]) == DeferredIds(ds) + multiset{d.task}
  {
    DeferredPrefix(ds + [d], ds, |ds|);
  }

  lemma {:induction false} DeferredConcat(a: seq<Deferral>, b: seq<Deferral>, k: nat)
    requires k <= |b|
    ensures DeferredUpTo(a + b, |a| + k) == DeferredIds(a) + DeferredUpTo(b, k)
  {
    if k == 0 {
      DeferredPrefix(a + b, a, |a|);
    } else {
      DeferredConcat(a, b, k - 1);
      var n, ab := |a| + k, a + b;
      assert ab[n - 1] == b[k - 1];
      assert DeferredUpTo(ab, n) == DeferredUpTo(ab, n - 1) + multiset{b[k - 1].task};
    }
  }

  lemma {:induction false} DeferredJoin(a: seq<Deferral>, b: seq<Deferral>)
    ensures DeferredIds(a + b) == DeferredIds(a) + DeferredIds(b)
  {
    DeferredConcat(a, b, |b|);
    assert |a + b| == |a| + |b|;
  }

  lemma {:induction false} DeferralOf(ds: seq<Deferral>, k: nat, t: nat)
    requires k <= |ds| && t in DeferredUpTo(ds, k)
    ensures exists e :: e in ds && e.task == t
  {
    if ds[k - 1].task == t { assert ds[k - 1] in ds; } else { DeferralOf(ds, k - 1, t); }
  }

  // ---------------------------------------------------------------- evaluate_candidate_set

  // The first chosen Task, from position k on, that c is not safe with.
  function FirstConflict(safe: Safety, c: Candidate, chosen: seq<Candidate>, k: nat): Option<nat>
    requires k <= |chosen|
    decreases |chosen| - k
  {
    if k == |chosen| then None
    else if !safe(c.task, chosen[k].task) then Some(chosen[k].task)
    else FirstConflict(safe, c, chosen, k + 1)
  }

  // The safe set among the first k candidates.
  function SafeSet(safe: Safety, cs: seq<Candidate>, k: nat): seq<Candidate>
    requires k <= |cs|
  {
    if k == 0 then []
    else
      var chosen, c := SafeSet(safe, cs, k - 1), cs[k - 1];
      if FirstConflict(safe, c, chosen, 0).None? then chosen + [c] else chosen
  }

  function UnsafeDeferrals(safe: Safety, cs: seq<Candidate>, k: nat): seq<Deferral>
    requires k <= |cs|
  {
    if k == 0 then []
    else
      var before, c := UnsafeDeferrals(safe, cs, k - 1), cs[k - 1];
      match FirstConflict(safe, c, SafeSet(safe, cs, k - 1), 0)
      case Some(against) => before + [Deferral(c.task, NotParallelSafe(against))]
      case None => before
  }

  datatype CandidateSet = CandidateSet(selected: seq<Candidate>, deferred: seq<Deferral>)

  function CandidateSetOf(safe: Safety, cs: seq<Candidate>): CandidateSet {
    CandidateSet(SafeSet(safe, cs, |cs|), UnsafeDeferrals(safe, cs, |cs|))
  }

  method EvaluateCandidateSet(
    safe: Safety, cs: seq<Candidate>) returns (selected: seq<Candidate>, deferred: seq<Deferral>)
    ensures CandidateSet(selected, deferred) == CandidateSetOf(safe, cs)
  {
    selected, deferred := [], [];
    for i := 0 to |cs|
      invariant selected == SafeSet(safe, cs, i) && deferred == UnsafeDeferrals(safe, cs, i)
    {
      var conflict: Option<nat> := None;
      var k := 0;
      while k < |selected| && conflict.None?
        invariant 0 <= k <= |selected|
        invariant conflict.None? ==> FirstConflict(safe, cs[i], selected, 0) == FirstConflict(safe, cs[i], selected, k)
        invariant conflict.Some? ==> FirstConflict(safe, cs[i], selected, 0) == conflict
        decreases |selected| - k, conflict.None?
      {
        if !safe(cs[i].task, selected[k].task) {
          conflict := Some(selected[k].task);
        } else {
          k := k + 1;
        }
      }
      match conflict
      case None => selected := selected + [cs[i]];
      case Some(against) => deferred := deferred + [Deferral(cs[i].task, NotParallelSafe(against))];
    }
  }

  lemma {:induction false} ConflictFound(safe: Safety, c: Candidate, chosen: seq<Candidate>, k: nat)
    requires k <= |chosen|
    ensures match FirstConflict(safe, c, chosen, k)
      case None => forall i :: k <= i < |chosen| ==> safe(c.task, chosen[i].task)
      case Some(against) => !safe(c.task, against) && exists i :: k <= i < |chosen| && chosen[i].task == against
    decreases |chosen| - k
  {
    if k < |chosen| { ConflictFound(safe, c, chosen, k + 1); }
  }

  ghost predicate PairwiseSafe(safe: Safety, s: seq<Candidate>) {
    forall i, j :: 0 <= i < j < |s| ==> safe(s[j].task, s[i].task)
  }

  // Every two members of the safe set are safe with each other, in the order they were examined.
  lemma {:induction false} SafeSetIsSafe(safe: Safety, cs: seq<Candidate>, k: nat)
    requires k <= |cs|
    ensures PairwiseSafe(safe, SafeSet(safe, cs, k))
  {
    if k > 0 {
      SafeSetIsSafe(safe, cs, k - 1);
      ConflictFound(safe, cs[k - 1], SafeSet(safe, cs, k - 1), 0);
    }
  }

  // A candidate is left out only for a conflict with a member of the final safe set.
  lemma {:induction false} UnsafeDeferralsJustified(safe: Safety, cs: seq<Candidate>, k: nat)
    requires k <= |cs|
    ensures forall d :: d in UnsafeDeferrals(safe, cs, k) ==>
      d.reason.NotParallelSafe? && !safe(d.task, d.reason.against) && d.reason.against in TaskIds(SafeSet(safe, cs, k))
  {
    if k > 0 {
      UnsafeDeferralsJustified(safe, cs, k - 1);
      var chosen, c := SafeSet(safe, cs, k - 1), cs[k - 1];
      ConflictFound(safe, c, chosen, 0);
      IdsAppend(chosen, c);
      match FirstConflict(safe, c, chosen, 0)
      case None =>
      case Some(against) => IdIn(chosen, against);
    }
  }

  lemma {:induction false} SplitSafe(safe: Safety, cs: seq<Candidate>, k: nat)
    requires k <= |cs|
    ensures TaskIds(SafeSet(safe, cs, k)) + DeferredIds(UnsafeDeferrals(safe, cs, k)) == IdsUpTo(cs, k)
  {
    if k > 0 {
      var chosen, c := SafeSet(safe, cs, k - 1), cs[k - 1];
      SplitSafe(safe, cs, k - 1);
      PutOne(TaskIds(chosen), DeferredIds(UnsafeDeferrals(safe, cs, k - 1)), IdsUpTo(cs, k - 1), multiset{c.task});
      match FirstConflict(safe, c, chosen, 0)
      case None => IdsAppend(chosen, c);
      case Some(against) =>
        DeferredAppend(UnsafeDeferrals(safe, cs, k - 1), Deferral(c.task, NotParallelSafe(against)));
    }
  }

  lemma {:induction false} SafeSetFrom(safe: Safety, cs: seq<Candidate>, k: nat)
    requires k <= |cs|
    ensures forall c :: c in SafeSet(safe, cs, k) ==> c in cs
  {
    if k > 0 { SafeSetFrom(safe, cs, k - 1); }
  }

  // ---------------------------------------------------------------- capacity selection

  // What a selection may still use: slots of the project, and a cap on the live sessions of some providers.
  datatype Limits = Limits(room: nat, caps: map<string, int>, live: string -> nat)

  // Candidates of each provider among the first k.
  function Providers(cs: seq<Candidate>, k: nat): multiset<string>
    requires k <= |cs|
  {
    if k == 0 then multiset{} else Providers(cs, k - 1) + multiset{cs[k - 1].provider}
  }

  function AllProviders(cs: seq<Candidate>): multiset<string> { Providers(cs, |cs|) }

  predicate AtCap(l: Limits, p: string, used: nat) {
    p in l.caps && l.live(p) + used >= l.caps[p]
  }

  datatype Outcome = Take | ProjectFull | ProviderFull

  function Decide(l: Limits, taken: seq<Candidate>, c: Candidate): Outcome {
    if |taken| >= l.room then Outcome.ProjectFull
    else if AtCap(l, c.provider, AllProviders(taken)[c.provider]) then Outcome.ProviderFull
    else Take
  }

  function TakeOne(l: Limits, taken: seq<Candidate>, c: Candidate): seq<Candidate> {
    if Decide(l, taken, c).Take? then taken + [c] else taken
  }

  function DeferOne(l: Limits, taken: seq<Candidate>, ds: seq<Deferral>, c: Candidate): seq<Deferral> {
    var outcome := Decide(l, taken, c);
    if outcome.Take? then ds else ds + [Deferral(c.task, CapacityReason(outcome, c))]
  }

  // What the loop has taken after k candidates.
  function Taken(l: Limits, cs: seq<Candidate>, k: nat): seq<Candidate>
    requires k <= |cs|
  {
    if k == 0 then []
    else TakeOne(l, Taken(l, cs, k - 1), cs[k - 1])
  }

  function CapacityReason(outcome: Outcome, c: Candidate): Reason {
    if outcome.ProjectFull? then ProjectCapacityReached else ProviderCapacityReached(c.provider)
  }

  function CapacityDeferrals(l: Limits, cs: seq<Candidate>, k: nat): seq<Deferral>
    requires k <= |cs|
  {
    if k == 0 then []
    else DeferOne(l, Taken(l, cs, k - 1), CapacityDeferrals(l, cs, k - 1), cs[k - 1])
  }

  lemma {:induction false} ProvidersPrefix(a: seq<Candidate>, b: seq<Candidate>, k: nat)
    requires k <= |a| && k <= |b| && forall i :: 0 <= i < k ==> a[i] == b[i]
    ensures Providers(a, k) == Providers(b, k)
  {
    if k > 0 { ProvidersPrefix(a, b, k - 1); }
  }

  lemma {:induction false} ProvidersAppend(cs: seq<Candidate>, c: Candidate)
    ensures AllProviders(cs + [c]) == AllProviders(cs) + multiset{c.provider}
  {
    ProvidersPrefix(cs + [c], cs, |cs|);
  }

  // The places of one provider's candidates.
  ghost function Places(cs: seq<Candidate>, k: nat, p: string): set<nat>
    requires k <= |cs|
  {
    set i: nat | i < k && cs[i].provider == p
  }

  lemma {:induction false} OneMorePlace(cs: seq<Candidate>, k: nat, p: string)
    requires k < |cs|
    ensures |Places(cs, k + 1, p)| == |Places(cs, k, p)| + if cs[k].provider == p then 1 else 0
  {
    if cs[k].provider == p {
      assert Places(cs, k + 1, p) == Places(cs, k, p) + {k};
    } else {
      assert Places(cs, k + 1, p) == Places(cs, k, p);
    }
  }

  lemma {:induction false} ProvidersCount(cs: seq<Candidate>, k: nat, p: string)
    requires k <= |cs|
    ensures Providers(cs, k)[p] == |Places(cs, k, p)|
  {
    if k == 0 {
      assert Places(cs, 0, p) == {};
    } else {
      ProvidersCount(cs, k - 1, p);
      OneMorePlace(cs, k - 1, p);
    }
  }

  ghost predicate CacheExact(cache: map<string, nat>, live: string -> nat) {
    forall p :: p in cache ==> cache[p] == live(p)
  }

  function Count(used: map<string, nat>, p: string): nat { if p in used then used[p] else 0 }

  ghost predicate Tallies(used: map<string, nat>, cs: seq<Candidate>) {
    forall p :: AllProviders(cs)[p] == Count(used, p)
  }

  lemma {:induction false} TallyOne(used: map<string, nat>, cs: seq<Candidate>, c: Candidate)
    requires Tallies(used, cs)
    ensures Tallies(used[c.provider := Count(used, c.provider) + 1], cs + [c])
  {
    ProvidersAppend(cs, c);
  }

  // The provider check with its cache of live counts, each read once per plan.
  method ProviderHasRoom(
    l: Limits, cache: map<string, nat>, used: nat, p: string) returns (ok: bool, cache': map<string, nat>)
    requires CacheExact(cache, l.live)
    ensures ok == !AtCap(l, p, used) && CacheExact(cache', l.live)
  {
    ok, cache' := true, cache;
    if p in l.caps {
      if p !in cache' {
        cache' := cache'[p := l.live(p)];
      }
      ok := cache'[p] + used < l.caps[p];
    }
  }

  // The loop over the safe candidates, with its running counts per provider.
  method SelectWithinCapacity(l: Limits, cs: seq<Candidate>) returns (selected: seq<Candidate>, deferred: seq<Deferral>)
    ensures selected == Taken(l, cs, |cs|) && deferred == CapacityDeferrals(l, cs, |cs|)
  {
    selected, deferred := [], [];
    var cache: map<string, nat> := map[];
    var used: map<string, nat> := map[];
    for i := 0 to |cs|
      invariant selected == Taken(l, cs, i) && deferred == CapacityDeferrals(l, cs, i)
      invariant CacheExact(cache, l.live) && Tallies(used, selected)
    {
      var c := cs[i];
      ghost var outcome := Decide(l, selected, c);
      CapacityUnfolds(l, cs, i + 1);
      assert AllProviders(selected)[c.provider] == Count(used, c.provider);
      if |selected| >= l.room {
        assert outcome == ProjectFull;
        deferred := deferred + [Deferral(c.task, ProjectCapacityReached)];
      } else {
        var ok;
        ok, cache := ProviderHasRoom(l, cache, Count(used, c.provider), c.provider);
        if !ok {
          assert outcome == Outcome.ProviderFull;
          deferred := deferred + [Deferral(c.task, ProviderCapacityReached(c.provider))];
        } else {
          assert outcome == Take;
          TallyOne(used, selected, c);
          used := used[c.provider := Count(used, c.provider) + 1];
          selected := selected + [c];
        }
      }
    }
  }

  // Taken and deferred Tasks together are the whole.
  ghost predicate Partition(t: seq<Candidate>, ds: seq<Deferral>, whole: multiset<nat>) {
    TaskIds(t) + DeferredIds(ds) == whole
  }

  lemma {:induction false} SplitStep(
    l: Limits, t: seq<Candidate>, ds: seq<Deferral>, c: Candidate, whole: multiset<nat>)
    requires Partition(t, ds, whole)
    ensures Partition(TakeOne(l, t, c), DeferOne(l, t, ds, c), whole + multiset{c.task})
  {
    PutOne(TaskIds(t), DeferredIds(ds), whole, multiset{c.task});
    IdsAppend(t, c);
    DeferredAppend(ds, Deferral(c.task, CapacityReason(Decide(l, t, c), c)));
  }

  lemma {:induction false} CapacityUnfolds(l: Limits, cs: seq<Candidate>, k: nat)
    requires 0 < k <= |cs|
    ensures Taken(l, cs, k) == TakeOne(l, Taken(l, cs, k - 1), cs[k - 1])
    ensures CapacityDeferrals(l, cs, k) == DeferOne(l, Taken(l, cs, k - 1), CapacityDeferrals(l, cs, k - 1), cs[k - 1])
    ensures IdsUpTo(cs, k) == IdsUpTo(cs, k - 1) + multiset{cs[k - 1].task}
  {
  }

  lemma {:induction false} SplitNothing(l: Limits, cs: seq<Candidate>)
    ensures Partition(Taken(l, cs, 0), CapacityDeferrals(l, cs, 0), IdsUpTo(cs, 0))
  {
    assert Taken(l, cs, 0) == [] && CapacityDeferrals(l, cs, 0) == [];
  }

  lemma {:induction false} SplitOne(l: Limits, cs: seq<Candidate>, k: nat)
    requires 0 < k <= |cs| && Partition(Taken(l, cs, k - 1), CapacityDeferrals(l, cs, k - 1), IdsUpTo(cs, k - 1))
    ensures Partition(Taken(l, cs, k), CapacityDeferrals(l, cs, k), IdsUpTo(cs, k))
  {
    CapacityUnfolds(l, cs, k);
    SplitStep(l, Taken(l, cs, k - 1), CapacityDeferrals(l, cs, k - 1), cs[k - 1], IdsUpTo(cs, k - 1));
  }

  lemma {:induction false} SplitCapacity(l: Limits, cs: seq<Candidate>, k: nat)
    requires k <= |cs|
    ensures Partition(Taken(l, cs, k), CapacityDeferrals(l, cs, k), IdsUpTo(cs, k))
  {
    SplitNothing(l, cs);
    for i := 0 to k
      invariant Partition(Taken(l, cs, i), CapacityDeferrals(l, cs, i), IdsUpTo(cs, i))
    {
      SplitOne(l, cs, i + 1);
    }
  }

  lemma {:induction false} TakenFrom(l: Limits, cs: seq<Candidate>, k: nat)
    requires k <= |cs|
    ensures forall c :: c in Taken(l, cs, k) ==> c in cs
    ensures |Taken(l, cs, k)| <= l.room
  {
    if k > 0 { TakenFrom(l, cs, k - 1); }
  }

  // ---------------------------------------------------------------- the selection is optimal

  // Sessions the provider may still take; the count itself when it has no cap.
  ghost function Room(l: Limits, p: string, wanted: nat): nat {
    if p !in l.caps then wanted
    else if l.caps[p] - l.live(p) <= 0 then 0
    else if l.caps[p] - l.live(p) < wanted then l.caps[p] - l.live(p) else wanted
  }

  // A selection that respects the project room and every provider's room.
  ghost predicate Feasible(l: Limits, s: seq<Candidate>) {
    |s| <= l.room && forall p :: AllProviders(s)[p] <= Room(l, p, AllProviders(s)[p])
  }

  ghost function LimitOne(l: Limits, counted: multiset<string>, p: string): multiset<string> {
    if AtCap(l, p, counted[p]) then counted else counted + multiset{p}
  }

  // The first k candidates counted against the providers alone.
  ghost function ProviderLimited(l: Limits, cs: seq<Candidate>, k: nat): multiset<string>
    requires k <= |cs|
  {
    if k == 0 then multiset{}
    else LimitOne(l, ProviderLimited(l, cs, k - 1), cs[k - 1].provider)
  }

  lemma {:induction false} LimitOneCount(l: Limits, counted: multiset<string>, q: string, p: string, wanted: nat)
    requires counted[p] == Room(l, p, wanted)
    ensures LimitOne(l, counted, q)[p] == Room(l, p, if p == q then wanted + 1 else wanted)
  {
    if p == q {
      assert AtCap(l, p, counted[p]) <==> p in l.caps && Room(l, p, wanted + 1) == Room(l, p, wanted);
    }
  }

  lemma {:induction false} ProviderLimitedCount(l: Limits, cs: seq<Candidate>, k: nat, p: string)
    requires k <= |cs|
    ensures ProviderLimited(l, cs, k)[p] == Room(l, p, Providers(cs, k)[p])
  {
    if k > 0 {
      ProviderLimitedCount(l, cs, k - 1, p);
      var wanted := Providers(cs, k - 1);
      LimitOneCount(l, ProviderLimited(l, cs, k - 1), cs[k - 1].provider, p, wanted[p]);
      assert (wanted + multiset{cs[k - 1].provider})[p] == if p == cs[k - 1].provider then wanted[p] + 1 else wanted[p];
    }
  }

  lemma {:induction false} ProvidersSize(cs: seq<Candidate>, k: nat)
    requires k <= |cs|
    ensures |Providers(cs, k)| == k
  {
    if k > 0 { ProvidersSize(cs, k - 1); }
  }

  // Until the project is full, the selection counts exactly what the providers allow.
  ghost predicate Counts(l: Limits, t: seq<Candidate>, limited: multiset<string>) {
    && |t| <= l.room
    && AllProviders(t) <= limited
    && (|t| < l.room ==> AllProviders(t) == limited)
  }

  lemma {:induction false} CountsStep(l: Limits, t: seq<Candidate>, limited: multiset<string>, c: Candidate)
    requires Counts(l, t, limited)
    ensures Counts(l, TakeOne(l, t, c), LimitOne(l, limited, c.provider))
  {
    if |t| < l.room { ProvidersAppend(t, c); }
  }

  lemma {:induction false} TakenCounts(l: Limits, cs: seq<Candidate>, k: nat)
    requires k <= |cs|
    ensures Counts(l, Taken(l, cs, k), ProviderLimited(l, cs, k))
  {
    if k > 0 {
      TakenCounts(l, cs, k - 1);
      CountsStep(l, Taken(l, cs, k - 1), ProviderLimited(l, cs, k - 1), cs[k - 1]);
    }
  }

  lemma {:induction false} MultisetSize(a: multiset<string>, b: multiset<string>)
    requires a <= b
    ensures |a| <= |b|
  {
    assert b == a + (b - a);
  }

  lemma {:induction false} TakenIsFeasible(l: Limits, cs: seq<Candidate>)
    ensures Feasible(l, Taken(l, cs, |cs|))
  {
    var used, limited := AllProviders(Taken(l, cs, |cs|)), ProviderLimited(l, cs, |cs|);
    TakenCounts(l, cs, |cs|);
    forall p ensures used[p] <= Room(l, p, used[p]) {
      ProviderLimitedCount(l, cs, |cs|, p);
      assert used[p] <= limited[p];
    }
  }

  lemma {:induction false} TakenIsMaximum(l: Limits, cs: seq<Candidate>, s: seq<Candidate>)
    requires AllProviders(s) <= AllProviders(cs) && Feasible(l, s)
    ensures |s| <= |Taken(l, cs, |cs|)|
  {
    var t, limited := Taken(l, cs, |cs|), ProviderLimited(l, cs, |cs|);
    TakenCounts(l, cs, |cs|);
    if |t| < l.room {
      forall p ensures AllProviders(s)[p] <= limited[p] { ProviderLimitedCount(l, cs, |cs|, p); }
      ProvidersSize(t, |t|);
      ProvidersSize(s, |s|);
      MultisetSize(AllProviders(s), limited);
    }
  }

  // MAIN: greedy capacity selection is optimal: it respects both kinds of room, and no selection
  // from the same candidates that respects them is larger.
  lemma {:induction false} TakenIsOptimal(l: Limits, cs: seq<Candidate>)
    ensures Feasible(l, Taken(l, cs, |cs|))
    ensures forall s: seq<Candidate> :: AllProviders(s) <= AllProviders(cs) && Feasible(l, s) ==>
      |s| <= |Taken(l, cs, |cs|)|
  {
    TakenIsFeasible(l, cs);
    forall s: seq<Candidate> | AllProviders(s) <= AllProviders(cs) && Feasible(l, s)
      ensures |s| <= |Taken(l, cs, |cs|)|
    {
      TakenIsMaximum(l, cs, s);
    }
  }

  // The rooms of a set of providers, added up; each counts at most the candidates that want it.
  ghost function TotalRoom(l: Limits, wanted: multiset<string>, ps: set<string>): nat {
    if ps == {} then 0
    else
      var p :| p in ps;
      Room(l, p, wanted[p]) + TotalRoom(l, wanted, ps - {p})
  }

  lemma {:induction false} LimitedSize(l: Limits, wanted: multiset<string>, m: multiset<string>, ps: set<string>)
    requires forall p :: p in m ==> p in ps
    requires forall p :: p in ps ==> m[p] == Room(l, p, wanted[p])
    ensures |m| == TotalRoom(l, wanted, ps)
    decreases ps
  {
    if ps == {} {
      assert m == multiset{};
    } else {
      var p :| p in ps && TotalRoom(l, wanted, ps) == Room(l, p, wanted[p]) + TotalRoom(l, wanted, ps - {p});
      LimitedSize(l, wanted, m[p := 0], ps - {p});
    }
  }

  // The size of the selection: the smaller of the project room and what the providers allow together.
  lemma {:induction false} TakenSize(l: Limits, cs: seq<Candidate>)
    ensures
      var allowed := TotalRoom(l, AllProviders(cs), set p | p in AllProviders(cs));
      |Taken(l, cs, |cs|)| == if l.room < allowed then l.room else allowed
  {
    var t, limited, all := Taken(l, cs, |cs|), ProviderLimited(l, cs, |cs|), AllProviders(cs);
    TakenCounts(l, cs, |cs|);
    ProvidersSize(t, |t|);
    forall p ensures limited[p] == Room(l, p, all[p]) { ProviderLimitedCount(l, cs, |cs|, p); }
    MultisetSize(AllProviders(t), limited);
    LimitedSize(l, all, limited, set p | p in all);
  }

  // ---------------------------------------------------------------- capacity deferrals stay justified

  // The reason still holds once the whole selection is known.
  ghost predicate CapacityJustified(l: Limits, final: seq<Candidate>, d: Deferral) {
    && (d.reason.ProjectCapacityReached? ==> |final| >= l.room)
    && (d.reason.ProviderCapacityReached? ==> AtCap(l, d.reason.provider, AllProviders(final)[d.reason.provider]))
  }

  // Taking one more candidate keeps every reason justified, and a new deferral is justified at once.
  lemma {:induction false} JustifiedStep(l: Limits, t: seq<Candidate>, c: Candidate, d: Deferral)
    ensures CapacityJustified(l, t, d) ==> CapacityJustified(l, TakeOne(l, t, c), d)
    ensures Decide(l, t, c) != Take ==> CapacityJustified(l, t, Deferral(c.task, CapacityReason(Decide(l, t, c), c)))
  {
    ProvidersAppend(t, c);
  }

  ghost predicate AllJustified(l: Limits, t: seq<Candidate>, ds: seq<Deferral>) {
    forall d :: d in ds ==>
      CapacityJustified(l, t, d) && (d.reason.ProjectCapacityReached? || d.reason.ProviderCapacityReached?)
  }

  lemma {:induction false} AllJustifiedStep(l: Limits, t: seq<Candidate>, ds: seq<Deferral>, c: Candidate)
    requires AllJustified(l, t, ds)
    ensures AllJustified(l, TakeOne(l, t, c), DeferOne(l, t, ds, c))
  {
    forall d | d in DeferOne(l, t, ds, c)
      ensures CapacityJustified(l, TakeOne(l, t, c), d) &&
        (d.reason.ProjectCapacityReached? || d.reason.ProviderCapacityReached?)
    {
      JustifiedStep(l, t, c, d);
    }
  }

  lemma {:induction false} CapacityDeferralsJustified(l: Limits, cs: seq<Candidate>, k: nat)
    requires k <= |cs|
    ensures AllJustified(l, Taken(l, cs, k), CapacityDeferrals(l, cs, k))
  {
    if k > 0 {
      CapacityDeferralsJustified(l, cs, k - 1);
      AllJustifiedStep(l, Taken(l, cs, k - 1), CapacityDeferrals(l, cs, k - 1), cs[k - 1]);
    }
  }
}
