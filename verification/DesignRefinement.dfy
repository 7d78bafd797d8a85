/**
 The bounded review loops of run_architecture and run_design, and the work products they leave
 (app/services/architecture_design_service.py and app/services/work_product_service.py).
 */
module DesignRefinement {
  import opened Wrappers

  datatype Kind = ArchitectureAnalysis | ArchitectureReview | TechnicalDesign | UiUxDesign | DesignReview | OtherKind

  datatype Status = Draft | Proposed | Approved | Superseded | Rejected

  datatype WorkProduct = WorkProduct(kind: Kind, change: nat, status: Status, supersedes: Option<nat>)

  type Table = seq<WorkProduct>

  // create: the superseded row is marked before the new one is inserted.
  function Created(rows: Table, kind: Kind, change: nat, supersedes: Option<nat>): Table
    requires supersedes.Some? ==> supersedes.value < |rows|
  {
    var marked := if supersedes.Some? then WithStatus(rows, supersedes.value, Superseded) else rows;
    marked + [WorkProduct(kind, change, Draft, supersedes)]
  }

  function WithStatus(rows: Table, id: nat, status: Status): Table
    requires id < |rows|
  {
    rows[id := rows[id].(status := status)]
  }

  predicate Counts(row: WorkProduct, kind: Kind, change: nat) {
    row.kind == kind && row.change == change && !row.status.Superseded?
  }

  // current_for_change among the first k rows, or -1.
  function CurrentUpTo(rows: Table, kind: Kind, change: nat, k: nat): (i: int)
    requires k <= |rows|
    ensures -1 <= i < k
  {
    if k == 0 then -1 else if Counts(rows[k - 1], kind, change) then k - 1 else CurrentUpTo(rows, kind, change, k - 1)
  }

  function Current(rows: Table, kind: Kind, change: nat): int { CurrentUpTo(rows, kind, change, |rows|) }

  // ---------------------------------------------------------------- one loop for both

  datatype Failure = AssignmentInvalid | ExecutionFailed | OutputInvalid

  // The conflict verdict exists for designs only; an architecture review that gives it is invalid output.
  datatype Verdict = Pass | NeedsRefinement | HumanDecisionRequired | Reject | SpecConflict(refinable: bool)

  datatype Attempt = Done | Failed(failure: Failure)
  datatype Review = Reviewed(verdict: Verdict) | NotReviewed(failure: Failure)

  // What the agents answer: the first artifacts, and in every round the review and the refinements.
  datatype Agents = Agents(
    first: Attempt, firstUi: Attempt, review: nat -> Review, refine: nat -> Attempt, refineUi: nat -> Attempt)

  datatype Stage = Creating | CreatingUi | Reviewing | Refining

  datatype Outcome = Ready | Rejection | HumanNeeded | RoundLimit | Conflict(canRefine: bool) |
    Stopped(stage: Stage, failure: Failure)

  // main and ui are the revisions of this run, oldest first; ui stays empty where there is no UI.
  datatype Result = Result(rows: Table, main: seq<nat>, ui: seq<nat>, outcome: Outcome, rounds: int, reviews: nat,
    refinements: nat)

  predicate InTable(rows: Table, ids: seq<nat>) { forall i :: 0 <= i < |ids| ==> ids[i] < |rows| }

  function LastOf(ids: seq<nat>): nat
    requires ids != []
  {
    ids[|ids| - 1]
  }

  // What a review does to the table.
  function AfterReview(
    rows: Table, reviewKind: Kind, change: nat, main: seq<nat>, ui: seq<nat>, verdict: Verdict): (r: Table)
    requires InTable(rows, main) && InTable(rows, ui) && main != []
    ensures |r| == |rows| + 1
  {
    var added := Created(rows, reviewKind, change, None);
    if verdict.Pass? then Judged(added, main, ui, Approved)
    else if verdict.Reject? then Judged(added, main, ui, Rejected)
    else added
  }

  function Judged(rows: Table, main: seq<nat>, ui: seq<nat>, status: Status): (r: Table)
    requires InTable(rows, main) && InTable(rows, ui) && main != []
    ensures |r| == |rows|
  {
    var judged := WithStatus(rows, LastOf(main), status);
    if ui == [] then judged else WithStatus(judged, LastOf(ui), status)
  }

  // How the loop ends after a review in this round; None when it goes on to refine.
  function Ending(verdict: Verdict, round: nat, maxRounds: int): Option<Outcome> {
    match verdict
    case Pass => Some(Ready)
    case HumanDecisionRequired => Some(HumanNeeded)
    case Reject => Some(Rejection)
    case SpecConflict(refinable) => if refinable && round + 1 < maxRounds then None else Some(Conflict(refinable))
    case NeedsRefinement => if round + 1 >= maxRounds then Some(RoundLimit) else None
  }

  function RefineUi(rows: Table, change: nat, ui: seq<nat>, attempt: Attempt): (Table, seq<nat>)
    requires InTable(rows, ui)
  {
    if ui == [] || attempt.Failed? then (rows, ui)
    else (Created(rows, UiUxDesign, change, Some(LastOf(ui))), ui + [|rows|])
  }

  // A round ends the loop, or leaves refined revisions for the next one.
  datatype RoundEnd = Over(result: Result) | Next(rows: Table, main: seq<nat>, ui: seq<nat>)

  function Refined(reviewed: Table, kind: Kind, change: nat, main: seq<nat>, ui: seq<nat>, uiAttempt: Attempt): RoundEnd
    requires InTable(reviewed, main) && InTable(reviewed, ui) && main != []
  {
    var (rows, ui') := RefineUi(Created(reviewed, kind, change, Some(LastOf(main))), change, ui, uiAttempt);
    Next(rows, main + [|reviewed|], ui')
  }

  function OneRound(
    rows: Table, kind: Kind, reviewKind: Kind, change: nat, main: seq<nat>, ui: seq<nat>, agents: Agents, round: nat,
    maxRounds: int): (r: RoundEnd)
    requires InTable(rows, main) && InTable(rows, ui) && main != []
    ensures r.Next? ==> InTable(r.rows, r.main) && InTable(r.rows, r.ui) && r.main != []
  {
    match agents.review(round)
    case NotReviewed(failure) => Over(Result(rows, main, ui, Stopped(Reviewing, failure), round, round + 1, round))
    case Reviewed(verdict) =>
      var reviewed := AfterReview(rows, reviewKind, change, main, ui, verdict);
      var ending := Ending(verdict, round, maxRounds);
      if ending.Some? then Over(Result(reviewed, main, ui, ending.value, round + 1, round + 1, round))
      else match agents.refine(round)
        case Failed(failure) =>
          Over(Result(reviewed, main, ui, Stopped(Refining, failure), round + 1, round + 1, round + 1))
        case Done => Refined(reviewed, kind, change, main, ui, agents.refineUi(round))
  }

  function Rounds(
    rows: Table, kind: Kind, reviewKind: Kind, change: nat, main: seq<nat>, ui: seq<nat>, agents: Agents, round: nat,
    maxRounds: int): Result
    requires InTable(rows, main) && InTable(rows, ui) && main != []
    decreases maxRounds - round
  {
    if round >= maxRounds then Result(rows, main, ui, RoundLimit, maxRounds, round, round)
    else match OneRound(rows, kind, reviewKind, change, main, ui, agents, round, maxRounds)
      case Over(result) => result
      case Next(rows', main', ui') => Rounds(rows', kind, reviewKind, change, main', ui', agents, round + 1, maxRounds)
  }

  // An architecture review knows no conflict verdict.
  function AsArchitecture(agents: Agents): Agents {
    agents.(review := (round: nat) => ArchitectureVerdict(agents.review(round)))
  }

  function ArchitectureVerdict(review: Review): Review {
    if review.Reviewed? && review.verdict.SpecConflict? then NotReviewed(OutputInvalid) else review
  }

  function RunArchitecture(rows: Table, change: nat, agents: Agents, maxRounds: int): Result {
    match agents.first
    case Failed(failure) => Result(rows, [], [], Stopped(Creating, failure), 0, 0, 0)
    case Done =>
      Rounds(Created(rows, ArchitectureAnalysis, change, None), ArchitectureAnalysis, ArchitectureReview, change,
        [|rows|], [], AsArchitecture(agents), 0, maxRounds)
  }

  function RunDesign(rows: Table, change: nat, agents: Agents, uiApplies: bool, maxRounds: int): Result {
    match agents.first
    case Failed(failure) => Result(rows, [], [], Stopped(Creating, failure), 0, 0, 0)
    case Done =>
      var created := Created(rows, TechnicalDesign, change, None);
      if !uiApplies then Rounds(created, TechnicalDesign, DesignReview, change, [|rows|], [], agents, 0, maxRounds)
      else match agents.firstUi
        case Failed(failure) => Result(created, [|rows|], [], Stopped(CreatingUi, failure), 0, 0, 0)
        case Done =>
          Rounds(Created(created, UiUxDesign, change, None), TechnicalDesign, DesignReview, change, [|rows|],
            [|rows| + 1], agents, 0, maxRounds)
  }

  // ---------------------------------------------------------------- chains

  // Every row of the kind since `base` is one of the revisions.
  ghost predicate Covers(rows: Table, kind: Kind, ids: seq<nat>, base: nat) {
    forall id :: base <= id < |rows| && rows[id].kind == kind ==> id in ids
  }

  // The revisions of one kind: each supersedes the one before, and no other row of the kind was added
  // since the table had `base` rows.
  ghost predicate Linked(rows: Table, kind: Kind, change: nat, ids: seq<nat>, base: nat) {
    && ids != [] && InTable(rows, ids)
    && (forall i :: 0 <= i < |ids| ==> base <= ids[i] && rows[ids[i]].kind == kind && rows[ids[i]].change == change)
    && (forall i, j :: 0 <= i < j < |ids| ==> ids[i] < ids[j])
    && rows[ids[0]].supersedes == None
    && (forall i :: 0 < i < |ids| ==> rows[ids[i]].supersedes == Some(ids[i - 1]))
    && Covers(rows, kind, ids, base)
  }

  // A chain of revisions of which exactly the last is not SUPERSEDED.
  ghost predicate Chain(rows: Table, kind: Kind, change: nat, ids: seq<nat>, base: nat) {
    && Linked(rows, kind, change, ids, base)
    && forall i :: 0 <= i < |ids| ==> (rows[ids[i]].status.Superseded? <==> i < |ids| - 1)
  }

  // No revisions and no rows of the kind, or a chain.
  ghost predicate ChainOrNone(rows: Table, kind: Kind, change: nat, ids: seq<nat>, base: nat) {
    if ids == [] then forall id :: base <= id < |rows| ==> rows[id].kind != kind
    else Chain(rows, kind, change, ids, base)
  }

  // Rows from before the run are untouched.
  ghost predicate Keeps(rows: Table, before: Table) { |before| <= |rows| && rows[..|before|] == before }

  lemma {:induction false} CurrentIsLast(rows: Table, kind: Kind, change: nat, id: nat, k: nat)
    requires id < k <= |rows| && Counts(rows[id], kind, change)
    requires forall j :: id < j < k ==> !Counts(rows[j], kind, change)
    ensures CurrentUpTo(rows, kind, change, k) == id
  {
    if id < k - 1 { CurrentIsLast(rows, kind, change, id, k - 1); }
  }

  // A work product of the kind, of the Change and not SUPERSEDED.
  ghost predicate InForce(rows: Table, kind: Kind, change: nat, id: int) {
    0 <= id < |rows| && rows[id].kind == kind && rows[id].change == change && rows[id].status != Superseded
  }

  // The current one is the last in force; there is none if and only if none is in force.
  lemma {:induction false} CurrentExactly(rows: Table, kind: Kind, change: nat, k: nat)
    requires k <= |rows| && forall j :: k <= j < |rows| ==> !InForce(rows, kind, change, j)
    ensures var id := CurrentUpTo(rows, kind, change, k);
      && (id >= 0 ==> InForce(rows, kind, change, id))
      && forall j :: id < j < |rows| ==> !InForce(rows, kind, change, j)
  {
    if k > 0 && !InForce(rows, kind, change, k - 1) { CurrentExactly(rows, kind, change, k - 1); }
  }

  // The last revision of a chain is the current one of the Change.
  lemma {:induction false} ChainIsCurrent(rows: Table, kind: Kind, change: nat, ids: seq<nat>, base: nat)
    requires Chain(rows, kind, change, ids, base)
    ensures Current(rows, kind, change) == LastOf(ids)
  {
    var last := LastOf(ids);
    forall j | last < j < |rows| ensures !Counts(rows[j], kind, change) {
      assert j !in ids;
    }
    CurrentIsLast(rows, kind, change, last, |rows|);
  }

  // A row of another kind leaves the chain alone.
  lemma {:induction false} AddOther(rows: Table, kind: Kind, change: nat, ids: seq<nat>, base: nat, row: WorkProduct)
    requires ChainOrNone(rows, kind, change, ids, base) && row.kind != kind
    ensures ChainOrNone(rows + [row], kind, change, ids, base)
  {
  }

  // So does a new status for a row outside it, or for its last row unless that is SUPERSEDED.
  lemma {:induction false} StatusKeeps(
    rows: Table, kind: Kind, change: nat, ids: seq<nat>, base: nat, id: nat, status: Status)
    requires ChainOrNone(rows, kind, change, ids, base) && id < |rows|
    requires rows[id].kind != kind || (ids != [] && id == LastOf(ids) && !status.Superseded?)
    ensures ChainOrNone(WithStatus(rows, id, status), kind, change, ids, base)
  {
  }

  lemma {:induction false} CoverOne(rows: Table, kind: Kind, ids: seq<nat>, base: nat, row: WorkProduct)
    requires Covers(rows, kind, ids, base)
    ensures Covers(rows + [row], kind, ids + [|rows|], base)
  {
    forall id | base <= id < |rows| + 1 && (rows + [row])[id].kind == kind ensures id in ids + [|rows|] {
      if id < |rows| { assert id in ids; } else { assert (ids + [|rows|])[|ids|] == id; }
    }
  }

  lemma {:induction false} LinkOne(rows: Table, kind: Kind, change: nat, ids: seq<nat>, base: nat, row: WorkProduct)
    requires Linked(rows, kind, change, ids, base) && base <= |rows|
    requires row.kind == kind && row.change == change && row.supersedes == Some(LastOf(ids))
    ensures Linked(rows + [row], kind, change, ids + [|rows|], base)
  {
    CoverOne(rows, kind, ids, base, row);
  }

  lemma {:induction false} RestampKeepsLinks(
    rows: Table, kind: Kind, change: nat, ids: seq<nat>, base: nat, id: nat, status: Status)
    requires Linked(rows, kind, change, ids, base) && id < |rows|
    ensures Linked(WithStatus(rows, id, status), kind, change, ids, base)
  {
  }

  lemma {:induction false} ExtendChain(rows: Table, kind: Kind, change: nat, ids: seq<nat>, base: nat)
    requires Chain(rows, kind, change, ids, base) && base <= |rows|
    ensures Chain(Created(rows, kind, change, Some(LastOf(ids))), kind, change, ids + [|rows|], base)
  {
    var last := LastOf(ids);
    var marked, row := WithStatus(rows, last, Superseded), WorkProduct(kind, change, Draft, Some(last));
    RestampKeepsLinks(rows, kind, change, ids, base, last, Superseded);
    LinkOne(marked, kind, change, ids, base, row);
    forall i | 0 <= i < |ids| + 1 ensures (marked + [row])[(ids + [|rows|])[i]].status.Superseded? <==> i < |ids| {
      assert i < |ids| - 1 ==> ids[i] < last;
    }
  }

  // ---------------------------------------------------------------- what a round keeps

  ghost predicate Kinds(kind: Kind, reviewKind: Kind) {
    !kind.UiUxDesign? && !reviewKind.UiUxDesign? && kind != reviewKind
  }

  // Both chains, and everything from before the run as it was.
  ghost predicate Chains(rows: Table, kind: Kind, change: nat, main: seq<nat>, ui: seq<nat>, before: Table) {
    && Keeps(rows, before)
    && Chain(rows, kind, change, main, |before|)
    && ChainOrNone(rows, UiUxDesign, change, ui, |before|)
  }

  // The last revisions have this status.
  ghost predicate LastAre(rows: Table, main: seq<nat>, ui: seq<nat>, status: Status)
    requires InTable(rows, main) && InTable(rows, ui)
  {
    && (main != [] ==> rows[LastOf(main)].status == status)
    && (ui != [] ==> rows[LastOf(ui)].status == status)
  }

  lemma {:induction false} CreateKeeps(rows: Table, row: WorkProduct, before: Table)
    requires Keeps(rows, before)
    ensures Keeps(rows + [row], before)
  {
    assert (rows + [row])[..|before|] == rows[..|before|];
  }

  lemma {:induction false} RestampKeeps(rows: Table, id: nat, status: Status, before: Table)
    requires Keeps(rows, before) && |before| <= id < |rows|
    ensures Keeps(WithStatus(rows, id, status), before)
  {
    assert WithStatus(rows, id, status)[..|before|] == rows[..|before|];
  }

  lemma {:induction false} ReviewKeeps(
    rows: Table, kind: Kind, reviewKind: Kind, change: nat, main: seq<nat>, ui: seq<nat>, before: Table)
    requires Kinds(kind, reviewKind) && Chains(rows, kind, change, main, ui, before) && LastAre(rows, main, ui, Draft)
    ensures Chains(Created(rows, reviewKind, change, None), kind, change, main, ui, before)
    ensures LastAre(Created(rows, reviewKind, change, None), main, ui, Draft)
  {
    var row := WorkProduct(reviewKind, change, Draft, None);
    CreateKeeps(rows, row, before);
    AddOther(rows, kind, change, main, |before|, row);
    AddOther(rows, UiUxDesign, change, ui, |before|, row);
  }

  lemma {:induction false} JudgedKeeps(
    rows: Table, kind: Kind, reviewKind: Kind, change: nat, main: seq<nat>, ui: seq<nat>, status: Status, before: Table)
    requires Kinds(kind, reviewKind) && Chains(rows, kind, change, main, ui, before) && !status.Superseded?
    ensures Chains(Judged(rows, main, ui, status), kind, change, main, ui, before)
    ensures LastAre(Judged(rows, main, ui, status), main, ui, status)
  {
    var judged := WithStatus(rows, LastOf(main), status);
    RestampKeeps(rows, LastOf(main), status, before);
    StatusKeeps(rows, kind, change, main, |before|, LastOf(main), status);
    StatusKeeps(rows, UiUxDesign, change, ui, |before|, LastOf(main), status);
    if ui != [] {
      RestampKeeps(judged, LastOf(ui), status, before);
      StatusKeeps(judged, kind, change, main, |before|, LastOf(ui), status);
      StatusKeeps(judged, UiUxDesign, change, ui, |before|, LastOf(ui), status);
    }
  }

  // A refinement of one kind extends its chain and leaves the chain of the other kind alone.
  lemma {:induction false} ExtendBeside(
    rows: Table, kind: Kind, ids: seq<nat>, other: Kind, others: seq<nat>, change: nat, before: Table)
    requires kind != other && Keeps(rows, before)
    requires Chain(rows, kind, change, ids, |before|) && ChainOrNone(rows, other, change, others, |before|)
    ensures var refined := Created(rows, kind, change, Some(LastOf(ids)));
      && Keeps(refined, before)
      && Chain(refined, kind, change, ids + [|rows|], |before|) && ChainOrNone(refined, other, change, others, |before|)
      && refined[|rows|].status.Draft? && (others != [] ==> refined[LastOf(others)] == rows[LastOf(others)])
  {
    var last, row := LastOf(ids), WorkProduct(kind, change, Draft, Some(LastOf(ids)));
    var marked := WithStatus(rows, last, Superseded);
    ExtendChain(rows, kind, change, ids, |before|);
    RestampKeeps(rows, last, Superseded, before);
    CreateKeeps(marked, row, before);
    StatusKeeps(rows, other, change, others, |before|, last, Superseded);
    AddOther(marked, other, change, others, |before|, row);
  }

  lemma {:induction false} MainRefined(
    rows: Table, kind: Kind, change: nat, main: seq<nat>, ui: seq<nat>, before: Table)
    requires !kind.UiUxDesign? && Chains(rows, kind, change, main, ui, before) && LastAre(rows, main, ui, Draft)
    ensures var refined := Created(rows, kind, change, Some(LastOf(main)));
      Chains(refined, kind, change, main + [|rows|], ui, before) && LastAre(refined, main + [|rows|], ui, Draft)
  {
    ExtendBeside(rows, kind, main, UiUxDesign, ui, change, before);
  }

  lemma {:induction false} UiRefined(
    rows: Table, kind: Kind, change: nat, main: seq<nat>, ui: seq<nat>, attempt: Attempt, before: Table)
    requires !kind.UiUxDesign? && Chains(rows, kind, change, main, ui, before) && LastAre(rows, main, ui, Draft)
    ensures var (rows', ui') := RefineUi(rows, change, ui, attempt);
      Chains(rows', kind, change, main, ui', before) && LastAre(rows', main, ui', Draft) && (ui' == [] <==> ui == [])
  {
    if ui != [] && attempt.Done? { ExtendBeside(rows, UiUxDesign, ui, kind, main, change, before); }
  }

  // ---------------------------------------------------------------- what a run leaves

  ghost function Max(a: int, b: int): int { if a < b then b else a }

  // The status of the last revisions tells the outcome.
  ghost function FinalStatus(outcome: Outcome): Status {
    if outcome.Ready? then Approved else if outcome.Rejection? then Rejected else Draft
  }

  // Chains, statuses and bounds at the end of a run that got past its first artifacts.
  ghost predicate Finished(r: Result, kind: Kind, change: nat, before: Table, maxRounds: int) {
    && Chains(r.rows, kind, change, r.main, r.ui, before)
    && LastAre(r.rows, r.main, r.ui, FinalStatus(r.outcome))
    && r.reviews <= Max(0, maxRounds) && r.refinements <= Max(0, maxRounds - 1)
    && |r.main| <= r.refinements + 1 && |r.ui| <= r.refinements + 1
  }

  lemma {:induction false} AfterReviewKeeps(
    rows: Table, kind: Kind, reviewKind: Kind, change: nat, main: seq<nat>, ui: seq<nat>, verdict: Verdict,
    before: Table)
    requires Kinds(kind, reviewKind) && Chains(rows, kind, change, main, ui, before) && LastAre(rows, main, ui, Draft)
    ensures var reviewed := AfterReview(rows, reviewKind, change, main, ui, verdict);
      && Chains(reviewed, kind, change, main, ui, before)
      && LastAre(reviewed, main, ui, if verdict.Pass? then Approved else if verdict.Reject? then Rejected else Draft)
  {
    var added := Created(rows, reviewKind, change, None);
    ReviewKeeps(rows, kind, reviewKind, change, main, ui, before);
    JudgedKeeps(added, kind, reviewKind, change, main, ui, Approved, before);
    JudgedKeeps(added, kind, reviewKind, change, main, ui, Rejected, before);
  }

  lemma {:induction false} RefinedKeeps(
    reviewed: Table, kind: Kind, change: nat, main: seq<nat>, ui: seq<nat>, uiAttempt: Attempt, before: Table)
    requires !kind.UiUxDesign? && Chains(reviewed, kind, change, main, ui, before) && LastAre(reviewed, main, ui, Draft)
    ensures var next := Refined(reviewed, kind, change, main, ui, uiAttempt);
      && Chains(next.rows, kind, change, next.main, next.ui, before) && LastAre(next.rows, next.main, next.ui, Draft)
      && |next.main| == |main| + 1 && |ui| <= |next.ui| <= |ui| + 1 && (next.ui == [] <==> ui == [])
  {
    MainRefined(reviewed, kind, change, main, ui, before);
    UiRefined(Created(reviewed, kind, change, Some(LastOf(main))), kind, change, main + [|reviewed|], ui, uiAttempt,
      before);
  }

  ghost function Judgement(verdict: Verdict): Status {
    if verdict.Pass? then Approved else if verdict.Reject? then Rejected else Draft
  }

  lemma {:induction false} EndingTellsStatus(verdict: Verdict, round: nat, maxRounds: int)
    ensures match Ending(verdict, round, maxRounds)
      case Some(outcome) => FinalStatus(outcome) == Judgement(verdict)
      case None => Judgement(verdict) == Draft && round + 1 < maxRounds
  {
  }

  // The state between rounds: both chains in DRAFT, one revision for each round so far.
  ghost predicate InRound(
    rows: Table, kind: Kind, change: nat, main: seq<nat>, ui: seq<nat>, round: nat, before: Table) {
    && Chains(rows, kind, change, main, ui, before) && LastAre(rows, main, ui, Draft)
    && |main| == round + 1 && |ui| <= round + 1
  }

  lemma {:induction false} RefiningRoundKeeps(
    rows: Table, kind: Kind, reviewKind: Kind, change: nat, main: seq<nat>, ui: seq<nat>, verdict: Verdict,
    uiAttempt: Attempt, round: nat, before: Table)
    requires Kinds(kind, reviewKind) && InRound(rows, kind, change, main, ui, round, before) &&
      Judgement(verdict) == Draft
    ensures var next := Refined(AfterReview(rows, reviewKind, change, main, ui, verdict), kind, change, main, ui,
      uiAttempt);
      InRound(next.rows, kind, change, next.main, next.ui, round + 1, before) && (next.ui == [] <==> ui == [])
  {
    AfterReviewKeeps(rows, kind, reviewKind, change, main, ui, verdict, before);
    RefinedKeeps(AfterReview(rows, reviewKind, change, main, ui, verdict), kind, change, main, ui, uiAttempt, before);
  }

  lemma {:induction false} EndingRoundFinishes(
    rows: Table, kind: Kind, reviewKind: Kind, change: nat, main: seq<nat>, ui: seq<nat>, verdict: Verdict,
    outcome: Outcome,
    rounds: int, refinements: nat, round: nat, maxRounds: int, before: Table)
    requires Kinds(kind, reviewKind) && InRound(rows, kind, change, main, ui, round, before) && round < maxRounds
    requires Judgement(verdict) == FinalStatus(outcome) && round <= refinements <= maxRounds - 1
    ensures Finished(Result(AfterReview(rows, reviewKind, change, main, ui, verdict), main, ui, outcome, rounds,
      round + 1, refinements),
                     kind, change, before, maxRounds)
  {
    AfterReviewKeeps(rows, kind, reviewKind, change, main, ui, verdict, before);
  }

  lemma {:induction false} OneRoundKeeps(
    rows: Table, kind: Kind, reviewKind: Kind, change: nat, main: seq<nat>, ui: seq<nat>,
    agents: Agents, round: nat, maxRounds: int, before: Table)
    requires Kinds(kind, reviewKind) && InRound(rows, kind, change, main, ui, round, before) && round < maxRounds
    ensures match OneRound(rows, kind, reviewKind, change, main, ui, agents, round, maxRounds)
      case Over(r) => Finished(r, kind, change, before, maxRounds) && r.ui == ui
      case Next(rows', main', ui') =>
        InRound(rows', kind, change, main', ui', round + 1, before) && (ui' == [] <==> ui == []) &&
          round + 1 < maxRounds
  {
    if agents.review(round).Reviewed? {
      var verdict := agents.review(round).verdict;
      EndingTellsStatus(verdict, round, maxRounds);
      match Ending(verdict, round, maxRounds)
      case Some(outcome) =>
        EndingRoundFinishes(rows, kind, reviewKind, change, main, ui, verdict, outcome, round + 1, round, round,
          maxRounds, before);
      case None =>
        match agents.refine(round) {
          case Failed(failure) =>
            EndingRoundFinishes(rows, kind, reviewKind, change, main, ui, verdict, Stopped(Refining, failure),
              round + 1, round + 1, round, maxRounds, before);
          case Done =>
            RefiningRoundKeeps(rows, kind, reviewKind, change, main, ui, verdict, agents.refineUi(round), round,
              before);
        }
    }
  }

  lemma {:induction false} RoundsFinish(
    rows: Table, kind: Kind, reviewKind: Kind, change: nat, main: seq<nat>, ui: seq<nat>,
    agents: Agents, round: nat, maxRounds: int, before: Table)
    requires Kinds(kind, reviewKind) && InRound(rows, kind, change, main, ui, round, before) &&
      (round < maxRounds || round == 0)
    ensures var r := Rounds(rows, kind, reviewKind, change, main, ui, agents, round, maxRounds);
      Finished(r, kind, change, before, maxRounds) && (r.ui == [] <==> ui == [])
    decreases maxRounds - round
  {
    if round < maxRounds {
      OneRoundKeeps(rows, kind, reviewKind, change, main, ui, agents, round, maxRounds, before);
      match OneRound(rows, kind, reviewKind, change, main, ui, agents, round, maxRounds)
      case Over(_) =>
      case Next(rows', main', ui') =>
        RoundsFinish(rows', kind, reviewKind, change, main', ui', agents, round + 1, maxRounds, before);
    }
  }

  // The agents keep the loop going through this round.
  ghost predicate Continues(agents: Agents, round: nat) {
    && agents.review(round).Reviewed?
    && (agents.review(round).verdict.NeedsRefinement? ||
      (agents.review(round).verdict.SpecConflict? && agents.review(round).verdict.refinable))
    && agents.refine(round).Done?
  }

  // Some round within the limit passes, and every round before it is refined.
  ghost predicate PassesFrom(agents: Agents, round: nat, maxRounds: int) {
    exists n: nat :: round <= n < maxRounds && agents.review(n) == Reviewed(Pass) && forall i :: round <= i < n ==>
      Continues(agents, i)
  }

  lemma {:induction false} PassesStep(agents: Agents, round: nat, maxRounds: int)
    requires agents.review(round) != Reviewed(Pass)
    ensures PassesFrom(agents, round, maxRounds) <==>
      Continues(agents, round) && PassesFrom(agents, round + 1, maxRounds)
  {
  }

  lemma {:induction false} OneRoundReady(
    rows: Table, kind: Kind, reviewKind: Kind, change: nat, main: seq<nat>, ui: seq<nat>,
    agents: Agents, round: nat, maxRounds: int)
    requires InTable(rows, main) && InTable(rows, ui) && main != []
    ensures var r := OneRound(rows, kind, reviewKind, change, main, ui, agents, round, maxRounds);
      && (r.Next? <==> Continues(agents, round) && round + 1 < maxRounds)
      && (r.Over? ==> (r.result.outcome.Ready? <==> agents.review(round) == Reviewed(Pass)))
  {
  }

  lemma {:induction false} ReadyWhenPassed(
    rows: Table, kind: Kind, reviewKind: Kind, change: nat, main: seq<nat>, ui: seq<nat>,
    agents: Agents, round: nat, maxRounds: int)
    requires InTable(rows, main) && InTable(rows, ui) && main != []
    ensures Rounds(rows, kind, reviewKind, change, main, ui, agents, round, maxRounds).outcome.Ready? <==>
      PassesFrom(agents, round, maxRounds)
    decreases maxRounds - round
  {
    if round < maxRounds {
      OneRoundReady(rows, kind, reviewKind, change, main, ui, agents, round, maxRounds);
      if agents.review(round) == Reviewed(Pass) {
        assert PassesFrom(agents, round, maxRounds);
      } else {
        PassesStep(agents, round, maxRounds);
      }
      match OneRound(rows, kind, reviewKind, change, main, ui, agents, round, maxRounds)
      case Over(_) =>
      case Next(rows', main', ui') =>
        ReadyWhenPassed(rows', kind, reviewKind, change, main', ui', agents, round + 1, maxRounds);
    }
  }

  // ---------------------------------------------------------------- how the loop ends

  ghost predicate RefineFails(agents: Agents, n: nat, outcome: Outcome) {
    agents.refine(n).Failed? && outcome == Stopped(Refining, agents.refine(n).failure)
  }

  // The loop ends in round n with this outcome.
  ghost predicate EndsIn(agents: Agents, n: nat, maxRounds: int, outcome: Outcome) {
    match agents.review(n)
    case NotReviewed(failure) => outcome == Stopped(Reviewing, failure)
    case Reviewed(Pass) => outcome == Ready
    case Reviewed(Reject) => outcome == Rejection
    case Reviewed(HumanDecisionRequired) => outcome == HumanNeeded
    case Reviewed(SpecConflict(refinable)) =>
      if refinable && n + 1 < maxRounds then RefineFails(agents, n, outcome) else outcome == Conflict(refinable)
    case Reviewed(NeedsRefinement) =>
      if n + 1 < maxRounds then RefineFails(agents, n, outcome) else outcome == RoundLimit
  }

  // The loop, in this round, comes to round n and ends there.
  ghost predicate EndsAt(agents: Agents, round: nat, n: nat, maxRounds: int, outcome: Outcome) {
    && round <= n < maxRounds && (forall i :: round <= i < n ==> Continues(agents, i))
    && EndsIn(agents, n, maxRounds, outcome)
  }

  lemma {:induction false} OneRoundEnds(
    rows: Table, kind: Kind, reviewKind: Kind, change: nat, main: seq<nat>, ui: seq<nat>,
    agents: Agents, round: nat, maxRounds: int, outcome: Outcome)
    requires InTable(rows, main) && InTable(rows, ui) && main != [] && round < maxRounds
    ensures match OneRound(rows, kind, reviewKind, change, main, ui, agents, round, maxRounds)
      case Over(r) =>
        && (EndsIn(agents, round, maxRounds, outcome) <==> r.outcome == outcome)
        && (Continues(agents, round) ==> round + 1 == maxRounds)
        && r.rounds == (if agents.review(round).NotReviewed? then round else round + 1)
      case Next(_, _, _) =>
        Continues(agents, round) && round + 1 < maxRounds && !EndsIn(agents, round, maxRounds, outcome)
  {
  }

  lemma {:induction false} EndsLater(agents: Agents, round: nat, next: nat, maxRounds: int, outcome: Outcome)
    requires next == round + 1 && Continues(agents, round) && !EndsIn(agents, round, maxRounds, outcome)
    ensures (exists n: nat :: EndsAt(agents, round, n, maxRounds, outcome)) <==>
      exists n: nat :: EndsAt(agents, next, n, maxRounds, outcome)
  {
    if n: nat :| EndsAt(agents, round, n, maxRounds, outcome) {
      assert n > round;
      assert EndsAt(agents, next, n, maxRounds, outcome);
    }
    if n: nat :| EndsAt(agents, next, n, maxRounds, outcome) {
      assert EndsAt(agents, round, n, maxRounds, outcome);
    }
  }

  // MAIN: the loop has an outcome if and only if it ends with it in some round within the limit, every round
  // before which was refined; or no round is left.
  lemma {:induction false} OutcomeExactly(
    rows: Table, kind: Kind, reviewKind: Kind, change: nat, main: seq<nat>, ui: seq<nat>,
    agents: Agents, round: nat, maxRounds: int, outcome: Outcome)
    requires InTable(rows, main) && InTable(rows, ui) && main != []
    ensures Rounds(rows, kind, reviewKind, change, main, ui, agents, round, maxRounds).outcome == outcome <==>
      if round >= maxRounds then outcome == RoundLimit
      else exists n: nat :: EndsAt(agents, round, n, maxRounds, outcome)
    decreases maxRounds - round
  {
    if round < maxRounds {
      OneRoundEnds(rows, kind, reviewKind, change, main, ui, agents, round, maxRounds, outcome);
      match OneRound(rows, kind, reviewKind, change, main, ui, agents, round, maxRounds)
      case Over(r) =>
        if r.outcome == outcome { assert EndsAt(agents, round, round, maxRounds, outcome); }
        if n: nat :| EndsAt(agents, round, n, maxRounds, outcome) { assert n == round; }
      case Next(rows', main', ui') =>
        OutcomeExactly(rows', kind, reviewKind, change, main', ui', agents, round + 1, maxRounds, outcome);
        EndsLater(agents, round, round + 1, maxRounds, outcome);
    }
  }

  // The number of rounds reported: those reviewed, so the last one does not count if its review failed.
  lemma {:induction false} RoundsReported(
    rows: Table, kind: Kind, reviewKind: Kind, change: nat, main: seq<nat>, ui: seq<nat>,
    agents: Agents, round: nat, maxRounds: int)
    requires InTable(rows, main) && InTable(rows, ui) && main != [] && round <= maxRounds
    ensures var r := Rounds(rows, kind, reviewKind, change, main, ui, agents, round, maxRounds);
      r.rounds == if StoppedIn(r.outcome, Reviewing) then r.reviews - 1 else r.reviews
    decreases maxRounds - round
  {
    if round < maxRounds {
      match OneRound(rows, kind, reviewKind, change, main, ui, agents, round, maxRounds)
      case Over(r) =>
        if agents.review(round).Reviewed? { EndingIsNoStop(agents.review(round).verdict, round, maxRounds); }
      case Next(rows', main', ui') =>
        OneRoundEnds(rows, kind, reviewKind, change, main, ui, agents, round, maxRounds, RoundLimit);
        RoundsReported(rows', kind, reviewKind, change, main', ui', agents, round + 1, maxRounds);
    }
  }

  // ---------------------------------------------------------------- counting the rows

  // Rows of the kind from position `base` up to k.
  ghost function KindCount(rows: Table, kind: Kind, base: nat, k: nat): nat
    requires k <= |rows|
  {
    if k <= base then 0 else KindCount(rows, kind, base, k - 1) + if rows[k - 1].kind == kind then 1 else 0
  }

  ghost function Count(rows: Table, kind: Kind, base: nat): nat { KindCount(rows, kind, base, |rows|) }

  lemma {:induction false} SameKinds(a: Table, b: Table, kind: Kind, base: nat, k: nat)
    requires k <= |a| && k <= |b| && forall i :: 0 <= i < k ==> a[i].kind == b[i].kind
    ensures KindCount(a, kind, base, k) == KindCount(b, kind, base, k)
  {
    if k > base { SameKinds(a, b, kind, base, k - 1); }
  }

  // Each creation adds one row of its kind.
  lemma {:induction false} CreatedCounts(
    rows: Table, created: Kind, change: nat, supersedes: Option<nat>, kind: Kind, base: nat)
    requires base <= |rows| && (supersedes.Some? ==> supersedes.value < |rows|)
    ensures Count(Created(rows, created, change, supersedes), kind, base) ==
      Count(rows, kind, base) + if created == kind then 1 else 0
  {
    SameKinds(Created(rows, created, change, supersedes), rows, kind, base, |rows|);
  }

  lemma {:induction false} ReviewCounts(
    rows: Table, reviewKind: Kind, change: nat, main: seq<nat>, ui: seq<nat>, verdict: Verdict, base: nat)
    requires InTable(rows, main) && InTable(rows, ui) && main != [] && base <= |rows|
    ensures Count(AfterReview(rows, reviewKind, change, main, ui, verdict), reviewKind, base) ==
      Count(rows, reviewKind, base) + 1
  {
    var added := Created(rows, reviewKind, change, None);
    CreatedCounts(rows, reviewKind, change, None, reviewKind, base);
    SameKinds(AfterReview(rows, reviewKind, change, main, ui, verdict), added, reviewKind, base, |added|);
  }

  lemma {:induction false} RefinedCounts(
    reviewed: Table, kind: Kind, reviewKind: Kind, change: nat, main: seq<nat>, ui: seq<nat>, uiAttempt: Attempt,
    base: nat)
    requires Kinds(kind, reviewKind) && InTable(reviewed, main) && InTable(reviewed, ui) && main != [] &&
      base <= |reviewed|
    ensures var next := Refined(reviewed, kind, change, main, ui, uiAttempt);
      |next.rows| >= |reviewed| && Count(next.rows, reviewKind, base) == Count(reviewed, reviewKind, base)
  {
    var refined := Created(reviewed, kind, change, Some(LastOf(main)));
    CreatedCounts(reviewed, kind, change, Some(LastOf(main)), reviewKind, base);
    if ui != [] { CreatedCounts(refined, UiUxDesign, change, Some(LastOf(ui)), reviewKind, base); }
  }

  ghost predicate StoppedIn(outcome: Outcome, stage: Stage) { outcome.Stopped? && outcome.stage == stage }

  // The review calls of a run that left a review, and the refine calls that left a revision.
  ghost predicate Counted(r: Result, reviewKind: Kind, base: nat) {
    && r.reviews == Count(r.rows, reviewKind, base) + (if StoppedIn(r.outcome, Reviewing) then 1 else 0)
    && r.refinements + 1 == |r.main| + (if StoppedIn(r.outcome, Refining) then 1 else 0)
  }

  lemma {:induction false} OneRoundCounts(
    rows: Table, kind: Kind, reviewKind: Kind, change: nat, main: seq<nat>, ui: seq<nat>,
    agents: Agents, round: nat, maxRounds: int, base: nat)
    requires Kinds(kind, reviewKind) && InTable(rows, main) && InTable(rows, ui) && main != [] && base <= |rows|
    requires Count(rows, reviewKind, base) == round && |main| == round + 1
    ensures match OneRound(rows, kind, reviewKind, change, main, ui, agents, round, maxRounds)
      case Over(r) => Counted(r, reviewKind, base)
      case Next(rows', main', _) =>
        base <= |rows'| && Count(rows', reviewKind, base) == round + 1 && |main'| == round + 2
  {
    if agents.review(round).Reviewed? {
      var verdict := agents.review(round).verdict;
      var reviewed := AfterReview(rows, reviewKind, change, main, ui, verdict);
      ReviewCounts(rows, reviewKind, change, main, ui, verdict, base);
      EndingIsNoStop(verdict, round, maxRounds);
      match Ending(verdict, round, maxRounds)
      case Some(_) =>
      case None => RefinedCounts(reviewed, kind, reviewKind, change, main, ui, agents.refineUi(round), base);
    }
  }

  lemma {:induction false} EndingIsNoStop(verdict: Verdict, round: nat, maxRounds: int)
    ensures Ending(verdict, round, maxRounds).Some? ==> !Ending(verdict, round, maxRounds).value.Stopped?
  {
  }

  lemma {:induction false} RoundsCount(
    rows: Table, kind: Kind, reviewKind: Kind, change: nat, main: seq<nat>, ui: seq<nat>,
    agents: Agents, round: nat, maxRounds: int, base: nat)
    requires Kinds(kind, reviewKind) && InTable(rows, main) && InTable(rows, ui) && main != [] && base <= |rows|
    requires Count(rows, reviewKind, base) == round && |main| == round + 1
    ensures Counted(Rounds(rows, kind, reviewKind, change, main, ui, agents, round, maxRounds), reviewKind, base)
    decreases maxRounds - round
  {
    if round < maxRounds {
      OneRoundCounts(rows, kind, reviewKind, change, main, ui, agents, round, maxRounds, base);
      match OneRound(rows, kind, reviewKind, change, main, ui, agents, round, maxRounds)
      case Over(_) =>
      case Next(rows', main', ui') =>
        RoundsCount(rows', kind, reviewKind, change, main', ui', agents, round + 1, maxRounds, base);
    }
  }

  // ---------------------------------------------------------------- main results

  lemma {:induction false} FirstRevision(rows: Table, kind: Kind, change: nat)
    requires !kind.UiUxDesign?
    ensures InRound(Created(rows, kind, change, None), kind, change, [|rows|], [], 0, rows)
  {
    assert Created(rows, kind, change, None)[..|rows|] == rows;
    assert |rows| in [|rows|];
  }

  lemma {:induction false} FirstUiRevision(rows: Table, kind: Kind, change: nat)
    requires !kind.UiUxDesign?
    ensures InRound(Created(Created(rows, kind, change, None), UiUxDesign, change, None), kind, change, [|rows|],
      [|rows| + 1], 0, rows)
  {
    var created, row := Created(rows, kind, change, None), WorkProduct(UiUxDesign, change, Draft, None);
    FirstRevision(rows, kind, change);
    CreateKeeps(created, row, rows);
    AddOther(created, kind, change, [|rows|], |rows|, row);
    assert |rows| + 1 in [|rows| + 1];
  }

  // Some round within the limit passes; every round before it asked for a refinement and was refined.
  ghost predicate ArchitecturePasses(agents: Agents, maxRounds: int) {
    exists n: nat :: n < maxRounds && agents.review(n) == Reviewed(Pass) && forall i: nat :: i < n ==>
      agents.review(i) == Reviewed(NeedsRefinement) && agents.refine(i).Done?
  }

  lemma {:induction false} ArchitecturePassesFrom(agents: Agents, maxRounds: int)
    ensures PassesFrom(AsArchitecture(agents), 0, maxRounds) <==> ArchitecturePasses(agents, maxRounds)
  {
    var architecture := AsArchitecture(agents);
    forall i: nat
      ensures architecture.review(i) == Reviewed(Pass) <==> agents.review(i) == Reviewed(Pass)
      ensures Continues(architecture, i) <==>
        agents.review(i) == Reviewed(NeedsRefinement) && agents.refine(i).Done?
    {
    }
  }

  // An architecture review that gives the conflict verdict ends the run as invalid output.
  lemma {:induction false} ConflictIsInvalid(rows: Table, change: nat, agents: Agents, maxRounds: int, n: nat)
    requires agents.first.Done? && n < maxRounds && agents.review(n).Reviewed? && agents.review(n).verdict.SpecConflict?
    requires forall i: nat :: i < n ==> agents.review(i) == Reviewed(NeedsRefinement) && agents.refine(i).Done?
    ensures RunArchitecture(rows, change, agents, maxRounds).outcome == Stopped(Reviewing, OutputInvalid)
  {
    var architecture, outcome := AsArchitecture(agents), Stopped(Reviewing, OutputInvalid);
    var created := Created(rows, ArchitectureAnalysis, change, None);
    assert forall i: nat :: i < n ==> Continues(architecture, i);
    assert EndsAt(architecture, 0, n, maxRounds, outcome);
    OutcomeExactly(created, ArchitectureAnalysis, ArchitectureReview, change, [|rows|], [], architecture, 0, maxRounds,
      outcome);
  }

  // MAIN: a run of the architecture loop, however its agents answer and however often it ran before.
  lemma {:induction false} ArchitectureRun(rows: Table, change: nat, agents: Agents, maxRounds: int)
    ensures var r := RunArchitecture(rows, change, agents, maxRounds);
      && (agents.first.Failed? ==> r == Result(rows, [], [], Stopped(Creating, agents.first.failure), 0, 0, 0))
      && (agents.first.Done? ==>
           && Finished(r, ArchitectureAnalysis, change, rows, maxRounds) && r.ui == []
           && Counted(r, ArchitectureReview, |rows|)
           && Current(r.rows, ArchitectureAnalysis, change) == LastOf(r.main))
      && (r.outcome.Ready? <==> agents.first.Done? && ArchitecturePasses(agents, maxRounds))
      && (r.outcome.Ready? ==> r.rows[Current(r.rows, ArchitectureAnalysis, change)].status.Approved?)
  {
    if agents.first.Done? {
      var created := Created(rows, ArchitectureAnalysis, change, None);
      var r := RunArchitecture(rows, change, agents, maxRounds);
      FirstRevision(rows, ArchitectureAnalysis, change);
      CreatedCounts(rows, ArchitectureAnalysis, change, None, ArchitectureReview, |rows|);
      RoundsFinish(created, ArchitectureAnalysis, ArchitectureReview, change, [|rows|], [], AsArchitecture(agents), 0,
        maxRounds, rows);
      RoundsCount(created, ArchitectureAnalysis, ArchitectureReview, change, [|rows|], [], AsArchitecture(agents), 0,
        maxRounds, |rows|);
      ReadyWhenPassed(created, ArchitectureAnalysis, ArchitectureReview, change, [|rows|], [], AsArchitecture(agents),
        0, maxRounds);
      ArchitecturePassesFrom(agents, maxRounds);
      ChainIsCurrent(r.rows, ArchitectureAnalysis, change, r.main, |rows|);
    }
  }

  // A design that is ready has its last technical revision approved and current, and its last UI
  // revision too, whether or not a refinement of the UI failed on the way.
  ghost predicate DesignApproved(r: Result, change: nat) {
    && InTable(r.rows, r.main) && InTable(r.rows, r.ui)
    && r.main != [] && Current(r.rows, TechnicalDesign, change) == LastOf(r.main) &&
      r.rows[LastOf(r.main)].status.Approved?
    && (r.ui != [] ==> Current(r.rows, UiUxDesign, change) == LastOf(r.ui) && r.rows[LastOf(r.ui)].status.Approved?)
  }

  // The first artifacts of a design run were made.
  ghost predicate Begun(agents: Agents, uiApplies: bool) { agents.first.Done? && (uiApplies ==> agents.firstUi.Done?) }

  lemma {:induction false} BegunDesign(rows: Table, change: nat, agents: Agents, uiApplies: bool, maxRounds: int)
    requires Begun(agents, uiApplies)
    ensures var r := RunDesign(rows, change, agents, uiApplies, maxRounds);
      && Finished(r, TechnicalDesign, change, rows, maxRounds) && (r.ui != [] <==> uiApplies)
      && Counted(r, DesignReview, |rows|)
      && (r.outcome.Ready? <==> PassesFrom(agents, 0, maxRounds))
      && (r.outcome.Ready? ==> DesignApproved(r, change))
  {
    var r := RunDesign(rows, change, agents, uiApplies, maxRounds);
    var created := Created(rows, TechnicalDesign, change, None);
    var start := if uiApplies then Created(created, UiUxDesign, change, None) else created;
    var ui := if uiApplies then [|rows| + 1] else [];
    if uiApplies {
      FirstUiRevision(rows, TechnicalDesign, change);
    } else {
      FirstRevision(rows, TechnicalDesign, change);
    }
    CreatedCounts(rows, TechnicalDesign, change, None, DesignReview, |rows|);
    CreatedCounts(created, UiUxDesign, change, None, DesignReview, |rows|);
    RoundsFinish(start, TechnicalDesign, DesignReview, change, [|rows|], ui, agents, 0, maxRounds, rows);
    RoundsCount(start, TechnicalDesign, DesignReview, change, [|rows|], ui, agents, 0, maxRounds, |rows|);
    ReadyWhenPassed(start, TechnicalDesign, DesignReview, change, [|rows|], ui, agents, 0, maxRounds);
    ChainIsCurrent(r.rows, TechnicalDesign, change, r.main, |rows|);
    if uiApplies { ChainIsCurrent(r.rows, UiUxDesign, change, r.ui, |rows|); }
  }

  // MAIN: the same for the design loop. When the first design fails nothing is written; when the first UI
  // artifact fails the design is left in DRAFT and current.
  lemma {:induction false} DesignRun(rows: Table, change: nat, agents: Agents, uiApplies: bool, maxRounds: int)
    ensures var r := RunDesign(rows, change, agents, uiApplies, maxRounds);
      && (agents.first.Failed? ==> r == Result(rows, [], [], Stopped(Creating, agents.first.failure), 0, 0, 0))
      && (agents.first.Done? && !Begun(agents, uiApplies) ==>
           && r.rows == rows + [WorkProduct(TechnicalDesign, change, Draft, None)] &&
             Current(r.rows, TechnicalDesign, change) == |rows|
           && r.outcome == Stopped(CreatingUi, agents.firstUi.failure)
           && r.rounds == r.reviews == r.refinements == 0 && r.main == [|rows|] && r.ui == [])
      && (Begun(agents, uiApplies) ==>
           && Finished(r, TechnicalDesign, change, rows, maxRounds) && (r.ui != [] <==> uiApplies)
           && Counted(r, DesignReview, |rows|))
      && (r.outcome.Ready? <==> Begun(agents, uiApplies) && PassesFrom(agents, 0, maxRounds))
      && (r.outcome.Ready? ==> DesignApproved(r, change))
  {
    if Begun(agents, uiApplies) { BegunDesign(rows, change, agents, uiApplies, maxRounds); }
  }

  // A limit of zero or less ends the run without a review.
  lemma {:induction false} NoRoundsNoReview(rows: Table, change: nat, agents: Agents, maxRounds: int)
    requires maxRounds <= 0 && agents.first.Done?
    ensures RunArchitecture(rows, change, agents, maxRounds).outcome == RoundLimit &&
      RunArchitecture(rows, change, agents, maxRounds).reviews == 0
  {
  }

  // ---------------------------------------------------------------- the services

  class WorkProducts {
    var rows: Table

    constructor ()
      ensures rows == []
    {
      rows := [];
    }

    method Create(kind: Kind, change: nat, supersedes: Option<nat>) returns (id: nat)
      requires supersedes.Some? ==> supersedes.value < |rows|
      modifies this
      ensures id == |old(rows)| && rows == Created(old(rows), kind, change, supersedes)
    {
      id := |rows|;
      if supersedes.Some? {
        SetStatus(supersedes.value, Superseded);
      }
      rows := rows + [WorkProduct(kind, change, Draft, supersedes)];
    }

    method SetStatus(id: nat, status: Status)
      requires id < |rows|
      modifies this
      ensures rows == WithStatus(old(rows), id, status)
    {
      rows := rows[id := rows[id].(status := status)];
    }

    // refine marks the prior revision once more after create did.
    method Refine(kind: Kind, change: nat, prior: nat) returns (id: nat)
      requires prior < |rows|
      modifies this
      ensures id == |old(rows)| && rows == Created(old(rows), kind, change, Some(prior))
    {
      id := Create(kind, change, Some(prior));
      SetStatus(prior, Superseded);
    }

    method Judge(reviewKind: Kind, change: nat, main: seq<nat>, ui: seq<nat>, verdict: Verdict)
      requires InTable(rows, main) && InTable(rows, ui) && main != []
      modifies this
      ensures rows == AfterReview(old(rows), reviewKind, change, main, ui, verdict)
    {
      var id := Create(reviewKind, change, None);
      if verdict.Pass? || verdict.Reject? {
        var status := if verdict.Pass? then Approved else Rejected;
        SetStatus(LastOf(main), status);
        if ui != [] {
          SetStatus(LastOf(ui), status);
        }
      }
    }

    // One round of the loop of run_architecture and run_design.
    method ReviewRound(
      kind: Kind, reviewKind: Kind, change: nat, main: seq<nat>, ui: seq<nat>, agents: Agents, round: nat,
      maxRounds: int)
      returns (over: bool, main': seq<nat>, ui': seq<nat>, outcome: Outcome, rounds: int)
      requires InTable(rows, main) && InTable(rows, ui) && main != []
      modifies this
      ensures match OneRound(old(rows), kind, reviewKind, change, main, ui, agents, round, maxRounds)
        case Over(r) =>
          over && rows == r.rows && main' == r.main && ui' == r.ui && outcome == r.outcome && rounds == r.rounds
        case Next(refined, nextMain, nextUi) => !over && rows == refined && main' == nextMain && ui' == nextUi
    {
      main', ui' := main, ui;
      var review := agents.review(round);
      if review.NotReviewed? {
        return true, main, ui, Stopped(Reviewing, review.failure), round;
      }
      Judge(reviewKind, change, main, ui, review.verdict);
      var ending := Ending(review.verdict, round, maxRounds);
      if ending.Some? {
        return true, main, ui, ending.value, round + 1;
      }
      var attempt := agents.refine(round);
      if attempt.Failed? {
        return true, main, ui, Stopped(Refining, attempt.failure), round + 1;
      }
      var id := Refine(kind, change, LastOf(main));
      main' := main + [id];
      if ui != [] && agents.refineUi(round).Done? {
        var uiId := Refine(UiUxDesign, change, LastOf(ui));
        ui' := ui + [uiId];
      }
      over, outcome, rounds := false, RoundLimit, maxRounds;
    }

    method ReviewRounds(
      kind: Kind, reviewKind: Kind, change: nat, first: seq<nat>, firstUi: seq<nat>, agents: Agents, maxRounds: int)
      returns (main: seq<nat>, ui: seq<nat>, outcome: Outcome, rounds: int)
      requires InTable(rows, first) && InTable(rows, firstUi) && first != []
      modifies this
      ensures var r := Rounds(old(rows), kind, reviewKind, change, first, firstUi, agents, 0, maxRounds);
        rows == r.rows && main == r.main && ui == r.ui && outcome == r.outcome && rounds == r.rounds
    {
      main, ui, outcome, rounds := first, firstUi, RoundLimit, maxRounds;
      var round := 0;
      while round < maxRounds
        invariant 0 <= round && InTable(rows, main) && InTable(rows, ui) && main != []
        invariant outcome == RoundLimit && rounds == maxRounds
        invariant Rounds(old(rows), kind, reviewKind, change, first, firstUi, agents, 0, maxRounds)
               == Rounds(rows, kind, reviewKind, change, main, ui, agents, round, maxRounds)
      {
        var over;
        over, main, ui, outcome, rounds := ReviewRound(kind, reviewKind, change, main, ui, agents, round, maxRounds);
        if over {
          return;
        }
        outcome, rounds := RoundLimit, maxRounds;
        round := round + 1;
      }
    }

    method Architecture(
      change: nat, agents: Agents, maxRounds: int) returns (main: seq<nat>, outcome: Outcome, rounds: int)
      modifies this
      ensures var r := RunArchitecture(old(rows), change, agents, maxRounds);
        rows == r.rows && main == r.main && outcome == r.outcome && rounds == r.rounds
    {
      if agents.first.Failed? {
        return [], Stopped(Creating, agents.first.failure), 0;
      }
      var id := Create(ArchitectureAnalysis, change, None);
      var ui;
      main, ui, outcome, rounds := ReviewRounds(ArchitectureAnalysis, ArchitectureReview, change, [id], [],
        AsArchitecture(agents), maxRounds);
    }

    method Design(
      change: nat, agents: Agents, uiApplies: bool, maxRounds: int) returns (main: seq<nat>, ui: seq<nat>,
      outcome: Outcome, rounds: int)
      modifies this
      ensures var r := RunDesign(old(rows), change, agents, uiApplies, maxRounds);
        rows == r.rows && main == r.main && ui == r.ui && outcome == r.outcome && rounds == r.rounds
    {
      if agents.first.Failed? {
        return [], [], Stopped(Creating, agents.first.failure), 0;
      }
      var id := Create(TechnicalDesign, change, None);
      ui := [];
      if uiApplies {
        if agents.firstUi.Failed? {
          return [id], [], Stopped(CreatingUi, agents.firstUi.failure), 0;
        }
        var uiId := Create(UiUxDesign, change, None);
        ui := [uiId];
      }
      main, ui, outcome, rounds := ReviewRounds(TechnicalDesign, DesignReview, change, [id], ui, agents, maxRounds);
    }
  }
}
