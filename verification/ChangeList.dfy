/**
 The list of Changes: the lazy page builder of app/services/change_list_summary_service.py, which
 evaluates a row's workflow status only when the row is shown, against evaluating every row.
 */
module ChangeList {
  import opened Wrappers
  import opened StableSort

  // The cheap signals of one Change, read once for the request.
  datatype Info = Info(
    id: nat, project: nat, changeType: string, profile: Option<string>, hasRun: bool,
    humanDecisions: nat, reviewPending: bool, updatedAt: int)

  // A row object. The lists of a summary share these objects; nothing is copied.
  class Row {
    const info: Info
    var status: Option<string>

    constructor (i: Info)
      ensures info == i && status == None
    {
      info, status := i, None;
    }
  }

  // evaluate_workflow, the expensive call, for a row that has a workflow.
  type Evaluation = nat -> string

  // The status every row has when all are evaluated.
  function EagerStatus(evaluate: Evaluation, row: Row): string {
    if row.info.hasRun then evaluate(row.info.id) else "PENDING"
  }

  datatype Request = Request(
    status: string, changeType: string, profile: string, page: int, pageSize: int, recentLimit: int,
      visible: Option<set<nat>>)

  datatype Summary = Summary(
    rows: seq<Row>, all: seq<Row>, attention: seq<Row>, recent: seq<Row>, total: nat, page: int, pageSize: int,
      totalPages: int)

  // ---------------------------------------------------------------- the lists, all rows evaluated

  predicate Visible(request: Request, row: Row) {
    request.visible.None? || row.info.project in request.visible.value
  }

  predicate Matches(request: Request, evaluate: Evaluation, row: Row) {
    && (request.status == "" || EagerStatus(evaluate, row) == request.status)
    && (request.changeType == "" || row.info.changeType == request.changeType)
    && (request.profile == "" || row.info.profile == Some(request.profile))
  }

  predicate NeedsAttention(row: Row) { row.info.humanDecisions > 0 || row.info.reviewPending }

  function VisibleUpTo(rows: seq<Row>, request: Request, k: nat): seq<Row>
    requires k <= |rows|
  {
    if k == 0 then []
    else VisibleUpTo(rows, request, k - 1) + if Visible(request, rows[k - 1]) then [rows[k - 1]] else []
  }

  function MatchingUpTo(rows: seq<Row>, request: Request, evaluate: Evaluation, k: nat): seq<Row>
    requires k <= |rows|
  {
    if k == 0 then []
    else
      var before := MatchingUpTo(rows, request, evaluate, k - 1);
      if Matches(request, evaluate, rows[k - 1]) then before + [rows[k - 1]] else before
  }

  function AttentionUpTo(rows: seq<Row>, k: nat): seq<Row>
    requires k <= |rows|
  {
    if k == 0 then [] else AttentionUpTo(rows, k - 1) + if NeedsAttention(rows[k - 1]) then [rows[k - 1]] else []
  }

  // s[:n] as Python reads it.
  function Take(s: seq<Row>, n: int): (r: seq<Row>)
    ensures r <= s
  {
    if n >= |s| then s else if n >= 0 then s[..n] else if -n <= |s| then s[..|s| + n] else []
  }

  predicate NewerFirst(a: Row, b: Row) { a.info.updatedAt >= b.info.updatedAt }

  function Recent(rows: seq<Row>, limit: int): seq<Row> { Take(Sort(rows, NewerFirst), limit) }

  // How many rows a limit leaves; a negative one counts from the end.
  ghost function Kept(rows: seq<Row>, limit: int): (n: nat)
    ensures n <= |rows|
  {
    if limit >= |rows| then |rows| else if limit >= 0 then limit else if |rows| + limit >= 0 then |rows| + limit else 0
  }

  // The rows that recent activity leaves out.
  ghost function LeftOut(rows: seq<Row>, limit: int): seq<Row> { Sort(rows, NewerFirst)[Kept(rows, limit)..] }

  lemma {:induction false} RecentIsFirst(rows: seq<Row>, limit: int)
    ensures Recent(rows, limit) == Sort(rows, NewerFirst)[..Kept(rows, limit)]
  {
    var sorted := Sort(rows, NewerFirst);
    assert sorted[..|sorted|] == sorted;
  }

  // Recent activity is the newest rows: in order, and no row left out is newer than one shown.
  lemma {:induction false} RecentAreNewest(rows: seq<Row>, limit: int)
    ensures |Recent(rows, limit)| == Kept(rows, limit)
    ensures Sorted(Recent(rows, limit), NewerFirst)
    ensures multiset(Recent(rows, limit) + LeftOut(rows, limit)) == multiset(rows)
    ensures forall i, j :: 0 <= i < |Recent(rows, limit)| && 0 <= j < |LeftOut(rows, limit)| ==>
      NewerFirst(Recent(rows, limit)[i], LeftOut(rows, limit)[j])
  {
    RecentIsFirst(rows, limit);
    SortIsStable(rows, NewerFirst);
    SortPermutes(rows, NewerFirst);
    SplitsSorted(Sort(rows, NewerFirst), Kept(rows, limit));
  }

  lemma {:induction false} SplitsSorted(s: seq<Row>, n: nat)
    requires n <= |s| && Sorted(s, NewerFirst)
    ensures s[..n] + s[n..] == s && Sorted(s[..n], NewerFirst)
    ensures forall i, j :: 0 <= i < n && 0 <= j < |s| - n ==> NewerFirst(s[..n][i], s[n..][j])
  {
  }

  // ---------------------------------------------------------------- pages

  function Clamp(n: int, low: int, high: int): int
    requires low <= high
  {
    if n < low then low else if n > high then high else n
  }

  // max(1, ceil(total / size))
  function TotalPages(total: nat, size: nat): (pages: nat)
    requires size >= 1
    ensures pages >= 1 && pages * size >= total && (pages > 1 ==> (pages - 1) * size < total)
  {
    var pages := (total + size - 1) / size;
    if pages < 1 then 1 else pages
  }

  // filtered[start:start + size] for page p, counted from 1.
  function Page(rows: seq<Row>, p: nat, size: nat): seq<Row>
    requires p >= 1
  {
    var start := (p - 1) * size;
    if start >= |rows| then [] else if start + size >= |rows| then rows[start..] else rows[start..start + size]
  }

  function PagesUpTo(rows: seq<Row>, size: nat, k: nat): seq<Row> {
    if k == 0 then [] else PagesUpTo(rows, size, k - 1) + Page(rows, k, size)
  }

  lemma {:induction false} PagesArePrefix(rows: seq<Row>, size: nat, k: nat)
    ensures PagesUpTo(rows, size, k) == if k * size >= |rows| then rows else rows[..k * size]
  {
    if k > 0 {
      PagesArePrefix(rows, size, k - 1);
      var start := (k - 1) * size;
      assert k * size == start + size;
      if start < |rows| {
        assert rows == rows[..start] + rows[start..];
        if start + size < |rows| { assert rows[..start + size] == rows[..start] + rows[start..start + size]; }
      }
    }
  }

  // MAIN: the pages 1..total_pages, one after the other, are the filtered list, and every page but the
  // last is full.
  lemma {:induction false} PagesConcatenate(rows: seq<Row>, size: nat)
    requires size >= 1
    ensures PagesUpTo(rows, size, TotalPages(|rows|, size)) == rows
    ensures forall p :: 1 <= p < TotalPages(|rows|, size) ==> |Page(rows, p, size)| == size
  {
    var pages := TotalPages(|rows|, size);
    PagesArePrefix(rows, size, pages);
    forall p | 1 <= p < pages ensures |Page(rows, p, size)| == size {
      PageIsFull(rows, p, size, pages);
    }
  }

  lemma {:induction false} ProductGrows(a: nat, b: nat, c: nat)
    requires a <= b
    ensures a * c <= b * c
  {
  }

  lemma {:induction false} PageIsFull(rows: seq<Row>, p: nat, size: nat, pages: nat)
    requires 1 <= p < pages && size >= 1 && (pages - 1) * size < |rows|
    ensures |Page(rows, p, size)| == size
  {
    ProductGrows(p, pages - 1, size);
    assert p * size == (p - 1) * size + size;
  }

  // ---------------------------------------------------------------- the summary, all rows evaluated

  function EagerSummary(rows: seq<Row>, request: Request, evaluate: Evaluation): Summary {
    SummaryOf(VisibleUpTo(rows, request, |rows|), request, evaluate)
  }

  function SummaryOf(all: seq<Row>, request: Request, evaluate: Evaluation): Summary {
    var filtered := MatchingUpTo(all, request, evaluate, |all|);
    var size := Clamp(request.pageSize, 1, 200);
    var pages := TotalPages(|filtered|, size);
    var page := Clamp(request.page, 1, pages);
    Summary(Page(filtered, page, size), all, AttentionUpTo(all, |all|), Recent(all, request.recentLimit), |filtered|,
      page, size, pages)
  }

  // A row of one of the three lists shown with a status.
  predicate Shown(s: Summary, row: Row) { row in s.rows || row in s.attention || row in s.recent }

  lemma {:induction false} VisibleFrom(rows: seq<Row>, request: Request, k: nat)
    requires k <= |rows|
    ensures forall x :: x in VisibleUpTo(rows, request, k) ==> x in rows
  {
    if k > 0 { VisibleFrom(rows, request, k - 1); }
  }

  lemma {:induction false} MatchingFrom(rows: seq<Row>, request: Request, evaluate: Evaluation, k: nat)
    requires k <= |rows|
    ensures forall x :: x in MatchingUpTo(rows, request, evaluate, k) ==> x in rows
  {
    if k > 0 { MatchingFrom(rows, request, evaluate, k - 1); }
  }

  lemma {:induction false} AttentionFrom(rows: seq<Row>, k: nat)
    requires k <= |rows|
    ensures forall x :: x in AttentionUpTo(rows, k) ==> x in rows
  {
    if k > 0 { AttentionFrom(rows, k - 1); }
  }

  lemma {:induction false} RecentFrom(rows: seq<Row>, limit: int)
    ensures forall x :: x in Recent(rows, limit) ==> x in rows
  {
    SortPermutes(rows, NewerFirst);
    forall x | x in Recent(rows, limit) ensures x in rows {
      assert x in Sort(rows, NewerFirst);
      assert x in multiset(Sort(rows, NewerFirst));
    }
  }

  lemma {:induction false} ShownAreRows(rows: seq<Row>, request: Request, evaluate: Evaluation)
    ensures var s := EagerSummary(rows, request, evaluate);
      && (forall x :: x in s.all ==> x in rows)
      && forall x :: Shown(s, x) ==> x in s.all
  {
    var all := VisibleUpTo(rows, request, |rows|);
    VisibleFrom(rows, request, |rows|);
    MatchingFrom(all, request, evaluate, |all|);
    AttentionFrom(all, |all|);
    RecentFrom(all, request.recentLimit);
  }

  // ---------------------------------------------------------------- what is shown

  // A Change of a repository the user may see; without a restriction every Change is.
  ghost predicate MayBeSeen(request: Request, x: Row) {
    request.visible != None ==> x.info.project in request.visible.value
  }

  // What a row has when it is evaluated: PENDING without a workflow.
  ghost predicate HasStatus(evaluate: Evaluation, x: Row, status: string) {
    if x.info.hasRun then evaluate(x.info.id) == status else status == "PENDING"
  }

  // The row passes every filter that is set.
  ghost predicate Wanted(request: Request, evaluate: Evaluation, x: Row) {
    && (request.status != "" ==> HasStatus(evaluate, x, request.status))
    && (request.changeType != "" ==> x.info.changeType == request.changeType)
    && (request.profile != "" ==> x.info.profile == Some(request.profile))
  }

  // A filter looks at one row more, and keeps it or not.
  lemma {:induction false} CountOne(
    rows: seq<Row>, k: nat, before: seq<Row>, after: seq<Row>, keeps: bool, x: Row, wanted: bool)
    requires k < |rows| && after == before + (if keeps then [rows[k]] else []) && (rows[k] == x ==> keeps == wanted)
    requires multiset(before)[x] == if wanted then multiset(rows[..k])[x] else 0
    ensures multiset(after)[x] == if wanted then multiset(rows[..k + 1])[x] else 0
  {
    assert rows[..k + 1] == rows[..k] + [rows[k]];
    if !keeps { assert after == before; }
  }

  // Each filter keeps exactly the rows it should, each as often as it is there.
  lemma {:induction false} VisibleCount(rows: seq<Row>, request: Request, k: nat, x: Row)
    requires k <= |rows|
    ensures multiset(VisibleUpTo(rows, request, k))[x] == if MayBeSeen(request, x) then multiset(rows[..k])[x] else 0
  {
    for i := 0 to k
      invariant multiset(VisibleUpTo(rows, request, i))[x] ==
        if MayBeSeen(request, x) then multiset(rows[..i])[x] else 0
    {
      CountOne(rows, i, VisibleUpTo(rows, request, i), VisibleUpTo(rows, request, i + 1), Visible(request, rows[i]), x,
        MayBeSeen(request, x));
    }
  }

  lemma {:induction false} MatchingCount(rows: seq<Row>, request: Request, evaluate: Evaluation, k: nat, x: Row)
    requires k <= |rows|
    ensures multiset(MatchingUpTo(rows, request, evaluate, k))[x] ==
      if Wanted(request, evaluate, x) then multiset(rows[..k])[x] else 0
  {
    for i := 0 to k
      invariant multiset(MatchingUpTo(rows, request, evaluate, i))[x] ==
        if Wanted(request, evaluate, x) then multiset(rows[..i])[x] else 0
    {
      var before, after := MatchingUpTo(rows, request, evaluate, i), MatchingUpTo(rows, request, evaluate, i + 1);
      assert before + [] == before;
      CountOne(rows, i, before, after, Matches(request, evaluate, rows[i]), x, Wanted(request, evaluate, x));
    }
  }

  lemma {:induction false} AttentionCount(rows: seq<Row>, k: nat, x: Row)
    requires k <= |rows|
    ensures multiset(AttentionUpTo(rows, k))[x] ==
      if x.info.humanDecisions > 0 || x.info.reviewPending then multiset(rows[..k])[x] else 0
  {
    for i := 0 to k
      invariant multiset(AttentionUpTo(rows, i))[x] ==
        if x.info.humanDecisions > 0 || x.info.reviewPending then multiset(rows[..i])[x] else 0
    {
      CountOne(rows, i, AttentionUpTo(rows, i), AttentionUpTo(rows, i + 1), NeedsAttention(rows[i]), x,
        x.info.humanDecisions > 0 || x.info.reviewPending);
    }
  }

  // The pages of the whole list, as many as are asked for.
  ghost function PagesOf(filtered: seq<Row>, size: nat): seq<Row>
    requires size >= 1
  {
    PagesUpTo(filtered, size, TotalPages(|filtered|, size))
  }

  // The summary and its filtered list count a row exactly where it belongs.
  ghost predicate CountsRow(
    rows: seq<Row>, request: Request, evaluate: Evaluation, s: Summary, filtered: seq<Row>, x: Row) {
    var seen := if MayBeSeen(request, x) then multiset(rows)[x] else 0;
    && multiset(s.all)[x] == seen
    && multiset(s.attention)[x] == (if x.info.humanDecisions > 0 || x.info.reviewPending then seen else 0)
    && multiset(filtered)[x] == (if Wanted(request, evaluate, x) then seen else 0)
  }

  // The page shown is the one asked for, or the nearest there is, of the number of rows asked for, or the
  // nearest between 1 and 200.
  ghost predicate ShowsPage(request: Request, s: Summary, filtered: seq<Row>) {
    && s.total == |filtered| && 1 <= s.page <= s.totalPages && 1 <= s.pageSize <= 200
    && (1 <= request.pageSize <= 200 ==> s.pageSize == request.pageSize)
    && (request.pageSize < 1 ==> s.pageSize == 1) && (request.pageSize > 200 ==> s.pageSize == 200)
    && (1 <= request.page <= s.totalPages ==> s.page == request.page)
    && (request.page < 1 ==> s.page == 1) && (request.page > s.totalPages ==> s.page == s.totalPages)
    && s.totalPages == TotalPages(|filtered|, s.pageSize) && PagesOf(filtered, s.pageSize) == filtered
    && s.rows == Page(filtered, s.page, s.pageSize)
  }

  // MAIN: of the given rows the summary counts exactly those the user may see; of these, exactly those with an
  // open decision or review need attention, and exactly those that pass the filters are paged.
  lemma {:induction false} SummaryExactly(rows: seq<Row>, request: Request, evaluate: Evaluation)
    returns (filtered: seq<Row>)
    ensures var s := EagerSummary(rows, request, evaluate);
      && (forall x :: x in rows ==> CountsRow(rows, request, evaluate, s, filtered, x))
      && (forall x :: x in s.all || x in filtered || x in s.attention ==> x in rows)
      && ShowsPage(request, s, filtered) && s.recent == Recent(s.all, request.recentLimit)
  {
    var s, all := EagerSummary(rows, request, evaluate), VisibleUpTo(rows, request, |rows|);
    filtered := MatchingUpTo(all, request, evaluate, |all|);
    assert rows[..|rows|] == rows && all[..|all|] == all;
    forall x | x in rows ensures CountsRow(rows, request, evaluate, s, filtered, x) {
      VisibleCount(rows, request, |rows|, x);
      AttentionCount(all, |all|, x);
      MatchingCount(all, request, evaluate, |all|, x);
    }
    VisibleFrom(rows, request, |rows|);
    MatchingFrom(all, request, evaluate, |all|);
    AttentionFrom(all, |all|);
    PagesConcatenate(filtered, s.pageSize);
  }

  // ---------------------------------------------------------------- the builder

  class ChangeListSummaryService {
    const evaluate: Evaluation
    // Every evaluation made for the request, in order.
    var evaluated: seq<Row>

    constructor (e: Evaluation)
      ensures evaluate == e && evaluated == []
    {
      evaluate, evaluated := e, [];
    }

    // A status is set only to what evaluating the row gives, and no row is evaluated twice.
    ghost predicate Consistent(rows: seq<Row>)
      reads this, rows
    {
      && (forall x :: x in rows && x.status.Some? ==> x.status == Some(EagerStatus(evaluate, x)))
      && (forall x :: x in evaluated ==> x in rows && x.info.hasRun && x.status.Some?)
      && (forall x :: x in rows && x.info.hasRun && x.status.Some? ==> x in evaluated)
      && forall i, j :: 0 <= i < j < |evaluated| ==> evaluated[i] != evaluated[j]
    }

    method EnsureStatus(row: Row, ghost rows: seq<Row>)
      requires row in rows && Consistent(rows)
      modifies this`evaluated, row`status
      ensures Consistent(rows) && row.status == Some(EagerStatus(evaluate, row))
      ensures old(row.status).Some? ==> evaluated == old(evaluated)
    {
      if row.status.Some? {
        return;
      }
      if row.info.hasRun {
        evaluated := evaluated + [row];
        row.status := Some(evaluate(row.info.id));
      } else {
        row.status := Some("PENDING");
      }
    }

    method EnsureAll(some: seq<Row>, ghost rows: seq<Row>)
      requires Consistent(rows) && forall x :: x in some ==> x in rows
      modifies this`evaluated, set x | x in some :: x
      ensures Consistent(rows)
      ensures forall x :: x in rows ==> (x.status.Some? <==> old(x.status).Some? || x in some)
    {
      for i := 0 to |some|
        invariant Consistent(rows)
        invariant forall x :: x in rows ==> (x.status.Some? <==> old(x.status).Some? || x in some[..i])
      {
        assert some[i] in some;
        EnsureStatus(some[i], rows);
        assert some[..i + 1] == some[..i] + [some[i]];
      }
    }

    // page_rows + human_attention + recent, each object once.
    method Dedupe(some: seq<Row>) returns (unique: seq<Row>)
      ensures forall x :: x in unique ==> x in some
      ensures forall x :: x in some ==> x in unique
      ensures forall i, j :: 0 <= i < j < |unique| ==> unique[i] != unique[j]
    {
      unique := [];
      for i := 0 to |some|
        invariant forall x :: x in unique ==> x in some[..i]
        invariant forall x :: x in some[..i] ==> x in unique
        invariant forall a, b :: 0 <= a < b < |unique| ==> unique[a] != unique[b]
      {
        if some[i] !in unique {
          unique := unique + [some[i]];
        }
        assert some[..i + 1] == some[..i] + [some[i]];
      }
    }

    method SelectVisible(rows: seq<Row>, request: Request) returns (all: seq<Row>)
      ensures all == VisibleUpTo(rows, request, |rows|)
    {
      all := [];
      for i := 0 to |rows|
        invariant all == VisibleUpTo(rows, request, i)
      {
        if Visible(request, rows[i]) {
          all := all + [rows[i]];
        }
      }
    }

    // The filters, with the statuses the rows carry; a status filter finds them all evaluated.
    method SelectMatching(rows: seq<Row>, request: Request) returns (filtered: seq<Row>)
      requires request.status != "" ==> forall x :: x in rows ==> x.status == Some(EagerStatus(evaluate, x))
      ensures filtered == MatchingUpTo(rows, request, evaluate, |rows|)
    {
      filtered := [];
      for i := 0 to |rows|
        invariant filtered == MatchingUpTo(rows, request, evaluate, i)
      {
        var row := rows[i];
        assert row in rows;
        if (request.status == "" || row.status == Some(request.status))
           && (request.changeType == "" || row.info.changeType == request.changeType)
           && (request.profile == "" || row.info.profile == Some(request.profile)) {
          filtered := filtered + [row];
        }
      }
    }

    method SelectAttention(rows: seq<Row>) returns (attention: seq<Row>)
      ensures attention == AttentionUpTo(rows, |rows|)
    {
      attention := [];
      for i := 0 to |rows|
        invariant attention == AttentionUpTo(rows, i)
      {
        if NeedsAttention(rows[i]) {
          attention := attention + [rows[i]];
        }
      }
    }

    method SelectLists(all: seq<Row>, request: Request) returns (s: Summary)
      requires request.status != "" ==> forall x :: x in all ==> x.status == Some(EagerStatus(evaluate, x))
      ensures s == SummaryOf(all, request, evaluate)
    {
      var filtered := SelectMatching(all, request);
      var attention := SelectAttention(all);
      var recent := Recent(all, request.recentLimit);
      var size := Clamp(request.pageSize, 1, 200);
      var pages := TotalPages(|filtered|, size);
      var page := Clamp(request.page, 1, pages);
      s := Summary(Page(filtered, page, size), all, attention, recent, |filtered|, page, size, pages);
    }

    method EnsureShown(s: Summary, ghost rows: seq<Row>)
      requires Consistent(rows) && forall x :: Shown(s, x) ==> x in rows
      modifies this`evaluated, set x | x in rows :: x
      ensures Consistent(rows)
      ensures forall x :: x in rows ==> (x.status.Some? <==> old(x.status).Some? || Shown(s, x))
    {
      var shown := s.rows + s.attention + s.recent;
      assert forall x :: x in shown <==> Shown(s, x);
      var unique := Dedupe(shown);
      EnsureAll(unique, rows);
    }

    // MAIN: build gives the lists it would give with every row evaluated, every shown row carries the
    // status it would then have, and the rows evaluated, each once, are those shown and no others,
    // unless a status filter needs them all.
    method Build(rows: seq<Row>, request: Request) returns (s: Summary)
      requires evaluated == [] && forall x :: x in rows ==> x.status == None
      modifies this`evaluated, set x | x in rows :: x
      ensures s == EagerSummary(rows, request, evaluate)
      ensures forall x :: x in rows && Shown(s, x) ==> x.status == Some(EagerStatus(evaluate, x))
      ensures forall x :: x in rows && x.status.Some? ==> Shown(s, x) || (request.status != "" && x in s.all)
      ensures forall x :: x in evaluated ==> x in rows && x.info.hasRun && x.status.Some?
      ensures forall i, j :: 0 <= i < j < |evaluated| ==> evaluated[i] != evaluated[j]
    {
      var all := SelectVisible(rows, request);
      ShownAreRows(rows, request, evaluate);
      assert Consistent(rows);
      if request.status != "" {
        EnsureAll(all, rows);
      }
      s := SelectLists(all, request);
      ShownAreRows(rows, request, evaluate);
      assert forall x :: Shown(s, x) ==> x in rows;
      EnsureShown(s, rows);
    }
  }
}
