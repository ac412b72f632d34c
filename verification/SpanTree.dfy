/**
 The span-tree renderer: a recursive walk over a flat list of spans with one shared budget.
 The list may hold duplicate ids, orphans and parent cycles.
 */
module SpanTree {
  import opened Common

  datatype Span = Span(id: string, parent: string, name: string, kind: string, startUs: int, durUs: int)

  /** One rendered line: which span, under which indentation, behind which branch. */
  datatype Line = Line(index: nat, prefix: string, branch: string)

  const LAST_BRANCH := "\U{2514}\U{2500}"
  const MID_BRANCH := "\U{251C}\U{2500}"
  const LAST_INDENT := "   "
  const MID_INDENT := "\U{2502}  "
  const ROOT_INDENT := "  "

  // ----- sort.SliceStable by start time -----

  function InsertByStart(s: Span, rest: seq<Span>): (r: seq<Span>)
    ensures |r| == |rest| + 1
  {
    if rest == [] || s.startUs <= rest[0].startUs then [s] + rest
    else [rest[0]] + InsertByStart(s, rest[1..])
  }

  function SortByStart(spans: seq<Span>): (r: seq<Span>)
    ensures |r| == |spans|
  {
    if spans == [] then [] else InsertByStart(spans[0], SortByStart(spans[1..]))
  }

  predicate Sorted(spans: seq<Span>) {
    forall i, j :: 0 <= i < j < |spans| ==> spans[i].startUs <= spans[j].startUs
  }

  /** The spans that start at `t`, in list order. */
  function StartingAt(spans: seq<Span>, t: int): seq<Span> {
    if spans == [] then []
    else (if spans[0].startUs == t then [spans[0]] else []) + StartingAt(spans[1..], t)
  }

  lemma SortedBehind(head: Span, tail: seq<Span>)
    requires Sorted(tail)
    requires forall x :: x in tail ==> head.startUs <= x.startUs
    ensures Sorted([head] + tail)
  {
  }

  lemma {:induction false} InsertSorts(s: Span, rest: seq<Span>)
    requires Sorted(rest)
    ensures Sorted(InsertByStart(s, rest))
    ensures forall x :: x in InsertByStart(s, rest) ==> x == s || x in rest
  {
    if rest != [] && s.startUs > rest[0].startUs {
      InsertSorts(s, rest[1..]);
      SortedBehind(rest[0], InsertByStart(s, rest[1..]));
    } else {
      SortedBehind(s, rest);
    }
  }

  lemma StartingAtBehind(head: Span, tail: seq<Span>, t: int)
    ensures StartingAt([head] + tail, t) == (if head.startUs == t then [head] else []) + StartingAt(tail, t)
  {
    assert ([head] + tail)[1..] == tail;
  }

  lemma {:induction false} InsertIsStable(s: Span, rest: seq<Span>, t: int)
    ensures StartingAt(InsertByStart(s, rest), t) == (if s.startUs == t then [s] else []) + StartingAt(rest, t)
  {
    if rest != [] && s.startUs > rest[0].startUs {
      InsertIsStable(s, rest[1..], t);
      StartingAtBehind(rest[0], InsertByStart(s, rest[1..]), t);
    } else {
      StartingAtBehind(s, rest, t);
    }
  }

  /** Sorted by start time, and spans with equal start times keep their order. */
  lemma {:induction false} SortIsStable(spans: seq<Span>, t: int)
    ensures Sorted(SortByStart(spans))
    ensures StartingAt(SortByStart(spans), t) == StartingAt(spans, t)
  {
    if spans != [] {
      SortIsStable(spans[1..], t);
      InsertSorts(spans[0], SortByStart(spans[1..]));
      InsertIsStable(spans[0], SortByStart(spans[1..]), t);
    }
  }

  // ----- parents and children -----

  predicate Present(flat: seq<Span>, id: string) {
    exists i :: 0 <= i < |flat| && flat[i].id == id
  }

  /** Anything whose parent is not in the list is a root. */
  predicate IsChild(flat: seq<Span>, i: nat)
    requires i < |flat|
  {
    flat[i].parent != "" && Present(flat, flat[i].parent)
  }

  predicate InRange(list: seq<nat>, n: nat) {
    forall k :: 0 <= k < |list| ==> list[k] < n
  }

  predicate Increasing(list: seq<nat>) {
    forall k, l :: 0 <= k < l < |list| ==> list[k] < list[l]
  }

  /** children[id], from the first `n` spans. */
  function KidsUpTo(flat: seq<Span>, id: string, n: nat): (kids: seq<nat>)
    requires n <= |flat|
    ensures InRange(kids, n)
  {
    if n == 0 then []
    else
      var kids := KidsUpTo(flat, id, n - 1);
      if IsChild(flat, n - 1) && flat[n - 1].parent == id then kids + [n - 1] else kids
  }

  function Kids(flat: seq<Span>, id: string): (kids: seq<nat>)
    ensures InRange(kids, |flat|)
  {
    KidsUpTo(flat, id, |flat|)
  }

  function RootsUpTo(flat: seq<Span>, n: nat): (roots: seq<nat>)
    requires n <= |flat|
    ensures InRange(roots, n)
  {
    if n == 0 then []
    else if IsChild(flat, n - 1) then RootsUpTo(flat, n - 1)
    else RootsUpTo(flat, n - 1) + [n - 1]
  }

  function Roots(flat: seq<Span>): (roots: seq<nat>)
    ensures InRange(roots, |flat|)
  {
    RootsUpTo(flat, |flat|)
  }

  lemma Extend(list: seq<nat>, n: nat, i: nat)
    requires Increasing(list) && InRange(list, n)
    ensures Increasing(list + [n])
    ensures i in list + [n] <==> i in list || i == n
  {
  }

  /** Kids are listed in list order, and are exactly the spans that name `id` as their parent. */
  lemma {:induction false} KidsInOrder(flat: seq<Span>, id: string, n: nat, i: nat)
    requires n <= |flat|
    ensures Increasing(KidsUpTo(flat, id, n))
    ensures i in KidsUpTo(flat, id, n) <==> i < n && IsChild(flat, i) && flat[i].parent == id
  {
    if n > 0 {
      hide Present, Increasing, InRange;
      KidsInOrder(flat, id, n - 1, i);
      Extend(KidsUpTo(flat, id, n - 1), n - 1, i);
    } else {
      assert KidsUpTo(flat, id, n) == [];
    }
  }

  lemma {:induction false} RootsInOrder(flat: seq<Span>, n: nat, i: nat)
    requires n <= |flat|
    ensures Increasing(RootsUpTo(flat, n))
    ensures i in RootsUpTo(flat, n) <==> i < n && !IsChild(flat, i)
  {
    if n > 0 {
      hide IsChild, Increasing, InRange;
      RootsInOrder(flat, n - 1, i);
      Extend(RootsUpTo(flat, n - 1), n - 1, i);
    } else {
      assert RootsUpTo(flat, n) == [];
    }
  }

  // ----- the walk -----

  function BranchOf(prefix: string, isLast: bool): string {
    if prefix == "" then "" else if isLast then LAST_BRANCH else MID_BRANCH
  }

  function NextPrefix(prefix: string, isLast: bool): string {
    if prefix == "" then ROOT_INDENT else prefix + if isLast then LAST_INDENT else MID_INDENT
  }

  function LineFor(idx: nat, prefix: string, isLast: bool): (line: Line)
    ensures line.index == idx
  {
    Line(idx, prefix, BranchOf(prefix, isLast))
  }

  /** What the walk from `idx` renders with `budget` lines left. */
  function Walk(flat: seq<Span>, idx: nat, prefix: string, isLast: bool, budget: nat): (lines: seq<Line>)
    requires idx < |flat|
    ensures |lines| <= budget
    decreases budget, 0
  {
    if budget == 0 then []
    else [LineFor(idx, prefix, isLast)]
         + WalkFrom(flat, Kids(flat, flat[idx].id), 0, NextPrefix(prefix, isLast), budget - 1)
  }

  /** The siblings `list[i..]`, one after the other, sharing the budget. */
  function WalkFrom(flat: seq<Span>, list: seq<nat>, i: nat, prefix: string, budget: nat): (lines: seq<Line>)
    requires InRange(list, |flat|) && i <= |list|
    ensures |lines| <= budget
    decreases budget, |list| - i + 1
  {
    if i == |list| then []
    else
      var first := Walk(flat, list[i], prefix, i == |list| - 1, budget);
      first + WalkFrom(flat, list, i + 1, prefix, budget - |first|)
  }

  /** The preorder of the tree below `idx`, cut at depth `fuel`; no budget. */
  function Subtree(flat: seq<Span>, idx: nat, prefix: string, isLast: bool, fuel: nat): seq<Line>
    requires idx < |flat|
    decreases fuel, 0
  {
    if fuel == 0 then []
    else [LineFor(idx, prefix, isLast)]
         + Forest(flat, Kids(flat, flat[idx].id), 0, NextPrefix(prefix, isLast), fuel - 1)
  }

  function Forest(flat: seq<Span>, list: seq<nat>, i: nat, prefix: string, fuel: nat): seq<Line>
    requires InRange(list, |flat|) && i <= |list|
    decreases fuel, |list| - i + 1
  {
    if i == |list| then []
    else Subtree(flat, list[i], prefix, i == |list| - 1, fuel) + Forest(flat, list, i + 1, prefix, fuel)
  }

  function Take(lines: seq<Line>, n: nat): seq<Line> {
    if n <= |lines| then lines[..n] else lines
  }

  lemma WalkEnds(flat: seq<Span>, idx: nat, prefix: string, isLast: bool)
    requires idx < |flat|
    ensures Walk(flat, idx, prefix, isLast, 0) == []
  {
  }

  /** The walk seen from `before`, the lines already out. */
  lemma WalkUnfolds(flat: seq<Span>, idx: nat, prefix: string, isLast: bool, budget: nat, before: seq<Line>)
    requires idx < |flat| && budget > 0
    ensures before + Walk(flat, idx, prefix, isLast, budget)
         == (before + [LineFor(idx, prefix, isLast)])
            + WalkFrom(flat, Kids(flat, flat[idx].id), 0, NextPrefix(prefix, isLast), budget - 1)
  {
    Regroup(before, [LineFor(idx, prefix, isLast)],
            WalkFrom(flat, Kids(flat, flat[idx].id), 0, NextPrefix(prefix, isLast), budget - 1));
  }

  lemma WalkFromUnfolds(flat: seq<Span>, list: seq<nat>, i: nat, prefix: string, budget: nat)
    requires InRange(list, |flat|) && i < |list|
    ensures var first := Walk(flat, list[i], prefix, i == |list| - 1, budget);
      WalkFrom(flat, list, i, prefix, budget) == first + WalkFrom(flat, list, i + 1, prefix, budget - |first|)
  {
  }

  lemma WalkFromEnds(flat: seq<Span>, list: seq<nat>, prefix: string, budget: nat)
    requires InRange(list, |flat|)
    ensures WalkFrom(flat, list, |list|, prefix, budget) == []
  {
  }

  lemma SubtreeUnfolds(flat: seq<Span>, idx: nat, prefix: string, isLast: bool, fuel: nat)
    requires idx < |flat| && fuel > 0
    ensures Subtree(flat, idx, prefix, isLast, fuel)
         == [LineFor(idx, prefix, isLast)]
            + Forest(flat, Kids(flat, flat[idx].id), 0, NextPrefix(prefix, isLast), fuel - 1)
  {
  }

  lemma {:induction false} NothingWithoutBudget(flat: seq<Span>, list: seq<nat>, i: nat, prefix: string)
    requires InRange(list, |flat|) && i <= |list|
    ensures WalkFrom(flat, list, i, prefix, 0) == []
  {
  }

  /**
   The walk renders the first `budget` lines of the preorder, for every span list: cycles
   only make the preorder endless, and `budget` levels of it are deep enough.
   */
  lemma {:induction false} WalkIsPreorderPrefix(
      flat: seq<Span>, idx: nat, prefix: string, isLast: bool, budget: nat, fuel: nat)
    requires idx < |flat| && budget <= fuel
    ensures Walk(flat, idx, prefix, isLast, budget) == Take(Subtree(flat, idx, prefix, isLast, fuel), budget)
    decreases budget, 0
  {
    if budget > 0 {
      WalkFromIsPreorderPrefix(flat, Kids(flat, flat[idx].id), 0, NextPrefix(prefix, isLast), budget - 1, fuel - 1);
    }
  }

  lemma {:induction false} WalkFromIsPreorderPrefix(
      flat: seq<Span>, list: seq<nat>, i: nat, prefix: string, budget: nat, fuel: nat)
    requires InRange(list, |flat|) && i <= |list| && budget <= fuel
    ensures WalkFrom(flat, list, i, prefix, budget) == Take(Forest(flat, list, i, prefix, fuel), budget)
    decreases budget, |list| - i + 1
  {
    if i < |list| {
      var whole := Subtree(flat, list[i], prefix, i == |list| - 1, fuel);
      WalkIsPreorderPrefix(flat, list[i], prefix, i == |list| - 1, budget, fuel);
      if budget <= |whole| {
        NothingWithoutBudget(flat, list, i + 1, prefix);
      } else {
        WalkFromIsPreorderPrefix(flat, list, i + 1, prefix, budget - |whole|, fuel);
      }
    }
  }

  // ----- distinct ids: the spans reachable from a root -----

  predicate DistinctIds(flat: seq<Span>) {
    forall i, j :: 0 <= i < j < |flat| ==> flat[i].id != flat[j].id
  }

  function IndexOf(flat: seq<Span>, id: string): (p: nat)
    requires Present(flat, id)
    ensures p < |flat| && flat[p].id == id
  {
    if flat[0].id == id then 0
    else
      assert Present(flat[1..], id) by {
        var i :| 0 <= i < |flat| && flat[i].id == id;
        assert flat[1..][i - 1].id == id;
      }
      1 + IndexOf(flat[1..], id)
  }

  function ParentOf(flat: seq<Span>, i: nat): (p: nat)
    requires i < |flat| && IsChild(flat, i)
    ensures p < |flat| && flat[p].id == flat[i].parent
  {
    IndexOf(flat, flat[i].parent)
  }

  /** `d` parent links lead from span `i` to a root. */
  predicate AtDepth(flat: seq<Span>, i: nat, d: nat)
    requires i < |flat|
    decreases d
  {
    if d == 0 then !IsChild(flat, i)
    else IsChild(flat, i) && AtDepth(flat, ParentOf(flat, i), d - 1)
  }

  ghost predicate Reachable(flat: seq<Span>, i: nat)
    requires i < |flat|
  {
    exists d: nat :: AtDepth(flat, i, d)
  }

  lemma {:induction false} DepthIsUnique(flat: seq<Span>, i: nat, d: nat, e: nat)
    requires i < |flat| && AtDepth(flat, i, d) && AtDepth(flat, i, e)
    ensures d == e
    decreases d
  {
    if d > 0 && e > 0 {
      DepthIsUnique(flat, ParentOf(flat, i), d - 1, e - 1);
    }
  }

  /** `n` parent links lead from span `i` to span `j`. */
  predicate Above(flat: seq<Span>, i: nat, n: nat, j: nat)
    requires i < |flat|
    decreases n
  {
    if n == 0 then i == j else IsChild(flat, i) && Above(flat, ParentOf(flat, i), n - 1, j)
  }

  lemma {:induction false} AboveIsUnique(flat: seq<Span>, i: nat, n: nat, j: nat, k: nat)
    requires i < |flat| && Above(flat, i, n, j) && Above(flat, i, n, k)
    ensures j == k
    decreases n
  {
    if n > 0 {
      AboveIsUnique(flat, ParentOf(flat, i), n - 1, j, k);
    }
  }

  /** A kid's parent, seen from below and from above. */
  lemma KidOf(flat: seq<Span>, j: nat, k: nat)
    requires DistinctIds(flat) && j < |flat| && k < |flat|
    ensures k in Kids(flat, flat[j].id) <==> IsChild(flat, k) && ParentOf(flat, k) == j
  {
    KidsInOrder(flat, flat[j].id, |flat|, k);
    if IsChild(flat, k) {
      var p := ParentOf(flat, k);
      if p < j { assert flat[p].id != flat[j].id; }
      if j < p { assert flat[j].id != flat[p].id; }
    }
  }

  lemma {:induction false} AboveExtends(flat: seq<Span>, i: nat, n: nat, k: nat)
    requires i < |flat| && k < |flat| && Above(flat, i, n, k) && IsChild(flat, k)
    ensures Above(flat, i, n + 1, ParentOf(flat, k))
    decreases n
  {
    if n > 0 {
      AboveExtends(flat, ParentOf(flat, i), n - 1, k);
    }
  }

  /** Where a rendered span sits: `e + n` below the top, and `n` below the span walked from. */
  ghost predicate Below(flat: seq<Span>, i: nat, j: nat, e: nat) {
    && i < |flat|
    && exists n: nat :: Above(flat, i, n, j) && AtDepth(flat, i, e + n)
  }

  ghost predicate SubtreeOk(flat: seq<Span>, lines: seq<Line>, j: nat, e: nat) {
    && (forall x :: 0 <= x < |lines| ==> Below(flat, lines[x].index, j, e))
    && Distinct(lines)
  }

  predicate Distinct(lines: seq<Line>) {
    forall x, y :: 0 <= x < y < |lines| ==> lines[x].index != lines[y].index
  }

  /** Below some member of `list` from position `m` on. */
  ghost predicate BelowOneOf(flat: seq<Span>, i: nat, list: seq<nat>, m: nat, e: nat) {
    exists k :: m <= k < |list| && Below(flat, i, list[k], e)
  }

  ghost predicate Siblings(flat: seq<Span>, list: seq<nat>, e: nat) {
    && InRange(list, |flat|) && Increasing(list)
    && (forall k :: 0 <= k < |list| ==> AtDepth(flat, list[k], e))
  }

  lemma BelowDisjoint(flat: seq<Span>, i: nat, j: nat, k: nat, e: nat)
    requires Below(flat, i, j, e) && Below(flat, i, k, e)
    ensures j == k
  {
    var n: nat :| Above(flat, i, n, j) && AtDepth(flat, i, e + n);
    var m: nat :| Above(flat, i, m, k) && AtDepth(flat, i, e + m);
    DepthIsUnique(flat, i, e + n, e + m);
    AboveIsUnique(flat, i, n, j, k);
  }

  lemma BelowParent(flat: seq<Span>, i: nat, k: nat, e: nat)
    requires k < |flat| && IsChild(flat, k) && Below(flat, i, k, e + 1)
    ensures Below(flat, i, ParentOf(flat, k), e) && !AtDepth(flat, i, e)
  {
    var n: nat :| Above(flat, i, n, k) && AtDepth(flat, i, e + 1 + n);
    AboveExtends(flat, i, n, k);
    assert AtDepth(flat, i, e + (n + 1));
    if AtDepth(flat, i, e) {
      DepthIsUnique(flat, i, e, e + (n + 1));
    }
  }

  lemma KidsAreSiblings(flat: seq<Span>, j: nat, e: nat)
    requires DistinctIds(flat) && j < |flat| && AtDepth(flat, j, e)
    ensures Siblings(flat, Kids(flat, flat[j].id), e + 1)
  {
    var kids := Kids(flat, flat[j].id);
    KidsInOrder(flat, flat[j].id, |flat|, 0);
    forall k | 0 <= k < |kids| ensures AtDepth(flat, kids[k], e + 1) {
      assert kids[k] in kids;
      KidOf(flat, j, kids[k]);
    }
  }

  lemma BelowSomeKid(flat: seq<Span>, i: nat, j: nat, e: nat)
    requires DistinctIds(flat) && j < |flat| && AtDepth(flat, j, e)
    requires BelowOneOf(flat, i, Kids(flat, flat[j].id), 0, e + 1)
    ensures Below(flat, i, j, e) && i != j
  {
    var kids := Kids(flat, flat[j].id);
    var k :| 0 <= k < |kids| && Below(flat, i, kids[k], e + 1);
    assert kids[k] in kids;
    KidOf(flat, j, kids[k]);
    BelowParent(flat, i, kids[k], e);
  }

  lemma {:induction false} SubtreeIsDistinct(
      flat: seq<Span>, j: nat, prefix: string, isLast: bool, fuel: nat, e: nat)
    requires DistinctIds(flat) && j < |flat| && AtDepth(flat, j, e)
    ensures SubtreeOk(flat, Subtree(flat, j, prefix, isLast, fuel), j, e)
    decreases fuel, 0
  {
    if fuel > 0 {
      var kids := Kids(flat, flat[j].id);
      KidsAreSiblings(flat, j, e);
      ForestIsDistinct(flat, kids, 0, NextPrefix(prefix, isLast), fuel - 1, e + 1);
      DistinctBehind(flat, LineFor(j, prefix, isLast), Forest(flat, kids, 0, NextPrefix(prefix, isLast), fuel - 1), e);
    }
  }

  /** A span in front of the trees of its kids. */
  lemma DistinctBehind(flat: seq<Span>, head: Line, below: seq<Line>, e: nat)
    requires DistinctIds(flat) && head.index < |flat| && AtDepth(flat, head.index, e)
    requires ForestOk(flat, below, Kids(flat, flat[head.index].id), 0, e + 1)
    ensures SubtreeOk(flat, [head] + below, head.index, e)
  {
    forall x | 0 <= x < |below|
      ensures Below(flat, below[x].index, head.index, e) && below[x].index != head.index
    {
      BelowSomeKid(flat, below[x].index, head.index, e);
    }
    assert Above(flat, head.index, 0, head.index) && AtDepth(flat, head.index, e + 0);
  }

  ghost predicate ForestOk(flat: seq<Span>, lines: seq<Line>, list: seq<nat>, m: nat, e: nat) {
    && Distinct(lines)
    && (forall x :: 0 <= x < |lines| ==> BelowOneOf(flat, lines[x].index, list, m, e))
  }

  lemma {:induction false} ForestIsDistinct(
      flat: seq<Span>, list: seq<nat>, m: nat, prefix: string, fuel: nat, e: nat)
    requires DistinctIds(flat) && Siblings(flat, list, e) && m <= |list|
    ensures ForestOk(flat, Forest(flat, list, m, prefix, fuel), list, m, e)
    decreases fuel, |list| - m + 1
  {
    if m < |list| {
      SubtreeIsDistinct(flat, list[m], prefix, m == |list| - 1, fuel, e);
      ForestIsDistinct(flat, list, m + 1, prefix, fuel, e);
      ForestGrows(flat, Subtree(flat, list[m], prefix, m == |list| - 1, fuel),
                  Forest(flat, list, m + 1, prefix, fuel), list, m, e);
    }
  }

  /** One more tree in front of the trees of its younger siblings. */
  lemma ForestGrows(flat: seq<Span>, first: seq<Line>, rest: seq<Line>, list: seq<nat>, m: nat, e: nat)
    requires Siblings(flat, list, e) && m < |list|
    requires SubtreeOk(flat, first, list[m], e) && ForestOk(flat, rest, list, m + 1, e)
    ensures ForestOk(flat, first + rest, list, m, e)
  {
    forall x, y | 0 <= x < |first| && 0 <= y < |rest| ensures first[x].index != rest[y].index {
      if first[x].index == rest[y].index {
        var k :| m + 1 <= k < |list| && Below(flat, rest[y].index, list[k], e);
        BelowDisjoint(flat, rest[y].index, list[m], list[k], e);
      }
    }
    forall y | 0 <= y < |rest| ensures BelowOneOf(flat, rest[y].index, list, m, e) {
      assert BelowOneOf(flat, rest[y].index, list, m + 1, e);
    }
    assert forall x :: 0 <= x < |first| ==> Below(flat, first[x].index, list[m], e);
  }

  predicate Renders(lines: seq<Line>, i: nat) {
    exists x :: 0 <= x < |lines| && lines[x].index == i
  }

  lemma {:induction false} ForestRenders(
      flat: seq<Span>, list: seq<nat>, m: nat, prefix: string, fuel: nat, k: nat, i: nat)
    requires InRange(list, |flat|) && m <= k < |list|
    requires Renders(Subtree(flat, list[k], prefix, true, fuel), i)
    requires Renders(Subtree(flat, list[k], prefix, false, fuel), i)
    ensures Renders(Forest(flat, list, m, prefix, fuel), i)
    decreases k - m
  {
    var first := Subtree(flat, list[m], prefix, m == |list| - 1, fuel);
    if k > m {
      ForestRenders(flat, list, m + 1, prefix, fuel, k, i);
    }
    RendersEither(first, Forest(flat, list, m + 1, prefix, fuel), i);
  }

  lemma RendersEither(a: seq<Line>, b: seq<Line>, i: nat)
    requires Renders(a, i) || Renders(b, i)
    ensures Renders(a + b, i)
  {
    if Renders(a, i) {
      var x :| 0 <= x < |a| && a[x].index == i;
      assert (a + b)[x] == a[x];
    } else {
      var x :| 0 <= x < |b| && b[x].index == i;
      assert (a + b)[|a| + x] == b[x];
    }
  }

  /** Every span `n` links below `j` appears in the tree below `j`, given `fuel > n` levels. */
  lemma {:induction false} SubtreeIsComplete(
      flat: seq<Span>, j: nat, prefix: string, isLast: bool, fuel: nat, i: nat, n: nat)
    requires DistinctIds(flat) && j < |flat| && i < |flat| && Above(flat, i, n, j) && n < fuel
    ensures Renders(Subtree(flat, j, prefix, isLast, fuel), i)
    decreases n
  {
    hide Subtree, Forest, Kids, LineFor, NextPrefix, Renders, DistinctIds, IsChild;
    if n > 0 {
      var next := NextPrefix(prefix, isLast);
      var k := StepBelow(flat, i, n, j);
      SubtreeIsComplete(flat, k, next, true, fuel - 1, i, n - 1);
      SubtreeIsComplete(flat, k, next, false, fuel - 1, i, n - 1);
      KidRenders(flat, j, k, next, fuel - 1, i);
    }
    SubtreeRenders(flat, j, prefix, isLast, fuel, i);
  }

  lemma SubtreeRenders(flat: seq<Span>, j: nat, prefix: string, isLast: bool, fuel: nat, i: nat)
    requires j < |flat| && fuel > 0
    requires i == j || Renders(Forest(flat, Kids(flat, flat[j].id), 0, NextPrefix(prefix, isLast), fuel - 1), i)
    ensures Renders(Subtree(flat, j, prefix, isLast, fuel), i)
  {
    SubtreeUnfolds(flat, j, prefix, isLast, fuel);
    hide Subtree, Forest, Kids, LineFor, NextPrefix;
    var head := LineFor(j, prefix, isLast);
    if i == j { assert [head][0].index == i; }
    RendersEither([head], Forest(flat, Kids(flat, flat[j].id), 0, NextPrefix(prefix, isLast), fuel - 1), i);
  }

  lemma KidRenders(flat: seq<Span>, j: nat, k: nat, prefix: string, fuel: nat, i: nat)
    requires DistinctIds(flat) && j < |flat| && k < |flat| && IsChild(flat, k) && ParentOf(flat, k) == j
    requires Renders(Subtree(flat, k, prefix, true, fuel), i)
    requires Renders(Subtree(flat, k, prefix, false, fuel), i)
    ensures Renders(Forest(flat, Kids(flat, flat[j].id), 0, prefix, fuel), i)
  {
    KidOf(flat, j, k);
    var kids := Kids(flat, flat[j].id);
    var x :| 0 <= x < |kids| && kids[x] == k;
    ForestRenders(flat, kids, 0, prefix, fuel, x, i);
  }

  /** The span just below `j` on the way down to `i`. */
  lemma {:induction false} StepBelow(flat: seq<Span>, i: nat, n: nat, j: nat) returns (k: nat)
    requires i < |flat| && n > 0 && Above(flat, i, n, j)
    ensures k < |flat| && Above(flat, i, n - 1, k) && IsChild(flat, k) && ParentOf(flat, k) == j
    decreases n
  {
    if n == 1 {
      k := i;
      assert Above(flat, ParentOf(flat, i), 0, j);
    } else {
      k := StepBelow(flat, ParentOf(flat, i), n - 1, j);
    }
  }

  lemma {:induction false} TopOf(flat: seq<Span>, i: nat, d: nat) returns (r: nat)
    requires i < |flat| && AtDepth(flat, i, d)
    ensures r < |flat| && !IsChild(flat, r) && Above(flat, i, d, r)
    decreases d
  {
    if d == 0 {
      r := i;
    } else {
      r := TopOf(flat, ParentOf(flat, i), d - 1);
    }
  }

  lemma ForestIsComplete(flat: seq<Span>, fuel: nat, i: nat, d: nat)
    requires DistinctIds(flat) && i < |flat| && AtDepth(flat, i, d) && d < fuel
    ensures Renders(Forest(flat, Roots(flat), 0, "", fuel), i)
  {
    var r := TopOf(flat, i, d);
    var roots := Roots(flat);
    RootsInOrder(flat, |flat|, r);
    var k :| 0 <= k < |roots| && roots[k] == r;
    SubtreeIsComplete(flat, r, "", true, fuel, i, d);
    SubtreeIsComplete(flat, r, "", false, fuel, i, d);
    ForestRenders(flat, roots, 0, "", fuel, k, i);
  }

  // ----- the whole rendering -----

  function Budget(limit: int, rendered: int): nat {
    Max(0, limit - rendered)
  }

  function Rendering(flat: seq<Span>, limit: int): seq<Line> {
    WalkFrom(flat, Roots(flat), 0, "", Budget(limit, 0))
  }

  ghost function ReachableSpans(flat: seq<Span>): set<nat> {
    set i: nat | i < |flat| && Reachable(flat, i)
  }

  ghost function IndexSet(lines: seq<Line>): set<nat> {
    set x | 0 <= x < |lines| :: lines[x].index
  }

  lemma {:induction false} DistinctCount(lines: seq<Line>)
    requires Distinct(lines)
    ensures |IndexSet(lines)| == |lines|
  {
    if lines != [] {
      var front, last := lines[..|lines| - 1], lines[|lines| - 1].index;
      DistinctCount(front);
      assert forall x :: 0 <= x < |front| ==> front[x] == lines[x];
      assert last !in IndexSet(front);
      assert IndexSet(lines) == IndexSet(front) + {last};
    }
  }

  lemma RenderingIsReachableOnce(flat: seq<Span>, limit: int)
    requires DistinctIds(flat)
    ensures Distinct(Rendering(flat, limit))
    ensures IndexSet(Rendering(flat, limit)) <= ReachableSpans(flat)
  {
    hide Distinct, Forest, WalkFrom, RootsUpTo, DistinctIds, Below, BelowOneOf, Siblings;
    var b := Budget(limit, 0);
    WalkFromIsPreorderPrefix(flat, Roots(flat), 0, "", b, b);
    RootsAreSiblings(flat);
    ForestIsDistinct(flat, Roots(flat), 0, "", b, 0);
    PrefixOfReachable(flat, Forest(flat, Roots(flat), 0, "", b), b);
  }

  lemma RootsAreSiblings(flat: seq<Span>)
    ensures Siblings(flat, Roots(flat), 0)
  {
    var roots := Roots(flat);
    RootsInOrder(flat, |flat|, 0);
    forall k | 0 <= k < |roots| ensures AtDepth(flat, roots[k], 0) {
      RootsInOrder(flat, |flat|, roots[k]);
    }
  }

  lemma PrefixOfReachable(flat: seq<Span>, whole: seq<Line>, n: nat)
    requires ForestOk(flat, whole, Roots(flat), 0, 0)
    ensures Distinct(Take(whole, n)) && IndexSet(Take(whole, n)) <= ReachableSpans(flat)
  {
    forall x | 0 <= x < |whole| ensures whole[x].index in ReachableSpans(flat) {
      assert BelowOneOf(flat, whole[x].index, Roots(flat), 0, 0);
      BelowIsReachable(flat, whole[x].index, Roots(flat));
    }
  }

  lemma BelowIsReachable(flat: seq<Span>, i: nat, list: seq<nat>)
    requires BelowOneOf(flat, i, list, 0, 0)
    ensures i in ReachableSpans(flat)
  {
    var k :| 0 <= k < |list| && Below(flat, i, list[k], 0);
    var n: nat :| Above(flat, i, n, list[k]) && AtDepth(flat, i, 0 + n);
  }

  lemma RenderingIsComplete(flat: seq<Span>, limit: int, i: nat)
    requires DistinctIds(flat) && i in ReachableSpans(flat)
    requires |Rendering(flat, limit)| < Budget(limit, 0)
    ensures i in IndexSet(Rendering(flat, limit))
  {
    var d: nat :| AtDepth(flat, i, d);
    var b := Budget(limit, 0);
    WalkFromIsPreorderPrefix(flat, Roots(flat), 0, "", b, b + d + 1);
    ForestIsComplete(flat, b + d + 1, i, d);
    var lines := Rendering(flat, limit);
    var x :| 0 <= x < |lines| && lines[x].index == i;
  }

  /**
   With distinct ids, each span is rendered at most once, only spans reachable from a root
   are rendered, and their number is the smaller of the limit and the reachable spans.
   */
  lemma RenderedCount(flat: seq<Span>, limit: int)
    requires DistinctIds(flat)
    ensures Distinct(Rendering(flat, limit))
    ensures |Rendering(flat, limit)| == Min(Max(limit, 0), |ReachableSpans(flat)|)
    ensures |Rendering(flat, limit)| <= |flat|
  {
    var lines := Rendering(flat, limit);
    RenderingIsReachableOnce(flat, limit);
    DistinctCount(lines);
    SubsetCount(IndexSet(lines), ReachableSpans(flat));
    if |lines| < Budget(limit, 0) {
      forall i | i in ReachableSpans(flat) ensures i in IndexSet(lines) {
        RenderingIsComplete(flat, limit, i);
      }
      assert IndexSet(lines) == ReachableSpans(flat);
    }
    SubsetCount(ReachableSpans(flat), UpTo(|flat|));
  }

  // ----- what a line looks like -----

  /** No later span in the list has the same parent. */
  predicate IsLastKid(flat: seq<Span>, i: nat)
    requires i < |flat|
  {
    forall k :: i < k < |flat| ==> flat[k].parent != flat[i].parent
  }

  /** The indentation of a span `d` links below a root: two cells, then three for each ancestor in between. */
  function DrawnPrefix(flat: seq<Span>, i: nat, d: nat): (prefix: string)
    requires i < |flat| && AtDepth(flat, i, d)
    ensures |prefix| == if d == 0 then 0 else 2 + 3 * (d - 1)
    decreases d
  {
    if d == 0 then ""
    else if d == 1 then "  "
    else
      var parent := ParentOf(flat, i);
      DrawnPrefix(flat, parent, d - 1) + (if IsLastKid(flat, parent) then "   " else "\U{2502}  ")
  }

  function DrawnBranch(flat: seq<Span>, i: nat, d: nat): string
    requires i < |flat|
  {
    if d == 0 then "" else if IsLastKid(flat, i) then "\U{2514}\U{2500}" else "\U{251C}\U{2500}"
  }

  ghost predicate Drawn(flat: seq<Span>, line: Line) {
    && line.index < |flat|
    && exists d: nat :: AtDepth(flat, line.index, d)
         && line.prefix == DrawnPrefix(flat, line.index, d) && line.branch == DrawnBranch(flat, line.index, d)
  }

  ghost predicate AllDrawn(flat: seq<Span>, lines: seq<Line>) {
    forall x :: 0 <= x < |lines| ==> Drawn(flat, lines[x])
  }

  /** The walk reaches a span with the indentation that is its due. */
  ghost predicate Placed(flat: seq<Span>, i: nat, prefix: string, isLast: bool, e: nat) {
    && i < |flat| && AtDepth(flat, i, e) && prefix == DrawnPrefix(flat, i, e)
    && (e > 0 ==> (isLast <==> IsLastKid(flat, i)))
  }

  lemma PlacedLine(flat: seq<Span>, i: nat, prefix: string, isLast: bool, e: nat)
    requires Placed(flat, i, prefix, isLast, e)
    ensures Drawn(flat, LineFor(i, prefix, isLast))
  {
  }

  lemma LastKid(flat: seq<Span>, id: string, kids: seq<nat>, m: nat)
    requires kids == Kids(flat, id) && m < |kids|
    ensures kids[m] < |flat| && flat[kids[m]].parent == id
    ensures m == |kids| - 1 <==> IsLastKid(flat, kids[m])
  {
    KidsInOrder(flat, id, |flat|, kids[m]);
    assert kids[m] in kids;
    if m < |kids| - 1 {
      KidsInOrder(flat, id, |flat|, kids[m + 1]);
      assert kids[m + 1] in kids && kids[m] < kids[m + 1];
    } else {
      forall k | kids[m] < k < |flat| ensures flat[k].parent != id {
        KidsInOrder(flat, id, |flat|, k);
        SameParentIsChild(flat, kids[m], k);
      }
    }
  }

  lemma SameParentIsChild(flat: seq<Span>, i: nat, k: nat)
    requires i < |flat| && k < |flat| && IsChild(flat, i)
    ensures flat[k].parent == flat[i].parent ==> IsChild(flat, k)
  {
  }

  lemma KidPlaced(flat: seq<Span>, j: nat, prefix: string, isLast: bool, e: nat, m: nat)
    requires DistinctIds(flat) && Placed(flat, j, prefix, isLast, e)
    requires m < |Kids(flat, flat[j].id)|
    ensures var kids := Kids(flat, flat[j].id);
      Placed(flat, kids[m], NextPrefix(prefix, isLast), m == |kids| - 1, e + 1)
  {
    var kids := Kids(flat, flat[j].id);
    assert kids[m] in kids;
    KidOf(flat, j, kids[m]);
    LastKid(flat, flat[j].id, kids, m);
  }

  lemma {:induction false} SubtreeIsDrawn(flat: seq<Span>, j: nat, prefix: string, isLast: bool, fuel: nat, e: nat)
    requires DistinctIds(flat) && j < |flat| && Placed(flat, j, prefix, isLast, e)
    ensures AllDrawn(flat, Subtree(flat, j, prefix, isLast, fuel))
    decreases fuel, 0
  {
    hide DistinctIds, Placed, Drawn, Kids, LineFor, NextPrefix, AtDepth;
    if fuel > 0 {
      var kids := Kids(flat, flat[j].id);
      forall m | 0 <= m < |kids| ensures Placed(flat, kids[m], NextPrefix(prefix, isLast), m == |kids| - 1, e + 1) {
        KidPlaced(flat, j, prefix, isLast, e, m);
      }
      PlacedLine(flat, j, prefix, isLast, e);
      ForestIsDrawn(flat, kids, 0, NextPrefix(prefix, isLast), fuel - 1, e + 1);
    }
  }

  lemma {:induction false} ForestIsDrawn(flat: seq<Span>, list: seq<nat>, i: nat, prefix: string, fuel: nat, e: nat)
    requires DistinctIds(flat) && InRange(list, |flat|) && i <= |list|
    requires forall m :: 0 <= m < |list| ==> Placed(flat, list[m], prefix, m == |list| - 1, e)
    ensures AllDrawn(flat, Forest(flat, list, i, prefix, fuel))
    decreases fuel, |list| - i + 1
  {
    hide DistinctIds, Placed, Drawn, AtDepth;
    if i < |list| {
      SubtreeIsDrawn(flat, list[i], prefix, i == |list| - 1, fuel, e);
      ForestIsDrawn(flat, list, i + 1, prefix, fuel, e);
    }
  }

  lemma RootPlaced(flat: seq<Span>, m: nat, isLast: bool)
    requires m < |Roots(flat)|
    ensures Placed(flat, Roots(flat)[m], "", isLast, 0)
  {
    RootsInOrder(flat, |flat|, Roots(flat)[m]);
    assert Roots(flat)[m] in Roots(flat);
  }

  /**
   Every rendered line, by its parent links alone: roots stand at the margin without a branch,
   the last child of a parent has the corner and the others the tee, and each level below the
   first is indented by three cells that carry a bar unless the ancestor there is a last child.
   */
  lemma RenderingIsDrawn(flat: seq<Span>, limit: int)
    requires DistinctIds(flat)
    ensures AllDrawn(flat, Rendering(flat, limit))
  {
    hide DistinctIds, Drawn, Placed, Forest, WalkFrom;
    var roots, b := Roots(flat), Budget(limit, 0);
    forall m | 0 <= m < |roots| ensures Placed(flat, roots[m], "", m == |roots| - 1, 0) {
      RootPlaced(flat, m, m == |roots| - 1);
    }
    ForestIsDrawn(flat, roots, 0, "", b, 0);
    WalkFromIsPreorderPrefix(flat, roots, 0, "", b, b);
  }

  ghost function UpTo(n: nat): (r: set<nat>)
    ensures |r| == n && forall i: nat :: i in r <==> i < n
  {
    if n == 0 then {} else UpTo(n - 1) + {n - 1}
  }

  // ----- the code -----

  /** A root is drawn without a branch either way. */
  lemma IsLastIsIrrelevantForRoots(flat: seq<Span>, idx: nat, budget: nat)
    requires idx < |flat|
    ensures Walk(flat, idx, "", true, budget) == Walk(flat, idx, "", false, budget)
  {
  }

  class Renderer {
    const flat: seq<Span>
    const children: map<string, seq<nat>>
    const limit: int
    var rendered: int
    var out: seq<Line>

    constructor (flat: seq<Span>, children: map<string, seq<nat>>, limit: int)
      ensures this.flat == flat && this.children == children && this.limit == limit
      ensures rendered == 0 && out == []
    {
      this.flat, this.children, this.limit := flat, children, limit;
      rendered, out := 0, [];
    }

    ghost predicate ChildrenOk() {
      Groups(children, flat, |flat|)
    }

    predicate Counted()
      reads this
    {
      rendered == |out|
    }

    /** One line under the span's prefix; its children are indented below it. */
    method Emit(idx: nat, prefix: string, isLast: bool) returns (nextPrefix: string)
      modifies this
      ensures out == old(out) + [LineFor(idx, prefix, isLast)] && rendered == old(rendered) + 1
      ensures nextPrefix == NextPrefix(prefix, isLast)
    {
      var branch := MID_BRANCH;
      nextPrefix := prefix + MID_INDENT;
      if isLast {
        branch := LAST_BRANCH;
        nextPrefix := prefix + LAST_INDENT;
      }
      if prefix == "" {
        branch := "";
        nextPrefix := ROOT_INDENT;
      }
      out := out + [Line(idx, prefix, branch)];
      rendered := rendered + 1;
    }

    method WalkSpan(idx: nat, prefix: string, isLast: bool)
      requires idx < |flat| && ChildrenOk() && Counted()
      modifies this
      ensures out == old(out) + Walk(flat, idx, prefix, isLast, Budget(limit, old(rendered)))
      ensures Counted()
      decreases Budget(limit, rendered), 0
    {
      hide Walk, WalkFrom, Kids, LineFor, NextPrefix;
      ghost var before, budget := out, Budget(limit, rendered);
      if rendered >= limit {
        WalkEnds(flat, idx, prefix, isLast);
        return;
      }
      WalkUnfolds(flat, idx, prefix, isLast, budget, before);
      var nextPrefix := Emit(idx, prefix, isLast);
      var kids := ChildrenOf(flat[idx].id);
      WalkKids(kids, nextPrefix);
    }

    method ChildrenOf(id: string) returns (kids: seq<nat>)
      requires ChildrenOk()
      ensures kids == Kids(flat, id)
    {
      kids := Lookup(children, id);
    }

    /** WalkSpan's loop over the children. */
    method WalkKids(kids: seq<nat>, prefix: string)
      requires InRange(kids, |flat|) && ChildrenOk() && Counted()
      modifies this
      ensures out == old(out) + WalkFrom(flat, kids, 0, prefix, Budget(limit, old(rendered)))
      ensures Counted()
      decreases Budget(limit, rendered), 1
    {
      hide Walk, WalkFrom, Kids, LineFor, NextPrefix;
      ghost var all := WalkFrom(flat, kids, 0, prefix, Budget(limit, rendered));
      var i := 0;
      while i < |kids|
        invariant 0 <= i <= |kids| && Counted() && old(rendered) <= rendered
        invariant out + WalkFrom(flat, kids, i, prefix, Budget(limit, rendered)) == old(out) + all
      {
        ghost var before, budget := out, Budget(limit, rendered);
        WalkFromUnfolds(flat, kids, i, prefix, budget);
        WalkSpan(kids[i], prefix, i == |kids| - 1);
        Regroup(before, Walk(flat, kids[i], prefix, i == |kids| - 1, budget),
                WalkFrom(flat, kids, i + 1, prefix, Budget(limit, rendered)));
        i := i + 1;
      }
      WalkFromEnds(flat, kids, prefix, Budget(limit, rendered));
    }

    /** RenderSpanTree's loop over the roots. */
    method WalkRoots(roots: seq<nat>)
      requires InRange(roots, |flat|) && ChildrenOk() && Counted()
      modifies this
      ensures out == old(out) + WalkFrom(flat, roots, 0, "", Budget(limit, old(rendered)))
      ensures Counted()
    {
      hide Walk, WalkFrom, Kids, LineFor, NextPrefix;
      ghost var all := WalkFrom(flat, roots, 0, "", Budget(limit, rendered));
      var i := 0;
      while i < |roots|
        invariant 0 <= i <= |roots| && Counted() && old(rendered) <= rendered
        invariant out + WalkFrom(flat, roots, i, "", Budget(limit, rendered)) == old(out) + all
      {
        ghost var before, budget := out, Budget(limit, rendered);
        WalkFromUnfolds(flat, roots, i, "", budget);
        IsLastIsIrrelevantForRoots(flat, roots[i], budget);
        WalkSpan(roots[i], "", true);
        Regroup(before, Walk(flat, roots[i], "", i == |roots| - 1, budget),
                WalkFrom(flat, roots, i + 1, "", Budget(limit, rendered)));
        i := i + 1;
      }
      WalkFromEnds(flat, roots, "", Budget(limit, rendered));
    }
  }

  lemma DistinctIdsBehind(head: Span, tail: seq<Span>)
    ensures DistinctIds([head] + tail) <==> DistinctIds(tail) && forall x :: x in tail ==> x.id != head.id
  {
    var all := [head] + tail;
    if DistinctIds(all) {
      forall i, j | 0 <= i < j < |tail| ensures tail[i].id != tail[j].id {
        assert all[i + 1].id != all[j + 1].id;
      }
      forall x | x in tail ensures x.id != head.id {
        var i :| 0 <= i < |tail| && tail[i] == x;
        assert all[0].id != all[i + 1].id;
      }
    }
  }

  lemma {:induction false} InsertKeepsDistinctIds(s: Span, rest: seq<Span>)
    requires DistinctIds([s] + rest)
    ensures DistinctIds(InsertByStart(s, rest))
    ensures forall x :: x in InsertByStart(s, rest) ==> x == s || x in rest
  {
    if rest != [] && s.startUs > rest[0].startUs {
      assert rest == [rest[0]] + rest[1..];
      DistinctIdsBehind(s, rest);
      DistinctIdsBehind(rest[0], rest[1..]);
      DistinctIdsBehind(s, rest[1..]);
      InsertKeepsDistinctIds(s, rest[1..]);
      DistinctIdsBehind(rest[0], InsertByStart(s, rest[1..]));
    }
  }

  lemma {:induction false} SortKeepsDistinctIds(spans: seq<Span>)
    requires DistinctIds(spans)
    ensures DistinctIds(SortByStart(spans))
    ensures forall x :: x in SortByStart(spans) ==> x in spans
  {
    if spans != [] {
      assert spans == [spans[0]] + spans[1..];
      DistinctIdsBehind(spans[0], spans[1..]);
      SortKeepsDistinctIds(spans[1..]);
      DistinctIdsBehind(spans[0], SortByStart(spans[1..]));
      InsertKeepsDistinctIds(spans[0], SortByStart(spans[1..]));
    }
  }

  /** The ids that occur. */
  method IndexById(flat: seq<Span>) returns (byId: map<string, nat>)
    ensures forall id :: id in byId <==> Present(flat, id)
  {
    byId := map[];
    var i := 0;
    while i < |flat|
      invariant 0 <= i <= |flat|
      invariant forall id :: id in byId <==> Present(flat[..i], id)
    {
      assert flat[..i + 1] == flat[..i] + [flat[i]];
      PresentAppend(flat[..i], flat[i]);
      byId := byId[flat[i].id := i];
      i := i + 1;
    }
    assert flat[..i] == flat;
  }

  /** A missing key reads as no children. */
  function Lookup(children: map<string, seq<nat>>, id: string): seq<nat> {
    if id in children then children[id] else []
  }

  /** The map holds the children of every id among the first `n` spans. */
  ghost predicate Groups(children: map<string, seq<nat>>, flat: seq<Span>, n: nat)
    requires n <= |flat|
  {
    forall id :: Lookup(children, id) == KidsUpTo(flat, id, n)
  }

  lemma GroupsNone(flat: seq<Span>)
    ensures Groups(map[], flat, 0) && RootsUpTo(flat, 0) == []
  {
  }

  lemma GroupsOneMore(children: map<string, seq<nat>>, flat: seq<Span>, i: nat)
    requires i < |flat| && Groups(children, flat, i)
    ensures RootsUpTo(flat, i + 1) == RootsUpTo(flat, i) + if IsChild(flat, i) then [] else [i]
    ensures IsChild(flat, i) ==>
      Groups(children[flat[i].parent := Lookup(children, flat[i].parent) + [i]], flat, i + 1)
    ensures !IsChild(flat, i) ==> Groups(children, flat, i + 1)
  {
    hide Present;
    var children' := if IsChild(flat, i)
      then children[flat[i].parent := Lookup(children, flat[i].parent) + [i]] else children;
    forall id ensures Lookup(children', id) == KidsUpTo(flat, id, i + 1) {
      assert Lookup(children, id) == KidsUpTo(flat, id, i);
    }
  }

  method GroupByParent(flat: seq<Span>) returns (children: map<string, seq<nat>>, roots: seq<nat>)
    ensures Groups(children, flat, |flat|)
    ensures roots == Roots(flat)
  {
    hide Present, KidsUpTo, RootsUpTo, Groups;
    var byId := IndexById(flat);
    children, roots := map[], [];
    GroupsNone(flat);
    var i := 0;
    while i < |flat|
      invariant 0 <= i <= |flat|
      invariant roots == RootsUpTo(flat, i) && Groups(children, flat, i)
    {
      var parent := flat[i].parent;
      GroupsOneMore(children, flat, i);
      if parent in byId && parent != "" {
        children := children[parent := Lookup(children, parent) + [i]];
      } else {
        roots := roots + [i];
      }
      i := i + 1;
    }
  }

  lemma EmptyTree(limit: int)
    ensures Rendering([], limit) == [] && ReachableSpans([]) == {}
  {
    assert Roots([]) == [];
  }

  /** The lines of the tree and the number announced in the overflow line (0 for none). */
  method RenderSpanTree(spans: seq<Span>, limit: int) returns (lines: seq<Line>, more: nat)
    ensures lines == Rendering(SortByStart(spans), limit)
    ensures more == Max(0, |spans| - |lines|)
    ensures DistinctIds(spans) ==> |lines| == Min(Max(limit, 0), |ReachableSpans(SortByStart(spans))|)
    ensures DistinctIds(spans) ==> |lines| + more == |spans|
    ensures DistinctIds(spans) ==> AllDrawn(SortByStart(spans), lines)
  {
    if |spans| == 0 {
      EmptyTree(limit);
      return [], 0;
    }
    var flat := SortByStart(spans);
    var children, roots := GroupByParent(flat);
    var renderer := new Renderer(flat, children, limit);
    renderer.WalkRoots(roots);
    lines := renderer.out;
    more := if |flat| > renderer.rendered then |flat| - renderer.rendered else 0;
    if DistinctIds(spans) {
      SortKeepsDistinctIds(spans);
      RenderedCount(flat, limit);
      RenderingIsDrawn(flat, limit);
    }
  }

  lemma PresentAppend(flat: seq<Span>, s: Span)
    ensures forall id :: Present(flat + [s], id) <==> Present(flat, id) || id == s.id
  {
    forall id ensures Present(flat + [s], id) <==> Present(flat, id) || id == s.id {
      if Present(flat, id) {
        var i :| 0 <= i < |flat| && flat[i].id == id;
        assert (flat + [s])[i].id == id;
      }
      assert (flat + [s])[|flat|].id == s.id;
    }
  }

  // ----- the duration bar -----

  /** Ink on the bar, in eighths of a cell. */
  function Ink(cells: seq<int>): int {
    if cells == [] then 0 else cells[0] + Ink(cells[1..])
  }

  lemma {:induction false} InkAppend(cells: seq<int>, c: int)
    ensures Ink(cells + [c]) == Ink(cells) + c
  {
    if cells != [] {
      assert (cells + [c])[1..] == cells[1..] + [c];
      InkAppend(cells[1..], c);
    } else {
      assert (cells + [c])[1..] == [];
    }
  }

  /** The eighths a duration is worth: proportional, but never nothing and never too much. */
  function Eighths(dur: int, max: int, width: nat): int {
    if dur <= 0 || max <= 0 then 0 else Min(8 * width, Max(1, dur * width * 8 / max))
  }

  lemma DivBounds(a: int, b: int)
    requires b > 0
    ensures a / b * b <= a < (a / b + 1) * b
  {
  }

  lemma TimesMonotone(p: int, q: int, b: int)
    requires b > 0
    ensures p <= q ==> p * b <= q * b
  {
  }

  lemma DivAtLeast(a: int, b: int, q: int)
    requires b > 0 && q * b <= a
    ensures q <= a / b
  {
    DivBounds(a, b);
    TimesMonotone(a / b + 1, q, b);
  }

  lemma DivAtMost(a: int, b: int, q: int)
    requires b > 0 && a <= q * b
    ensures a / b <= q
  {
    DivBounds(a, b);
    TimesMonotone(q + 1, a / b, b);
  }

  /** No ink for no duration; at least one eighth and at most the whole bar otherwise; in proportion in between. */
  lemma InkMeans(dur: int, max: int, width: nat)
    ensures dur <= 0 || max <= 0 ==> Eighths(dur, max, width) == 0
    ensures dur > 0 && max > 0 && width > 0 ==> 1 <= Eighths(dur, max, width) <= 8 * width
    ensures 0 < max <= dur ==> Eighths(dur, max, width) == 8 * width
    ensures 0 < dur < max && 1 < Eighths(dur, max, width) ==>
      Eighths(dur, max, width) * max <= dur * (8 * width) < (Eighths(dur, max, width) + 1) * max
  {
    if dur > 0 && max > 0 {
      var whole := 8 * width;
      assert dur * width * 8 == dur * whole;
      DivBounds(dur * whole, max);
      if max <= dur {
        assert whole * max <= dur * whole;
        DivAtLeast(dur * whole, max, whole);
      } else {
        assert dur * whole <= whole * max;
        DivAtMost(dur * whole, max, whole);
      }
    }
  }

  /** Always `width` cells, inked from the left in proportion to the duration. */
  method DurationBar(dur: int, max: int, width: nat) returns (cells: seq<int>)
    ensures |cells| == width
    ensures Ink(cells) == Eighths(dur, max, width)
    ensures forall i :: 0 <= i < width ==> 0 <= cells[i] <= 8
    ensures forall i, j :: 0 <= i < j < width && cells[j] > 0 ==> cells[i] == 8
  {
    cells := [];
    var full, rem := 0, 0;
    if dur > 0 && max > 0 {
      var totalEighths := dur * width * 8 / max;
      if totalEighths < 1 {
        totalEighths := 1;
      }
      full := totalEighths / 8;
      rem := totalEighths % 8;
      var i := 0;
      while i < full && i < width
        invariant 0 <= i <= full && i <= width && |cells| == i
        invariant Ink(cells) == 8 * i && forall k :: 0 <= k < i ==> cells[k] == 8
      {
        InkAppend(cells, 8);
        cells := cells + [8];
        i := i + 1;
      }
      if full < width && rem > 0 {
        InkAppend(cells, rem);
        cells := cells + [rem];
        full := full + 1;
      }
    }
    ghost var inked := |cells|;
    var i := full;
    while i < width
      invariant |cells| == if full < width then i else width
      invariant full <= i && (full < width ==> i <= width) && inked <= |cells|
      invariant Ink(cells) == Eighths(dur, max, width)
      invariant forall k :: 0 <= k < |cells| ==> 0 <= cells[k] <= 8
      invariant forall k, l :: 0 <= k < l < |cells| && cells[l] > 0 ==> cells[k] == 8
      invariant forall k :: inked <= k < |cells| ==> cells[k] == 0
    {
      InkAppend(cells, 0);
      cells := cells + [0];
      i := i + 1;
    }
  }
}
