/** What a client of the tree endpoints is shown: the items of an answer, and the cursors it follows. */
module TreeAnswers {
  import opened OidTrie
  import opened PathFolding
  import opened TreePaging
  import opened Spine
  import opened TreeEtag
  import opened Model
  import opened Ordering
  import Decimal

  // ---- The items of an answer ----

  /** The name shown for a node: its symbol's, the compiled-in one, or its number. */
  function ShownName(t: Trie, canon: Canon, o: Oid): string
    requires o in t && o != []
  {
    if t[o].hasSymbol && t[o].name != "" then t[o].name
    else if o in canon then canon[o]
    else Decimal.Dec(o[|o| - 1])
  }

  /** The node `n` steps below `c` on the way to `o`. */
  function OnTheWay(c: Oid, o: Oid, n: nat): Oid
    requires |c| + n <= |o|
  {
    o[..|c| + n]
  }

  /** The name and the number at place `n` are those of the node there. */
  ghost predicate ItemShows(t: Trie, canon: Canon, c: Oid, item: TreeItem, n: nat)
    requires |c| + n <= |item.oid| && n < |item.namePath| && n < |item.position|
  {
    var o := OnTheWay(c, item.oid, n);
    o in t && o != [] && item.namePath[n] == ShownName(t, canon, o) && item.position[n] == Decimal.Dec(o[|o| - 1])
  }

  ghost predicate ItemGoesOn(t: Trie, m: Mode, c: Oid, item: TreeItem, n: nat)
    requires |c| + n + 1 <= |item.oid|
  {
    GoesOn(t, m, OnTheWay(c, item.oid, n), OnTheWay(c, item.oid, n + 1))
  }

  /** The item of direct child `c`: a run of nodes from `c` on, each named and numbered, and the facts of the last one. */
  ghost predicate IsItemOf(t: Trie, canon: Canon, m: Mode, c: Oid, item: TreeItem) {
    && item.directOid == c && c != [] && c <= item.oid && item.oid in t
    && |item.namePath| == |item.position| == |item.oid| - |c| + 1
    && (forall n: nat :: n < |item.namePath| ==> ItemShows(t, canon, c, item, n))
    && (forall n: nat :: n + 1 < |item.namePath| ==> ItemGoesOn(t, m, c, item, n))
    && (forall d :: !GoesOn(t, m, item.oid, d))
    && var node := t[item.oid];
       && item.name == node.name && item.moduleName == node.moduleName && item.kind == node.kind
       && item.hasSymbol == node.hasSymbol && item.childCount == node.childCount
       && (item.hasChildren <==> exists k: nat :: Listed(t, m, item.oid + [k]))
  }

  lemma {:induction false} ChainIsTheWay(t: Trie, m: Mode, c: Oid, r: FoldedRow, i: nat, k: nat)
    requires IsRowOf(t, m, c, r) && i <= k < |r.chain|
    ensures |r.chain[k].oid| == |c| + k && r.chain[i].oid == r.chain[k].oid[..|c| + i]
    decreases k
  {
    if k > 0 {
      var before := k - 1;
      ChainIsTheWay(t, m, c, r, if i < k then i else before, before);
      assert GoesOn(t, m, r.chain[before].oid, r.chain[k].oid);
      if i < k {
        assert r.chain[before].oid == r.chain[k].oid[..|c| + before];
        assert r.chain[k].oid[..|c| + before][..|c| + i] == r.chain[k].oid[..|c| + i];
      }
    }
    if i == k {
      assert r.chain[k].oid[..|r.chain[k].oid|] == r.chain[k].oid;
    }
  }

  /** The chain of a row read as the way from its direct child to its anchor. */
  ghost predicate ChainShows(t: Trie, canon: Canon, m: Mode, c: Oid, r: FoldedRow, k: nat)
    requires r.chain != [] && k < |r.chain| && |c| + k <= |r.Anchor().oid|
  {
    var o := OnTheWay(c, r.Anchor().oid, k);
    && o == r.chain[k].oid && o in t && o != [] && SegDisplayName(canon, r.chain[k]) == ShownName(t, canon, o)
    && Label(r.chain[k]) == Decimal.Dec(o[|o| - 1])
  }

  lemma {:induction false} ChainOfRow(t: Trie, canon: Canon, m: Mode, c: Oid, r: FoldedRow, k: nat)
    requires IsRowOf(t, m, c, r) && k < |r.chain|
    ensures |r.Anchor().oid| == |c| + |r.chain| - 1 && c <= r.Anchor().oid
    ensures ChainShows(t, canon, m, c, r, k)
  {
    var last := |r.chain| - 1;
    ChainIsTheWay(t, m, c, r, last, last);
    ChainIsTheWay(t, m, c, r, 0, last);
    ChainIsTheWay(t, m, c, r, k, last);
    assert ShowsNode(t, r.chain[k]);
  }

  lemma {:induction false} ItemOfRow(t: Trie, canon: Canon, m: Mode, c: Oid, r: FoldedRow)
    requires IsRowOf(t, m, c, r)
    ensures IsItemOf(t, canon, m, c, ProjectRow(canon, r))
  {
    var item := ProjectRow(canon, r);
    ChainOfRow(t, canon, m, c, r, 0);
    forall n: nat | n < |r.chain| ensures ItemShows(t, canon, c, item, n) {
      ChainOfRow(t, canon, m, c, r, n);
    }
    forall n: nat | n + 1 < |r.chain| ensures ItemGoesOn(t, m, c, item, n) {
      var next := n + 1;
      ChainOfRow(t, canon, m, c, r, n);
      ChainOfRow(t, canon, m, c, r, next);
      assert GoesOn(t, m, r.chain[n].oid, r.chain[next].oid);
    }
    assert ShowsNode(t, r.chain[|r.chain| - 1]);
  }

  // ---- The children an answer shows ----

  /** The segments of the direct children shown. */
  function ItemSegs(items: seq<TreeItem>): (segs: seq<nat>)
    ensures |segs| == |items|
    ensures forall i :: 0 <= i < |items| && items[i].directOid != [] ==>
              segs[i] == items[i].directOid[|items[i].directOid| - 1]
  {
    seq(|items|, i requires 0 <= i < |items| =>
      if items[i].directOid == [] then 0 else items[i].directOid[|items[i].directOid| - 1])
  }

  /** Each item is that of a direct child of `p`. */
  ghost predicate ItemsUnder(t: Trie, canon: Canon, m: Mode, p: Oid, items: seq<TreeItem>) {
    forall i :: 0 <= i < |items| ==> IsItemOf(t, canon, m, p + [ItemSegs(items)[i]], items[i])
  }

  /** The items show exactly the listed children of `p` between the bounds, each once, in ascending order. */
  ghost predicate ShowsChildren(t: Trie, canon: Canon, m: Mode, p: Oid, after: int, before: Option<int>,
      items: seq<TreeItem>)
  {
    && ItemsUnder(t, canon, m, p, items) && Increasing(ItemSegs(items))
    && forall seg: nat :: seg in ItemSegs(items) <==>
         Listed(t, m, p + [seg]) && after < seg && (before.Some? ==> seg < before.value)
  }

  lemma {:induction false} ItemsOfPage(t: Trie, canon: Canon, m: Mode, p: Oid, forward: bool, bound: int, limit: nat)
    requires WellFormed(t)
    ensures var rows := FoldedPage(t, m, p, forward, bound, limit);
            Chained(rows) && ItemsUnder(t, canon, m, p, ProjectFoldedRows(canon, rows))
            && ItemSegs(ProjectFoldedRows(canon, rows)) == PageSegs(t, m, p, forward, bound, limit)
  {
    var rows, segs := FoldedPage(t, m, p, forward, bound, limit), PageSegs(t, m, p, forward, bound, limit);
    RowsCarryCursors(t, m, p, forward, bound, limit);
    FoldedPageIs(t, m, p, forward, bound, limit);
    var items := ProjectFoldedRows(canon, rows);
    forall i | 0 <= i < |items| ensures IsItemOf(t, canon, m, p + [segs[i]], items[i]) && ItemSegs(items)[i] == segs[i] {
      ItemOfRow(t, canon, m, p + [segs[i]], rows[i]);
    }
    assert ItemSegs(items) == segs;
  }

  ghost function Shows(t: Trie, canon: Canon, m: Mode, p: Oid, items: seq<TreeItem>, segs: seq<nat>): bool {
    ItemsUnder(t, canon, m, p, items) && ItemSegs(items) == segs
  }

  lemma {:induction false} ShowsBoth(t: Trie, canon: Canon, m: Mode, p: Oid, a: seq<TreeItem>, b: seq<TreeItem>,
      x: seq<nat>, y: seq<nat>)
    requires Shows(t, canon, m, p, a, x) && Shows(t, canon, m, p, b, y)
    ensures Shows(t, canon, m, p, a + b, x + y)
  {
    var items := a + b;
    forall i | 0 <= i < |items| ensures ItemSegs(items)[i] == (x + y)[i]
                                     && IsItemOf(t, canon, m, p + [ItemSegs(items)[i]], items[i]) {
      if i < |a| {
        assert items[i] == a[i] && IsItemOf(t, canon, m, p + [ItemSegs(a)[i]], a[i]);
      } else {
        assert items[i] == b[i - |a|] && IsItemOf(t, canon, m, p + [ItemSegs(b)[i - |a|]], b[i - |a|]);
      }
    }
    assert ItemSegs(items) == x + y;
  }

  // ---- Following the cursors ----

  /** One answer of the tree endpoint, from one snapshot. */
  ghost function Page(t: Trie, canon: Canon, m: Mode, p: Oid, backward: bool, bound: int, limit: nat): (b: Body)
    requires WellFormed(t)
    ensures b.TreeBody?
  {
    Render(t, canon, TreeRequest(p, backward, bound, m, limit))
  }

  /** The bound a cursor stands for: the last segment of its OID. */
  function CursorSeg(cursor: Oid): int {
    if cursor == [] then -1 else cursor[|cursor| - 1]
  }

  lemma {:induction false} PageShows(t: Trie, canon: Canon, m: Mode, p: Oid, backward: bool, bound: int, limit: nat)
    requires WellFormed(t)
    ensures var b, segs := Page(t, canon, m, p, backward, bound, limit), PageSegs(t, m, p, !backward, bound, limit);
            && Shows(t, canon, m, p, b.children, segs)
            && b.nextAfter == (if !backward && segs != [] && |segs| == limit then Some(p + [segs[|segs| - 1]]) else None)
            && b.prevBefore == (if backward && segs != [] && |segs| == limit then Some(p + [segs[0]]) else None)
  {
    ItemsOfPage(t, canon, m, p, !backward, bound, limit);
    RowsCarryCursors(t, m, p, !backward, bound, limit);
    CursorsAre(p, PageSegs(t, m, p, !backward, bound, limit), FoldedPage(t, m, p, !backward, bound, limit), limit);
  }

  /** The cursor OIDs of a full page: its last and its first direct child. */
  lemma {:induction false} CursorsAre(p: Oid, segs: seq<nat>, rows: seq<FoldedRow>, limit: nat)
    requires Chained(rows) && |rows| == |segs|
    requires forall i :: 0 <= i < |rows| ==> rows[i].chain != [] && rows[i].DirectOid() == p + [segs[i]]
    ensures NextCursor(rows, limit) == if segs != [] && |segs| == limit then Some(p + [segs[|segs| - 1]]) else None
    ensures PrevCursor(rows, limit) == if segs != [] && |segs| == limit then Some(p + [segs[0]]) else None
  {}

  lemma {:induction false} NextIsFurther(t: Trie, canon: Canon, m: Mode, p: Oid, after: int, limit: nat)
    requires WellFormed(t) && limit >= 1
    ensures var s, b := ShownSegs(t, m, p), Page(t, canon, m, p, false, after, limit);
            match b.nextAfter
            case None => Shows(t, canon, m, p, b.children, Sorted(SegsAfter(s, after)))
            case Some(o) =>
              && Shows(t, canon, m, p, b.children, ForwardSegs(s, after, limit))
              && Sorted(SegsAfter(s, after)) == ForwardSegs(s, after, limit) + Sorted(SegsAfter(s, CursorSeg(o)))
              && |SegsAfter(s, CursorSeg(o))| < |SegsAfter(s, after)|
  {
    var s := ShownSegs(t, m, p);
    PageShows(t, canon, m, p, false, after, limit);
    if |ForwardSegs(s, after, limit)| == limit {
      ForwardStep(s, after, limit);
    }
  }

  lemma {:induction false} PrevIsEarlier(t: Trie, canon: Canon, m: Mode, p: Oid, before: int, limit: nat)
    requires WellFormed(t) && limit >= 1
    ensures var s, b := ShownSegs(t, m, p), Page(t, canon, m, p, true, before, limit);
            match b.prevBefore
            case None => Shows(t, canon, m, p, b.children, Sorted(SegsBefore(s, before)))
            case Some(o) =>
              && Shows(t, canon, m, p, b.children, BackwardSegs(s, before, limit))
              && Sorted(SegsBefore(s, before)) == Sorted(SegsBefore(s, CursorSeg(o))) + BackwardSegs(s, before, limit)
              && |SegsBefore(s, CursorSeg(o))| < |SegsBefore(s, before)|
  {
    var s := ShownSegs(t, m, p);
    PageShows(t, canon, m, p, true, before, limit);
    if |BackwardSegs(s, before, limit)| == limit {
      BackwardStep(s, before, limit);
    }
  }

  /** What a client collects by asking for the page after a bound and then after every `nextAfter` it is given. */
  ghost function LaterPages(t: Trie, canon: Canon, m: Mode, p: Oid, after: int, limit: nat): seq<TreeItem>
    requires WellFormed(t) && limit >= 1
    decreases |SegsAfter(ShownSegs(t, m, p), after)|
  {
    var b := Page(t, canon, m, p, false, after, limit);
    NextIsFurther(t, canon, m, p, after, limit);
    match b.nextAfter
    case None => b.children
    case Some(o) => b.children + LaterPages(t, canon, m, p, CursorSeg(o), limit)
  }

  /** The same backward, every page put in front. */
  ghost function EarlierPages(t: Trie, canon: Canon, m: Mode, p: Oid, before: int, limit: nat): seq<TreeItem>
    requires WellFormed(t) && limit >= 1
    decreases |SegsBefore(ShownSegs(t, m, p), before)|
  {
    var b := Page(t, canon, m, p, true, before, limit);
    PrevIsEarlier(t, canon, m, p, before, limit);
    match b.prevBefore
    case None => b.children
    case Some(o) => EarlierPages(t, canon, m, p, CursorSeg(o), limit) + b.children
  }

  lemma {:induction false} LaterShow(t: Trie, canon: Canon, m: Mode, p: Oid, after: int, limit: nat)
    requires WellFormed(t) && limit >= 1
    ensures Shows(t, canon, m, p, LaterPages(t, canon, m, p, after, limit), Sorted(SegsAfter(ShownSegs(t, m, p), after)))
    decreases |SegsAfter(ShownSegs(t, m, p), after)|
  {
    var b := Page(t, canon, m, p, false, after, limit);
    NextIsFurther(t, canon, m, p, after, limit);
    if b.nextAfter.Some? {
      var next := CursorSeg(b.nextAfter.value);
      LaterShow(t, canon, m, p, next, limit);
      ShowsBoth(t, canon, m, p, b.children, LaterPages(t, canon, m, p, next, limit),
                ForwardSegs(ShownSegs(t, m, p), after, limit), Sorted(SegsAfter(ShownSegs(t, m, p), next)));
    }
  }

  lemma {:induction false} EarlierShow(t: Trie, canon: Canon, m: Mode, p: Oid, before: int, limit: nat)
    requires WellFormed(t) && limit >= 1
    ensures Shows(t, canon, m, p, EarlierPages(t, canon, m, p, before, limit),
                  Sorted(SegsBefore(ShownSegs(t, m, p), before)))
    decreases |SegsBefore(ShownSegs(t, m, p), before)|
  {
    var b := Page(t, canon, m, p, true, before, limit);
    PrevIsEarlier(t, canon, m, p, before, limit);
    if b.prevBefore.Some? {
      var next := CursorSeg(b.prevBefore.value);
      EarlierShow(t, canon, m, p, next, limit);
      ShowsBoth(t, canon, m, p, EarlierPages(t, canon, m, p, next, limit), b.children,
                Sorted(SegsBefore(ShownSegs(t, m, p), next)), BackwardSegs(ShownSegs(t, m, p), before, limit));
    }
  }

  lemma {:induction false} SortedShow(t: Trie, canon: Canon, m: Mode, p: Oid, after: int, before: Option<int>,
      items: seq<TreeItem>, segs: set<nat>)
    requires WellFormed(t) && Shows(t, canon, m, p, items, Sorted(segs))
    requires forall seg: nat :: seg in segs <==>
               seg in ShownSegs(t, m, p) && after < seg && (before.Some? ==> seg < before.value)
    ensures ShowsChildren(t, canon, m, p, after, before, items)
  {
    SortedIs(segs);
    forall seg: nat ensures seg in ItemSegs(items) <==> seg in segs {
      assert seg in Sorted(segs) <==> seg in Elements(Sorted(segs));
    }
    forall seg: nat ensures seg in ShownSegs(t, m, p) <==> Listed(t, m, p + [seg]) {
      ShownSegIff(t, m, p, seg);
      ShownIsListed(t, m, p + [seg]);
    }
  }

  /**
   * For any page size: asking for the first page and then following `nextAfter` until there is none shows every listed
   * child of the parent exactly once, in ascending order; from any other bound, those behind it.
   */
  lemma {:induction false} FollowingNextShowsLevel(t: Trie, canon: Canon, m: Mode, p: Oid, after: int, limit: nat)
    requires WellFormed(t) && limit >= 1
    ensures ShowsChildren(t, canon, m, p, after, None, LaterPages(t, canon, m, p, after, limit))
  {
    LaterShow(t, canon, m, p, after, limit);
    SortedShow(t, canon, m, p, after, None, LaterPages(t, canon, m, p, after, limit),
               SegsAfter(ShownSegs(t, m, p), after));
  }

  /** Following `prevBefore` shows every listed child in front of the bound. */
  lemma {:induction false} FollowingPrevShowsEarlier(t: Trie, canon: Canon, m: Mode, p: Oid, before: int, limit: nat)
    requires WellFormed(t) && limit >= 1
    ensures ShowsChildren(t, canon, m, p, -1, Some(before), EarlierPages(t, canon, m, p, before, limit))
  {
    EarlierShow(t, canon, m, p, before, limit);
    SortedShow(t, canon, m, p, -1, Some(before), EarlierPages(t, canon, m, p, before, limit),
               SegsBefore(ShownSegs(t, m, p), before));
  }

  // ---- The levels of a spine answer ----

  ghost function SpineAnswer(t: Trie, canon: Canon, m: Mode, focus: Oid, limit: nat): (b: Body)
    requires WellFormed(t)
    ensures b.SpineBody?
  {
    Render(t, canon, SpineRequest(focus, m, limit))
  }

  /** A level of the answer with what its own cursor leads to. */
  ghost function FromLevel(t: Trie, canon: Canon, m: Mode, level: BodyLevel, limit: nat): seq<TreeItem>
    requires WellFormed(t) && limit >= 1
  {
    level.children + match level.nextAfter
                     case None => []
                     case Some(o) => LaterPages(t, canon, m, level.parent, CursorSeg(o), limit)
  }

  /** The bound a level was read from. */
  function OpenedAt(level: BodyLevel, focus: Oid): int {
    if level.anchored && |level.parent| < |focus| then Prev(focus[|level.parent|]) else -1
  }

  /** The level is an answer of the tree endpoint for its parent. */
  ghost predicate AnswersFor(t: Trie, canon: Canon, m: Mode, focus: Oid, limit: nat, level: BodyLevel)
    requires WellFormed(t)
  {
    && level.parent < focus
    && level.children == Page(t, canon, m, level.parent, false, OpenedAt(level, focus), limit).children
    && level.nextAfter == Page(t, canon, m, level.parent, false, OpenedAt(level, focus), limit).nextAfter
  }

  /** An anchored level begins with the child on the way to the focus. */
  ghost predicate BeginsOnTheWay(level: BodyLevel, focus: Oid) {
    && level.parent < focus
    && (level.anchored ==>
          level.children != [] && level.children[0].directOid == level.parent + [focus[|level.parent|]])
  }

  function BodyLevelOf(canon: Canon, level: SpineLevel, limit: nat): BodyLevel
    requires Chained(level.rows)
  {
    BodyLevel(level.parent, ProjectFoldedRows(canon, level.rows), NextCursor(level.rows, limit), level.anchored)
  }

  lemma {:induction false} LevelAtAnswers(t: Trie, canon: Canon, m: Mode, p: Oid, focus: Oid, limit: nat)
    requires WellFormed(t) && p < focus
    ensures Chained(LevelAt(PagesOf(t, m, limit), p, focus, limit).rows)
    ensures AnswersFor(t, canon, m, focus, limit,
                       BodyLevelOf(canon, LevelAt(PagesOf(t, m, limit), p, focus, limit), limit))
  {
    var level := LevelAt(PagesOf(t, m, limit), p, focus, limit);
    LevelIsPage(PagesOf(t, m, limit), p, focus, limit);
    var bound := if level.anchored then Prev(focus[|p|]) else -1;
    PageIsLevel(t, canon, m, p, bound, limit, level);
  }

  lemma {:induction false} PageIsLevel(t: Trie, canon: Canon, m: Mode, p: Oid, bound: int, limit: nat, level: SpineLevel)
    requires WellFormed(t) && level.parent == p && level.rows == FoldedPage(t, m, p, true, bound, limit)
    ensures Chained(level.rows)
    ensures var b := Page(t, canon, m, p, false, bound, limit);
            BodyLevelOf(canon, level, limit).children == b.children && BodyLevelOf(canon, level, limit).nextAfter == b.nextAfter
  {
    ItemsOfPage(t, canon, m, p, true, bound, limit);
  }

  lemma {:induction false} LevelAtBegins(t: Trie, canon: Canon, m: Mode, p: Oid, focus: Oid, limit: nat)
    requires WellFormed(t) && p < focus
    ensures Chained(LevelAt(PagesOf(t, m, limit), p, focus, limit).rows)
    ensures BeginsOnTheWay(BodyLevelOf(canon, LevelAt(PagesOf(t, m, limit), p, focus, limit), limit), focus)
  {
    var level, seg := LevelAt(PagesOf(t, m, limit), p, focus, limit), focus[|p|];
    LevelAtAnswers(t, canon, m, p, focus, limit);
    if level.anchored {
      assert level.rows == FoldedPage(t, m, p, true, Prev(seg), limit);
      AnchoredFirst(t, m, p, seg, limit);
      RowsCarryCursors(t, m, p, true, Prev(seg), limit);
    }
  }

  lemma {:induction false} AnchoredFirst(t: Trie, m: Mode, p: Oid, seg: nat, limit: nat)
    requires WellFormed(t) && FindRowBySeg(FoldedPage(t, m, p, true, Prev(seg), limit), seg).Some?
    ensures var segs := PageSegs(t, m, p, true, Prev(seg), limit); segs != [] && segs[0] == seg
  {
    var rows, segs := FoldedPage(t, m, p, true, Prev(seg), limit), PageSegs(t, m, p, true, Prev(seg), limit);
    RowsCarryCursors(t, m, p, true, Prev(seg), limit);
    PageIsNearest(t, m, p, true, Prev(seg), limit);
    var i :| 0 <= i < |rows| && rows[i].seg == seg;
    assert segs[i] == seg && Beyond(true, Prev(seg), segs[0]) && segs[0] <= segs[i];
  }

  lemma {:induction false} AnswerLevel(t: Trie, canon: Canon, m: Mode, focus: Oid, limit: nat, i: nat) returns (p: Oid)
    requires WellFormed(t) && i < |SpineAnswer(t, canon, m, focus, limit).levels|
    ensures p < focus && Chained(LevelAt(PagesOf(t, m, limit), p, focus, limit).rows)
    ensures SpineAnswer(t, canon, m, focus, limit).levels[i]
         == BodyLevelOf(canon, LevelAt(PagesOf(t, m, limit), p, focus, limit), limit)
  {
    var pages, levels := PagesOf(t, m, limit), SpineOf(t, m, focus, limit);
    PagesAreProper(t, m, limit);
    assert levels[i] == SpineWalk(pages, [], focus, limit)[i];
    LevelsAreLazyPages(pages, [], focus, limit, i);
    p := levels[i].parent;
    SpineIsChained(t, m, focus, limit);
    assert levels[i] in levels;
  }

  /** The items show exactly the listed children of `p`, each once, in ascending order. */
  ghost predicate WholeLevel(t: Trie, canon: Canon, m: Mode, p: Oid, items: seq<TreeItem>) {
    ShowsChildren(t, canon, m, p, -1, None, items)
  }

  /** With what its `nextAfter` and, from an anchored opening, `prevBefore` lead to, the level is shown whole. */
  ghost predicate OpensWholeLevel(t: Trie, canon: Canon, m: Mode, level: BodyLevel, limit: nat)
    requires WellFormed(t) && limit >= 1
  {
    if level.anchored then
      && level.children != []
      && WholeLevel(t, canon, m, level.parent,
           EarlierPages(t, canon, m, level.parent, CursorSeg(level.children[0].directOid), limit)
           + FromLevel(t, canon, m, level, limit))
    else WholeLevel(t, canon, m, level.parent, FromLevel(t, canon, m, level, limit))
  }

  lemma {:induction false} AnswerGoesOn(t: Trie, canon: Canon, m: Mode, focus: Oid, limit: nat, level: BodyLevel)
    requires WellFormed(t) && limit >= 1 && AnswersFor(t, canon, m, focus, limit, level)
    ensures FromLevel(t, canon, m, level, limit) == LaterPages(t, canon, m, level.parent, OpenedAt(level, focus), limit)
  {
    assert level.children + [] == level.children;
  }

  lemma {:induction false} BothWays(t: Trie, canon: Canon, m: Mode, p: Oid, seg: nat, before: int, limit: nat,
      later: seq<TreeItem>)
    requires WellFormed(t) && limit >= 1 && before == seg && later == LaterPages(t, canon, m, p, seg - 1, limit)
    ensures WholeLevel(t, canon, m, p, EarlierPages(t, canon, m, p, before, limit) + later)
  {
    var s := ShownSegs(t, m, p);
    LaterShow(t, canon, m, p, seg - 1, limit);
    EarlierShow(t, canon, m, p, seg, limit);
    ShowsBoth(t, canon, m, p, EarlierPages(t, canon, m, p, seg, limit), LaterPages(t, canon, m, p, seg - 1, limit),
              Sorted(SegsBefore(s, seg)), Sorted(SegsAfter(s, seg - 1)));
    SortedSplit(s, seg);
    SortedShow(t, canon, m, p, -1, None,
               EarlierPages(t, canon, m, p, seg, limit) + LaterPages(t, canon, m, p, seg - 1, limit), s);
  }

  lemma {:induction false} AnchoredOpens(t: Trie, canon: Canon, m: Mode, limit: nat, level: BodyLevel, seg: nat,
      bound: int)
    requires WellFormed(t) && limit >= 1 && level.anchored && level.children != []
    requires CursorSeg(level.children[0].directOid) == seg && bound == seg - 1
    requires FromLevel(t, canon, m, level, limit) == LaterPages(t, canon, m, level.parent, bound, limit)
    ensures OpensWholeLevel(t, canon, m, level, limit)
  {
    BothWays(t, canon, m, level.parent, seg, CursorSeg(level.children[0].directOid), limit,
             FromLevel(t, canon, m, level, limit));
  }

  lemma {:induction false} FirstPageOpens(t: Trie, canon: Canon, m: Mode, limit: nat, level: BodyLevel)
    requires WellFormed(t) && limit >= 1 && !level.anchored
    requires FromLevel(t, canon, m, level, limit) == LaterPages(t, canon, m, level.parent, -1, limit)
    ensures OpensWholeLevel(t, canon, m, level, limit)
  {
    FollowingNextShowsLevel(t, canon, m, level.parent, -1, limit);
  }

  lemma {:induction false} FirstSeg(level: BodyLevel, focus: Oid)
    requires level.anchored && BeginsOnTheWay(level, focus)
    ensures CursorSeg(level.children[0].directOid) == focus[|level.parent|]
    ensures OpenedAt(level, focus) == CursorSeg(level.children[0].directOid) - 1
  {}

  lemma {:induction false} WholeLevelOpens(t: Trie, canon: Canon, m: Mode, focus: Oid, limit: nat, level: BodyLevel)
    requires WellFormed(t) && limit >= 1 && BeginsOnTheWay(level, focus)
    requires FromLevel(t, canon, m, level, limit) == LaterPages(t, canon, m, level.parent, OpenedAt(level, focus), limit)
    ensures OpensWholeLevel(t, canon, m, level, limit)
  {
    if level.anchored {
      FirstSeg(level, focus);
      AnchoredOpens(t, canon, m, limit, level, focus[|level.parent|], OpenedAt(level, focus));
    } else {
      FirstPageOpens(t, canon, m, limit, level);
    }
  }

  /**
   * Every level of a spine answer, with what its `nextAfter` leads to, shows the whole level; one that is marked as
   * anchored begins at the child on the way to the focus, and following `prevBefore` from there shows the rest.
   */
  lemma {:induction false} SpineLevelsOpenWholeLevels(t: Trie, canon: Canon, m: Mode, focus: Oid, limit: nat, i: nat)
    requires WellFormed(t) && limit >= 1 && i < |SpineAnswer(t, canon, m, focus, limit).levels|
    ensures BeginsOnTheWay(SpineAnswer(t, canon, m, focus, limit).levels[i], focus)
    ensures OpensWholeLevel(t, canon, m, SpineAnswer(t, canon, m, focus, limit).levels[i], limit)
  {
    var p := AnswerLevel(t, canon, m, focus, limit, i);
    var level := BodyLevelOf(canon, LevelAt(PagesOf(t, m, limit), p, focus, limit), limit);
    LevelAtAnswers(t, canon, m, p, focus, limit);
    LevelAtBegins(t, canon, m, p, focus, limit);
    AnswerGoesOn(t, canon, m, focus, limit, level);
    WholeLevelOpens(t, canon, m, focus, limit, level);
  }

  // ---- How far a spine answer goes ----

  /** The item of the level on the way to the focus: it can be expanded, and its anchor lies above the focus. */
  ghost predicate LeadsOn(level: BodyLevel, focus: Oid, item: TreeItem) {
    && item in level.children && level.parent < focus && item.directOid == level.parent + [focus[|level.parent|]]
    && item.hasChildren && item.oid < focus
  }

  lemma {:induction false} NextWalked(pages: Pages, parent: Oid, focus: Oid, limit: nat, i: nat)
    requires ProperPages(pages) && i < |SpineWalk(pages, parent, focus, limit)|
    ensures var walk := SpineWalk(pages, parent, focus, limit);
            && walk[i].parent < focus && RowsUnder(walk[i].parent, walk[i].rows)
            && var next := NextParent(walk[i], focus);
               && (i + 1 < |walk| <==> next.Some? && next.value < focus)
               && (i + 1 < |walk| ==> walk[i + 1].parent == next.value)
    decreases i
  {
    WalkStep(pages, parent, focus, limit);
    var level := LevelAt(pages, parent, focus, limit);
    NextIsDeeper(level, focus);
    var next := NextParent(level, focus);
    if i > 0 {
      NextWalked(pages, next.value, focus, limit, i - 1);
    } else if next.Some? && next.value < focus {
      WalkStep(pages, next.value, focus, limit);
    }
  }

  lemma {:induction false} RowsOfOneSeg(t: Trie, m: Mode, p: Oid, bound: int, limit: nat, r: FoldedRow, seg: nat)
    requires WellFormed(t) && r in FoldedPage(t, m, p, true, bound, limit) && r.seg == seg
    ensures r.chain != [] && r.DirectOid() == p + [seg]
    ensures FindRowBySeg(FoldedPage(t, m, p, true, bound, limit), seg) == Some(r)
  {
    var rows := FoldedPage(t, m, p, true, bound, limit);
    var found := FindRowBySeg(rows, seg);
    PageRow(t, m, p, bound, limit, r);
    PageRow(t, m, p, bound, limit, found.value);
  }

  ghost predicate LeadsTo(level: BodyLevel, focus: Oid, o: Oid) {
    exists item :: LeadsOn(level, focus, item) && item.oid == o
  }

  /** The walk's level, read from a page, as the answer shows it. */
  ghost predicate ReadAt(t: Trie, m: Mode, bound: int, limit: nat, level: SpineLevel, focus: Oid)
    requires WellFormed(t)
  {
    && level.parent < focus && level.rows == FoldedPage(t, m, level.parent, true, bound, limit)
    && Chained(level.rows) && RowsUnder(level.parent, level.rows)
  }

  lemma {:induction false} NextIsShown(t: Trie, canon: Canon, m: Mode, bound: int, limit: nat, level: SpineLevel,
      focus: Oid)
    requires WellFormed(t) && ReadAt(t, m, bound, limit, level, focus)
    requires NextParent(level, focus).Some? && NextParent(level, focus).value < focus
    ensures LeadsTo(BodyLevelOf(canon, level, limit), focus, NextParent(level, focus).value)
  {
    var row := NextRow(level, focus);
    RowsOfOneSeg(t, m, level.parent, bound, limit, row, row.seg);
    RowLeads(canon, limit, level, focus, row);
  }

  /** The row whose anchor the walk goes on to. */
  lemma {:induction false} NextRow(level: SpineLevel, focus: Oid) returns (row: FoldedRow)
    requires level.parent < focus && RowsUnder(level.parent, level.rows) && NextParent(level, focus).Some?
    ensures row in level.rows && row.seg == focus[|level.parent|] && row.chain != [] && row.expandable
    ensures NextParent(level, focus).value == row.Anchor().oid
  {
    row := FindRowBySeg(level.rows, focus[|level.parent|]).value;
    assert RowUnder(level.parent, row);
  }

  lemma {:induction false} RowLeads(canon: Canon, limit: nat, level: SpineLevel, focus: Oid, row: FoldedRow)
    requires level.parent < focus && Chained(level.rows) && row in level.rows && row.chain != [] && row.expandable
    requires row.DirectOid() == level.parent + [focus[|level.parent|]] && row.Anchor().oid < focus
    ensures LeadsTo(BodyLevelOf(canon, level, limit), focus, row.Anchor().oid)
  {
    var i :| 0 <= i < |level.rows| && level.rows[i] == row;
    assert ProjectFoldedRows(canon, level.rows)[i] == ProjectRow(canon, row);
    assert LeadsOn(BodyLevelOf(canon, level, limit), focus, ProjectRow(canon, row));
  }

  lemma {:induction false} ShownIsNext(t: Trie, canon: Canon, m: Mode, bound: int, limit: nat, level: SpineLevel,
      focus: Oid, item: TreeItem)
    requires WellFormed(t) && ReadAt(t, m, bound, limit, level, focus)
    requires LeadsOn(BodyLevelOf(canon, level, limit), focus, item)
    ensures NextParent(level, focus) == Some(item.oid)
  {
    var i :| 0 <= i < |level.rows| && ProjectFoldedRows(canon, level.rows)[i] == item;
    assert item == ProjectRow(canon, level.rows[i]);
    LeadingRow(t, m, bound, limit, level, focus, level.rows[i]);
  }

  /** Whether and where the walk goes on, read off the items. */
  lemma {:induction false} NextIsItem(t: Trie, canon: Canon, m: Mode, bound: int, limit: nat, level: SpineLevel,
      focus: Oid)
    requires WellFormed(t) && ReadAt(t, m, bound, limit, level, focus)
    ensures var next, b := NextParent(level, focus), BodyLevelOf(canon, level, limit);
            && ((exists item :: LeadsOn(b, focus, item)) <==> next.Some? && next.value < focus)
            && (next.Some? && next.value < focus ==> LeadsTo(b, focus, next.value))
  {
    var next := NextParent(level, focus);
    if next.Some? && next.value < focus {
      NextIsShown(t, canon, m, bound, limit, level, focus);
    }
    forall item | LeadsOn(BodyLevelOf(canon, level, limit), focus, item) ensures next == Some(item.oid) {
      ShownIsNext(t, canon, m, bound, limit, level, focus, item);
    }
  }

  lemma {:induction false} LeadingRow(t: Trie, m: Mode, bound: int, limit: nat, level: SpineLevel, focus: Oid,
      r: FoldedRow)
    requires WellFormed(t) && level.parent < focus && RowsUnder(level.parent, level.rows)
    requires level.rows == FoldedPage(t, m, level.parent, true, bound, limit) && r in level.rows
    requires r.chain != [] && r.DirectOid() == level.parent + [focus[|level.parent|]]
    requires r.expandable && r.Anchor().oid < focus
    ensures NextParent(level, focus) == Some(r.Anchor().oid)
  {
    var seg := focus[|level.parent|];
    assert RowUnder(level.parent, r);
    assert (level.parent + [r.seg])[|level.parent|] == (level.parent + [seg])[|level.parent|];
    RowsOfOneSeg(t, m, level.parent, bound, limit, r, seg);
  }

  lemma {:induction false} WalkedIsRead(t: Trie, m: Mode, focus: Oid, limit: nat, i: nat) returns (bound: int)
    requires WellFormed(t) && ProperPages(PagesOf(t, m, limit))
    requires i < |SpineWalk(PagesOf(t, m, limit), [], focus, limit)|
    ensures ReadAt(t, m, bound, limit, SpineWalk(PagesOf(t, m, limit), [], focus, limit)[i], focus)
  {
    var pages := PagesOf(t, m, limit);
    var level := SpineWalk(pages, [], focus, limit)[i];
    LevelsAreLazyPages(pages, [], focus, limit, i);
    LevelIsPage(pages, level.parent, focus, limit);
    WalkIsChained(pages, [], focus, limit);
    bound := if level.anchored then Prev(focus[|level.parent|]) else -1;
    PageIsProper(t, m, level.parent, true, bound, limit);
    assert level in SpineWalk(pages, [], focus, limit);
  }

  lemma {:induction false} AnswerIsCut(t: Trie, canon: Canon, m: Mode, focus: Oid, limit: nat)
    requires WellFormed(t)
    ensures ProperPages(PagesOf(t, m, limit))
    ensures var walk := SpineWalk(PagesOf(t, m, limit), [], focus, limit);
            var levels := SpineAnswer(t, canon, m, focus, limit).levels;
            && ChainedLevels(walk) && |levels| == (if |walk| > 64 then 64 else |walk|)
            && forall i :: 0 <= i < |levels| ==> levels[i] == BodyLevelOf(canon, walk[i], limit)
  {
    PagesAreProper(t, m, limit);
    WalkIsChained(PagesOf(t, m, limit), [], focus, limit);
    SpineIsChained(t, m, focus, limit);
  }

  /** The answer goes on from a level exactly when some item leads on, and then with the node of that item. */
  ghost predicate GoesOnFrom(levels: seq<BodyLevel>, focus: Oid, i: nat)
    requires i < |levels|
  {
    && (i + 1 < |levels| <==> i + 1 < 64 && exists item :: LeadsOn(levels[i], focus, item))
    && (i + 1 < |levels| ==> LeadsTo(levels[i], focus, levels[i + 1].parent))
  }

  /**
   * A spine answer starts at the apex. It goes on from a level exactly when that level has an item on the way to the
   * focus that can be expanded and ends above it, with the node of that item, until there are 64 levels.
   */
  lemma {:induction false} SpineGoesOnIff(t: Trie, canon: Canon, m: Mode, focus: Oid, limit: nat)
    requires WellFormed(t)
    ensures var levels := SpineAnswer(t, canon, m, focus, limit).levels;
            && (levels != [] <==> focus != []) && (levels != [] ==> levels[0].parent == [])
            && forall i: nat :: i < |levels| ==> GoesOnFrom(levels, focus, i)
  {
    AnswerIsCut(t, canon, m, focus, limit);
    var pages := PagesOf(t, m, limit);
    if focus != [] {
      WalkStep(pages, [], focus, limit);
    }
    forall i: nat | i < |SpineAnswer(t, canon, m, focus, limit).levels|
      ensures GoesOnFrom(SpineAnswer(t, canon, m, focus, limit).levels, focus, i)
    {
      LevelGoesOn(t, canon, m, focus, limit, i);
    }
  }

  lemma {:induction false} LevelGoesOn(t: Trie, canon: Canon, m: Mode, focus: Oid, limit: nat, i: nat)
    requires WellFormed(t) && i < |SpineAnswer(t, canon, m, focus, limit).levels|
    ensures GoesOnFrom(SpineAnswer(t, canon, m, focus, limit).levels, focus, i)
  {
    AnswerIsCut(t, canon, m, focus, limit);
    NextWalked(PagesOf(t, m, limit), [], focus, limit, i);
    var bound := WalkedIsRead(t, m, focus, limit, i);
    NextIsItem(t, canon, m, bound, limit, SpineWalk(PagesOf(t, m, limit), [], focus, limit)[i], focus);
  }
}
