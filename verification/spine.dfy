/** The spine walk: every level from the apex down to a focus, in one call (internal/store/oidtree.go). */
module Spine {
  import opened Ordering
  import opened OidTrie
  import opened PathFolding
  import opened TreePaging
  import opened Model

  const SPINE_MAX_DEPTH: nat := 64

  datatype SpineLevel = SpineLevel(parent: Oid, rows: seq<FoldedRow>, anchored: bool)

  /** What a page read answers for a parent and a cursor, all reads of one walk sharing mode and limit. */
  type Pages = (Oid, int) -> seq<FoldedRow>

  /** A row of a page under `p`: it starts at a direct child and its anchor lies at or below it. */
  predicate RowUnder(p: Oid, r: FoldedRow) {
    r.chain != [] && r.DirectOid() == p + [r.seg] && r.DirectOid() <= r.Anchor().oid
  }

  predicate RowsUnder(p: Oid, rows: seq<FoldedRow>) {
    forall r :: r in rows ==> RowUnder(p, r)
  }

  ghost predicate ProperPages(pages: Pages) {
    forall p: Oid, b: int :: RowsUnder(p, pages(p, b))
  }

  /** The direct child of `parent` on the path to `focus`; `[]` when `focus` is not below `parent`. */
  function SpineChild(parent: Oid, focus: Oid): Oid {
    if parent < focus then focus[..|parent| + 1] else []
  }

  lemma {:induction false} SpineChildIs(parent: Oid, focus: Oid)
    requires parent < focus
    ensures SpineChild(parent, focus) == parent + [focus[|parent|]]
  {}

  /** The cursor just before a sibling, so that the page after it starts there. */
  function Prev(seg: nat): int {
    seg - 1
  }

  function FindRowBySeg(rows: seq<FoldedRow>, seg: nat): (r: Option<FoldedRow>)
    ensures r.Some? ==> r.value in rows && r.value.seg == seg
    ensures r.None? ==> forall x :: x in rows ==> x.seg != seg
  {
    if rows == [] then None
    else if rows[0].seg == seg then Some(rows[0])
    else FindRowBySeg(rows[1..], seg)
  }

  predicate RowCoversOid(r: FoldedRow, oid: Oid)
    requires r.chain != []
  {
    r.DirectOid() <= oid && oid <= r.Anchor().oid
  }

  /** The first page does not have the spine child but, being full, may only stop short of it. */
  predicate Overfull(rows: seq<FoldedRow>, seg: nat, limit: nat) {
    FindRowBySeg(rows, seg).None? && seg > 0 && |rows| == limit
  }

  /** One level: the first page, or the page anchored at the spine child of a wide level. */
  ghost function LevelAt(pages: Pages, parent: Oid, focus: Oid, limit: nat): (level: SpineLevel)
    requires parent < focus
    ensures level.parent == parent
  {
    var seg := focus[|parent|];
    if Overfull(pages(parent, -1), seg, limit) && FindRowBySeg(pages(parent, Prev(seg)), seg).Some?
    then SpineLevel(parent, pages(parent, Prev(seg)), true)
    else SpineLevel(parent, pages(parent, -1), false)
  }

  /** Where the walk goes after a level: the anchor of the spine child's row, or nowhere. */
  function NextParent(level: SpineLevel, focus: Oid): Option<Oid>
    requires level.parent < focus && RowsUnder(level.parent, level.rows)
  {
    var row := FindRowBySeg(level.rows, focus[|level.parent|]);
    if row.None? then None
    else
      assert RowUnder(level.parent, row.value);
      if RowCoversOid(row.value, focus) || !row.value.expandable then None else Some(row.value.Anchor().oid)
  }

  lemma {:induction false} NextIsDeeper(level: SpineLevel, focus: Oid)
    requires level.parent < focus && RowsUnder(level.parent, level.rows)
    ensures NextParent(level, focus).Some? ==> level.parent < NextParent(level, focus).value
  {
    var row := FindRowBySeg(level.rows, focus[|level.parent|]);
    if row.Some? {
      assert RowUnder(level.parent, row.value);
      assert level.parent < level.parent + [row.value.seg] <= row.value.Anchor().oid;
    }
  }

  /** The walk without the depth backstop. */
  ghost function SpineWalk(pages: Pages, parent: Oid, focus: Oid, limit: nat): seq<SpineLevel>
    requires ProperPages(pages)
    decreases if parent < focus then |focus| - |parent| else 0
  {
    if !(parent < focus) then []
    else
      var level := LevelAt(pages, parent, focus, limit);
      NextIsDeeper(level, focus);
      var next := NextParent(level, focus);
      [level] + if next.None? then [] else SpineWalk(pages, next.value, focus, limit)
  }

  /** The pages of one snapshot of the trie. */
  ghost function PagesOf(t: Trie, m: Mode, limit: nat): Pages
    requires WellFormed(t)
  {
    (p: Oid, after: int) => FoldedPage(t, m, p, true, after, limit)
  }

  lemma {:induction false} PageRow(t: Trie, m: Mode, p: Oid, bound: int, limit: nat, r: FoldedRow)
    requires WellFormed(t) && r in PagesOf(t, m, limit)(p, bound)
    ensures Shown(t, m, p + [r.seg]) && r == RowFor(t, m, p + [r.seg]) && RowUnder(p, r)
  {
    var segs := PageSegs(t, m, p, true, bound, limit);
    var i :| 0 <= i < |segs| && r == FoldedPage(t, m, p, true, bound, limit)[i];
    assert Shown(t, m, p + [segs[i]]);
    assert r.seg == segs[i];
  }

  lemma {:induction false} PagesAreProper(t: Trie, m: Mode, limit: nat)
    requires WellFormed(t)
    ensures ProperPages(PagesOf(t, m, limit))
  {
    var pages := PagesOf(t, m, limit);
    forall p: Oid, b: int ensures RowsUnder(p, pages(p, b)) {
      forall r | r in pages(p, b) ensures RowUnder(p, r) {
        PageRow(t, m, p, b, limit, r);
      }
    }
  }

  /** One round of the walk: the first page and, on a wide level, the page anchored at the spine child. */
  method ReadLevel(t: Trie, m: Mode, parent: Oid, focus: Oid, n: nat) returns (level: SpineLevel)
    requires WellFormed(t) && parent < focus && n >= 1
    ensures level == LevelAt(PagesOf(t, m, n), parent, focus, n)
  {
    var rows := FoldChildren(t, m, parent, true, -1, n);
    var seg := focus[|parent|];
    level := SpineLevel(parent, rows, false);
    if Overfull(rows, seg, n) {
      var again := FoldChildren(t, m, parent, true, Prev(seg), n);
      if FindRowBySeg(again, seg).Some? {
        level := SpineLevel(parent, again, true);
      }
    }
  }

  /** The walk from the apex, cut at the depth backstop. */
  ghost function SpineCut(pages: Pages, focus: Oid, limit: nat): seq<SpineLevel>
    requires ProperPages(pages)
  {
    Take(SpineWalk(pages, [], focus, limit), SPINE_MAX_DEPTH)
  }

  /** The answer for one snapshot. */
  ghost function SpineOf(t: Trie, m: Mode, focus: Oid, limit: nat): seq<SpineLevel>
    requires WellFormed(t)
  {
    PagesAreProper(t, m, limit);
    SpineCut(PagesOf(t, m, limit), focus, limit)
  }

  ghost predicate WalkedTo(t: Trie, m: Mode, focus: Oid, limit: nat, levels: seq<SpineLevel>, parent: Oid)
    requires WellFormed(t)
  {
    PagesAreProper(t, m, limit);
    SpineWalk(PagesOf(t, m, limit), [], focus, limit)
      == levels + SpineWalk(PagesOf(t, m, limit), parent, focus, limit)
  }

  /** SpinePages: at most 64 levels, each one or two page reads. */
  method SpinePages(t: Trie, m: Mode, focus: Oid, limit: int) returns (levels: seq<SpineLevel>)
    requires WellFormed(t)
    ensures levels == SpineOf(t, m, focus, EffectiveLimit(limit))
  {
    var n := EffectiveLimit(limit);
    levels := [];
    var parent: Oid := [];
    WalkStarts(t, m, focus, n);
    for i := 0 to SPINE_MAX_DEPTH
      invariant |levels| == i
      invariant WalkedTo(t, m, focus, n, levels, parent)
    {
      if SpineChild(parent, focus) == [] {
        WalkEnds(t, m, focus, n, levels, parent);
        return;
      }
      var level := ReadLevel(t, m, parent, focus, n);
      WalkAdvances(t, m, focus, n, levels, level);
      levels := levels + [level];
      var next := NextParent(level, focus);
      if next.None? {
        return;
      }
      parent := next.value;
    }
    WalkEnds(t, m, focus, n, levels, parent);
  }

  lemma {:induction false} WalkStarts(t: Trie, m: Mode, focus: Oid, limit: nat)
    requires WellFormed(t)
    ensures WalkedTo(t, m, focus, limit, [], [])
  {
    PagesAreProper(t, m, limit);
    NothingBefore(SpineWalk(PagesOf(t, m, limit), [], focus, limit));
  }

  lemma {:induction false} NothingBefore<T>(q: seq<T>)
    ensures q == [] + q
  {}

  lemma {:induction false} WalkEnds(t: Trie, m: Mode, focus: Oid, limit: nat, levels: seq<SpineLevel>, parent: Oid)
    requires WellFormed(t) && WalkedTo(t, m, focus, limit, levels, parent)
    requires |levels| == SPINE_MAX_DEPTH || (|levels| < SPINE_MAX_DEPTH && !(parent < focus))
    ensures levels == SpineOf(t, m, focus, limit)
  {
    PagesAreProper(t, m, limit);
  }

  lemma {:induction false} WalkAdvances(t: Trie, m: Mode, focus: Oid, limit: nat, levels: seq<SpineLevel>,
                                        level: SpineLevel)
    requires WellFormed(t) && level.parent < focus && WalkedTo(t, m, focus, limit, levels, level.parent)
    requires |levels| < SPINE_MAX_DEPTH && level == LevelAt(PagesOf(t, m, limit), level.parent, focus, limit)
    ensures RowsUnder(level.parent, level.rows)
    ensures NextParent(level, focus).None? ==> levels + [level] == SpineOf(t, m, focus, limit)
    ensures NextParent(level, focus).Some?
            ==> WalkedTo(t, m, focus, limit, levels + [level], NextParent(level, focus).value)
  {
    PagesAreProper(t, m, limit);
    var pages := PagesOf(t, m, limit);
    Advances(pages, SpineWalk(pages, [], focus, limit), levels, level.parent, focus, limit);
  }

  lemma {:induction false} Advances(pages: Pages, walk: seq<SpineLevel>, levels: seq<SpineLevel>, parent: Oid,
                                    focus: Oid, limit: nat)
    requires ProperPages(pages) && parent < focus
    requires walk == levels + SpineWalk(pages, parent, focus, limit) && |levels| < SPINE_MAX_DEPTH
    ensures var level := LevelAt(pages, parent, focus, limit);
            && RowsUnder(parent, level.rows)
            && match NextParent(level, focus)
               case None => levels + [level] == Take(walk, SPINE_MAX_DEPTH)
               case Some(next) => walk == levels + [level] + SpineWalk(pages, next, focus, limit)
  {
    WalkStep(pages, parent, focus, limit);
    var level := LevelAt(pages, parent, focus, limit);
    var next := NextParent(level, focus);
    Appended(walk, levels, level, if next.None? then [] else SpineWalk(pages, next.value, focus, limit));
  }

  lemma {:induction false} Appended<T>(walk: seq<T>, done: seq<T>, x: T, rest: seq<T>)
    requires walk == done + ([x] + rest)
    ensures walk == done + [x] + rest
    ensures rest == [] && |done| < SPINE_MAX_DEPTH ==> done + [x] == Take(walk, SPINE_MAX_DEPTH)
  {}

  lemma {:induction false} WalkStep(pages: Pages, parent: Oid, focus: Oid, limit: nat)
    requires ProperPages(pages) && parent < focus
    ensures var level := LevelAt(pages, parent, focus, limit);
            && RowsUnder(parent, level.rows)
            && SpineWalk(pages, parent, focus, limit)
               == [level] + (if NextParent(level, focus).None? then []
                             else SpineWalk(pages, NextParent(level, focus).value, focus, limit))
  {}

  // ---- What the walk shows ----

  /** Each level is a page the client would have fetched; parents are strictly deepening prefixes of the focus. */
  lemma {:induction false} LevelsAreLazyPages(pages: Pages, parent: Oid, focus: Oid, limit: nat, i: nat)
    requires ProperPages(pages) && i < |SpineWalk(pages, parent, focus, limit)|
    ensures var walk := SpineWalk(pages, parent, focus, limit);
            && parent <= walk[i].parent < focus
            && (i == 0 ==> walk[i].parent == parent)
            && (i > 0 ==> |walk[i - 1].parent| < |walk[i].parent|)
            && walk[i] == LevelAt(pages, walk[i].parent, focus, limit)
    decreases i
  {
    WalkStep(pages, parent, focus, limit);
    var level := LevelAt(pages, parent, focus, limit);
    if i > 0 {
      NextIsDeeper(level, focus);
      LevelsAreLazyPages(pages, NextParent(level, focus).value, focus, limit, i - 1);
    }
  }

  // ---- The walk over one snapshot ----

  lemma {:induction false} SegReached(s: set<nat>, seg: nat, limit: nat)
    requires seg in s && limit >= 1
    ensures seg in ForwardSegs(s, -1, limit)
            || (|ForwardSegs(s, -1, limit)| == limit && seg > 0 && seg in ForwardSegs(s, Prev(seg), limit))
  {
    var all, from := SegsAfter(s, -1), SegsAfter(s, Prev(seg));
    var i := SortedFinds(all, seg);
    SortedIs(all);
    SortedIs(from);
    if i >= limit {
      assert Sorted(all)[0] < Sorted(all)[i];
      var j := SortedFinds(from, seg);
      SortedHolds(from, 0);
      assert j == 0;
      assert ForwardSegs(s, Prev(seg), limit)[0] == seg;
    } else {
      assert ForwardSegs(s, -1, limit)[i] == seg;
    }
  }

  lemma {:induction false} PageHasRow(t: Trie, m: Mode, p: Oid, bound: int, limit: nat, seg: nat)
    requires WellFormed(t) && seg in ForwardSegs(ShownSegs(t, m, p), bound, limit)
    ensures Shown(t, m, p + [seg])
    ensures FindRowBySeg(PagesOf(t, m, limit)(p, bound), seg) == Some(RowFor(t, m, p + [seg]))
  {
    var rows, segs := FoldedPage(t, m, p, true, bound, limit), PageSegs(t, m, p, true, bound, limit);
    RowsCarryCursors(t, m, p, true, bound, limit);
    var i :| 0 <= i < |segs| && segs[i] == seg;
    assert rows[i] in rows && rows[i].seg == seg;
    PageRow(t, m, p, bound, limit, FindRowBySeg(rows, seg).value);
  }

  lemma {:induction false} PageLacksRow(t: Trie, m: Mode, p: Oid, bound: int, limit: nat, seg: nat)
    requires WellFormed(t) && seg !in ForwardSegs(ShownSegs(t, m, p), bound, limit)
    ensures FindRowBySeg(PagesOf(t, m, limit)(p, bound), seg) == None
    ensures |PagesOf(t, m, limit)(p, bound)| == |ForwardSegs(ShownSegs(t, m, p), bound, limit)|
  {
    var rows, segs := FoldedPage(t, m, p, true, bound, limit), PageSegs(t, m, p, true, bound, limit);
    RowsCarryCursors(t, m, p, true, bound, limit);
    forall r | r in rows ensures r.seg != seg {
      var i :| 0 <= i < |rows| && rows[i] == r;
      assert r.seg == segs[i] && segs[i] in segs;
    }
  }

  lemma {:induction false} LevelFinds(pages: Pages, parent: Oid, focus: Oid, limit: nat, row: FoldedRow)
    requires parent < focus
    requires var seg := focus[|parent|];
             FindRowBySeg(pages(parent, -1), seg) == Some(row)
             || (Overfull(pages(parent, -1), seg, limit) && FindRowBySeg(pages(parent, Prev(seg)), seg) == Some(row))
    ensures FindRowBySeg(LevelAt(pages, parent, focus, limit).rows, focus[|parent|]) == Some(row)
  {}

  /** Every page read along the spine of a shown child has, at last, that child's row. */
  lemma {:induction false} SpineRowFound(t: Trie, m: Mode, parent: Oid, focus: Oid, limit: nat)
    requires WellFormed(t) && limit >= 1 && parent < focus && Shown(t, m, SpineChild(parent, focus))
    ensures FindRowBySeg(LevelAt(PagesOf(t, m, limit), parent, focus, limit).rows, focus[|parent|])
         == Some(RowFor(t, m, SpineChild(parent, focus)))
  {
    var seg := focus[|parent|];
    var segs, pages := ShownSegs(t, m, parent), PagesOf(t, m, limit);
    SpineChildIs(parent, focus);
    ShownSegIff(t, m, parent, seg);
    SegReached(segs, seg, limit);
    if seg in ForwardSegs(segs, -1, limit) {
      PageHasRow(t, m, parent, -1, limit, seg);
    } else {
      PageHasRow(t, m, parent, Prev(seg), limit, seg);
      PageLacksRow(t, m, parent, -1, limit, seg);
    }
    LevelFinds(pages, parent, focus, limit, RowFor(t, m, parent + [seg]));
  }

  lemma {:induction false} ShortRun(t: Trie, m: Mode, c: Oid, g: Oid)
    requires WellFormed(t) && c in t && c <= g
    ensures c in Run(t, m, c) && (g != c ==> c < g)
    ensures |Run(t, m, c)| == 1 && g != c ==> AnchorOf(t, m, c) < g
  {
    assert Run(t, m, c)[0] == c;
    assert g[..|c|] == c;
    assert |c| == |g| ==> g[..|c|] == g;
    assert g != c ==> c < g;
  }

  /** Toward a shown node a run never turns away: it passes through the node or ends above it. */
  lemma {:induction false} RunReaches(t: Trie, m: Mode, c: Oid, g: Oid)
    requires Browsable(t, m) && c in t && c <= g && Shown(t, m, g)
    ensures g in Run(t, m, c) || AnchorOf(t, m, c) < g
    decreases |g| - |c|
  {
    ShortRun(t, m, c, g);
    if |Run(t, m, c)| > 1 && c != g {
      var d := RunFollows(t, m, c, g);
      RunReaches(t, m, d, g);
    }
  }

  lemma {:induction false} RunFollows(t: Trie, m: Mode, c: Oid, g: Oid) returns (d: Oid)
    requires Browsable(t, m) && c in t && c < g && Shown(t, m, g) && |Run(t, m, c)| > 1
    ensures d in t && d <= g && |c| < |d| && AnchorOf(t, m, c) == AnchorOf(t, m, d)
    ensures g in Run(t, m, d) ==> g in Run(t, m, c)
  {
    d := RunTail(t, m, c);
    var e := g[..|c| + 1];
    ShownAncestor(t, m, g, |c| + 1);
    assert e in ChildrenIn(t.Keys, c);
    FoldedChildIsOnlyShown(t, m, c, d, e);
  }

  ghost predicate RowShows(r: FoldedRow, g: Oid) {
    exists k :: 0 <= k < |r.chain| && r.chain[k].oid == g
  }

  ghost predicate LevelCovers(level: SpineLevel, g: Oid) {
    exists r :: r in level.rows && r.chain != [] && RowCoversOid(r, g)
  }

  ghost predicate LevelShows(level: SpineLevel, g: Oid) {
    exists r :: r in level.rows && RowShows(r, g)
  }

  lemma {:induction false} RunIsShown(t: Trie, m: Mode, c: Oid, g: Oid)
    requires WellFormed(t) && c in t && c != [] && g in Run(t, m, c)
    ensures RowShows(RowFor(t, m, c), g)
  {
    var k :| 0 <= k < |Run(t, m, c)| && Run(t, m, c)[k] == g;
    assert RowFor(t, m, c).chain[k].oid == g;
  }

  /** The step of the walk toward a shown node that the level at `parent` does not show. */
  lemma {:induction false} WalkDescends(t: Trie, m: Mode, parent: Oid, focus: Oid, limit: nat, g: Oid)
    requires Browsable(t, m) && limit >= 1 && parent < g <= focus && Shown(t, m, g)
    ensures ProperPages(PagesOf(t, m, limit))
    ensures var c, level := SpineChild(parent, focus), LevelAt(PagesOf(t, m, limit), parent, focus, limit);
            && Shown(t, m, c) && c <= g && RowFor(t, m, c) in level.rows
            && (g in Run(t, m, c) || (AnchorOf(t, m, c) < g && NextParent(level, focus) == Some(AnchorOf(t, m, c))))
  {
    PagesAreProper(t, m, limit);
    var c := SpineChild(parent, focus);
    assert c == g[..|parent| + 1];
    ShownAncestor(t, m, g, |parent| + 1);
    SpineRowFound(t, m, parent, focus, limit);
    RunReaches(t, m, c, g);
    var a := AnchorOf(t, m, c);
    if g !in Run(t, m, c) {
      BelowStartsInLevel(t, m, a, g);
      ExpandableOpensRows(t, m, a);
    }
  }

  /** Every shown ancestor of the focus, the focus included, is rendered by some level of the walk. */
  lemma {:induction false} ShownAncestorsAreRendered(t: Trie, m: Mode, parent: Oid, focus: Oid, limit: nat, g: Oid)
    requires Browsable(t, m) && limit >= 1 && parent < g <= focus && Shown(t, m, g)
    ensures ProperPages(PagesOf(t, m, limit))
    ensures exists i :: 0 <= i < |SpineWalk(PagesOf(t, m, limit), parent, focus, limit)|
                        && LevelShows(SpineWalk(PagesOf(t, m, limit), parent, focus, limit)[i], g)
    decreases |g| - |parent|
  {
    var pages := PagesOf(t, m, limit);
    WalkDescends(t, m, parent, focus, limit, g);
    WalkStep(pages, parent, focus, limit);
    var walk, c := SpineWalk(pages, parent, focus, limit), SpineChild(parent, focus);
    if g in Run(t, m, c) {
      RunIsShown(t, m, c, g);
      assert LevelShows(walk[0], g);
    } else {
      var a := AnchorOf(t, m, c);
      assert parent < c <= a;
      ShownAncestorsAreRendered(t, m, a, focus, limit, g);
      RenderedLater(LevelAt(pages, parent, focus, limit), SpineWalk(pages, a, focus, limit), g);
    }
  }

  lemma {:induction false} RenderedLater(level: SpineLevel, rest: seq<SpineLevel>, g: Oid)
    requires exists i :: 0 <= i < |rest| && LevelShows(rest[i], g)
    ensures exists i :: 0 <= i < |[level] + rest| && LevelShows(([level] + rest)[i], g)
  {
    var i :| 0 <= i < |rest| && LevelShows(rest[i], g);
    assert LevelShows(([level] + rest)[i + 1], g);
  }

  lemma {:induction false} LevelRow(t: Trie, m: Mode, parent: Oid, focus: Oid, limit: nat, r: FoldedRow)
    requires WellFormed(t) && parent < focus && r in LevelAt(PagesOf(t, m, limit), parent, focus, limit).rows
    ensures Shown(t, m, parent + [r.seg]) && r == RowFor(t, m, parent + [r.seg]) && RowUnder(parent, r)
  {
    LevelIsPage(PagesOf(t, m, limit), parent, focus, limit);
    PageRow(t, m, parent, if LevelAt(PagesOf(t, m, limit), parent, focus, limit).anchored then Prev(focus[|parent|]) else -1,
            limit, r);
  }

  lemma {:induction false} LevelIsPage(pages: Pages, parent: Oid, focus: Oid, limit: nat)
    requires parent < focus
    ensures var level := LevelAt(pages, parent, focus, limit);
            level.rows == pages(parent, if level.anchored then Prev(focus[|parent|]) else -1)
  {}

  /** Only the spine child's row of a level can cover the focus. */
  lemma {:induction false} OnlySpineRowCovers(t: Trie, m: Mode, parent: Oid, focus: Oid, limit: nat)
    requires WellFormed(t) && limit >= 1 && parent < focus && Shown(t, m, SpineChild(parent, focus))
    ensures LevelCovers(LevelAt(PagesOf(t, m, limit), parent, focus, limit), focus)
            <==> RowCoversOid(RowFor(t, m, SpineChild(parent, focus)), focus)
  {
    var level := LevelAt(PagesOf(t, m, limit), parent, focus, limit);
    SpineRowFound(t, m, parent, focus, limit);
    SpineChildIs(parent, focus);
    if LevelCovers(level, focus) {
      var r :| r in level.rows && r.chain != [] && RowCoversOid(r, focus);
      CoveringRowIsSpineRow(t, m, parent, focus, limit, r);
    }
  }

  lemma {:induction false} CoveringRowIsSpineRow(t: Trie, m: Mode, parent: Oid, focus: Oid, limit: nat, r: FoldedRow)
    requires WellFormed(t) && parent < focus && Shown(t, m, SpineChild(parent, focus))
    requires r in LevelAt(PagesOf(t, m, limit), parent, focus, limit).rows
    requires r.chain != [] && RowCoversOid(r, focus)
    ensures r == RowFor(t, m, SpineChild(parent, focus))
  {
    LevelRow(t, m, parent, focus, limit, r);
    assert (parent + [r.seg])[|parent|] == focus[|parent|];
    SpineChildIs(parent, focus);
  }

  ghost predicate CoversOnlyLast(walk: seq<SpineLevel>, focus: Oid) {
    walk != [] && forall i :: 0 <= i < |walk| ==> (LevelCovers(walk[i], focus) <==> i == |walk| - 1)
  }

  lemma {:induction false} PrependUncovered(level: SpineLevel, rest: seq<SpineLevel>, focus: Oid)
    requires CoversOnlyLast(rest, focus) && !LevelCovers(level, focus)
    ensures CoversOnlyLast([level] + rest, focus)
  {
    var walk := [level] + rest;
    forall i | 0 <= i < |walk| ensures LevelCovers(walk[i], focus) <==> i == |walk| - 1 {
      if i > 0 { assert walk[i] == rest[i - 1]; }
    }
  }

  /** The walk toward a shown focus ends exactly at the first level that covers it. */
  lemma {:induction false} WalkEndsAtFocus(t: Trie, m: Mode, parent: Oid, focus: Oid, limit: nat)
    requires Browsable(t, m) && limit >= 1 && parent < focus && Shown(t, m, focus)
    ensures ProperPages(PagesOf(t, m, limit))
    ensures CoversOnlyLast(SpineWalk(PagesOf(t, m, limit), parent, focus, limit), focus)
    ensures |SpineWalk(PagesOf(t, m, limit), parent, focus, limit)| <= |focus| - |parent|
    decreases |focus| - |parent|
  {
    var pages := PagesOf(t, m, limit);
    WalkDescends(t, m, parent, focus, limit, focus);
    WalkStep(pages, parent, focus, limit);
    OnlySpineRowCovers(t, m, parent, focus, limit);
    var c, level := SpineChild(parent, focus), LevelAt(pages, parent, focus, limit);
    if focus in Run(t, m, c) {
      CoveredInRun(t, m, c, focus);
      SpineRowFound(t, m, parent, focus, limit);
      assert SpineWalk(pages, parent, focus, limit) == [level];
    } else {
      assert parent < c <= AnchorOf(t, m, c);
      WalkEndsAtFocus(t, m, AnchorOf(t, m, c), focus, limit);
      PrependUncovered(level, SpineWalk(pages, AnchorOf(t, m, c), focus, limit), focus);
    }
  }

  lemma {:induction false} CoveredInRun(t: Trie, m: Mode, c: Oid, g: Oid)
    requires WellFormed(t) && c in t && c != [] && g in Run(t, m, c)
    ensures RowCoversOid(RowFor(t, m, c), g)
    decreases |g| - |c|
  {
    if |Run(t, m, c)| > 1 {
      var d := RunTail(t, m, c);
      if g != c {
        assert Run(t, m, c)[1..] == Run(t, m, d);
        assert g in Run(t, m, d);
        CoveredInRun(t, m, d, g);
        assert c <= d;
      }
    } else {
      assert Run(t, m, c) == [c];
    }
  }

  // ---- How many levels the walk needs ----

  /** The strict ancestors of the focus below `parent` where a run ends. */
  ghost function StopsAbove(t: Trie, m: Mode, parent: Oid, focus: Oid): set<Oid> {
    set a | a in t && parent < a < focus && Absorbed(t, m, a) == {}
  }

  lemma {:induction false} NoStopInRun(t: Trie, m: Mode, c: Oid, x: Oid)
    requires WellFormed(t) && c in t && x in t && c <= x < AnchorOf(t, m, c)
    ensures Absorbed(t, m, x) != {}
    decreases |x| - |c|
  {
    ShortRun(t, m, c, x);
    assert |Run(t, m, c)| > 1;
    var d := RunTail(t, m, c);
    if x != c {
      Nested(d, x, AnchorOf(t, m, c));
      NoStopInRun(t, m, d, x);
    }
  }

  lemma {:induction false} Nested(x: Oid, y: Oid, z: Oid)
    requires x <= z && y <= z && |x| <= |y|
    ensures x <= y && (x != y ==> x < y)
  {
    assert x == z[..|x|] && y == z[..|y|];
  }

  /** A stop below the run's start is the anchor or lies below it. */
  lemma {:induction false} StopsSplit(t: Trie, m: Mode, parent: Oid, c: Oid, focus: Oid)
    requires WellFormed(t) && c in t && c == SpineChild(parent, focus) && parent < focus
    requires AnchorOf(t, m, c) < focus
    ensures |StopsAbove(t, m, parent, focus)| == 1 + |StopsAbove(t, m, AnchorOf(t, m, c), focus)|
  {
    var a := AnchorOf(t, m, c);
    RunSteps(t, m, c);
    assert parent < c <= a;
    var above, rest := StopsAbove(t, m, parent, focus), StopsAbove(t, m, a, focus);
    forall x | x in above ensures x in {a} + rest {
      NoStopBefore(t, m, parent, c, focus, x);
      Nested(a, x, focus);
    }
    forall x | x in rest ensures x in above { assert parent < a < x; }
    OneMore(above, rest, a);
  }

  lemma {:induction false} OneMore<T>(s: set<T>, rest: set<T>, a: T)
    requires a in s && a !in rest && rest <= s <= {a} + rest
    ensures |s| == 1 + |rest|
  {
    assert s == {a} + rest;
  }

  lemma {:induction false} NoStopBefore(t: Trie, m: Mode, parent: Oid, c: Oid, focus: Oid, x: Oid)
    requires WellFormed(t) && parent < focus && c in t && c == SpineChild(parent, focus)
    requires x in StopsAbove(t, m, parent, focus)
    ensures AnchorOf(t, m, c) <= focus ==> |AnchorOf(t, m, c)| <= |x|
    ensures !(x < AnchorOf(t, m, c))
  {
    var a := AnchorOf(t, m, c);
    Nested(c, x, focus);
    if a <= focus && |x| < |a| { Nested(x, a, focus); }
    if x < a { NoStopInRun(t, m, c, x); }
  }

  lemma {:induction false} NoStopsInRun(t: Trie, m: Mode, parent: Oid, c: Oid, focus: Oid)
    requires WellFormed(t) && parent < focus && c in t && c == SpineChild(parent, focus)
    requires focus <= AnchorOf(t, m, c)
    ensures StopsAbove(t, m, parent, focus) == {}
  {
    if StopsAbove(t, m, parent, focus) != {} {
      var x :| x in StopsAbove(t, m, parent, focus);
      assert x < focus <= AnchorOf(t, m, c);
      NoStopBefore(t, m, parent, c, focus, x);
    }
  }

  /** One level for the top of the spine and one more below each ancestor where a run ends. */
  lemma {:induction false} WalkLength(t: Trie, m: Mode, parent: Oid, focus: Oid, limit: nat)
    requires Browsable(t, m) && limit >= 1 && parent < focus && Shown(t, m, focus)
    ensures ProperPages(PagesOf(t, m, limit))
    ensures |SpineWalk(PagesOf(t, m, limit), parent, focus, limit)| == 1 + |StopsAbove(t, m, parent, focus)|
    decreases |focus| - |parent|
  {
    var pages := PagesOf(t, m, limit);
    WalkDescends(t, m, parent, focus, limit, focus);
    WalkStep(pages, parent, focus, limit);
    var c := SpineChild(parent, focus);
    if focus in Run(t, m, c) {
      CoveredInRun(t, m, c, focus);
      SpineRowFound(t, m, parent, focus, limit);
      NoStopsInRun(t, m, parent, c, focus);
    } else {
      StopsSplit(t, m, parent, c, focus);
      WalkLength(t, m, AnchorOf(t, m, c), focus, limit);
    }
  }

  ghost predicate SpineShows(t: Trie, m: Mode, focus: Oid, limit: nat)
    requires WellFormed(t)
  {
    exists level :: level in SpineOf(t, m, focus, limit) && LevelCovers(level, focus)
  }

  /** Cutting a walk that covers the focus in its last level only leaves that level or none that covers it. */
  lemma {:induction false} CutCovers(walk: seq<SpineLevel>, focus: Oid)
    requires CoversOnlyLast(walk, focus)
    ensures (exists level :: level in Take(walk, SPINE_MAX_DEPTH) && LevelCovers(level, focus))
       <==> |walk| <= SPINE_MAX_DEPTH
    ensures |walk| <= SPINE_MAX_DEPTH ==> Take(walk, SPINE_MAX_DEPTH) == walk
  {
    if |walk| <= SPINE_MAX_DEPTH {
      var last := walk[|walk| - 1];
      assert Take(walk, SPINE_MAX_DEPTH) == walk;
      assert last in walk && LevelCovers(last, focus);
    } else {
      forall level | level in Take(walk, SPINE_MAX_DEPTH) ensures !LevelCovers(level, focus) {
        var i :| 0 <= i < SPINE_MAX_DEPTH && walk[i] == level;
      }
    }
  }

  /** In every mode the spine shows a listed focus exactly when runs end at fewer than 64 of its ancestors. */
  lemma {:induction false} SpineShowsFocusIff(t: Trie, m: Mode, focus: Oid, limit: nat)
    requires Browsable(t, m) && limit >= 1 && Shown(t, m, focus)
    ensures SpineShows(t, m, focus, limit) <==> |StopsAbove(t, m, [], focus)| < 64
    ensures SpineShows(t, m, focus, limit) ==> CoversOnlyLast(SpineOf(t, m, focus, limit), focus)
  {
    WalkEndsAtFocus(t, m, [], focus, limit);
    WalkLength(t, m, [], focus, limit);
    CutCovers(SpineWalk(PagesOf(t, m, limit), [], focus, limit), focus);
  }

  /** The strict ancestors of the focus where the tree branches. */
  ghost function BranchingAbove(t: Trie, focus: Oid): set<Oid> {
    set a | a in t && [] < a < focus && t[a].childCount != 1
  }

  /** In the default mode runs end exactly where the tree branches. */
  lemma {:induction false} DefaultStopsBranch(t: Trie, focus: Oid)
    requires WellFormed(t)
    ensures StopsAbove(t, AllNodes, [], focus) == BranchingAbove(t, focus)
  {
    forall a | a in t && [] < a < focus ensures Absorbed(t, AllNodes, a) == {} <==> t[a].childCount != 1 {
      if t[a].childCount == 1 {
        assert ChildrenIn(t.Keys, a) != {};
        var c :| c in ChildrenIn(t.Keys, a);
        assert c in Absorbed(t, AllNodes, a);
      }
    }
  }

  /** In the default mode the spine shows a focus of the trie exactly when fewer than 64 of its ancestors branch. */
  lemma {:induction false} SpineShowsByDefaultIff(t: Trie, focus: Oid, limit: nat)
    requires WellFormed(t) && limit >= 1 && focus in t
    ensures SpineShows(t, AllNodes, focus, limit) <==> |BranchingAbove(t, focus)| < 64
  {
    SpineShowsFocusIff(t, AllNodes, focus, limit);
    DefaultStopsBranch(t, focus);
  }

  /** In every mode, a shown focus of at most 64 arcs is covered by the last level, and by no other. */
  lemma SpineReachesShownFocus(t: Trie, m: Mode, focus: Oid, limit: nat)
    requires Browsable(t, m) && limit >= 1 && Shown(t, m, focus) && 1 <= |focus| <= 64
    ensures CoversOnlyLast(SpineOf(t, m, focus, limit), focus)
  {
    WalkEndsAtFocus(t, m, [], focus, limit);
  }

  // ---- A focus the backstop cuts off ----

  function Ones(k: nat): Oid {
    seq(k, _ => 1)
  }

  /** A comb: `n` nested nodes with a sibling leaf each, and the focus below the last of them. */
  ghost function CombTable(n: nat): seq<Symbol> {
    seq(n + 1, i requires 0 <= i <= n =>
      Symbol("M", seq(i, _ => 'a'), if i < n then Ones(i + 1) + [2] else Ones(n + 1), Scalar))
  }

  ghost function OnesUpTo(n: nat): set<Oid> {
    set k | 1 <= k <= n :: Ones(k)
  }

  lemma {:induction false} CountOnes(n: nat)
    ensures |OnesUpTo(n)| == n
  {
    if n == 0 {
      assert OnesUpTo(0) == {};
    } else {
      CountOnes(n - 1);
      forall o | o in OnesUpTo(n - 1) ensures |o| < n {}
      assert |Ones(n)| == n;
      assert OnesUpTo(n) == OnesUpTo(n - 1) + {Ones(n)};
    }
  }

  lemma {:induction false} InTrie(symbols: seq<Symbol>, i: nat, o: Oid)
    requires i < |symbols| && symbols[i].oid != [] && symbols[i].oid != NULL_OID && o != [] && o <= symbols[i].oid
    ensures WellFormed(TrieOf(symbols)) && o in TrieOf(symbols)
  {
    TrieNodes(symbols);
    assert symbols[i] in symbols;
  }

  lemma {:induction false} TwoChildren(t: Trie, a: Oid, c: Oid, d: Oid)
    requires WellFormed(t) && a in t && c in t && d in t && c != d && c != [] && d != []
    requires Parent(c) == a && Parent(d) == a
    ensures t[a].childCount != 1
  {
    if |ChildrenIn(t.Keys, a)| == 1 {
      OneMember(ChildrenIn(t.Keys, a), c, d);
    }
  }

  lemma {:induction false} CombRows(n: nat, k: nat) returns (tooth: nat)
    requires 1 <= k <= n
    ensures |CombTable(n)| == n + 1 && CombTable(n)[n].oid == Ones(n + 1)
    ensures tooth < n && CombTable(n)[tooth].oid == Ones(k) + [2]
  {
    tooth := k - 1;
  }

  lemma {:induction false} ToothBranches(t: Trie, k: nat, n: nat, focus: Oid, below: Oid)
    requires WellFormed(t) && 1 <= k <= n && focus == Ones(n + 1) && below == Ones(k + 1)
    requires Ones(k) in t && Ones(k) + [2] in t && below in t
    ensures Ones(k) in BranchingAbove(t, focus)
  {
    var a, side := Ones(k), Ones(k) + [2];
    assert Parent(side) == a && Parent(below) == a;
    assert side[k] == 2 && below[k] == 1;
    TwoChildren(t, a, side, below);
  }

  lemma {:induction false} CombBranches(n: nat, k: nat)
    requires 1 <= k <= n
    ensures WellFormed(TrieOf(CombTable(n))) && Ones(n + 1) in TrieOf(CombTable(n))
    ensures Ones(k) in BranchingAbove(TrieOf(CombTable(n)), Ones(n + 1))
  {
    var table, focus, below := CombTable(n), Ones(n + 1), Ones(k + 1);
    var tooth := CombRows(n, k);
    CombInTrie(table, tooth, n, k, focus, below);
    ToothBranches(TrieOf(table), k, n, focus, below);
  }

  lemma {:induction false} CombInTrie(table: seq<Symbol>, tooth: nat, last: nat, k: nat, focus: Oid, below: Oid)
    requires tooth < |table| && last < |table| && k >= 1
    requires table[tooth].oid == Ones(k) + [2] && table[last].oid == focus
    requires focus == Ones(|focus|) && below == Ones(|below|) && k < |below| <= |focus|
    ensures WellFormed(TrieOf(table)) && focus in TrieOf(table) && below in TrieOf(table)
    ensures Ones(k) in TrieOf(table) && Ones(k) + [2] in TrieOf(table)
  {
    var side := Ones(k) + [2];
    assert side[k] == 2 && focus[1] == 1;
    InTrie(table, tooth, side);
    InTrie(table, tooth, Ones(k));
    InTrie(table, last, focus);
    InTrie(table, last, below);
  }

  /** Every comb of at least 64 teeth has a focus in the trie that the backstop cuts off. */
  lemma DeepSpineIsCut(n: nat, limit: nat)
    requires limit >= 1 && n >= 64
    ensures WellFormed(TrieOf(CombTable(n))) && Ones(n + 1) in TrieOf(CombTable(n))
    ensures !SpineShows(TrieOf(CombTable(n)), AllNodes, Ones(n + 1), limit)
  {
    var t, focus := TrieOf(CombTable(n)), Ones(n + 1);
    CombBranches(n, 1);
    forall o | o in OnesUpTo(n) ensures o in BranchingAbove(t, focus) {
      var k :| 1 <= k <= n && o == Ones(k);
      CombBranches(n, k);
    }
    CountOnes(n);
    SubsetSize(OnesUpTo(n), BranchingAbove(t, focus));
    SpineShowsByDefaultIff(t, focus, limit);
  }
}
