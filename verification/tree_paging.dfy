/** The keyset page reads of the tree API: rows, grouping, and the cursor walks of a client. */
module TreePaging {
  import opened Ordering
  import opened OidTrie
  import opened PathFolding

  const DEFAULT_LIMIT: nat := 200

  function EffectiveLimit(limit: int): nat {
    if limit <= 0 then DEFAULT_LIMIT else limit
  }

  function Take<T>(q: seq<T>, n: nat): seq<T> {
    if n < |q| then q[..n] else q
  }

  function TakeLast<T>(q: seq<T>, n: nat): seq<T> {
    if n < |q| then q[|q| - n..] else q
  }

  function SegsAfter(s: set<nat>, bound: int): set<nat> {
    set x | x in s && x > bound
  }

  function SegsBefore(s: set<nat>, bound: int): set<nat> {
    set x | x in s && x < bound
  }

  function Sorted(s: set<nat>): (q: seq<nat>)
    ensures |q| == |s|
  {
    NatLeTotal();
    Listing(s, NatLe)
  }

  ghost predicate Increasing(q: seq<nat>) {
    forall i, j :: 0 <= i < j < |q| ==> q[i] < q[j]
  }

  lemma SortedIs(s: set<nat>)
    ensures Elements(Sorted(s)) == s && Increasing(Sorted(s))
  {
    NatLeTotal();
  }

  /** `seg > bound ORDER BY seg LIMIT limit`. */
  function ForwardSegs(s: set<nat>, bound: int, limit: nat): seq<nat> {
    Take(Sorted(SegsAfter(s, bound)), limit)
  }

  /** `seg < bound ORDER BY seg DESC LIMIT limit`, put back into ascending order. */
  function BackwardSegs(s: set<nat>, bound: int, limit: nat): seq<nat> {
    TakeLast(Sorted(SegsBefore(s, bound)), limit)
  }

  function SegOf(t: Trie, o: Oid): FoldSeg
    requires o in t
  {
    FoldSeg(o, t[o].name, t[o].hasSymbol)
  }

  ghost predicate AllIn(t: Trie, q: seq<Oid>) {
    forall i :: 0 <= i < |q| ==> q[i] in t
  }

  function SegsOf(t: Trie, q: seq<Oid>): (segs: seq<FoldSeg>)
    requires AllIn(t, q)
    ensures |segs| == |q| && forall i :: 0 <= i < |q| ==> segs[i] == SegOf(t, q[i])
  {
    seq(|q|, i requires 0 <= i < |q| => SegOf(t, q[i]))
  }

  /** The path-compressed row of direct child `c`: its whole run, described by the anchor. */
  function RowFor(t: Trie, m: Mode, c: Oid): (r: FoldedRow)
    requires WellFormed(t) && c in t && c != []
    ensures r.seg == Last(c) && r.chain != [] && r.DirectOid() == c && r.Anchor().oid == AnchorOf(t, m, c)
  {
    var a := AnchorOf(t, m, c);
    FoldedRow(Last(c), SegsOf(t, Run(t, m, c)), t[a].moduleName, t[a].kind, t[a].childCount, Expandable(t, m, a))
  }

  ghost predicate LevelSegsOf(t: Trie, m: Mode, p: Oid, segs: seq<nat>) {
    forall i :: 0 <= i < |segs| ==> Shown(t, m, p + [segs[i]])
  }

  function RowsFor(t: Trie, m: Mode, p: Oid, segs: seq<nat>): (rows: seq<FoldedRow>)
    requires WellFormed(t) && LevelSegsOf(t, m, p, segs)
    ensures |rows| == |segs| && forall i :: 0 <= i < |segs| ==> rows[i] == RowFor(t, m, p + [segs[i]])
  {
    seq(|segs|, i requires 0 <= i < |segs| => RowFor(t, m, p + [segs[i]]))
  }

  lemma {:induction false} SegsAreShown(t: Trie, m: Mode, p: Oid, segs: seq<nat>)
    requires Elements(segs) <= ShownSegs(t, m, p)
    ensures LevelSegsOf(t, m, p, segs)
  {
    forall i | 0 <= i < |segs| ensures Shown(t, m, p + [segs[i]]) {
      assert segs[i] in Elements(segs);
      ShownSegIff(t, m, p, segs[i]);
    }
  }

  function PageSegs(t: Trie, m: Mode, p: Oid, forward: bool, bound: int, limit: nat): (segs: seq<nat>)
    ensures LevelSegsOf(t, m, p, segs)
  {
    var s := ShownSegs(t, m, p);
    var segs := if forward then ForwardSegs(s, bound, limit) else BackwardSegs(s, bound, limit);
    assert Elements(segs) <= s by {
      forall x | x in segs ensures x in s {
        var within := if forward then SegsAfter(s, bound) else SegsBefore(s, bound);
        SortedIs(within);
        assert x in Elements(Sorted(within));
      }
    }
    SegsAreShown(t, m, p, segs);
    segs
  }

  /** One folded page: what a single lazy expansion of `p` returns. */
  function FoldedPage(t: Trie, m: Mode, p: Oid, forward: bool, bound: int, limit: nat): seq<FoldedRow>
    requires WellFormed(t)
  {
    RowsFor(t, m, p, PageSegs(t, m, p, forward, bound, limit))
  }

  // ---- The query's rows and their grouping ----

  function NodeRow(t: Trie, m: Mode, dseg: nat, o: Oid): SqlRow
    requires o in t
  {
    SqlRow(dseg, SegOf(t, o), t[o].moduleName, t[o].kind, t[o].childCount, Expandable(t, m, o))
  }

  function RunRows(t: Trie, m: Mode, c: Oid): (rows: seq<SqlRow>)
    requires WellFormed(t) && c in t && c != []
    ensures |rows| == |Run(t, m, c)|
    ensures forall i :: 0 <= i < |rows| ==> rows[i] == NodeRow(t, m, Last(c), Run(t, m, c)[i])
  {
    var run := Run(t, m, c);
    seq(|run|, i requires 0 <= i < |run| => NodeRow(t, m, Last(c), run[i]))
  }

  /** The recursive query's result, `ORDER BY dseg, depth`. */
  function QueryRows(t: Trie, m: Mode, p: Oid, segs: seq<nat>): seq<SqlRow>
    requires WellFormed(t) && LevelSegsOf(t, m, p, segs)
  {
    if segs == [] then []
    else
      var n := |segs| - 1;
      assert Shown(t, m, p + [segs[n]]);
      QueryRows(t, m, p, segs[..n]) + RunRows(t, m, p + [segs[n]])
  }

  function OpenRow(r: SqlRow): FoldedRow {
    FoldedRow(r.dseg, [r.seg], r.moduleName, r.kind, r.childCount, r.hasBranch)
  }

  function ExtendRow(f: FoldedRow, r: SqlRow): FoldedRow {
    FoldedRow(f.seg, f.chain + [r.seg], r.moduleName, r.kind, r.childCount, r.hasBranch)
  }

  function AddRow(out: seq<FoldedRow>, r: SqlRow): seq<FoldedRow> {
    if out == [] || r.dseg != out[|out| - 1].seg then out + [OpenRow(r)]
    else out[..|out| - 1] + [ExtendRow(out[|out| - 1], r)]
  }

  /** Adjacent rows of one direct child form one folded row, described by the deepest of them. */
  function Grouped(rows: seq<SqlRow>): (out: seq<FoldedRow>)
    ensures out != [] ==> rows != [] && out[|out| - 1].seg == rows[|rows| - 1].dseg
    ensures rows != [] ==> out != []
  {
    if rows == [] then [] else AddRow(Grouped(rows[..|rows| - 1]), rows[|rows| - 1])
  }

  method ScanFolded(rows: seq<SqlRow>) returns (out: seq<FoldedRow>)
    ensures out == Grouped(rows)
  {
    out := [];
    var have, curSeg := false, 0;
    for i := 0 to |rows|
      invariant out == Grouped(rows[..i])
      invariant have <==> i > 0
      invariant have ==> curSeg == rows[i - 1].dseg
    {
      assert rows[..i + 1][..i] == rows[..i];
      var r := rows[i];
      if !have || r.dseg != curSeg {
        out := out + [OpenRow(r)];
        curSeg, have := r.dseg, true;
      } else {
        out := out[..|out| - 1] + [ExtendRow(out[|out| - 1], r)];
      }
    }
    assert rows[..|rows|] == rows;
  }

  lemma {:induction false} GroupedSnoc(rows: seq<SqlRow>, r: SqlRow)
    ensures Grouped(rows + [r]) == AddRow(Grouped(rows), r)
  {
    assert (rows + [r])[..|rows|] == rows;
  }

  function SegColumn(rows: seq<SqlRow>): (segs: seq<FoldSeg>)
    ensures |segs| == |rows| && forall i :: 0 <= i < |rows| ==> segs[i] == rows[i].seg
  {
    seq(|rows|, i requires 0 <= i < |rows| => rows[i].seg)
  }

  /** The folded row of a group: all its segments, the attributes of the deepest. */
  function Collapsed(rows: seq<SqlRow>): FoldedRow
    requires rows != []
  {
    OpenRow(rows[|rows| - 1]).(chain := SegColumn(rows))
  }

  lemma {:induction false} CollapsedSnoc(rows: seq<SqlRow>, r: SqlRow)
    requires rows != [] && rows[|rows| - 1].dseg == r.dseg
    ensures Collapsed(rows + [r]) == ExtendRow(Collapsed(rows), r)
  {
    assert SegColumn(rows + [r]) == SegColumn(rows) + [r.seg];
  }

  lemma {:induction false} CollapsedOne(r: SqlRow)
    ensures Collapsed([r]) == OpenRow(r)
  {
    assert SegColumn([r]) == [r.seg];
  }

  lemma {:induction false} AddExtends(out: seq<FoldedRow>, f: FoldedRow, r: SqlRow)
    requires f.seg == r.dseg
    ensures AddRow(out + [f], r) == out + [ExtendRow(f, r)]
  {
    assert (out + [f])[..|out|] == out;
  }

  ghost predicate OneGroup(rows: seq<SqlRow>, d: nat) {
    rows != [] && forall i :: 0 <= i < |rows| ==> rows[i].dseg == d
  }

  lemma {:induction false} GroupOpens(before: seq<SqlRow>, r: SqlRow)
    requires before != [] ==> before[|before| - 1].dseg != r.dseg
    ensures Grouped(before + [r]) == Grouped(before) + [Collapsed([r])]
  {
    GroupedSnoc(before, r);
    CollapsedOne(r);
  }

  lemma {:induction false} GroupGrows(before: seq<SqlRow>, init: seq<SqlRow>, r: SqlRow)
    requires init != [] && init[|init| - 1].dseg == r.dseg
    requires Grouped(before + init) == Grouped(before) + [Collapsed(init)]
    ensures Grouped(before + (init + [r])) == Grouped(before) + [Collapsed(init + [r])]
  {
    assert before + (init + [r]) == (before + init) + [r];
    GroupedSnoc(before + init, r);
    CollapsedSnoc(init, r);
    AddExtends(Grouped(before), Collapsed(init), r);
  }

  /** A contiguous run of rows of one direct child becomes one folded row. */
  lemma {:induction false} GroupedGroup(before: seq<SqlRow>, rows: seq<SqlRow>, d: nat)
    requires OneGroup(rows, d)
    requires before != [] ==> before[|before| - 1].dseg != d
    ensures Grouped(before + rows) == Grouped(before) + [Collapsed(rows)]
    decreases |rows|
  {
    var init, r := rows[..|rows| - 1], rows[|rows| - 1];
    assert rows == init + [r];
    if init == [] {
      assert rows == [r];
      GroupOpens(before, r);
    } else {
      GroupedGroup(before, init, d);
      GroupGrows(before, init, r);
    }
  }

  lemma {:induction false} RowsCollapse(t: Trie, m: Mode, d: nat, run: seq<Oid>, rows: seq<SqlRow>)
    requires run != [] && AllIn(t, run) && |rows| == |run|
    requires forall i :: 0 <= i < |rows| ==> rows[i] == NodeRow(t, m, d, run[i])
    ensures var a := run[|run| - 1];
            Collapsed(rows)
              == FoldedRow(d, SegsOf(t, run), t[a].moduleName, t[a].kind, t[a].childCount, Expandable(t, m, a))
  {
    assert SegColumn(rows) == SegsOf(t, run);
  }

  lemma {:induction false} RunCollapses(t: Trie, m: Mode, c: Oid)
    requires WellFormed(t) && c in t && c != []
    ensures Collapsed(RunRows(t, m, c)) == RowFor(t, m, c)
  {
    var run, rows := Run(t, m, c), RunRows(t, m, c);
    assert AllIn(t, run);
    RowsCollapse(t, m, Last(c), run, rows);
    assert AnchorOf(t, m, c) == run[|run| - 1];
  }

  /** Scanning the query's rows yields exactly the rows of the page, one per direct child. */
  lemma {:induction false} GroupedQuery(t: Trie, m: Mode, p: Oid, segs: seq<nat>)
    requires WellFormed(t) && LevelSegsOf(t, m, p, segs)
    requires Increasing(segs)
    ensures Grouped(QueryRows(t, m, p, segs)) == RowsFor(t, m, p, segs)
    ensures segs != [] ==> QueryRows(t, m, p, segs) != []
                           && QueryRows(t, m, p, segs)[|QueryRows(t, m, p, segs)| - 1].dseg == segs[|segs| - 1]
  {
    if segs != [] {
      var n := |segs| - 1;
      GroupedQuery(t, m, p, segs[..n]);
      QuerySnoc(t, m, p, segs);
      LastRow(t, m, p, segs);
      var c := p + [segs[n]];
      GroupedGroup(QueryRows(t, m, p, segs[..n]), RunRows(t, m, c), segs[n]);
      RunCollapses(t, m, c);
    }
  }

  lemma {:induction false} QuerySnoc(t: Trie, m: Mode, p: Oid, segs: seq<nat>)
    requires WellFormed(t) && segs != [] && LevelSegsOf(t, m, p, segs)
    ensures LevelSegsOf(t, m, p, segs[..|segs| - 1]) && Shown(t, m, p + [segs[|segs| - 1]])
    ensures QueryRows(t, m, p, segs)
         == QueryRows(t, m, p, segs[..|segs| - 1]) + RunRows(t, m, p + [segs[|segs| - 1]])
    ensures OneGroup(RunRows(t, m, p + [segs[|segs| - 1]]), segs[|segs| - 1])
  {
    assert Shown(t, m, p + [segs[|segs| - 1]]);
  }

  lemma {:induction false} LastRow(t: Trie, m: Mode, p: Oid, segs: seq<nat>)
    requires WellFormed(t) && segs != [] && LevelSegsOf(t, m, p, segs)
    ensures LevelSegsOf(t, m, p, segs[..|segs| - 1]) && Shown(t, m, p + [segs[|segs| - 1]])
    ensures RowsFor(t, m, p, segs)
         == RowsFor(t, m, p, segs[..|segs| - 1]) + [RowFor(t, m, p + [segs[|segs| - 1]])]
  {
    var n := |segs| - 1;
    var c := p + [segs[n]];
    assert Shown(t, m, p + [segs[n]]);
    var rows, init := RowsFor(t, m, p, segs), RowsFor(t, m, p, segs[..n]);
    forall i | 0 <= i < n ensures rows[i] == init[i] {
      assert segs[..n][i] == segs[i];
    }
    Snoc(rows, init, RowFor(t, m, c));
  }

  lemma {:induction false} Snoc<T>(q: seq<T>, init: seq<T>, x: T)
    requires |q| == |init| + 1 && q[|init|] == x && forall i :: 0 <= i < |init| ==> q[i] == init[i]
    ensures q == init + [x]
  {}

  lemma {:induction false} PageSegsIncrease(t: Trie, m: Mode, p: Oid, forward: bool, bound: int, limit: nat)
    ensures Increasing(PageSegs(t, m, p, forward, bound, limit))
  {
    var s := ShownSegs(t, m, p);
    var within := if forward then SegsAfter(s, bound) else SegsBefore(s, bound);
    SortedIs(within);
    TakesIncrease(Sorted(within), limit);
  }

  lemma {:induction false} TakesIncrease(q: seq<nat>, n: nat)
    requires Increasing(q)
    ensures Increasing(Take(q, n)) && Increasing(TakeLast(q, n))
  {}

  // ---- What a page is, in terms of the nodes ----

  predicate Beyond(forward: bool, bound: int, seg: nat) {
    if forward then seg > bound else seg < bound
  }

  /** The segment is on the far side of all of `segs`, seen in the direction of the page. */
  ghost predicate BeyondAll(forward: bool, segs: seq<nat>, seg: nat) {
    forall i :: 0 <= i < |segs| ==> if forward then segs[i] < seg else seg < segs[i]
  }

  /** `segs` are, in ascending order, the `limit` nearest listed children beyond the bound, or all of them. */
  ghost predicate NearestListed(t: Trie, m: Mode, p: Oid, forward: bool, bound: int, limit: nat, segs: seq<nat>) {
    && |segs| <= limit && Increasing(segs)
    && (forall i :: 0 <= i < |segs| ==> Listed(t, m, p + [segs[i]]) && Beyond(forward, bound, segs[i]))
    && forall seg: nat :: Listed(t, m, p + [seg]) && Beyond(forward, bound, seg) && seg !in segs ==>
         |segs| == limit && BeyondAll(forward, segs, seg)
  }

  /** The segment of a chain shows its node. */
  predicate ShowsNode(t: Trie, seg: FoldSeg) {
    seg.oid in t && seg.name == t[seg.oid].name && seg.hasSymbol == t[seg.oid].hasSymbol
  }

  /**
   * The row of direct child `c`: its chain begins there and goes on as long as exactly one child counts and is listed,
   * all else is that of its last node, and it can be expanded exactly when that node has a listed child.
   */
  ghost predicate IsRowOf(t: Trie, m: Mode, c: Oid, r: FoldedRow) {
    && r.chain != [] && r.chain[0].oid == c && c != [] && r.seg == c[|c| - 1]
    && (forall i :: 0 <= i < |r.chain| ==> ShowsNode(t, r.chain[i]))
    && (forall i :: 0 <= i < |r.chain| - 1 ==> GoesOn(t, m, r.chain[i].oid, r.chain[i + 1].oid))
    && var a := r.chain[|r.chain| - 1].oid;
       && a in t && (forall d :: !GoesOn(t, m, a, d))
       && r.moduleName == t[a].moduleName && r.kind == t[a].kind && r.childCount == t[a].childCount
       && (r.expandable <==> exists k: nat :: Listed(t, m, a + [k]))
  }

  function SegsOfRows(rows: seq<FoldedRow>): (segs: seq<nat>)
    ensures |segs| == |rows| && forall i :: 0 <= i < |rows| ==> segs[i] == rows[i].seg
  {
    seq(|rows|, i requires 0 <= i < |rows| => rows[i].seg)
  }

  ghost predicate IsPage(t: Trie, m: Mode, p: Oid, forward: bool, bound: int, limit: nat, rows: seq<FoldedRow>) {
    && NearestListed(t, m, p, forward, bound, limit, SegsOfRows(rows))
    && forall i :: 0 <= i < |rows| ==> IsRowOf(t, m, p + [rows[i].seg], rows[i])
  }

  lemma {:induction false} RowForIs(t: Trie, m: Mode, c: Oid)
    requires WellFormed(t) && c in t && c != []
    ensures IsRowOf(t, m, c, RowFor(t, m, c))
  {
    var r, run := RowFor(t, m, c), Run(t, m, c);
    RunGoesOn(t, m, c);
    ExpandableIff(t, m, AnchorOf(t, m, c));
    assert |r.chain| == |run| && forall i :: 0 <= i < |run| ==> r.chain[i] == SegOf(t, run[i]);
    assert r.chain[|r.chain| - 1].oid == AnchorOf(t, m, c);
  }

  lemma {:induction false} TakenAreNearest(s: set<nat>, forward: bool, bound: int, limit: nat, seg: nat)
    requires seg in s && Beyond(forward, bound, seg)
    ensures var segs := if forward then ForwardSegs(s, bound, limit) else BackwardSegs(s, bound, limit);
            |segs| <= limit && (seg !in segs ==> |segs| == limit && BeyondAll(forward, segs, seg))
  {
    var within := if forward then SegsAfter(s, bound) else SegsBefore(s, bound);
    SortedIs(within);
    var i := SortedFinds(within, seg);
    var q := Sorted(within);
    if forward {
      assert i < limit ==> Take(q, limit)[i] == seg;
    } else {
      assert limit < |q| && i >= |q| - limit ==> TakeLast(q, limit)[i - (|q| - limit)] == seg;
    }
  }

  lemma {:induction false} TakenAreWithin(s: set<nat>, forward: bool, bound: int, limit: nat)
    ensures var segs := if forward then ForwardSegs(s, bound, limit) else BackwardSegs(s, bound, limit);
            |segs| <= limit && Increasing(segs)
            && forall i :: 0 <= i < |segs| ==> segs[i] in s && Beyond(forward, bound, segs[i])
  {
    var within := if forward then SegsAfter(s, bound) else SegsBefore(s, bound);
    SortedIs(within);
    TakesIncrease(Sorted(within), limit);
    forall i: nat | i < |Sorted(within)| ensures Sorted(within)[i] in within {
      SortedHolds(within, i);
    }
  }

  lemma {:induction false} PageIsNearest(t: Trie, m: Mode, p: Oid, forward: bool, bound: int, limit: nat)
    requires WellFormed(t)
    ensures NearestListed(t, m, p, forward, bound, limit, PageSegs(t, m, p, forward, bound, limit))
  {
    var s, segs := ShownSegs(t, m, p), PageSegs(t, m, p, forward, bound, limit);
    TakenAreWithin(s, forward, bound, limit);
    forall seg: nat ensures seg in s <==> Listed(t, m, p + [seg]) {
      ShownSegIff(t, m, p, seg);
      ShownIsListed(t, m, p + [seg]);
    }
    forall seg: nat | Listed(t, m, p + [seg]) && Beyond(forward, bound, seg) && seg !in segs
      ensures |segs| == limit && BeyondAll(forward, segs, seg)
    {
      TakenAreNearest(s, forward, bound, limit, seg);
    }
  }

  /** Every page read is that page. */
  lemma {:induction false} FoldedPageIs(t: Trie, m: Mode, p: Oid, forward: bool, bound: int, limit: nat)
    requires WellFormed(t)
    ensures IsPage(t, m, p, forward, bound, limit, FoldedPage(t, m, p, forward, bound, limit))
  {
    var rows, segs := FoldedPage(t, m, p, forward, bound, limit), PageSegs(t, m, p, forward, bound, limit);
    PageIsNearest(t, m, p, forward, bound, limit);
    RowsCarryCursors(t, m, p, forward, bound, limit);
    assert SegsOfRows(rows) == segs;
    forall i | 0 <= i < |rows| ensures IsRowOf(t, m, p + [rows[i].seg], rows[i]) {
      assert Shown(t, m, p + [segs[i]]);
      RowForIs(t, m, p + [segs[i]]);
    }
  }

  /** ListNodeChildrenFolded (forward) and ListNodeChildrenFoldedBefore (backward). */
  method FoldChildren(t: Trie, m: Mode, parent: Oid, forward: bool, bound: int, limit: int)
    returns (out: seq<FoldedRow>)
    requires WellFormed(t)
    ensures out == FoldedPage(t, m, parent, forward, bound, EffectiveLimit(limit))
    ensures IsPage(t, m, parent, forward, bound, if limit <= 0 then 200 else limit, out)
  {
    FoldedPageIs(t, m, parent, forward, bound, EffectiveLimit(limit));
    var segs := PageSegs(t, m, parent, forward, bound, EffectiveLimit(limit));
    PageSegsIncrease(t, m, parent, forward, bound, EffectiveLimit(limit));
    GroupedQuery(t, m, parent, segs);
    out := ScanFolded(QueryRows(t, m, parent, segs));
  }

  // ---- Cursor walks ----

  lemma {:induction false} SortedFrom(q: seq<nat>, s: set<nat>)
    requires Elements(q) == s && Increasing(q)
    ensures q == Sorted(s)
  {
    SortedIs(s);
    NatLeTotal();
    AscendingUnique(NatLe, q, Sorted(s));
  }

  lemma {:induction false} SortedHolds(s: set<nat>, i: nat)
    requires i < |Sorted(s)|
    ensures Sorted(s)[i] in s
  {
    SortedIs(s);
    assert Sorted(s)[i] in Elements(Sorted(s));
  }

  lemma {:induction false} SortedFinds(s: set<nat>, x: nat) returns (i: nat)
    requires x in s
    ensures i < |Sorted(s)| && Sorted(s)[i] == x
  {
    SortedIs(s);
    assert x in Elements(Sorted(s));
    i :| 0 <= i < |Sorted(s)| && Sorted(s)[i] == x;
  }

  lemma {:induction false} SortedSuffix(s: set<nat>, k: nat)
    requires 1 <= k <= |Sorted(s)|
    ensures Sorted(s)[k..] == Sorted(SegsAfter(s, Sorted(s)[k - 1]))
  {
    SortedIs(s);
    var q := Sorted(s);
    forall x ensures x in Elements(q[k..]) <==> x in SegsAfter(s, q[k - 1]) {
      if x in SegsAfter(s, q[k - 1]) {
        var i := SortedFinds(s, x);
        assert q[k..][i - k] == x;
      }
      if x in q[k..] {
        var i :| 0 <= i < |q[k..]| && q[k..][i] == x;
        SortedHolds(s, k + i);
      }
    }
    SortedFrom(q[k..], SegsAfter(s, q[k - 1]));
  }

  lemma {:induction false} SortedPrefix(s: set<nat>, k: nat)
    requires k < |Sorted(s)|
    ensures Sorted(s)[..k] == Sorted(SegsBefore(s, Sorted(s)[k]))
  {
    SortedIs(s);
    var q := Sorted(s);
    forall x ensures x in Elements(q[..k]) <==> x in SegsBefore(s, q[k]) {
      if x in SegsBefore(s, q[k]) {
        var i := SortedFinds(s, x);
        assert q[..k][i] == x;
      }
      if x in q[..k] {
        var i :| 0 <= i < |q[..k]| && q[..k][i] == x;
        SortedHolds(s, i);
      }
    }
    SortedFrom(q[..k], SegsBefore(s, q[k]));
  }

  lemma {:induction false} SortedSplit(s: set<nat>, b: int)
    ensures Sorted(s) == Sorted(SegsBefore(s, b)) + Sorted(SegsAfter(s, b - 1))
  {
    var lo, hi := SegsBefore(s, b), SegsAfter(s, b - 1);
    SortedIs(lo);
    SortedIs(hi);
    SortedJoin(s, Sorted(lo), Sorted(hi), b);
  }

  lemma {:induction false} SortedJoin(s: set<nat>, lo: seq<nat>, hi: seq<nat>, b: int)
    requires Increasing(lo) && Elements(lo) == SegsBefore(s, b)
    requires Increasing(hi) && Elements(hi) == SegsAfter(s, b - 1)
    ensures Sorted(s) == lo + hi
  {
    forall i | 0 <= i < |lo| ensures lo[i] in SegsBefore(s, b) { assert lo[i] in Elements(lo); }
    forall i | 0 <= i < |hi| ensures hi[i] in SegsAfter(s, b - 1) { assert hi[i] in Elements(hi); }
    forall x ensures x in Elements(lo + hi) <==> x in s {
      assert x in lo + hi <==> x in Elements(lo) || x in Elements(hi);
      assert x in Elements(lo) <==> x in SegsBefore(s, b);
      assert x in Elements(hi) <==> x in SegsAfter(s, b - 1);
    }
    SortedFrom(lo + hi, s);
  }

  ghost predicate ForwardSplit(s: set<nat>, after: int, limit: nat, page: seq<nat>) {
    && page == ForwardSegs(s, after, limit) && |page| == limit && limit >= 1
    && Sorted(SegsAfter(s, after)) == page + Sorted(SegsAfter(s, page[limit - 1]))
    && |SegsAfter(s, page[limit - 1])| < |SegsAfter(s, after)|
  }

  lemma {:induction false} AfterTwice(s: set<nat>, a: int, b: int)
    requires a <= b
    ensures SegsAfter(SegsAfter(s, a), b) == SegsAfter(s, b)
    ensures SegsBefore(SegsBefore(s, b), a) == SegsBefore(s, a)
  {}

  lemma {:induction false} TakeCut(q: seq<nat>, rest: seq<nat>, n: nat)
    requires 1 <= n <= |q| && rest == q[n..]
    ensures var page := Take(q, n); |page| == n && page[n - 1] == q[n - 1] && q == page + rest && |rest| < |q|
  {}

  lemma {:induction false} TakeLastCut(q: seq<nat>, rest: seq<nat>, n: nat)
    requires 1 <= n <= |q| && rest == q[..|q| - n]
    ensures var page := TakeLast(q, n); |page| == n && page[0] == q[|q| - n] && q == rest + page && |rest| < |q|
  {}

  lemma {:induction false} ForwardStep(s: set<nat>, after: int, limit: nat)
    requires 1 <= limit <= |ForwardSegs(s, after, limit)|
    ensures ForwardSplit(s, after, limit, ForwardSegs(s, after, limit))
  {
    var within := SegsAfter(s, after);
    var last := Sorted(within)[limit - 1];
    SortedSuffix(within, limit);
    SortedHolds(within, limit - 1);
    AfterTwice(s, after, last);
    TakeCut(Sorted(within), Sorted(SegsAfter(s, last)), limit);
  }

  ghost predicate BackwardSplit(s: set<nat>, before: int, limit: nat, page: seq<nat>) {
    && page == BackwardSegs(s, before, limit) && |page| == limit && limit >= 1
    && Sorted(SegsBefore(s, before)) == Sorted(SegsBefore(s, page[0])) + page
    && |SegsBefore(s, page[0])| < |SegsBefore(s, before)|
  }

  lemma {:induction false} BackwardStep(s: set<nat>, before: int, limit: nat)
    requires 1 <= limit <= |BackwardSegs(s, before, limit)|
    ensures BackwardSplit(s, before, limit, BackwardSegs(s, before, limit))
  {
    var within := SegsBefore(s, before);
    var k := |Sorted(within)| - limit;
    var first := Sorted(within)[k];
    SortedPrefix(within, k);
    SortedHolds(within, k);
    AfterTwice(s, first, before);
    TakeLastCut(Sorted(within), Sorted(SegsBefore(s, first)), limit);
  }

  /** The segments a client collects by following the next-page cursor while pages come back full. */
  ghost function WalkForward(s: set<nat>, after: int, limit: nat): seq<nat>
    requires limit >= 1
    decreases |SegsAfter(s, after)|
  {
    var page := ForwardSegs(s, after, limit);
    if |page| < limit then page
    else
      ForwardStep(s, after, limit);
      page + WalkForward(s, page[limit - 1], limit)
  }

  /** The same with the previous-page cursor, each page put in front. */
  ghost function WalkBackward(s: set<nat>, before: int, limit: nat): seq<nat>
    requires limit >= 1
    decreases |SegsBefore(s, before)|
  {
    var page := BackwardSegs(s, before, limit);
    if |page| < limit then page
    else
      BackwardStep(s, before, limit);
      WalkBackward(s, page[0], limit) + page
  }

  lemma {:induction false} ForwardWalk(s: set<nat>, after: int, limit: nat)
    requires limit >= 1
    ensures WalkForward(s, after, limit) == Sorted(SegsAfter(s, after))
    decreases |SegsAfter(s, after)|
  {
    if |ForwardSegs(s, after, limit)| >= limit {
      ForwardStep(s, after, limit);
      ForwardWalk(s, ForwardSegs(s, after, limit)[limit - 1], limit);
    }
  }

  lemma {:induction false} BackwardWalk(s: set<nat>, before: int, limit: nat)
    requires limit >= 1
    ensures WalkBackward(s, before, limit) == Sorted(SegsBefore(s, before))
    decreases |SegsBefore(s, before)|
  {
    if |BackwardSegs(s, before, limit)| >= limit {
      BackwardStep(s, before, limit);
      BackwardWalk(s, BackwardSegs(s, before, limit)[0], limit);
    }
  }

  lemma {:induction false} WindowSplits(s: set<nat>, anchor: int, limit: nat)
    requires limit >= 1 && ForwardSegs(s, anchor - 1, limit) != []
    ensures Sorted(SegsBefore(s, ForwardSegs(s, anchor - 1, limit)[0])) + Sorted(SegsAfter(s, anchor - 1)) == Sorted(s)
  {
    var hi := SegsAfter(s, anchor - 1);
    var first := Sorted(hi)[0];
    assert ForwardSegs(s, anchor - 1, limit)[0] == first;
    SortedHolds(hi, 0);
    forall x | x in s && x < first ensures x < anchor {
      if x >= anchor { var i := SortedFinds(hi, x); }
    }
    assert SegsBefore(s, first) == SegsBefore(s, anchor);
    SortedSplit(s, anchor);
  }

  /** Every page row carries its cursor: the last segment of its direct child, at its place in the page. */
  lemma {:induction false} RowsCarryCursors(t: Trie, m: Mode, p: Oid, forward: bool, bound: int, limit: nat)
    requires WellFormed(t)
    ensures var rows, segs := FoldedPage(t, m, p, forward, bound, limit), PageSegs(t, m, p, forward, bound, limit);
            |rows| == |segs|
            && forall i :: 0 <= i < |rows| ==>
                 rows[i].chain != [] && rows[i].DirectOid() == p + [segs[i]] && rows[i].seg == segs[i]
  {
    var segs := PageSegs(t, m, p, forward, bound, limit);
    assert forall i :: 0 <= i < |segs| ==> Shown(t, m, p + [segs[i]]);
  }

  /** Paging from the start visits every listed child exactly once, in ascending order, for any page size. */
  lemma {:induction false} PagesRebuildLevel(t: Trie, m: Mode, p: Oid, limit: nat)
    requires limit >= 1
    ensures WalkForward(ShownSegs(t, m, p), -1, limit) == Level(t, m, p)
  {
    var s := ShownSegs(t, m, p);
    ForwardWalk(s, -1, limit);
    assert SegsAfter(s, -1) == s;
  }

  /** From a page opened anywhere in a level, the earlier pages and the later pages rebuild the level. */
  lemma {:induction false} AnchoredPagesRebuildLevel(t: Trie, m: Mode, p: Oid, anchor: int, limit: nat)
    requires limit >= 1 && PageSegs(t, m, p, true, anchor - 1, limit) != []
    ensures var s := ShownSegs(t, m, p);
            WalkBackward(s, PageSegs(t, m, p, true, anchor - 1, limit)[0], limit) + WalkForward(s, anchor - 1, limit)
              == Level(t, m, p)
  {
    var s := ShownSegs(t, m, p);
    BackwardWalk(s, ForwardSegs(s, anchor - 1, limit)[0], limit);
    ForwardWalk(s, anchor - 1, limit);
    WindowSplits(s, anchor, limit);
  }
}
