/** Path compression and keyset paging over one snapshot of the trie (internal/store/oidtree.go). */
module PathFolding {
  import opened Ordering
  import opened OidTrie
  import opened Model

  /** The three read modes: every node, containers only, containers whose subtree holds a family. */
  datatype Mode = AllNodes | Branches | BranchesOf(family: Family)

  datatype FoldSeg = FoldSeg(oid: Oid, name: string, hasSymbol: bool)

  /** One tree row: the run from a direct child of the parent down to its anchor. */
  datatype FoldedRow = FoldedRow(seg: nat, chain: seq<FoldSeg>, moduleName: string, kind: Kind, childCount: nat,
                                 expandable: bool)
  {
    function DirectOid(): Oid
      requires chain != []
    {
      chain[0].oid
    }

    function Anchor(): FoldSeg
      requires chain != []
    {
      chain[|chain| - 1]
    }
  }

  /** One row of the recursive query, before grouping. */
  datatype SqlRow = SqlRow(dseg: nat, seg: FoldSeg, moduleName: string, kind: Kind, childCount: nat, hasBranch: bool)

  /** The page filter: which direct children a level lists. */
  predicate Shown(t: Trie, m: Mode, o: Oid) {
    o in t &&
    match m
    case AllNodes => true
    case Branches => t[o].childCount > 0
    case BranchesOf(f) => t[o].childCount > 0 && f in t[o].families
  }

  /** The recursive join: `a` absorbs its child `c` into the run. */
  predicate FoldsInto(t: Trie, m: Mode, a: Oid, c: Oid)
    requires a in t
  {
    c in ChildrenIn(t.Keys, a) &&
    match m
    case AllNodes => t[a].childCount == 1
    case Branches => t[a].childCount == 1 && t[c].childCount > 0
    case BranchesOf(f) =>
      |Flagged(t, a, f)| == 1 && t[c].childCount > 0 && f in t[c].families
  }

  function Flagged(t: Trie, a: Oid, f: Family): set<Oid> {
    set g | g in ChildrenIn(t.Keys, a) && f in t[g].families
  }

  /** The has_branch column: whether the tree offers to expand `a`. */
  predicate Expandable(t: Trie, m: Mode, a: Oid)
    requires a in t
  {
    if m.AllNodes? then t[a].childCount > 0 else exists g :: g in ChildrenIn(t.Keys, a) && Shown(t, m, g)
  }

  // ---- The three modes, read off the nodes ----

  /** Some node lies directly below `o`. */
  ghost predicate IsContainer(t: Trie, o: Oid) {
    exists k: nat :: o + [k] in t
  }

  /** What each mode lists: every node, containers, or containers that carry the family. */
  ghost predicate Listed(t: Trie, m: Mode, o: Oid) {
    o in t && (m != AllNodes ==> IsContainer(t, o)) && (m.BranchesOf? ==> m.family in t[o].families)
  }

  /** Children that count when a run is to go on: in family mode only those that carry the family. */
  ghost predicate Counts(t: Trie, m: Mode, o: Oid) {
    o in t && (m.BranchesOf? ==> m.family in t[o].families)
  }

  /** `c` is the only child of `a` that counts, and the mode lists it: a row through `a` goes on to `c`. */
  ghost predicate GoesOn(t: Trie, m: Mode, a: Oid, c: Oid) {
    a < c && |c| == |a| + 1 && Listed(t, m, c) && forall k: nat :: Counts(t, m, a + [k]) ==> a + [k] == c
  }

  lemma {:induction false} ChildIs(t: Trie, a: Oid, c: Oid)
    ensures c in ChildrenIn(t.Keys, a) <==> c in t && a < c && |c| == |a| + 1
    ensures c in ChildrenIn(t.Keys, a) ==> c == a + [Last(c)]
  {
    if a < c && |c| == |a| + 1 {
      assert c == a + [c[|a|]] && c[..|c| - 1] == a;
    }
    if c in ChildrenIn(t.Keys, a) {
      assert c == a + [Last(c)];
    }
  }

  lemma {:induction false} ContainerIff(t: Trie, o: Oid)
    requires WellFormed(t) && o in t
    ensures t[o].childCount > 0 <==> IsContainer(t, o)
  {
    if t[o].childCount > 0 {
      assert ChildrenIn(t.Keys, o) != {};
      var c :| c in ChildrenIn(t.Keys, o);
      ChildIs(t, o, c);
      assert o + [Last(c)] in t;
    }
    if k: nat :| o + [k] in t {
      ChildIs(t, o, o + [k]);
      assert |ChildrenIn(t.Keys, o)| > 0;
    }
  }

  lemma {:induction false} ShownIsListed(t: Trie, m: Mode, o: Oid)
    requires WellFormed(t)
    ensures Shown(t, m, o) <==> Listed(t, m, o)
  {
    if o in t {
      ContainerIff(t, o);
    }
  }

  lemma {:induction false} OnlyOneIff(s: set<Oid>, c: Oid)
    requires c in s
    ensures |s| == 1 <==> forall d :: d in s ==> d == c
  {
    if forall d :: d in s ==> d == c {
      assert s == {c};
    } else {
      var d :| d in s && d != c;
      SubsetSize({c, d}, s);
    }
  }

  /** The recursive join in these terms. */
  lemma {:induction false} FoldsIntoIs(t: Trie, m: Mode, a: Oid, c: Oid)
    requires WellFormed(t) && a in t
    ensures FoldsInto(t, m, a, c) <==> GoesOn(t, m, a, c)
  {
    ChildIs(t, a, c);
    if c in ChildrenIn(t.Keys, a) {
      ShownIsListed(t, m, c);
      CountingChildren(t, m, a);
      if Counts(t, m, c) {
        assert c in CountingIn(t, m, a);
        OnlyOneIff(CountingIn(t, m, a), c);
      }
      forall k: nat ensures Counts(t, m, a + [k]) <==> a + [k] in CountingIn(t, m, a) {
        ChildIs(t, a, a + [k]);
      }
      forall d | d in CountingIn(t, m, a) ensures d == a + [Last(d)] {
        ChildIs(t, a, d);
      }
    }
  }

  ghost function CountingIn(t: Trie, m: Mode, a: Oid): set<Oid> {
    set c | c in ChildrenIn(t.Keys, a) && Counts(t, m, c)
  }

  lemma {:induction false} CountingChildren(t: Trie, m: Mode, a: Oid)
    requires WellFormed(t) && a in t
    ensures CountingIn(t, m, a) == if m.BranchesOf? then Flagged(t, a, m.family) else ChildrenIn(t.Keys, a)
    ensures t[a].childCount == |ChildrenIn(t.Keys, a)|
  {}

  ghost function Height(oids: set<Oid>): (h: nat)
    ensures forall o :: o in oids ==> |o| <= h
    decreases oids
  {
    if oids == {} then 0
    else
      var o :| o in oids;
      var h := Height(oids - {o});
      if |o| > h then |o| else h
  }

  lemma OneMember<T>(s: set<T>, x: T, y: T)
    requires |s| == 1 && x in s && y in s
    ensures x == y
  {
    assert |s - {x}| == 0;
  }

  /** A run never branches: at most one child satisfies the recursive join. */
  lemma FoldIsLinear(t: Trie, m: Mode, a: Oid, c: Oid, d: Oid)
    requires WellFormed(t) && a in t && FoldsInto(t, m, a, c) && FoldsInto(t, m, a, d)
    ensures c == d
  {
    if m.BranchesOf? {
      OneMember(Flagged(t, a, m.family), c, d);
    } else {
      OneMember(ChildrenIn(t.Keys, a), c, d);
    }
  }

  function Absorbed(t: Trie, m: Mode, a: Oid): set<Oid>
    requires a in t
  {
    set c | c in ChildrenIn(t.Keys, a) && FoldsInto(t, m, a, c)
  }

  lemma AbsorbsOne(t: Trie, m: Mode, a: Oid)
    requires WellFormed(t) && a in t
    ensures forall c, d :: c in Absorbed(t, m, a) && d in Absorbed(t, m, a) ==> c == d
  {
    forall c, d | c in Absorbed(t, m, a) && d in Absorbed(t, m, a) ensures c == d {
      FoldIsLinear(t, m, a, c, d);
    }
  }

  /** The OIDs of the row that starts at direct child `o`. */
  function Run(t: Trie, m: Mode, o: Oid): (run: seq<Oid>)
    requires WellFormed(t) && o in t
    ensures run != [] && run[0] == o
    ensures forall i :: 0 <= i < |run| ==> run[i] in t && |run[i]| == |o| + i && o <= run[i]
    decreases Height(t.Keys) - |o|
  {
    if Absorbed(t, m, o) == {} then
      [o]
    else
      AbsorbsOne(t, m, o);
      var c :| c in Absorbed(t, m, o);
      [o] + Run(t, m, c)
  }

  /** A run follows the join step by step and stops only where nothing more is absorbed. */
  lemma {:induction false} RunSteps(t: Trie, m: Mode, o: Oid)
    requires WellFormed(t) && o in t
    ensures forall i :: 0 <= i < |Run(t, m, o)| - 1 ==> FoldsInto(t, m, Run(t, m, o)[i], Run(t, m, o)[i + 1])
    ensures Absorbed(t, m, AnchorOf(t, m, o)) == {}
    decreases Height(t.Keys) - |o|
  {
    if |Run(t, m, o)| > 1 {
      var c := RunTail(t, m, o);
      RunSteps(t, m, c);
    }
  }

  /** In terms of the nodes: each step goes on to the only child that counts, and from the anchor there is no such step. */
  lemma {:induction false} RunGoesOn(t: Trie, m: Mode, o: Oid)
    requires WellFormed(t) && o in t
    ensures forall i :: 0 <= i < |Run(t, m, o)| - 1 ==> GoesOn(t, m, Run(t, m, o)[i], Run(t, m, o)[i + 1])
    ensures forall c :: !GoesOn(t, m, AnchorOf(t, m, o), c)
  {
    var run, a := Run(t, m, o), AnchorOf(t, m, o);
    RunSteps(t, m, o);
    forall i | 0 <= i < |run| - 1 ensures GoesOn(t, m, run[i], run[i + 1]) {
      FoldsIntoIs(t, m, run[i], run[i + 1]);
    }
    forall c ensures !GoesOn(t, m, a, c) {
      FoldsIntoIs(t, m, a, c);
      assert c !in Absorbed(t, m, a);
      ChildIs(t, a, c);
    }
  }

  /** The chevron in terms of the nodes: some child of the anchor is listed. */
  lemma {:induction false} ExpandableIff(t: Trie, m: Mode, a: Oid)
    requires WellFormed(t) && a in t
    ensures Expandable(t, m, a) <==> exists k: nat :: Listed(t, m, a + [k])
  {
    ExpandableOpensRows(t, m, a);
    LevelSegs(t, m, a);
    forall k: nat ensures Listed(t, m, a + [k]) <==> Shown(t, m, a + [k]) {
      ShownIsListed(t, m, a + [k]);
    }
    if Level(t, m, a) != [] {
      assert Shown(t, m, a + [Level(t, m, a)[0]]);
    }
  }

  lemma RunTail(t: Trie, m: Mode, o: Oid) returns (c: Oid)
    requires WellFormed(t) && o in t && |Run(t, m, o)| > 1
    ensures c in t && FoldsInto(t, m, o, c)
    ensures Run(t, m, o) == [o] + Run(t, m, c) && AnchorOf(t, m, o) == AnchorOf(t, m, c)
  {
    assert Absorbed(t, m, o) != {};
    AbsorbsOne(t, m, o);
    c :| c in Absorbed(t, m, o);
  }

  /** The deepest node of the row that starts at `o`. */
  function AnchorOf(t: Trie, m: Mode, o: Oid): Oid
    requires WellFormed(t) && o in t
  {
    var run := Run(t, m, o);
    run[|run| - 1]
  }

  function Last(o: Oid): nat
    requires o != []
  {
    o[|o| - 1]
  }

  function ShownSegs(t: Trie, m: Mode, p: Oid): set<nat> {
    set c | c in ChildrenIn(t.Keys, p) && Shown(t, m, c) :: Last(c)
  }

  /** A whole level in numeric sibling order. */
  function Level(t: Trie, m: Mode, p: Oid): seq<nat> {
    NatLeTotal();
    Listing(ShownSegs(t, m, p), NatLe)
  }

  lemma ShownSegIff(t: Trie, m: Mode, p: Oid, seg: nat)
    ensures seg in ShownSegs(t, m, p) <==> Shown(t, m, p + [seg])
  {
    if Shown(t, m, p + [seg]) {
      assert Parent(p + [seg]) == p && Last(p + [seg]) == seg;
    }
    if seg in ShownSegs(t, m, p) {
      var c :| c in ChildrenIn(t.Keys, p) && Shown(t, m, c) && Last(c) == seg;
      assert c == p + [seg];
    }
  }

  lemma LevelSegs(t: Trie, m: Mode, p: Oid)
    ensures forall i :: 0 <= i < |Level(t, m, p)| ==> Shown(t, m, p + [Level(t, m, p)[i]])
    ensures forall seg :: Shown(t, m, p + [seg]) ==> seg in Level(t, m, p)
  {
    var level := Level(t, m, p);
    forall i | 0 <= i < |level| ensures Shown(t, m, p + [level[i]]) {
      assert level[i] in Elements(level);
      ShownSegIff(t, m, p, level[i]);
    }
    forall seg | Shown(t, m, p + [seg]) ensures seg in level {
      ShownSegIff(t, m, p, seg);
      assert seg in Elements(level);
    }
  }

  /** An anchor offers expansion exactly when the level behind it has a row. */
  lemma ExpandableOpensRows(t: Trie, m: Mode, a: Oid)
    requires WellFormed(t) && a in t
    ensures Expandable(t, m, a) <==> Level(t, m, a) != []
  {
    assert Level(t, m, a) != [] <==> ShownSegs(t, m, a) != {} by {
      var level := Level(t, m, a);
      assert level != [] ==> level[0] in Elements(level);
    }
    if ShownSegs(t, m, a) != {} {
      var seg :| seg in ShownSegs(t, m, a);
      var c :| c in ChildrenIn(t.Keys, a) && Shown(t, m, c) && Last(c) == seg;
    }
    if Expandable(t, m, a) {
      assert ChildrenIn(t.Keys, a) != {};
      var g :| g in ChildrenIn(t.Keys, a) && Shown(t, m, g);
      assert Last(g) in ShownSegs(t, m, a);
    }
  }

  // ---- Expanding the whole tree ----

  /** Every chain OID a client sees by expanding all expandable anchors below `p`, level by level. */
  function Expand(t: Trie, m: Mode, p: Oid): seq<Oid>
    requires WellFormed(t)
    decreases Height(t.Keys) - |p|, 1, 0
  {
    LevelSegs(t, m, p);
    ExpandRows(t, m, p, Level(t, m, p))
  }

  function ExpandRows(t: Trie, m: Mode, p: Oid, segs: seq<nat>): seq<Oid>
    requires WellFormed(t) && forall i :: 0 <= i < |segs| ==> Shown(t, m, p + [segs[i]])
    decreases Height(t.Keys) - |p|, 0, |segs|
  {
    if segs == [] then []
    else
      assert Shown(t, m, p + [segs[0]]);
      ExpandRow(t, m, p + [segs[0]]) + ExpandRows(t, m, p, segs[1..])
  }

  function ExpandRow(t: Trie, m: Mode, c: Oid): seq<Oid>
    requires WellFormed(t) && c in t
    decreases Height(t.Keys) - |c|, 2, 0
  {
    var anchor := AnchorOf(t, m, c);
    Run(t, m, c) + (if Expandable(t, m, anchor) then Expand(t, m, anchor) else [])
  }

  /** In family mode the flags must rise to the root, as they do in a trie of at most 65 arcs. */
  ghost predicate Browsable(t: Trie, m: Mode) {
    WellFormed(t) && (m.BranchesOf? ==> FlagsRise(t))
  }

  ghost function ShownBelow(t: Trie, m: Mode, p: Oid): set<Oid> {
    set o | o in t && p < o && Shown(t, m, o)
  }

  ghost function ShownFrom(t: Trie, m: Mode, c: Oid): set<Oid> {
    set o | o in t && c <= o && Shown(t, m, o)
  }

  /** What is shown is shown under shown ancestors. */
  lemma {:induction false} ShownAncestor(t: Trie, m: Mode, o: Oid, k: nat)
    requires Browsable(t, m) && Shown(t, m, o) && 1 <= k <= |o|
    ensures Shown(t, m, o[..k])
    decreases |o|
  {
    if k == |o| {
      assert o[..k] == o;
    } else {
      assert o in ChildrenIn(t.Keys, Parent(o));
      ShownAncestor(t, m, Parent(o), k);
      assert Parent(o)[..k] == o[..k];
    }
  }

  /** A node that folds has exactly one shown child: the one it absorbs. */
  lemma FoldedChildIsOnlyShown(t: Trie, m: Mode, a: Oid, c: Oid, d: Oid)
    requires Browsable(t, m) && a in t && FoldsInto(t, m, a, c)
    requires d in ChildrenIn(t.Keys, a) && Shown(t, m, d)
    ensures d == c
  {
    if m.BranchesOf? {
      OneMember(Flagged(t, a, m.family), c, d);
    } else {
      OneMember(ChildrenIn(t.Keys, a), c, d);
    }
  }

  lemma FoldKeepsShown(t: Trie, m: Mode, a: Oid, c: Oid)
    requires Browsable(t, m) && a in t && FoldsInto(t, m, a, c)
    ensures Shown(t, m, c)
    ensures ShownBelow(t, m, a) == ShownFrom(t, m, c)
  {
    forall o | o in ShownBelow(t, m, a) ensures c <= o {
      var d := o[..|a| + 1];
      ShownAncestor(t, m, o, |a| + 1);
      assert Parent(d) == a && d <= o;
      FoldedChildIsOnlyShown(t, m, a, c, d);
    }
    assert a < c;
    forall o | o in ShownFrom(t, m, c) ensures a < o {
      assert a < c <= o;
    }
  }

  lemma {:induction false} RunCovers(t: Trie, m: Mode, o: Oid)
    requires Browsable(t, m) && Shown(t, m, o)
    ensures multiset(Run(t, m, o)) + multiset(ShownBelow(t, m, AnchorOf(t, m, o))) == multiset(ShownFrom(t, m, o))
    decreases Height(t.Keys) - |o|
  {
    SplitFrom(t, m, o);
    if |Run(t, m, o)| == 1 {
      assert Run(t, m, o) == [o];
    } else {
      var c := RunTail(t, m, o);
      FoldKeepsShown(t, m, o, c);
      RunCovers(t, m, c);
      MultisetConcat([o], Run(t, m, c));
    }
  }

  lemma MultisetConcat<T>(a: seq<T>, b: seq<T>)
    ensures multiset(a + b) == multiset(a) + multiset(b)
  {}

  lemma MultisetUnion<T>(a: set<T>, b: set<T>)
    requires a !! b
    ensures multiset(a + b) == multiset(a) + multiset(b)
  {}

  lemma SplitFrom(t: Trie, m: Mode, o: Oid)
    requires Shown(t, m, o)
    ensures multiset(ShownFrom(t, m, o)) == multiset([o]) + multiset(ShownBelow(t, m, o))
  {
    assert forall x | x in t :: o <= x <==> x == o || o < x;
    assert ShownFrom(t, m, o) == {o} + ShownBelow(t, m, o);
    MultisetUnion({o}, ShownBelow(t, m, o));
  }

  ghost function ShownUnder(t: Trie, m: Mode, p: Oid, segs: seq<nat>): set<Oid> {
    set o | o in t && Shown(t, m, o) && p < o && o[|p|] in segs
  }

  lemma {:induction false} RowCovers(t: Trie, m: Mode, c: Oid)
    requires Browsable(t, m) && Shown(t, m, c)
    ensures multiset(ExpandRow(t, m, c)) == multiset(ShownFrom(t, m, c))
    decreases Height(t.Keys) - |c|, 2, 0
  {
    var anchor := AnchorOf(t, m, c);
    RunCovers(t, m, c);
    if Expandable(t, m, anchor) {
      ExpandCovers(t, m, anchor);
      MultisetConcat(Run(t, m, c), Expand(t, m, anchor));
    } else {
      EmptyLevelHidesAll(t, m, anchor);
      MultisetConcat(Run(t, m, c), []);
    }
  }

  ghost predicate Distinct(segs: seq<nat>) {
    forall i, j :: 0 <= i < j < |segs| ==> segs[i] != segs[j]
  }

  lemma {:induction false} DistinctTail(segs: seq<nat>)
    requires segs != [] && Distinct(segs)
    ensures Distinct(segs[1..]) && segs[0] !in segs[1..]
  {}

  lemma {:induction false} RowsCover(t: Trie, m: Mode, p: Oid, segs: seq<nat>)
    requires Browsable(t, m)
    requires forall i :: 0 <= i < |segs| ==> Shown(t, m, p + [segs[i]])
    requires Distinct(segs)
    ensures multiset(ExpandRows(t, m, p, segs)) == multiset(ShownUnder(t, m, p, segs))
    decreases Height(t.Keys) - |p|, 0, |segs|
  {
    if segs == [] {
      assert ShownUnder(t, m, p, segs) == {};
    } else {
      var c, rest := p + [segs[0]], segs[1..];
      assert Shown(t, m, p + [segs[0]]);
      RowCovers(t, m, c);
      DistinctTail(segs);
      RowsCover(t, m, p, rest);
      SplitUnder(t, m, p, segs);
      MultisetConcat(ExpandRow(t, m, c), ExpandRows(t, m, p, rest));
    }
  }

  lemma SplitUnder(t: Trie, m: Mode, p: Oid, segs: seq<nat>)
    requires segs != [] && segs[0] !in segs[1..]
    ensures multiset(ShownUnder(t, m, p, segs))
         == multiset(ShownFrom(t, m, p + [segs[0]])) + multiset(ShownUnder(t, m, p, segs[1..]))
  {
    var c := p + [segs[0]];
    var a, b, u := ShownFrom(t, m, c), ShownUnder(t, m, p, segs[1..]), ShownUnder(t, m, p, segs);
    forall o ensures o in a <==> o in t && Shown(t, m, o) && p < o && o[|p|] == segs[0] {
      if o in t && p < o && o[|p|] == segs[0] { assert c <= o; }
    }
    assert u == a + b;
    MultisetUnion(a, b);
  }

  lemma BelowStartsInLevel(t: Trie, m: Mode, p: Oid, o: Oid)
    requires Browsable(t, m) && Shown(t, m, o) && p < o
    ensures o[|p|] in Level(t, m, p)
  {
    assert o[..|p| + 1] == p + [o[|p|]];
    ShownAncestor(t, m, o, |p| + 1);
    LevelSegs(t, m, p);
  }

  lemma EmptyLevelHidesAll(t: Trie, m: Mode, a: Oid)
    requires Browsable(t, m) && a in t && !Expandable(t, m, a)
    ensures ShownBelow(t, m, a) == {}
  {
    ExpandableOpensRows(t, m, a);
    if ShownBelow(t, m, a) != {} {
      var o :| o in ShownBelow(t, m, a);
      BelowStartsInLevel(t, m, a, o);
    }
  }

  lemma LevelHoldsAllBelow(t: Trie, m: Mode, p: Oid)
    requires Browsable(t, m)
    ensures ShownUnder(t, m, p, Level(t, m, p)) == ShownBelow(t, m, p)
  {
    forall o | o in ShownBelow(t, m, p) ensures o[|p|] in Level(t, m, p) {
      BelowStartsInLevel(t, m, p, o);
    }
  }

  /** Folding loses and repeats nothing: the rows below `p` carry each shown node exactly once. */
  lemma {:induction false} ExpandCovers(t: Trie, m: Mode, p: Oid)
    requires Browsable(t, m)
    ensures multiset(Expand(t, m, p)) == multiset(ShownBelow(t, m, p))
    decreases Height(t.Keys) - |p|, 1, 0
  {
    LevelSegs(t, m, p);
    RowsCover(t, m, p, Level(t, m, p));
    LevelHoldsAllBelow(t, m, p);
  }

  /** In terms of the nodes: expanding everything below `p` shows each node the mode lists there exactly once. */
  lemma {:induction false} ExpandListsAll(t: Trie, m: Mode, p: Oid)
    requires Browsable(t, m)
    ensures multiset(Expand(t, m, p)) == multiset(set o | o in t && p < o && Listed(t, m, o))
  {
    ExpandCovers(t, m, p);
    forall o ensures Shown(t, m, o) <==> Listed(t, m, o) {
      ShownIsListed(t, m, o);
    }
    assert ShownBelow(t, m, p) == set o | o in t && p < o && Listed(t, m, o);
  }

  /** The whole tree: every node once in the default mode, and every node with a child once in branches-only mode. */
  lemma {:induction false} BrowsingShowsAll(t: Trie)
    requires WellFormed(t)
    ensures multiset(Expand(t, AllNodes, [])) == multiset(t.Keys)
    ensures multiset(Expand(t, Branches, [])) == multiset(set o | o in t && IsContainer(t, o))
  {
    ExpandListsAll(t, AllNodes, []);
    ExpandListsAll(t, Branches, []);
    assert forall o :: o in t ==> [] < o;
    assert t.Keys == set o | o in t && [] < o && Listed(t, AllNodes, o);
    assert (set o | o in t && IsContainer(t, o)) == set o | o in t && [] < o && Listed(t, Branches, o);
  }

  lemma {:induction false} FamilyRows(t: Trie, f: Family, held: set<Oid>)
    requires Browsable(t, BranchesOf(f))
    requires forall o :: o in held <==> o in t && t[o].childCount > 0 && f in t[o].families
    ensures multiset(Expand(t, BranchesOf(f), [])) == multiset(held)
  {
    ExpandCovers(t, BranchesOf(f), []);
    forall o ensures o in ShownBelow(t, BranchesOf(f), []) <==> o in held {
      assert o in t ==> o != [];
    }
    assert ShownBelow(t, BranchesOf(f), []) == held;
  }

  /** Some row lies strictly below `o`. */
  ghost predicate HasRowsBelow(symbols: seq<Symbol>, o: Oid) {
    exists s :: s in symbols && InTree(s) && o < s.oid
  }

  /** The nodes with rows below them whose subtree holds a first row of the family. */
  ghost function Holders(symbols: seq<Symbol>, f: Family): set<Oid> {
    set o | o in TrieOf(symbols) && HasRowsBelow(symbols, o) && SubtreeHolds(symbols, o, f)
  }

  ghost predicate HasRows(symbols: seq<Symbol>, o: Oid) {
    exists s :: s in symbols && InTree(s) && o <= s.oid
  }

  lemma {:induction false} RowsBelowChild(symbols: seq<Symbol>, o: Oid)
    ensures HasRowsBelow(symbols, o) <==> exists k: nat :: HasRows(symbols, o + [k])
  {
    if k: nat :| HasRows(symbols, o + [k]) {
      var s :| s in symbols && InTree(s) && o + [k] <= s.oid;
      assert o < s.oid;
    }
    if s :| s in symbols && InTree(s) && o < s.oid {
      assert o + [s.oid[|o|]] <= s.oid;
      assert HasRows(symbols, o + [s.oid[|o|]]);
    }
  }

  lemma {:induction false} NodeHasRows(symbols: seq<Symbol>, o: Oid)
    requires o != []
    ensures WellFormed(TrieOf(symbols)) && (o in TrieOf(symbols) <==> HasRows(symbols, o))
  {
    TrieNodes(symbols);
  }

  lemma {:induction false} ContainersHaveRowsBelow(symbols: seq<Symbol>, o: Oid)
    requires WellFormed(TrieOf(symbols)) && o in TrieOf(symbols)
    ensures IsContainer(TrieOf(symbols), o) <==> HasRowsBelow(symbols, o)
    ensures TrieOf(symbols)[o].childCount > 0 <==> HasRowsBelow(symbols, o)
  {
    ContainerIff(TrieOf(symbols), o);
    RowsBelowChild(symbols, o);
    forall k: nat ensures o + [k] in TrieOf(symbols) <==> HasRows(symbols, o + [k]) {
      NodeHasRows(symbols, o + [k]);
    }
  }

  /**
   * Browsing a rebuilt trie by family: the rows carry exactly the containers whose subtree holds the family, each
   * once, as long as no OID has more than 65 arcs.
   */
  lemma {:induction false} FamilyRowsCover(symbols: seq<Symbol>, f: Family)
    requires DepthAtMost(Seeds(symbols), 65)
    ensures WellFormed(TrieOf(symbols))
    ensures multiset(Expand(TrieOf(symbols), BranchesOf(f), [])) == multiset(Holders(symbols, f))
  {
    TrieNodes(symbols);
    FlagsExactWithin65(symbols);
    assert forall o :: o in TrieOf(symbols) ==>
             (f in TrieOf(symbols)[o].families <==> SubtreeHolds(symbols, o, f));
    forall o | o in TrieOf(symbols) ensures TrieOf(symbols)[o].childCount > 0 <==> HasRowsBelow(symbols, o) {
      ContainersHaveRowsBelow(symbols, o);
    }
    FamilyRows(TrieOf(symbols), f, Holders(symbols, f));
  }

  // ---- Family browsing above 65 arcs ----

  lemma {:induction false} RunIsShown(t: Trie, m: Mode, c: Oid)
    requires WellFormed(t) && Shown(t, m, c)
    ensures forall o :: o in Run(t, m, c) ==> Shown(t, m, o)
    decreases Height(t.Keys) - |c|
  {
    if |Run(t, m, c)| > 1 {
      var d := RunTail(t, m, c);
      RunIsShown(t, m, d);
    } else {
      assert Run(t, m, c) == [c];
    }
  }

  /** Whatever the flags are, expanding shows only what the page filter lists. */
  lemma {:induction false} ExpandIsShown(t: Trie, m: Mode, p: Oid)
    requires WellFormed(t)
    ensures forall o :: o in Expand(t, m, p) ==> Shown(t, m, o)
    decreases Height(t.Keys) - |p|, 1, 0
  {
    LevelSegs(t, m, p);
    RowsAreShown(t, m, p, Level(t, m, p));
  }

  lemma {:induction false} RowsAreShown(t: Trie, m: Mode, p: Oid, segs: seq<nat>)
    requires WellFormed(t) && forall i :: 0 <= i < |segs| ==> Shown(t, m, p + [segs[i]])
    ensures forall o :: o in ExpandRows(t, m, p, segs) ==> Shown(t, m, o)
    decreases Height(t.Keys) - |p|, 0, |segs|
  {
    if segs != [] {
      var c := p + [segs[0]];
      assert Shown(t, m, c);
      RunIsShown(t, m, c);
      if Expandable(t, m, AnchorOf(t, m, c)) {
        ExpandIsShown(t, m, AnchorOf(t, m, c));
      }
      RowsAreShown(t, m, p, segs[1..]);
    }
  }

  /** Browsing by family shows exactly the containers that hold the family, for each of the families. */
  ghost predicate FamilyRowsExact(symbols: seq<Symbol>) {
    WellFormed(TrieOf(symbols))
    && forall f :: multiset(Expand(TrieOf(symbols), BranchesOf(f), [])) == multiset(Holders(symbols, f))
  }

  lemma {:induction false} LoneScalarIsHidden(symbols: seq<Symbol>, deep: Oid)
    requires deep in OidsOf(symbols) && |deep| > MAX_PASSES + 1
    requires forall s | s in symbols :: s.kind == if s.oid == deep then Scalar else OtherKind
    ensures !FamilyRowsExact(symbols)
  {
    TrieNodes(symbols);
    var top := LoneScalarTop(symbols, deep);
    HasChild(TrieOf(symbols), top, deep);
    ContainersHaveRowsBelow(symbols, top);
    assert top in Holders(symbols, ScalarFamily);
    UnflaggedIsHidden(TrieOf(symbols), ScalarFamily, Holders(symbols, ScalarFamily), top);
  }

  lemma {:induction false} HasChild(t: Trie, a: Oid, o: Oid)
    requires WellFormed(t) && a in t && o in t && a < o
    ensures t[a].childCount > 0
  {
    AncestorIn(t.Keys, o, |a| + 1);
    assert o[..|a| + 1] in ChildrenIn(t.Keys, a);
  }

  lemma {:induction false} UnflaggedIsHidden(t: Trie, f: Family, held: set<Oid>, o: Oid)
    requires WellFormed(t) && o in held && o in t && f !in t[o].families
    ensures multiset(Expand(t, BranchesOf(f), [])) != multiset(held)
  {
    ExpandIsShown(t, BranchesOf(f), []);
    var rows := Expand(t, BranchesOf(f), []);
    assert !Shown(t, BranchesOf(f), o) && o !in rows;
    assert o !in multiset(rows) && o in multiset(held);
  }

  /** It does so for every table over a set of OIDs, if and only if none of them has more than 65 arcs. */
  lemma {:induction false} FamilyRowsCoverIff(oids: set<Oid>)
    ensures (forall symbols | DistinctKeys(symbols) && OidsOf(symbols) == oids :: FamilyRowsExact(symbols))
       <==> DepthAtMost(oids, 65)
  {
    if DepthAtMost(oids, MAX_PASSES + 1) {
      forall symbols | DistinctKeys(symbols) && OidsOf(symbols) == oids ensures FamilyRowsExact(symbols) {
        forall f ensures WellFormed(TrieOf(symbols))
                         && multiset(Expand(TrieOf(symbols), BranchesOf(f), [])) == multiset(Holders(symbols, f)) {
          FamilyRowsCover(symbols, f);
        }
        TrieNodes(symbols);
      }
    } else {
      var deep :| deep in oids && |deep| > MAX_PASSES + 1;
      var q := SeqOfSet(oids);
      OneScalarTableRows(q, deep);
      LoneScalarIsHidden(OneScalarTable(q, deep), deep);
    }
  }
}
