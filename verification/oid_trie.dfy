/** The materialised OID trie: its rebuild from the symbol table (internal/store/oidtree.go). */
module OidTrie {
  import opened Ordering
  import opened Model

  /** A numeric OID; `[]` is the apex, the empty parent text of a top arc. */
  type Oid = seq<nat>

  const NULL_OID: Oid := [0, 0]
  const MAX_PASSES: nat := 64

  datatype Symbol = Symbol(moduleName: string, name: string, oid: Oid, kind: Kind)

  /** The kind-chip families; a node's three 0/1 columns are the set of families flagged there. */
  datatype Family = ScalarFamily | TableFamily | NotifFamily

  datatype Node = Node(name: string, moduleName: string, kind: Kind, hasSymbol: bool, childCount: nat,
                       families: set<Family>)

  type Trie = map<Oid, Node>

  function Parent(o: Oid): Oid
    requires o != []
  {
    o[..|o| - 1]
  }

  function OwnFamilies(k: Kind): set<Family> {
    match k
    case Scalar | Column => {ScalarFamily}
    case Table | TableEntry => {TableFamily}
    case NotificationType => {NotifFamily}
    case _ => {}
  }

  /** The table order (module_name, name) that ranks symbols sharing an OID. */
  predicate KeyLe(s: Symbol, t: Symbol) {
    if s.moduleName == t.moduleName then LexLe(s.name, t.name) else LexLe(s.moduleName, t.moduleName)
  }

  ghost predicate DistinctKeys(symbols: seq<Symbol>) {
    forall s, t :: s in symbols && t in symbols && s.moduleName == t.moduleName && s.name == t.name ==> s == t
  }

  lemma KeyLeOrders(s: Symbol, t: Symbol, u: Symbol)
    ensures KeyLe(s, t) || KeyLe(t, s)
    ensures KeyLe(s, t) && KeyLe(t, u) ==> KeyLe(s, u)
    ensures KeyLe(s, t) && KeyLe(t, s) ==> s.moduleName == t.moduleName && s.name == t.name
  {
    LexLeTotal();
    assert LexLe(s.moduleName, t.moduleName) || LexLe(t.moduleName, s.moduleName);
    assert LexLe(s.name, t.name) || LexLe(t.name, s.name);
  }

  /** `w` is a row of OID `o` that no row of the same OID precedes. */
  ghost predicate LeastAt(symbols: seq<Symbol>, o: Oid, w: Symbol) {
    w in symbols && w.oid == o && forall s | s in symbols && s.oid == o :: KeyLe(w, s)
  }

  /** By module, then by name, in byte order. */
  ghost predicate RowBefore(s: Symbol, t: Symbol) {
    TextBefore(s.moduleName, t.moduleName) || (s.moduleName == t.moduleName && TextBefore(s.name, t.name))
  }

  /** Row `k` comes first among the rows of its OID; a tie, which the table's key rules out, goes to the earlier row. */
  ghost predicate FirstRow(symbols: seq<Symbol>, k: nat) {
    k < |symbols| && forall j :: 0 <= j < |symbols| && symbols[j].oid == symbols[k].oid ==>
      if j < k then RowBefore(symbols[k], symbols[j]) else !RowBefore(symbols[j], symbols[k])
  }

  lemma {:induction false} KeyLeIs(s: Symbol, t: Symbol)
    ensures KeyLe(s, t) <==> !RowBefore(t, s)
  {
    LexLeIs(s.moduleName, t.moduleName);
    LexLeIs(s.name, t.name);
    OneIsBefore(s.moduleName, t.moduleName);
  }

  ghost function OidsOf(symbols: seq<Symbol>): set<Oid> {
    set s | s in symbols :: s.oid
  }

  /** `ROW_NUMBER() OVER (PARTITION BY oid ORDER BY module_name, name) = 1`. */
  function Winner(symbols: seq<Symbol>, o: Oid): (w: Option<Symbol>)
    ensures w.Some? <==> exists s :: s in symbols && s.oid == o
    ensures w.Some? ==> LeastAt(symbols, o, w.value)
  {
    if symbols == [] then None
    else
      var head, rest := symbols[0], Winner(symbols[1..], o);
      assert forall s :: s in symbols <==> s == head || s in symbols[1..];
      if head.oid == o && (rest.None? || KeyLe(head, rest.value)) then
        (assert forall s | s in symbols[1..] && s.oid == o :: KeyLe(head, s) by {
           forall s | s in symbols[1..] && s.oid == o ensures KeyLe(head, s) {
             KeyLeOrders(head, rest.value, s);
           }
         }
         KeyLeOrders(head, head, head);
         Some(head))
      else
        (if head.oid == o then (KeyLeOrders(head, rest.value, head); rest) else rest)
  }

  /** The winner of an OID is its first row. */
  lemma {:induction false} WinnerIsFirstRow(symbols: seq<Symbol>, o: Oid) returns (k: nat)
    requires Winner(symbols, o).Some?
    ensures FirstRow(symbols, k) && symbols[k] == Winner(symbols, o).value && symbols[k].oid == o
  {
    var w, rest := Winner(symbols, o).value, symbols[1..];
    if Winner(rest, o) == Some(w) && (symbols[0].oid == o ==> !KeyLe(symbols[0], w)) {
      var i := WinnerIsFirstRow(rest, o);
      k := i + 1;
      KeyLeIs(symbols[0], w);
      assert forall j :: 0 < j < |symbols| ==> symbols[j] == rest[j - 1];
    } else {
      k := 0;
      forall j | 0 <= j < |symbols| && symbols[j].oid == o ensures !RowBefore(symbols[j], w) {
        assert symbols[j] in symbols;
        KeyLeIs(w, symbols[j]);
      }
    }
  }

  lemma {:induction false} FirstRowWins(symbols: seq<Symbol>, k: nat)
    requires FirstRow(symbols, k)
    ensures Winner(symbols, symbols[k].oid) == Some(symbols[k])
  {
    assert symbols[k] in symbols;
    var i := WinnerIsFirstRow(symbols, symbols[k].oid);
    assert i == k;
  }

  /** The winner shown at a trie node: the null identifier never names its node. */
  function NodeWinner(symbols: seq<Symbol>, o: Oid): Option<Symbol> {
    if o == NULL_OID then None else Winner(symbols, o)
  }

  function Seeds(symbols: seq<Symbol>): set<Oid> {
    set s | s in symbols && s.oid != [] && s.oid != NULL_OID :: s.oid
  }

  function Prefixes(seeds: set<Oid>): set<Oid> {
    set s, k | s in seeds && 1 <= k <= |s| :: s[..k]
  }

  function ChildrenIn(oids: set<Oid>, p: Oid): set<Oid> {
    set c | c in oids && c != [] && Parent(c) == p
  }

  /** A node as the single INSERT writes it, before the flag passes. */
  function InsertedRow(symbols: seq<Symbol>, oids: set<Oid>, o: Oid): Node {
    match NodeWinner(symbols, o)
    case None => Node("", "", NoKind, false, |ChildrenIn(oids, o)|, {})
    case Some(w) => Node(w.name, w.moduleName, w.kind, true, |ChildrenIn(oids, o)|, OwnFamilies(w.kind))
  }

  function InsertedRows(symbols: seq<Symbol>, oids: set<Oid>): Trie {
    map o | o in oids :: InsertedRow(symbols, oids, o)
  }

  function InsertedTrie(symbols: seq<Symbol>): Trie {
    InsertedRows(symbols, Prefixes(Seeds(symbols)))
  }

  /** One UPDATE: every parent ORs in the flags its direct children had in the snapshot. */
  function FlagPass(t: Trie): Trie {
    map o | o in t ::
      t[o].(families := t[o].families + ChildFlags(t, o))
  }

  function ChildFlags(t: Trie, o: Oid): set<Family> {
    set c, f | c in ChildrenIn(t.Keys, o) && f in t[c].families :: f
  }

  /** Some node of `t` at most `k` levels below `o`, or `o` itself, carries the flag. */
  ghost predicate WithinLevels(t: Trie, o: Oid, f: Family, k: nat) {
    exists d :: d in t && o <= d && |d| <= |o| + k && f in t[d].families
  }

  ghost function FamiliesWithin(t: Trie, o: Oid, k: nat): set<Family> {
    set f: Family | WithinLevels(t, o, f, k)
  }

  /** The kinds each chip stands for. */
  predicate ChipShows(f: Family, k: Kind) {
    match f
    case ScalarFamily => k == Scalar || k == Column
    case TableFamily => k == Table || k == TableEntry
    case NotifFamily => k == NotificationType
  }

  /** The first row of some OID at or below `o`, the null identifier apart, is of a kind of the family. */
  ghost predicate SubtreeHolds(symbols: seq<Symbol>, o: Oid, f: Family) {
    exists k: nat :: FirstRow(symbols, k) && o <= symbols[k].oid && InTree(symbols[k]) && ChipShows(f, symbols[k].kind)
  }

  /** The OIDs the tree is made of. */
  predicate InTree(s: Symbol) {
    s.oid != [] && s.oid != [0, 0]
  }

  lemma {:induction false} ChipIs(f: Family, k: Kind)
    ensures f in OwnFamilies(k) <==> ChipShows(f, k)
  {}

  /** The node `d` has a first row of the family. */
  ghost predicate OwnRow(symbols: seq<Symbol>, d: Oid, f: Family) {
    exists k: nat :: FirstRow(symbols, k) && symbols[k].oid == d && InTree(symbols[k]) && ChipShows(f, symbols[k].kind)
  }

  lemma {:induction false} WinnerFlags(symbols: seq<Symbol>, d: Oid, f: Family)
    requires d != [] && d != [0, 0] && Winner(symbols, d).Some?
    ensures OwnRow(symbols, d, f) <==> ChipShows(f, Winner(symbols, d).value.kind)
  {
    var k := WinnerIsFirstRow(symbols, d);
    forall j: nat | FirstRow(symbols, j) && symbols[j].oid == d ensures Winner(symbols, d).value == symbols[j] {
      FirstRowWins(symbols, j);
    }
    assert InTree(symbols[k]);
  }

  lemma {:induction false} NoWinnerNoRow(symbols: seq<Symbol>, d: Oid, f: Family)
    requires d == [] || d == [0, 0] || Winner(symbols, d).None?
    ensures !OwnRow(symbols, d, f)
  {
    forall j: nat | FirstRow(symbols, j) && symbols[j].oid == d ensures Winner(symbols, d).Some? {
      FirstRowWins(symbols, j);
    }
  }

  /** The flags of a node before the passes are those of its own first row. */
  lemma {:induction false} OwnFlags(symbols: seq<Symbol>, d: Oid, f: Family)
    requires d in InsertedTrie(symbols)
    ensures f in InsertedTrie(symbols)[d].families <==> OwnRow(symbols, d, f)
  {
    PrefixesAre(Seeds(symbols), d);
    var w := NodeWinner(symbols, d);
    assert InsertedTrie(symbols)[d].families == if w.None? then {} else OwnFamilies(w.value.kind);
    if w.Some? {
      ChipIs(f, w.value.kind);
      WinnerFlags(symbols, d, f);
    } else {
      NoWinnerNoRow(symbols, d, f);
    }
  }

  lemma {:induction false} FirstRowIn(symbols: seq<Symbol>, k: nat)
    requires k < |symbols| && InTree(symbols[k])
    ensures symbols[k].oid in InsertedTrie(symbols)
  {
    assert symbols[k] in symbols && symbols[k].oid in Seeds(symbols);
    PrefixesAre(Seeds(symbols), symbols[k].oid);
  }

  /** Within `levels` levels below a node, flags are found exactly where first rows of the family are. */
  lemma {:induction false} FlagsWithinAre(symbols: seq<Symbol>, o: Oid, f: Family, levels: nat)
    ensures WithinLevels(InsertedTrie(symbols), o, f, levels)
       <==> exists k: nat :: FirstRow(symbols, k) && o <= symbols[k].oid && |symbols[k].oid| <= |o| + levels
                             && InTree(symbols[k]) && ChipShows(f, symbols[k].kind)
  {
    var base := InsertedTrie(symbols);
    if WithinLevels(base, o, f, levels) {
      var d :| d in base && o <= d && |d| <= |o| + levels && f in base[d].families;
      OwnFlags(symbols, d, f);
    }
    forall k: nat | FirstRow(symbols, k) && o <= symbols[k].oid && |symbols[k].oid| <= |o| + levels
                    && InTree(symbols[k]) && ChipShows(f, symbols[k].kind)
      ensures WithinLevels(base, o, f, levels)
    {
      FirstRowIn(symbols, k);
      OwnFlags(symbols, symbols[k].oid, f);
    }
  }

  /** The declarative meaning of a rebuild over `symbols`. */
  ghost function TrieOf(symbols: seq<Symbol>): Trie {
    var base := InsertedTrie(symbols);
    map o | o in base ::
      base[o].(families := FamiliesWithin(base, o, MAX_PASSES))
  }

  ghost predicate PrefixClosed(oids: set<Oid>) {
    forall o :: o in oids ==> o != [] && (|o| > 1 ==> Parent(o) in oids)
  }

  lemma {:induction false} AncestorIn(oids: set<Oid>, o: Oid, k: nat)
    requires PrefixClosed(oids) && o in oids && 1 <= k <= |o|
    ensures o[..k] in oids
    decreases |o|
  {
    if k == |o| {
      assert o[..k] == o;
    } else {
      AncestorIn(oids, Parent(o), k);
      assert Parent(o)[..k] == o[..k];
    }
  }

  ghost predicate Covered(seeds: set<Oid>, o: Oid) {
    o != [] && exists s :: s in seeds && o <= s
  }

  lemma PrefixesAre(seeds: set<Oid>, o: Oid)
    ensures o in Prefixes(seeds) <==> Covered(seeds, o)
  {
    if Covered(seeds, o) {
      var s :| s in seeds && o <= s;
      assert o == s[..|o|];
    }
  }

  lemma PrefixesClosed(seeds: set<Oid>)
    ensures PrefixClosed(Prefixes(seeds))
  {
    forall o | o in Prefixes(seeds) && |o| > 1 ensures Parent(o) in Prefixes(seeds) {
      var s, k :| s in seeds && 1 <= k <= |s| && o == s[..k];
      assert Parent(o) == s[..k - 1];
    }
  }

  /** `u` is `t` with, at every node, exactly the flags found within `k` levels of it. */
  ghost predicate AfterPasses(t: Trie, u: Trie, k: nat) {
    u.Keys == t.Keys && forall o | o in t :: u[o] == t[o].(families := FamiliesWithin(t, o, k))
  }

  lemma FlagComesFromChild(t: Trie, o: Oid, f: Family, k: nat) returns (c: Oid)
    requires PrefixClosed(t.Keys) && o in t && k > 0
    requires WithinLevels(t, o, f, k) && !WithinLevels(t, o, f, k - 1)
    ensures c in ChildrenIn(t.Keys, o) && WithinLevels(t, c, f, k - 1)
  {
    var d :| d in t && o <= d && |d| <= |o| + k && f in t[d].families;
    c := d[..|o| + 1];
    AncestorIn(t.Keys, d, |o| + 1);
    assert Parent(c) == o;
  }

  lemma FlagRisesFromChild(t: Trie, o: Oid, c: Oid, f: Family, k: nat)
    requires k > 0 && c in ChildrenIn(t.Keys, o) && WithinLevels(t, c, f, k - 1)
    ensures WithinLevels(t, o, f, k)
  {
    var d :| d in t && c <= d && |d| <= |c| + (k - 1) && f in t[d].families;
    assert o <= c <= d;
  }

  lemma FamiliesStep(t: Trie, u: Trie, o: Oid, k: nat)
    requires PrefixClosed(t.Keys) && o in t && k > 0 && AfterPasses(t, u, k - 1)
    ensures u[o].families + ChildFlags(u, o) == FamiliesWithin(t, o, k)
  {
    forall f | f in FamiliesWithin(t, o, k) ensures f in u[o].families + ChildFlags(u, o) {
      if !WithinLevels(t, o, f, k - 1) {
        var c := FlagComesFromChild(t, o, f, k);
        assert f in u[c].families;
      }
    }
    forall f | f in ChildFlags(u, o) ensures f in FamiliesWithin(t, o, k) {
      var c :| c in ChildrenIn(u.Keys, o) && f in u[c].families;
      FlagRisesFromChild(t, o, c, f, k);
    }
    forall f | WithinLevels(t, o, f, k - 1) ensures WithinLevels(t, o, f, k) {
      var d :| d in t && o <= d && |d| <= |o| + (k - 1) && f in t[d].families;
    }
  }

  lemma PassStep(t: Trie, u: Trie, k: nat)
    requires PrefixClosed(t.Keys) && k > 0 && AfterPasses(t, u, k - 1)
    ensures AfterPasses(t, FlagPass(u), k)
  {
    forall o | o in t ensures FlagPass(u)[o] == t[o].(families := FamiliesWithin(t, o, k)) {
      FamiliesStep(t, u, o, k);
    }
  }

  lemma OwnLevel(t: Trie, o: Oid, f: Family)
    requires o in t
    ensures WithinLevels(t, o, f, 0) <==> f in t[o].families
  {
    if WithinLevels(t, o, f, 0) {
      var d :| d in t && o <= d && |d| <= |o| && f in t[d].families;
      assert d == o;
    }
    assert o <= o;
  }

  lemma NoPassYet(t: Trie)
    ensures AfterPasses(t, t, 0)
  {
    forall o | o in t ensures t[o].families == FamiliesWithin(t, o, 0) {
      forall f ensures f in t[o].families <==> WithinLevels(t, o, f, 0) {
        OwnLevel(t, o, f);
      }
    }
  }

  /** Once a pass changes nothing, the flags are those of any number of passes. */
  lemma {:induction false} PassesStop(t: Trie, u: Trie, i: nat, k: nat)
    requires PrefixClosed(t.Keys) && i <= k && AfterPasses(t, u, i) && FlagPass(u) == u
    ensures AfterPasses(t, u, k)
    decreases k - i
  {
    if i < k {
      PassStep(t, u, i + 1);
      PassesStop(t, u, i + 1, k);
    }
  }

  ghost predicate ParentsIn(done: set<Oid>, all: set<Oid>) {
    forall o :: o in done && |o| > 1 ==> Parent(o) in all
  }

  lemma {:induction false} ClosedHoldsPrefixes(seeds: set<Oid>, all: set<Oid>, s: Oid, k: nat)
    requires s in seeds && seeds <= all && 1 <= k <= |s|
    requires ParentsIn(all, all)
    ensures s[..k] in all
    decreases |s| - k
  {
    if k == |s| {
      assert s[..k] == s;
    } else {
      ClosedHoldsPrefixes(seeds, all, s, k + 1);
      assert Parent(s[..k + 1]) == s[..k];
    }
  }

  lemma ClosedIsAll(seeds: set<Oid>, all: set<Oid>)
    requires seeds <= all && ParentsIn(all, all)
    ensures Prefixes(seeds) <= all
  {
    forall o | o in Prefixes(seeds) ensures o in all {
      var s, k :| s in seeds && 1 <= k <= |s| && o == s[..k];
      ClosedHoldsPrefixes(seeds, all, s, k);
    }
  }

  ghost predicate QueueState(seeds: set<Oid>, all: set<Oid>, queue: set<Oid>) {
    queue <= all && seeds <= all <= Prefixes(seeds) && ParentsIn(all - queue, all)
  }

  ghost function Missing(seeds: set<Oid>, all: set<Oid>): nat {
    |Prefixes(seeds) - all|
  }

  lemma Enqueued(seeds: set<Oid>, all: set<Oid>, queue: set<Oid>, p: Oid)
    requires QueueState(seeds, all, queue) && p in queue && |p| > 1 && Parent(p) !in all
    ensures QueueState(seeds, all + {Parent(p)}, queue - {p} + {Parent(p)})
    ensures Missing(seeds, all + {Parent(p)}) < Missing(seeds, all)
  {
    PrefixesClosed(seeds);
    assert Parent(p) in Prefixes(seeds);
    MissingShrinks(Prefixes(seeds), all, Parent(p));
  }

  lemma MissingShrinks(target: set<Oid>, all: set<Oid>, q: Oid)
    requires q in target && q !in all
    ensures |target - (all + {q})| < |target - all|
  {
    assert target - (all + {q}) == (target - all) - {q};
  }

  lemma Dequeued(seeds: set<Oid>, all: set<Oid>, queue: set<Oid>, p: Oid)
    requires QueueState(seeds, all, queue) && p in queue && (|p| > 1 ==> Parent(p) in all)
    ensures QueueState(seeds, all, queue - {p})
    ensures |queue - {p}| < |queue|
  {}

  /** The recursive UNION: rows leave a queue one at a time and add their parent if it is new. */
  method PrefixClosure(seeds: set<Oid>) returns (all: set<Oid>)
    requires [] !in seeds
    ensures all == Prefixes(seeds)
  {
    forall s | s in seeds ensures s in Prefixes(seeds) { assert s == s[..|s|]; }
    all := seeds;
    var queue := seeds;
    while queue != {}
      invariant QueueState(seeds, all, queue)
      decreases Missing(seeds, all), |queue|
    {
      var p :| p in queue;
      if |p| > 1 && Parent(p) !in all {
        Enqueued(seeds, all, queue, p);
        all, queue := all + {Parent(p)}, queue - {p} + {Parent(p)};
      } else {
        Dequeued(seeds, all, queue, p);
        queue := queue - {p};
      }
    }
    ClosedIsAll(seeds, all);
  }

  lemma InsertedIsClosed(symbols: seq<Symbol>)
    ensures PrefixClosed(InsertedTrie(symbols).Keys)
  {
    PrefixesClosed(Seeds(symbols));
    assert InsertedTrie(symbols).Keys == Prefixes(Seeds(symbols));
  }

  lemma AllPassesMean(symbols: seq<Symbol>, t: Trie)
    requires AfterPasses(InsertedTrie(symbols), t, MAX_PASSES)
    ensures t == TrieOf(symbols)
  {}

  /** MAX(previous + 1, now), or the clock alone on the first build: strictly past every earlier generation. */
  function NextGeneration(previous: Option<int>, now: int): (next: Option<int>)
    ensures next.Some? && next.value >= now
    ensures previous.Some? ==> next.value > previous.value
    ensures next.value == now || (previous.Some? && next.value == previous.value + 1)
  {
    Some(match previous case None => now case Some(g) => if g + 1 > now then g + 1 else now)
  }

  /** The tables behind the tree: the symbol rows, the trie and its two schema_meta markers. */
  class TreeStore {
    var symbols: seq<Symbol>
    var nodes: Trie
    var version: Option<int>
    var generation: Option<int>

    constructor (rows: seq<Symbol>)
      ensures symbols == rows && nodes == map[] && version == None && generation == None
    {
      symbols, nodes, version, generation := rows, map[], None, None;
    }

    method RebuildOIDTree(now: int)
      modifies this`nodes, this`version, this`generation
      ensures nodes == TrieOf(symbols)
      ensures version == Some(3)
      ensures generation == NextGeneration(old(generation), now)
    {
      var oids := PrefixClosure(Seeds(symbols));
      nodes := InsertedRows(symbols, oids);
      ghost var base := InsertedTrie(symbols);
      InsertedIsClosed(symbols);
      NoPassYet(base);
      var i := 0;
      while i < MAX_PASSES
        invariant 0 <= i <= MAX_PASSES
        invariant AfterPasses(base, nodes, i)
        invariant generation == old(generation)
      {
        var next := FlagPass(nodes);
        if next == nodes {
          PassesStop(base, nodes, i, MAX_PASSES);
          break;
        }
        PassStep(base, nodes, i + 1);
        nodes := next;
        i := i + 1;
      }
      AllPassesMean(symbols, nodes);
      version := Some(3);
      generation := NextGeneration(generation, now);
    }
  }

  /** What every reader of the trie relies on. */
  ghost predicate WellFormed(t: Trie) {
    && PrefixClosed(t.Keys)
    && (forall o :: o in t ==> t[o].childCount == |ChildrenIn(t.Keys, o)|)
  }

  ghost predicate Names(n: Node, w: Symbol) {
    n.name == w.name && n.moduleName == w.moduleName && n.kind == w.kind
  }

  ghost predicate FlagsRise(t: Trie) {
    forall o, f :: o in t && |o| > 1 && f in t[o].families ==> Parent(o) in t && f in t[Parent(o)].families
  }

  ghost predicate DepthAtMost(oids: set<Oid>, depth: nat) {
    forall o :: o in oids ==> |o| <= depth
  }

  /** The rebuilt trie: its nodes and child counts, without naming how they are computed. */
  lemma TrieNodes(symbols: seq<Symbol>)
    ensures WellFormed(TrieOf(symbols))
    ensures forall o :: o in TrieOf(symbols) <==>
              o != [] && exists s :: s in symbols && InTree(s) && o <= s.oid
  {
    var seeds, t := Seeds(symbols), TrieOf(symbols);
    PrefixesClosed(seeds);
    assert t.Keys == Prefixes(seeds);
    forall o ensures o in t <==> o != [] && exists s :: s in symbols && InTree(s) && o <= s.oid {
      PrefixesAre(seeds, o);
      if o in t {
        var x :| x in seeds && o <= x;
        var s :| s in symbols && InTree(s) && s.oid == x;
      } else if exists s :: s in symbols && InTree(s) && o <= s.oid {
        var s :| s in symbols && InTree(s) && o <= s.oid;
        assert s.oid in seeds;
      }
    }
  }

  /** A node names a symbol exactly when some row has its OID, the null identifier apart; it is the least such row. */
  lemma TrieWinners(symbols: seq<Symbol>, o: Oid)
    requires o in TrieOf(symbols)
    ensures TrieOf(symbols)[o].hasSymbol <==> o != [0, 0] && exists s :: s in symbols && s.oid == o
    ensures forall k: nat :: FirstRow(symbols, k) && symbols[k].oid == o && o != [0, 0] ==>
              Names(TrieOf(symbols)[o], symbols[k])
    ensures TrieOf(symbols)[o].hasSymbol ==> exists k: nat :: FirstRow(symbols, k) && symbols[k].oid == o
    ensures !TrieOf(symbols)[o].hasSymbol ==>
              TrieOf(symbols)[o].name == "" && TrieOf(symbols)[o].moduleName == "" && TrieOf(symbols)[o].kind == NoKind
  {
    var n := TrieOf(symbols)[o];
    if n.hasSymbol {
      var k := WinnerIsFirstRow(symbols, o);
    }
    forall k: nat | FirstRow(symbols, k) && symbols[k].oid == o && o != [0, 0] ensures Names(n, symbols[k]) {
      FirstRowWins(symbols, k);
    }
  }

  /** Every pass reaches one level: 64 of them are exact on tries of at most 65 arcs. */
  lemma FlagsExactWithin65(symbols: seq<Symbol>)
    requires DepthAtMost(Seeds(symbols), 65)
    ensures FlagsRise(TrieOf(symbols))
    ensures forall o, f | o in TrieOf(symbols) ::
              f in TrieOf(symbols)[o].families <==> SubtreeHolds(symbols, o, f)
  {
    var base, t := InsertedTrie(symbols), TrieOf(symbols);
    PrefixesClosed(Seeds(symbols));
    forall o, f | o in t ensures f in t[o].families <==> SubtreeHolds(symbols, o, f) {
      FlagsWithinAre(symbols, o, f, MAX_PASSES);
      forall k: nat | FirstRow(symbols, k) && o <= symbols[k].oid && InTree(symbols[k])
        ensures |symbols[k].oid| <= |o| + MAX_PASSES
      {
        assert symbols[k] in symbols && symbols[k].oid in Seeds(symbols);
      }
    }
    forall o, f | o in t && |o| > 1 && f in t[o].families ensures Parent(o) in t && f in t[Parent(o)].families {
      var d :| d in base && o <= d && |d| <= |o| + MAX_PASSES && f in base[d].families;
      assert Parent(o) <= o <= d && |d| <= |Parent(o)| + MAX_PASSES;
    }
  }

  ghost predicate FlagsExact(symbols: seq<Symbol>) {
    forall o, f :: o in TrieOf(symbols) ==>
      (f in TrieOf(symbols)[o].families <==> SubtreeHolds(symbols, o, f))
  }

  /** A table over the OIDs `q` in which only `deep` is a scalar; names differ by their length. */
  ghost function OneScalarTable(q: seq<Oid>, deep: Oid): seq<Symbol> {
    seq(|q|, i requires 0 <= i < |q| =>
      Symbol("M", seq(i, _ => 'a'), q[i], if q[i] == deep then Scalar else OtherKind))
  }

  lemma OneScalarTableRows(q: seq<Oid>, deep: Oid)
    ensures DistinctKeys(OneScalarTable(q, deep))
    ensures OidsOf(OneScalarTable(q, deep)) == set o | o in q
    ensures forall s | s in OneScalarTable(q, deep) :: s.kind == if s.oid == deep then Scalar else OtherKind
  {
    var symbols := OneScalarTable(q, deep);
    forall s, u | s in symbols && u in symbols && s.moduleName == u.moduleName && s.name == u.name ensures s == u {
      assert |s.name| == |u.name|;
    }
    forall o ensures o in OidsOf(symbols) <==> o in q {
      if o in q {
        var j :| 0 <= j < |q| && q[j] == o;
        assert symbols[j] in symbols && symbols[j].oid == o;
      }
    }
  }

  /** The ancestor 65 arcs above a lone scalar holds it, but is not flagged. */
  lemma LoneScalarTop(symbols: seq<Symbol>, deep: Oid) returns (top: Oid)
    requires deep in OidsOf(symbols) && |deep| > MAX_PASSES + 1
    requires forall s | s in symbols :: s.kind == if s.oid == deep then Scalar else OtherKind
    ensures top in TrieOf(symbols) && deep in TrieOf(symbols) && top < deep
    ensures SubtreeHolds(symbols, top, ScalarFamily) && ScalarFamily !in TrieOf(symbols)[top].families
  {
    var seeds, base := Seeds(symbols), InsertedTrie(symbols);
    top := deep[..|deep| - (MAX_PASSES + 1)];
    assert deep in seeds && deep <= deep && top <= deep;
    PrefixesAre(seeds, deep);
    PrefixesAre(seeds, top);
    OnlyScalar(symbols, deep);
    OwnFlags(symbols, deep, ScalarFamily);
    assert SubtreeHolds(symbols, top, ScalarFamily);
    assert !WithinLevels(base, top, ScalarFamily, MAX_PASSES);
    assert ScalarFamily !in TrieOf(symbols)[top].families;
  }

  lemma LoneScalarIsMissed(symbols: seq<Symbol>, deep: Oid)
    requires deep in OidsOf(symbols) && |deep| > 65
    requires forall s | s in symbols :: s.kind == if s.oid == deep then Scalar else OtherKind
    ensures !FlagsExact(symbols)
  {
    var _ := LoneScalarTop(symbols, deep);
  }

  lemma OnlyScalar(symbols: seq<Symbol>, deep: Oid)
    requires deep in OidsOf(symbols) && deep != NULL_OID
    requires forall s | s in symbols :: s.kind == if s.oid == deep then Scalar else OtherKind
    ensures forall d | d in InsertedTrie(symbols) :: ScalarFamily in InsertedTrie(symbols)[d].families <==> d == deep
  {
    var base := InsertedTrie(symbols);
    forall d | d in base ensures ScalarFamily in base[d].families <==> d == deep {
      var w := NodeWinner(symbols, d);
      assert base[d].families == if w.None? then {} else OwnFamilies(w.value.kind);
      if w.Some? {
        assert LeastAt(symbols, d, w.value);
        assert w.value.kind == (if d == deep then Scalar else OtherKind);
      } else {
        assert d != deep;
      }
    }
  }

  lemma {:induction false} SeqOfSet(s: set<Oid>) returns (q: seq<Oid>)
    ensures (set o | o in q) == s
    decreases s
  {
    if s == {} {
      q := [];
    } else {
      var o :| o in s;
      var rest := SeqOfSet(s - {o});
      q := [o] + rest;
      assert (set x | x in q) == {o} + set x | x in rest;
    }
  }

  /** The 64-pass loop is exact for every table over a set of OIDs if and only if none has more than 65 arcs. */
  lemma PassCapIsExactIff(oids: set<Oid>)
    ensures (forall symbols | DistinctKeys(symbols) && OidsOf(symbols) == oids :: FlagsExact(symbols))
            <==> DepthAtMost(oids, 65)
  {
    if DepthAtMost(oids, MAX_PASSES + 1) {
      forall symbols | DistinctKeys(symbols) && OidsOf(symbols) == oids
        ensures FlagsExact(symbols)
      {
        FlagsExactWithin65(symbols);
      }
    } else {
      var deep :| deep in oids && |deep| > MAX_PASSES + 1;
      var q := SeqOfSet(oids);
      OneScalarTableRows(q, deep);
      LoneScalarIsMissed(OneScalarTable(q, deep), deep);
    }
  }

  /** The trie depends on the symbol rows as a set: their order in the table does not matter. */
  lemma TrieIgnoresRowOrder(s: seq<Symbol>, u: seq<Symbol>)
    requires Elements(s) == Elements(u) && DistinctKeys(s)
    ensures TrieOf(s) == TrieOf(u)
  {
    assert forall x :: x in s <==> x in Elements(s);
    assert forall x :: x in u <==> x in Elements(u);
    forall o ensures Winner(s, o) == Winner(u, o) {
      var v, w := Winner(s, o), Winner(u, o);
      if v.Some? && w.Some? { KeyLeOrders(v.value, w.value, v.value); }
    }
    assert Seeds(s) == Seeds(u);
    var oids := Prefixes(Seeds(s));
    assert forall o | o in oids :: InsertedRow(s, oids, o) == InsertedRow(u, oids, o);
    assert InsertedTrie(s) == InsertedTrie(u);
  }
}
