/** The IMPORTS closure of a list of root modules (internal/store/queries.go). */
module ImportClosure {
  import opened Model
  import opened Ordering

  datatype Import = Import(from: string, symbol: string)

  /** Source paths of the loaded modules, and the import rows by importer. */
  datatype Db = Db(sources: map<string, string>, imports: map<string, seq<Import>>)

  datatype Entry = Entry(mod: string, source: string, loaded: bool, importedBy: string, symbols: seq<string>)

  datatype Result = Found(entries: seq<Entry>) | NoRoot(root: string)

  function ImportsOf(db: Db, m: string): seq<Import> {
    if m in db.imports then db.imports[m] else []
  }

  predicate Imports(db: Db, m: string, x: string) {
    m in db.sources && exists i | i in ImportsOf(db, m) :: i.from == x
  }

  /** The symbols imported from one module, without repeats, in source order. */
  function Symbols(imps: seq<Import>, from: string): seq<string> {
    if imps == [] then []
    else
      var before, i := Symbols(imps[..|imps| - 1], from), imps[|imps| - 1];
      if i.from == from && i.symbol !in before then before + [i.symbol] else before
  }

  /** The roots in order, without empty names and repeats. */
  function Seeds(roots: seq<string>): seq<string> {
    if roots == [] then []
    else
      var before, r := Seeds(roots[..|roots| - 1]), roots[|roots| - 1];
      if r == "" || r in before then before else before + [r]
  }

  // ---- Reachability ----

  /** The modules at most `k` import steps from a root; steps start at loaded modules only. */
  ghost predicate Within(db: Db, roots: seq<string>, x: string, k: nat)
    decreases k
  {
    x in Seeds(roots) || (k > 0 && exists m :: Within(db, roots, m, k - 1) && Imports(db, m, x))
  }

  ghost predicate AtDistance(db: Db, roots: seq<string>, x: string, k: nat) {
    Within(db, roots, x, k) && (k > 0 ==> !Within(db, roots, x, k - 1))
  }

  // ---- The forest the walk builds ----

  function Mods(out: seq<Entry>): set<string> {
    set e | e in out :: e.mod
  }

  ghost predicate Distinct(out: seq<Entry>) {
    forall i, j :: 0 <= i < j < |out| ==> out[i].mod != out[j].mod
  }

  function RootEntry(db: Db, r: string): Entry
    requires r in db.sources
  {
    Entry(r, db.sources[r], true, "", [])
  }

  function ChildEntry(db: Db, x: string, cur: string): Entry {
    var symbols := Symbols(ImportsOf(db, cur), x);
    if x in db.sources then Entry(x, db.sources[x], true, cur, symbols) else Entry(x, "", false, cur, symbols)
  }

  /** Entry `i` hangs below entry `p`, the first one that imports it. */
  ghost predicate HangsBelow(db: Db, out: seq<Entry>, i: nat, p: nat)
    requires p < i < |out|
  {
    && out[p].loaded && Imports(db, out[p].mod, out[i].mod) && out[i] == ChildEntry(db, out[i].mod, out[p].mod)
    && forall k :: 0 <= k < p ==> !Imports(db, out[k].mod, out[i].mod)
  }

  ghost predicate RootsFirst(db: Db, seeds: seq<string>, out: seq<Entry>) {
    |seeds| <= |out|
    && forall i :: 0 <= i < |seeds| ==> seeds[i] in db.sources && out[i] == RootEntry(db, seeds[i])
  }

  /** All entries from `n` on hang below entries before `h`, in the order of these. */
  ghost predicate Hung(db: Db, n: nat, out: seq<Entry>, ps: seq<nat>, h: nat) {
    && |ps| == |out|
    && (forall i :: n <= i < |out| ==> ps[i] < i && ps[i] < h && HangsBelow(db, out, i, ps[i]))
    && (forall i, j :: n <= i < j < |out| ==> ps[i] <= ps[j])
  }

  /** The imports of the first `h` entries are all listed. */
  ghost predicate Listed(db: Db, out: seq<Entry>, h: nat)
    requires h <= |out|
  {
    forall k, x :: 0 <= k < h && Imports(db, out[k].mod, x) ==> x in Mods(out)
  }

  /**
   * `out` is a breadth-first forest: the roots first, every other entry below its first importer `ps[i]`, which is one
   * of the first `b` entries, in the order of the importers. The imports of the first `h` entries are all listed.
   */
  ghost predicate Grown(db: Db, roots: seq<string>, out: seq<Entry>, ps: seq<nat>, b: nat, h: nat) {
    && Distinct(out) && RootsFirst(db, Seeds(roots), out) && Hung(db, |Seeds(roots)|, out, ps, b)
    && h <= |out| && Listed(db, out, h)
  }

  ghost predicate Forest(db: Db, roots: seq<string>, out: seq<Entry>, ps: seq<nat>, h: nat) {
    Grown(db, roots, out, ps, h, h)
  }

  // ---- The walk ----

  method SeedRoots(db: Db, roots: seq<string>) returns (bad: Option<string>, out: seq<Entry>)
    ensures bad.Some? ==> bad.value in roots && bad.value != "" && bad.value !in db.sources
    ensures bad.None? ==> (forall r :: r in roots && r != "" ==> r in db.sources)
                          && |out| == |Seeds(roots)| && Forest(db, roots, out, seq(|out|, _ => 0), 0)
  {
    out := [];
    bad := None;
    for i := 0 to |roots|
      invariant |out| == |Seeds(roots[..i])|
      invariant forall k :: 0 <= k < |out| ==>
                  Seeds(roots[..i])[k] in db.sources && out[k] == RootEntry(db, Seeds(roots[..i])[k])
      invariant Distinct(out) && forall r :: r in roots[..i] && r != "" ==> r in db.sources
      invariant forall x :: x in Mods(out) <==> x in Seeds(roots[..i])
    {
      assert roots[..i + 1][..i] == roots[..i] && roots[..i + 1] == roots[..i] + [roots[i]];
      if roots[i] == "" || roots[i] in Mods(out) {
        continue;
      }
      if roots[i] !in db.sources {
        bad := Some(roots[i]);
        return;
      }
      assert forall e :: e in out ==> e.mod in Mods(out);
      out := out + [RootEntry(db, roots[i])];
    }
    assert roots[..|roots|] == roots;
  }

  type Pendings = map<(string, string), seq<string>>

  function At(pendings: Pendings, x: string, cur: string): seq<string> {
    if (x, cur) in pendings then pendings[(x, cur)] else []
  }

  /** Everything recorded for other importers stays, and `cur` has the symbols of `imps`. */
  ghost predicate Aggregated(before: Pendings, after: Pendings, imps: seq<Import>, cur: string) {
    && (forall x, m :: m != cur ==> At(after, x, m) == At(before, x, m))
    && (forall x :: At(after, x, cur) == Symbols(imps, x))
  }

  lemma {:induction false} AggregatedSnoc(before: Pendings, after: Pendings, imps: seq<Import>, t: nat, cur: string)
    requires t < |imps| && Aggregated(before, after, imps[..t], cur)
    ensures var s := At(after, imps[t].from, cur);
            var s' := if imps[t].symbol !in s then s + [imps[t].symbol] else s;
            Aggregated(before, after[(imps[t].from, cur) := s'], imps[..t + 1], cur)
  {
    assert imps[..t + 1][..t] == imps[..t] && imps[..t + 1][t] == imps[t];
    var s := At(after, imps[t].from, cur);
    var after' := after[(imps[t].from, cur) := if imps[t].symbol !in s then s + [imps[t].symbol] else s];
    forall x ensures At(after', x, cur) == Symbols(imps[..t + 1], x) {
      assert At(after, x, cur) == Symbols(imps[..t], x);
    }
    forall x, m | m != cur ensures At(after', x, m) == At(before, x, m) {
      assert At(after, x, m) == At(before, x, m);
    }
  }

  /** Aggregates the symbols of one importer's rows per module they come from. */
  method Aggregate(imps: seq<Import>, cur: string, pendings: Pendings) returns (after: Pendings)
    requires forall x :: At(pendings, x, cur) == []
    ensures Aggregated(pendings, after, imps, cur)
  {
    after := pendings;
    for t := 0 to |imps|
      invariant Aggregated(pendings, after, imps[..t], cur)
    {
      AggregatedSnoc(pendings, after, imps, t, cur);
      var symbols := At(after, imps[t].from, cur);
      if imps[t].symbol !in symbols {
        symbols := symbols + [imps[t].symbol];
      }
      after := after[(imps[t].from, cur) := symbols];
    }
    assert imps[..|imps|] == imps;
  }

  /** The rows of one importer, each module at its first mention; the new entries follow in source order. */
  method Visit(db: Db, cur: string, out: seq<Entry>, pendings: Pendings, ghost roots: seq<string>, ghost c: nat,
      ghost ps: seq<nat>) returns (after: seq<Entry>, ghost qs: seq<nat>, found: seq<string>)
    requires Forest(db, roots, out, ps, c) && c < |out| && out[c].loaded && out[c].mod == cur && cur in db.sources
    requires forall x :: At(pendings, x, cur) == Symbols(ImportsOf(db, cur), x)
    ensures Forest(db, roots, after, qs, c + 1) && out <= after
    ensures found == LoadedOf(after[|out|..])
  {
    var imps := ImportsOf(db, cur);
    after, qs, found := out, ps, [];
    var seen := {};
    for t := 0 to |imps|
      invariant Grown(db, roots, after, qs, c + 1, c) && out <= after
      invariant found == LoadedOf(after[|out|..])
      invariant (forall j :: 0 <= j < t ==> imps[j].from in Mods(after)) && seen <= Mods(after)
    {
      var x := imps[t].from;
      if x in seen {
        continue;
      }
      seen := seen + {x};
      if x in Mods(after) {
        continue;
      }
      var symbols := At(pendings, x, cur);
      var entry;
      if x !in db.sources {
        entry := Entry(x, "", false, cur, symbols);
      } else {
        entry := Entry(x, db.sources[x], true, cur, symbols);
        found := found + [x];
      }
      assert imps[t] in imps && after[c] == out[c];
      GrowBy(db, roots, after, qs, c, x);
      LoadedSnoc(after, |out|, entry);
      after, qs := after + [entry], qs + [c];
    }
    assert after[c] == out[c];
  }

  lemma {:induction false} LoadedSnoc(out: seq<Entry>, n: nat, e: Entry)
    requires n <= |out|
    ensures LoadedOf((out + [e])[n..]) == LoadedOf(out[n..]) + (if e.loaded then [e.mod] else [])
  {
    assert (out + [e])[n..] == out[n..] + [e];
    LoadedConcat(out[n..], [e]);
    assert [e][1..] == [];
  }

  lemma {:induction false} HangsStill(db: Db, out: seq<Entry>, e: Entry, i: nat, p: nat)
    requires p < i < |out| && HangsBelow(db, out, i, p)
    ensures HangsBelow(db, out + [e], i, p)
  {
    var after := out + [e];
    forall k | 0 <= k < p ensures !Imports(db, after[k].mod, after[i].mod) {
      assert after[k] == out[k];
    }
  }

  lemma {:induction false} HungOn(db: Db, n: nat, out: seq<Entry>, ps: seq<nat>, c: nat, e: Entry)
    requires Hung(db, n, out, ps, c + 1) && c < |out| && HangsBelow(db, out + [e], |out|, c)
    ensures Hung(db, n, out + [e], ps + [c], c + 1)
  {
    var after, qs := out + [e], ps + [c];
    forall i | n <= i < |after| ensures qs[i] < i && qs[i] < c + 1 && HangsBelow(db, after, i, qs[i]) {
      if i < |out| {
        HangsStill(db, out, e, i, ps[i]);
      }
    }
  }

  lemma {:induction false} FirstImporter(db: Db, out: seq<Entry>, c: nat, x: string)
    requires c < |out| && Listed(db, out, c) && out[c].loaded && Imports(db, out[c].mod, x) && x !in Mods(out)
    ensures HangsBelow(db, out + [ChildEntry(db, x, out[c].mod)], |out|, c)
  {
    var after := out + [ChildEntry(db, x, out[c].mod)];
    forall k | 0 <= k < c ensures !Imports(db, after[k].mod, x) {
      assert after[k] == out[k];
    }
  }

  lemma {:induction false} ModsOn(out: seq<Entry>, e: Entry)
    ensures Mods(out + [e]) == Mods(out) + {e.mod}
    ensures Distinct(out) && e.mod !in Mods(out) ==> Distinct(out + [e])
  {
    assert forall i :: 0 <= i < |out| ==> out[i].mod in Mods(out);
  }

  /** An import not listed yet hangs below the entry being visited: no earlier entry imports it. */
  lemma {:induction false} GrowBy(db: Db, roots: seq<string>, out: seq<Entry>, ps: seq<nat>, c: nat, x: string)
    requires Grown(db, roots, out, ps, c + 1, c) && c < |out|
    requires out[c].loaded && Imports(db, out[c].mod, x) && x !in Mods(out)
    ensures Grown(db, roots, out + [ChildEntry(db, x, out[c].mod)], ps + [c], c + 1, c)
    ensures Mods(out + [ChildEntry(db, x, out[c].mod)]) == Mods(out) + {x}
  {
    var e := ChildEntry(db, x, out[c].mod);
    ModsOn(out, e);
    FirstImporter(db, out, c, x);
    HungOn(db, |Seeds(roots)|, out, ps, c, e);
    assert Listed(db, out + [e], c);
  }

  function LoadedOf(out: seq<Entry>): seq<string> {
    if out == [] then [] else (if out[0].loaded then [out[0].mod] else []) + LoadedOf(out[1..])
  }

  lemma {:induction false} Regroup<T>(a: seq<T>, b: seq<T>, c: seq<T>)
    ensures a + (b + c) == (a + b) + c
  {}

  lemma {:induction false} LoadedConcat(a: seq<Entry>, b: seq<Entry>)
    ensures LoadedOf(a + b) == LoadedOf(a) + LoadedOf(b)
  {
    if a == [] {
      assert a + b == b;
    } else {
      var h := if a[0].loaded then [a[0].mod] else [];
      LoadedConcat(a[1..], b);
      assert (a + b)[0] == a[0] && (a + b)[1..] == a[1..] + b;
      Regroup(h, LoadedOf(a[1..]), LoadedOf(b));
    }
  }

  lemma {:induction false} LoadedAppend(out: seq<Entry>, n: nat, more: seq<Entry>)
    requires n <= |out| && out <= more
    ensures LoadedOf(more[n..]) == LoadedOf(out[n..]) + LoadedOf(more[|out|..])
  {
    LoadedConcat(out[n..], more[|out|..]);
    assert more[n..] == out[n..] + more[|out|..];
  }

  /** The next loaded entry from `h` on. */
  lemma {:induction false} NextLoaded(out: seq<Entry>, h: nat) returns (c: nat)
    requires h <= |out| && LoadedOf(out[h..]) != []
    ensures h <= c < |out| && out[c].loaded && forall k :: h <= k < c ==> !out[k].loaded
    ensures LoadedOf(out[h..]) == [out[c].mod] + LoadedOf(out[c + 1..])
    decreases |out| - h
  {
    assert h < |out|;
    assert out[h..] == [out[h]] + out[h + 1..];
    if out[h].loaded {
      c := h;
    } else {
      c := NextLoaded(out, h + 1);
    }
  }

  lemma {:induction false} NoneLoaded(out: seq<Entry>, h: nat)
    requires h <= |out| && LoadedOf(out[h..]) == []
    ensures forall k :: h <= k < |out| ==> !out[k].loaded
    decreases |out| - h
  {
    if h < |out| {
      assert out[h..] == [out[h]] + out[h + 1..];
      NoneLoaded(out, h + 1);
    }
  }

  lemma {:induction false} LoadedIffStored(db: Db, roots: seq<string>, out: seq<Entry>, ps: seq<nat>, h: nat, i: nat)
    requires Forest(db, roots, out, ps, h) && i < |out|
    ensures out[i].loaded <==> out[i].mod in db.sources
  {
    if i < |Seeds(roots)| {
      assert out[i] == RootEntry(db, Seeds(roots)[i]);
    } else {
      assert HangsBelow(db, out, i, ps[i]);
    }
  }

  /** Entries that are not loaded have no imports to list. */
  lemma {:induction false} SkipUnloaded(db: Db, roots: seq<string>, out: seq<Entry>, ps: seq<nat>, h: nat, c: nat)
    requires Forest(db, roots, out, ps, h) && h <= c <= |out| && forall k :: h <= k < c ==> !out[k].loaded
    ensures Forest(db, roots, out, ps, c)
  {
    forall k | h <= k < c ensures out[k].mod !in db.sources {
      LoadedIffStored(db, roots, out, ps, h, k);
    }
  }

  /**
   * The work-list loop: it ends, on cyclic imports too, with a complete forest, or fails on the first root that is
   * not stored.
   */
  method ListImportClosureUnion(db: Db, roots: seq<string>) returns (r: Result, ghost ps: seq<nat>)
    ensures r.NoRoot? <==> exists x :: x in roots && x != "" && x !in db.sources
    ensures r.NoRoot? ==> r.root in roots && r.root != "" && r.root !in db.sources
    ensures r.Found? ==> Forest(db, roots, r.entries, ps, |r.entries|)
  {
    var bad, out := SeedRoots(db, roots);
    ps := seq(|out|, _ => 0);
    if bad.Some? {
      return NoRoot(bad.value), ps;
    }
    var frontier := Frontier(out);
    ghost var h := 0;
    var pendings: Pendings := map[];
    while frontier != []
      invariant Walking(db, roots, out, ps, h, frontier, pendings)
      decreases Unvisited(db, out, h)
    {
      ghost var c := RoundStarts(db, roots, out, ps, h, frontier, pendings);
      ghost var before, known, todo := out, pendings, frontier;
      var found;
      out, pendings, found, ps := Round(db, frontier[0], out, pendings, roots, ps, c);
      RoundEnds(db, before, h, c, todo, known, out, found, pendings);
      frontier := frontier[1..] + found;
      h := c + 1;
    }
    NoneLoaded(out, h);
    SkipUnloaded(db, roots, out, ps, h, |out|);
    r := Found(out);
  }

  /** The state of the loop: the frontier is what is loaded among the entries not yet visited. */
  ghost predicate Walking(db: Db, roots: seq<string>, out: seq<Entry>, ps: seq<nat>, h: nat, frontier: seq<string>,
      pendings: Pendings)
  {
    && Forest(db, roots, out, ps, h) && frontier == LoadedOf(out[h..])
    && forall x, m :: m !in Mods(out[..h]) ==> At(pendings, x, m) == []
  }

  ghost function Unvisited(db: Db, out: seq<Entry>, h: nat): nat {
    if h <= |out| then |db.sources.Keys - Mods(out[..h])| else 0
  }

  /** The first module of the frontier is the next loaded entry. */
  lemma {:induction false} RoundStarts(db: Db, roots: seq<string>, out: seq<Entry>, ps: seq<nat>, h: nat,
      frontier: seq<string>, pendings: Pendings) returns (c: nat)
    requires Walking(db, roots, out, ps, h, frontier, pendings) && frontier != []
    ensures h <= c < |out| && Forest(db, roots, out, ps, c)
    ensures out[c].loaded && frontier == [out[c].mod] + LoadedOf(out[c + 1..]) && out[c].mod in db.sources
    ensures forall x :: At(pendings, x, out[c].mod) == []
    ensures Mods(out[..h]) <= Mods(out[..c + 1]) && out[c].mod in Mods(out[..c + 1])
    ensures Unvisited(db, out, c + 1) < Unvisited(db, out, h)
  {
    c := NextLoaded(out, h);
    SkipUnloaded(db, roots, out, ps, h, c);
    Progress(db, roots, out, ps, h, c);
  }

  /** Lists the imports of the module taken off the frontier. */
  method Round(db: Db, cur: string, out: seq<Entry>, pendings: Pendings, ghost roots: seq<string>, ghost ps: seq<nat>,
      ghost c: nat) returns (after: seq<Entry>, pendings': Pendings, found: seq<string>, ghost qs: seq<nat>)
    requires Forest(db, roots, out, ps, c) && c < |out| && out[c].loaded && out[c].mod == cur && cur in db.sources
    requires forall x :: At(pendings, x, cur) == []
    ensures Forest(db, roots, after, qs, c + 1) && out <= after && found == LoadedOf(after[|out|..])
    ensures Aggregated(pendings, pendings', ImportsOf(db, cur), cur)
  {
    pendings' := Aggregate(ImportsOf(db, cur), cur, pendings);
    after, qs, found := Visit(db, cur, out, pendings', roots, c, ps);
  }

  lemma {:induction false} RoundEnds(db: Db, out: seq<Entry>, h: nat, c: nat, frontier: seq<string>, pendings: Pendings,
      after: seq<Entry>, found: seq<string>, pendings': Pendings)
    requires h <= c < |out| && out <= after && frontier == [out[c].mod] + LoadedOf(out[c + 1..])
    requires found == LoadedOf(after[|out|..]) && Mods(out[..h]) <= Mods(out[..c + 1])
    requires forall x, m :: m !in Mods(out[..h]) ==> At(pendings, x, m) == []
    requires Aggregated(pendings, pendings', ImportsOf(db, out[c].mod), out[c].mod) && out[c].mod in Mods(out[..c + 1])
    ensures frontier[1..] + found == LoadedOf(after[c + 1..])
    ensures after[..c + 1] == out[..c + 1] && Unvisited(db, after, c + 1) == Unvisited(db, out, c + 1)
    ensures forall x, m :: m !in Mods(after[..c + 1]) ==> At(pendings', x, m) == []
  {
    LoadedAppend(out, c + 1, after);
    assert after[..c + 1] == out[..c + 1];
  }

  /** The names of the seeded entries. */
  method Frontier(out: seq<Entry>) returns (frontier: seq<string>)
    requires forall e :: e in out ==> e.loaded
    ensures frontier == LoadedOf(out)
  {
    frontier := [];
    for i := 0 to |out|
      invariant frontier == LoadedOf(out[..i])
    {
      assert out[..i + 1] == out[..i] + [out[i]];
      LoadedSnoc(out[..i], 0, out[i]);
      assert out[..i][0..] == out[..i] && (out[..i] + [out[i]])[0..] == out[..i] + [out[i]];
      frontier := frontier + [out[i].mod];
    }
    assert out[..|out|] == out;
  }

  /** Every visit takes a stored module that was not visited before. */
  lemma {:induction false} Progress(db: Db, roots: seq<string>, out: seq<Entry>, ps: seq<nat>, h: nat, c: nat)
    requires Forest(db, roots, out, ps, c) && h <= c < |out| && out[c].loaded
    ensures out[c].mod in db.sources && out[c].mod !in Mods(out[..c]) && Mods(out[..h]) <= Mods(out[..c])
    ensures Mods(out[..c + 1]) == Mods(out[..c]) + {out[c].mod}
    ensures |db.sources.Keys - Mods(out[..c + 1])| < |db.sources.Keys - Mods(out[..h])|
  {
    LoadedIffStored(db, roots, out, ps, c, c);
    assert out[..c + 1] == out[..c] + [out[c]];
    ModsOn(out[..c], out[c]);
    forall e | e in out[..h] ensures e in out[..c] {
      assert out[..h] <= out[..c];
    }
    FewerLeft(db.sources.Keys, Mods(out[..h]), Mods(out[..c]), out[c].mod);
  }

  lemma {:induction false} FewerLeft(all: set<string>, h: set<string>, c: set<string>, x: string)
    requires h <= c && x in all && x !in c
    ensures |all - (c + {x})| < |all - h|
  {
    assert all - (c + {x}) + {x} <= all - h;
    SubsetSize(all - (c + {x}) + {x}, all - h);
  }

  // ---- The closure is exactly what is reachable, in breadth-first order ----

  ghost predicate Complete(db: Db, roots: seq<string>, out: seq<Entry>, ps: seq<nat>) {
    Forest(db, roots, out, ps, |out|)
  }

  ghost predicate Points(ps: seq<nat>, n: nat) {
    forall i :: n <= i < |ps| ==> ps[i] < i
  }

  /** The distance of an entry from its root in the forest. */
  ghost function Depth(ps: seq<nat>, n: nat, i: nat): nat
    requires Points(ps, n) && i < |ps|
    decreases i
  {
    if i < n then 0 else Depth(ps, n, ps[i]) + 1
  }

  lemma {:induction false} DepthRises(ps: seq<nat>, n: nat, i: nat, j: nat)
    requires Points(ps, n) && i <= j < |ps| && forall k, l :: n <= k < l < |ps| ==> ps[k] <= ps[l]
    ensures Depth(ps, n, i) <= Depth(ps, n, j)
    decreases j
  {
    if n <= i < j {
      DepthRises(ps, n, ps[i], ps[j]);
    }
  }

  lemma {:induction false} SeedsAreMods(db: Db, roots: seq<string>, out: seq<Entry>, i: nat)
    requires RootsFirst(db, Seeds(roots), out) && i < |Seeds(roots)|
    ensures out[i].mod == Seeds(roots)[i] && out[i].mod in Seeds(roots)
  {}

  lemma {:induction false} ListedIsReachable(db: Db, roots: seq<string>, out: seq<Entry>, ps: seq<nat>, i: nat)
    requires Complete(db, roots, out, ps) && i < |out|
    ensures Within(db, roots, out[i].mod, Depth(ps, |Seeds(roots)|, i))
    decreases i
  {
    if i < |Seeds(roots)| {
      SeedsAreMods(db, roots, out, i);
    } else {
      ListedIsReachable(db, roots, out, ps, ps[i]);
      assert HangsBelow(db, out, i, ps[i]);
    }
  }

  /** A module within `k` steps is listed at depth `k` or less. */
  lemma {:induction false} ReachableIsListed(db: Db, roots: seq<string>, out: seq<Entry>, ps: seq<nat>, x: string, k: nat)
      returns (i: nat)
    requires Complete(db, roots, out, ps) && Within(db, roots, x, k)
    ensures i < |out| && out[i].mod == x && Depth(ps, |Seeds(roots)|, i) <= k
    decreases k
  {
    var n := |Seeds(roots)|;
    if x in Seeds(roots) {
      i :| 0 <= i < n && Seeds(roots)[i] == x;
      SeedsAreMods(db, roots, out, i);
    } else {
      var m :| Within(db, roots, m, k - 1) && Imports(db, m, x);
      var p := ReachableIsListed(db, roots, out, ps, m, k - 1);
      assert x in Mods(out);
      i :| 0 <= i < |out| && out[i].mod == x;
      if i >= n {
        FirstIsNearest(db, roots, out, ps, i, p);
      }
    }
  }

  /** An entry is no deeper than one below any of its importers. */
  lemma {:induction false} FirstIsNearest(db: Db, roots: seq<string>, out: seq<Entry>, ps: seq<nat>, i: nat, p: nat)
    requires Complete(db, roots, out, ps) && |Seeds(roots)| <= i < |out| && p < |out|
    requires Imports(db, out[p].mod, out[i].mod)
    ensures Depth(ps, |Seeds(roots)|, i) <= Depth(ps, |Seeds(roots)|, p) + 1
  {
    assert HangsBelow(db, out, i, ps[i]);
    DepthRises(ps, |Seeds(roots)|, ps[i], p);
  }

  /** The closure holds exactly the modules reachable from the roots through loaded modules, each once. */
  lemma {:induction false} ClosureIsReachable(db: Db, roots: seq<string>, out: seq<Entry>, ps: seq<nat>, x: string)
    requires Complete(db, roots, out, ps)
    ensures x in Mods(out) <==> exists k: nat :: Within(db, roots, x, k)
    ensures forall i, j :: 0 <= i < j < |out| ==> out[i].mod != out[j].mod
  {
    if x in Mods(out) {
      var i :| 0 <= i < |out| && out[i].mod == x;
      ListedIsReachable(db, roots, out, ps, i);
      assert Within(db, roots, x, Depth(ps, |Seeds(roots)|, i));
    }
    forall k: nat | Within(db, roots, x, k) ensures x in Mods(out) {
      var i := ReachableIsListed(db, roots, out, ps, x, k);
      assert out[i] in out;
    }
  }

  /** Entries come in order of their distance from the roots. */
  lemma {:induction false} ClosureIsBreadthFirst(db: Db, roots: seq<string>, out: seq<Entry>, ps: seq<nat>, i: nat,
      j: nat)
    requires Complete(db, roots, out, ps) && i <= j < |out|
    ensures var n := |Seeds(roots)|;
            && AtDistance(db, roots, out[i].mod, Depth(ps, n, i)) && AtDistance(db, roots, out[j].mod, Depth(ps, n, j))
            && Depth(ps, n, i) <= Depth(ps, n, j)
  {
    DepthRises(ps, |Seeds(roots)|, i, j);
    IsDistance(db, roots, out, ps, i);
    IsDistance(db, roots, out, ps, j);
  }

  lemma {:induction false} IsDistance(db: Db, roots: seq<string>, out: seq<Entry>, ps: seq<nat>, i: nat)
    requires Complete(db, roots, out, ps) && i < |out|
    ensures AtDistance(db, roots, out[i].mod, Depth(ps, |Seeds(roots)|, i))
  {
    var d := Depth(ps, |Seeds(roots)|, i);
    ListedIsReachable(db, roots, out, ps, i);
    forall k: nat | Within(db, roots, out[i].mod, k) ensures d <= k {
      var j := ReachableIsListed(db, roots, out, ps, out[i].mod, k);
      assert j == i;
    }
  }

  /**
   * Every entry that is no root names as importer an earlier loaded entry one step nearer, the first that imports it,
   * and lists the symbols of that import without repeats.
   */
  lemma {:induction false} ImporterIsNearer(db: Db, roots: seq<string>, out: seq<Entry>, ps: seq<nat>, i: nat)
    requires Complete(db, roots, out, ps) && |Seeds(roots)| <= i < |out|
    ensures var p, n := ps[i], |Seeds(roots)|;
            && p < i && out[p].loaded && out[i].importedBy == out[p].mod && Imports(db, out[p].mod, out[i].mod)
            && out[i].symbols == Symbols(ImportsOf(db, out[p].mod), out[i].mod)
            && Depth(ps, n, i) == Depth(ps, n, p) + 1
            && (forall k :: 0 <= k < p ==> !Imports(db, out[k].mod, out[i].mod))
            && (out[i].loaded <==> out[i].mod in db.sources)
  {
    assert HangsBelow(db, out, i, ps[i]);
  }

  /** The symbols of an import are exactly those some row imports, each once. */
  lemma {:induction false} SymbolsAre(imps: seq<Import>, from: string)
    ensures forall s :: s in Symbols(imps, from) <==> Import(from, s) in imps
    ensures forall i, j :: 0 <= i < j < |Symbols(imps, from)| ==> Symbols(imps, from)[i] != Symbols(imps, from)[j]
  {
    if imps != [] {
      SymbolsAre(imps[..|imps| - 1], from);
      assert imps == imps[..|imps| - 1] + [imps[|imps| - 1]];
    }
  }

  /** Every entry tells whether its module is stored, and its source if it is; a root has no importer. */
  lemma {:induction false} EntriesAre(db: Db, roots: seq<string>, out: seq<Entry>, ps: seq<nat>, i: nat)
    requires Complete(db, roots, out, ps) && i < |out|
    ensures out[i].loaded <==> out[i].mod in db.sources
    ensures out[i].source == if out[i].mod in db.sources then db.sources[out[i].mod] else ""
    ensures out[i].mod in Seeds(roots) <==> i < |Seeds(roots)|
    ensures i < |Seeds(roots)| ==> out[i].mod == Seeds(roots)[i] && out[i].importedBy == "" && out[i].symbols == []
  {
    LoadedIffStored(db, roots, out, ps, |out|, i);
    if i < |Seeds(roots)| {
      assert out[i] == RootEntry(db, Seeds(roots)[i]);
    } else {
      assert HangsBelow(db, out, i, ps[i]);
    }
  }

  /** The seeds are the roots that are not empty, each once, in the order of first mention. */
  lemma {:induction false} SeedsAre(roots: seq<string>)
    ensures forall r :: r in Seeds(roots) <==> r in roots && r != ""
    ensures forall i, j :: 0 <= i < j < |Seeds(roots)| ==> Seeds(roots)[i] != Seeds(roots)[j]
  {
    if roots != [] {
      SeedsAre(roots[..|roots| - 1]);
      assert roots == roots[..|roots| - 1] + [roots[|roots| - 1]];
    }
  }
}
