/** The corpus as the engine sees it: files on disk, fingerprints and stored modules (internal/mibimport). */
module Corpus {
  import opened Decimal

  type Content = string

  /** Where a file sits: flat in import/, in one of the two outcome directories, or in the curated tree. */
  datatype Dir = Intake | FailedDir | DuplicateDir | Curated(dir: string)

  datatype Path = Path(dir: Dir, base: string)

  datatype Print = Print(sha: string, mod: string)

  /** A stored module: its source of record and the content its rows were compiled from. */
  datatype Row = Row(source: Path, data: Content)

  datatype State = State(disk: map<Path, Content>, prints: map<Path, Print>, modules: map<string, Row>)

  const UNSORTED := Curated("unsorted")

  // ---- Free names ----

  function Numbered(p: Path, i: nat): Path {
    Path(p.dir, p.base + ("-" + Dec(i)))
  }

  /** `r` is `p` when it is free, and otherwise the first free one of p-1, p-2, ... */
  ghost predicate FreeFor(disk: map<Path, Content>, p: Path, r: Path) {
    r !in disk && (r == p || (p in disk && exists k: nat :: 1 <= k && r == Numbered(p, k) && TakenBelow(disk, p, k)))
  }

  ghost predicate TakenBelow(disk: map<Path, Content>, p: Path, k: nat) {
    forall j: nat :: 1 <= j < k ==> Numbered(p, j) in disk
  }

  lemma {:induction false} NumberedDiffer(p: Path, i: nat, j: nat)
    requires Numbered(p, i) == Numbered(p, j)
    ensures i == j
  {
    assert (p.base + ("-" + Dec(i)))[|p.base| + 1..] == Dec(i);
    assert (p.base + ("-" + Dec(j)))[|p.base| + 1..] == Dec(j);
    ValueOfDec(i);
    ValueOfDec(j);
  }

  method UniquePath(disk: map<Path, Content>, p: Path) returns (r: Path)
    ensures r.dir == p.dir && FreeFor(disk, p, r)
  {
    if p !in disk {
      return p;
    }
    var i: nat := 1;
    ghost var left := disk.Keys;
    while Numbered(p, i) in disk
      invariant 1 <= i && TakenBelow(disk, p, i)
      invariant left <= disk.Keys && forall j: nat :: i <= j && Numbered(p, j) in disk ==> Numbered(p, j) in left
      decreases left
    {
      forall j: nat | i + 1 <= j && Numbered(p, j) in disk ensures Numbered(p, j) in left - {Numbered(p, i)} {
        if Numbered(p, j) == Numbered(p, i) {
          NumberedDiffer(p, i, j);
        }
      }
      left := left - {Numbered(p, i)};
      i := i + 1;
    }
    r := Numbered(p, i);
  }

  // ---- What every import keeps ----

  /** The fingerprint at `p` is of the file there and of the module whose source that is. */
  ghost predicate PrintHolds(sha: Content -> string, s: State, p: Path)
    requires p in s.prints
  {
    && p.dir.Curated? && p in s.disk && s.prints[p].sha == sha(s.disk[p])
    && s.prints[p].mod in s.modules && s.modules[s.prints[p].mod] == Row(p, s.disk[p])
    && (p.dir != UNSORTED ==> p.base == s.prints[p].mod)
  }

  ghost predicate Backed(s: State, m: string)
    requires m in s.modules
  {
    s.modules[m].source in s.prints && s.prints[s.modules[m].source].mod == m
  }

  /** Modules and fingerprints are in bijection, through the curated files. */
  ghost predicate Consistent(sha: Content -> string, s: State) {
    && (forall p :: p in s.prints ==> PrintHolds(sha, s, p))
    && (forall m :: m in s.modules ==> Backed(s, m))
  }

  /** Read as a bijection: each module has one fingerprint, at its source, and each fingerprint one module. */
  lemma {:induction false} OnePrintEach(sha: Content -> string, s: State, p: Path, m: string)
    requires Consistent(sha, s)
    ensures p in s.prints && s.prints[p].mod == m <==> m in s.modules && s.modules[m].source == p
    ensures m in s.modules ==> s.modules[m].source in s.disk && s.disk[s.modules[m].source] == s.modules[m].data
                               && s.prints[s.modules[m].source].sha == sha(s.modules[m].data)
  {
    if p in s.prints {
      assert PrintHolds(sha, s, p);
    }
    if m in s.modules {
      assert Backed(s, m);
      assert PrintHolds(sha, s, s.modules[m].source);
    }
  }

  /** No curated file outside unsorted/ bears the name of a module that is not stored. */
  ghost predicate Tidy(s: State) {
    forall p :: p in s.disk && p.dir.Curated? && p.dir != UNSORTED ==> p.base in s.modules
  }

  // ---- The two steps: a move, and filing a module ----

  function MoveFile(disk: map<Path, Content>, p: Path, q: Path): map<Path, Content>
    requires p in disk
  {
    (disk - {p})[q := disk[p]]
  }

  function Moved(s: State, p: Path, q: Path): State
    requires p in s.disk
  {
    s.(disk := MoveFile(s.disk, p, q))
  }

  /** The superseded source of a module, unless it is the destination itself. */
  function Superseded(s: State, name: string, dest: Path): set<Path> {
    if name in s.modules && s.modules[name].source != dest then {s.modules[name].source} else {}
  }

  function Filed(sha: Content -> string, s: State, p: Path, dest: Path, name: string): State
    requires p in s.disk
  {
    var gone := Superseded(s, name, dest) - {p};
    State(MoveFile(s.disk - gone, p, dest), (s.prints - gone)[dest := Print(sha(s.disk[p]), name)],
          s.modules[name := Row(dest, s.disk[p])])
  }

  lemma {:induction false} MoveKeepsConsistent(sha: Content -> string, s: State, p: Path, q: Path)
    requires Consistent(sha, s) && p in s.disk && !p.dir.Curated? && q !in s.disk
    ensures Consistent(sha, Moved(s, p, q))
  {
    var t := Moved(s, p, q);
    forall x | x in t.prints ensures PrintHolds(sha, t, x) {
      assert PrintHolds(sha, s, x);
    }
    forall m | m in t.modules ensures Backed(t, m) {
      assert Backed(s, m);
    }
  }

  /** Where a module may be filed: under its own name, or anywhere free in unsorted/. */
  ghost predicate GoodDest(s: State, dest: Path, name: string) {
    dest.dir.Curated? && if dest.dir == UNSORTED then dest !in s.disk else dest.base == name
  }

  lemma {:induction false} FilingKeepsConsistent(sha: Content -> string, s: State, p: Path, dest: Path, name: string)
    requires Consistent(sha, s) && p in s.disk && !p.dir.Curated? && GoodDest(s, dest, name)
    ensures Consistent(sha, Filed(sha, s, p, dest, name))
  {
    var t := Filed(sha, s, p, dest, name);
    forall x | x in t.prints ensures PrintHolds(sha, t, x) {
      if x != dest {
        assert PrintHolds(sha, s, x);
      }
    }
    forall m | m in t.modules ensures Backed(t, m) {
      if m != name {
        assert Backed(s, m);
        var x := s.modules[m].source;
        assert PrintHolds(sha, s, x);
        if name in s.modules {
          assert Backed(s, name);
        }
      }
    }
  }

  // ---- Conservation of contents ----

  ghost function Any(disk: map<Path, Content>): (p: Path)
    requires disk != map[]
    ensures p in disk
  {
    var p :| p in disk;
    p
  }

  /** The contents of all files, with multiplicity. */
  ghost function Bag(disk: map<Path, Content>): multiset<Content>
    decreases |disk|
  {
    if disk == map[] then multiset{}
    else
      Smaller(disk, Any(disk));
      Bag(disk - {Any(disk)}) + multiset{disk[Any(disk)]}
  }

  lemma {:induction false} Smaller(disk: map<Path, Content>, p: Path)
    requires p in disk
    ensures |disk - {p}| < |disk|
  {
    assert disk.Keys == (disk - {p}).Keys + {p};
    assert |disk| == |disk.Keys| && |disk - {p}| == |(disk - {p}).Keys|;
  }

  lemma {:induction false} TwoOut(disk: map<Path, Content>, x: Path, p: Path)
    requires x in disk && p in disk && x != p
    ensures disk - {x} - {p} == disk - {p} - {x} && p in disk - {x} && x in disk - {p}
    ensures (disk - {x})[p] == disk[p] && (disk - {p})[x] == disk[x]
  {}

  lemma {:induction false} BagOf(disk: map<Path, Content>, p: Path)
    requires p in disk
    ensures Bag(disk) == Bag(disk - {p}) + multiset{disk[p]}
    decreases |disk|
  {
    var x := Any(disk);
    if x != p {
      TwoOut(disk, x, p);
      Smaller(disk, x);
      Smaller(disk, p);
      BagOf(disk - {x}, p);
      BagOf(disk - {p}, x);
    }
  }

  /** A move to a free place changes no file's content. */
  lemma {:induction false} MoveConserves(disk: map<Path, Content>, p: Path, q: Path)
    requires p in disk && q !in disk
    ensures Bag(MoveFile(disk, p, q)) == Bag(disk)
  {
    var after := MoveFile(disk, p, q);
    assert after - {q} == disk - {p};
    BagOf(disk, p);
    BagOf(after, q);
  }
}
