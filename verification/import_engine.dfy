/** The intake pipeline from import/ into the curated tree (internal/mibimport/engine.go). */
module ImportEngine {
  import opened Model
  import opened Corpus
  import opened Decimal

  datatype Compiled = Broken | OutOfBudget | NoIdentity | Compiled(name: string, oid: string)

  /**
   * What the engine calls and does not define: hashing, the opener sniff, the compiler as a function of the disk and
   * the file, the check of module names, and the classifier (no directory means unsorted/).
   */
  datatype Tools =
    Tools(sha: Content -> string, opener: Content -> bool, compile: (map<Path, Content>, Path) -> Compiled,
          validName: string -> bool, place: (string, string) -> Option<string>)

  ghost predicate NamesUnsortedByNone(tools: Tools) {
    forall oid, name :: tools.place(oid, name) != Some("unsorted")
  }

  datatype Outcome =
    Imported(path: Path, mod: string, dest: Path) | Rejected(path: Path) | Known(path: Path, existing: Path)

  const SIDECAR := ".reason.json"

  predicate Hidden(base: string) {
    base != "" && base[0] == '.'
  }

  predicate IsSidecar(base: string) {
    |base| >= |SIDECAR| && base[|base| - |SIDECAR|..] == SIDECAR
  }

  predicate Reserved(base: string) {
    Hidden(base) || IsSidecar(base)
  }

  predicate Eligible(s: State, p: Path) {
    p.dir == Intake && !Reserved(p.base) && p in s.disk
  }

  // ---- One file settled ----

  /** Nothing but `p` moved, nothing was overwritten, and what was stored is stored unchanged. */
  ghost predicate Kept(s: State, t: State, batch: set<Path>) {
    && (forall x :: x in s.disk && x !in batch ==> x in t.disk && t.disk[x] == s.disk[x])
    && Bag(t.disk) == Bag(s.disk)
    && (forall m :: m in s.modules ==> m in t.modules && t.modules[m] == s.modules[m])
    && (forall x :: x in s.prints ==> x in t.prints && t.prints[x] == s.prints[x])
    && Tidy(t)
  }

  /** The file `p` left intake, and outside the curated tree no other file was touched. */
  ghost predicate LeftIntake(s: State, t: State, p: Path) {
    && p !in t.disk
    && (forall x :: x in s.disk && !x.dir.Curated? && x != p ==> x in t.disk && t.disk[x] == s.disk[x])
    && (forall x :: x in t.disk && x.dir == Intake ==> x in s.disk)
  }

  /** The outcome tells what became of the modules. */
  ghost predicate Tells(s: State, t: State, o: Outcome) {
    && o.path in s.disk
    && (o.Imported? ==> t.modules == s.modules[o.mod := Row(o.dest, s.disk[o.path])] && o.dest in t.disk
                        && t.disk[o.dest] == s.disk[o.path])
    && (!o.Imported? ==> t.modules == s.modules)
  }

  function OutcomeDir(o: Outcome): Dir {
    if o.Known? then DuplicateDir else FailedDir
  }

  /** The file moved to a free name of the directory its outcome calls for. */
  ghost predicate PutAway(disk: map<Path, Content>, after: map<Path, Content>, o: Outcome) {
    && o.path in disk
    && exists q :: FreeFor(disk, Path(OutcomeDir(o), o.path.base), q) && q.dir == OutcomeDir(o)
                   && after == MoveFile(disk, o.path, q)
  }

  /** Filing or quarantining one file; `strict` when nothing may be replaced. */
  ghost predicate Settled(sha: Content -> string, s: State, t: State, o: Outcome, strict: bool) {
    && Consistent(sha, t) && LeftIntake(s, t, o.path) && Tells(s, t, o)
    && (!o.Imported? ==> PutAway(s.disk, t.disk, o))
    && (strict ==> Kept(s, t, {o.path}) && (o.Imported? ==> o.mod !in s.modules))
  }

  lemma {:induction false} QuarantineSettles(sha: Content -> string, s: State, o: Outcome, q: Path, strict: bool)
    requires Consistent(sha, s) && o.path in s.disk && o.path.dir == Intake && !o.Imported?
    requires FreeFor(s.disk, Path(OutcomeDir(o), o.path.base), q) && q.dir == OutcomeDir(o) && (strict ==> Tidy(s))
    ensures Settled(sha, s, Moved(s, o.path, q), o, strict)
  {
    MoveKeepsConsistent(sha, s, o.path, q);
    MoveConserves(s.disk, o.path, q);
  }

  lemma {:induction false} FiledNew(sha: Content -> string, s: State, p: Path, dest: Path, name: string)
    requires p in s.disk && name !in s.modules
    ensures Filed(sha, s, p, dest, name)
         == State(MoveFile(s.disk, p, dest), s.prints[dest := Print(sha(s.disk[p]), name)],
                  s.modules[name := Row(dest, s.disk[p])])
  {
    assert s.disk - {} == s.disk && s.prints - {} == s.prints;
  }

  lemma {:induction false} NewDestIsFree(sha: Content -> string, s: State, dest: Path, name: string)
    requires Consistent(sha, s) && GoodDest(s, dest, name) && Tidy(s) && name !in s.modules
    ensures dest !in s.disk && dest !in s.prints
  {
    assert dest in s.prints ==> PrintHolds(sha, s, dest);
  }

  lemma {:induction false} AddingKeeps(s: State, p: Path, dest: Path, name: string, fingerprint: Print, row: Row)
    requires p in s.disk && dest !in s.disk && dest !in s.prints && name !in s.modules && Tidy(s)
    requires dest.dir != UNSORTED ==> dest.base == name
    ensures Kept(s, State(MoveFile(s.disk, p, dest), s.prints[dest := fingerprint], s.modules[name := row]), {p})
  {
    var t := State(MoveFile(s.disk, p, dest), s.prints[dest := fingerprint], s.modules[name := row]);
    MoveConserves(s.disk, p, dest);
    assert Tidy(t);
  }

  lemma {:induction false} FilingKeeps(sha: Content -> string, s: State, p: Path, dest: Path, name: string)
    requires Consistent(sha, s) && p in s.disk && p.dir == Intake && GoodDest(s, dest, name)
    requires Tidy(s) && name !in s.modules
    ensures Kept(s, Filed(sha, s, p, dest, name), {p})
  {
    NewDestIsFree(sha, s, dest, name);
    FiledNew(sha, s, p, dest, name);
    AddingKeeps(s, p, dest, name, Print(sha(s.disk[p]), name), Row(dest, s.disk[p]));
  }

  /** Only a curated file can be superseded. */
  lemma {:induction false} SupersededIsCurated(sha: Content -> string, s: State, name: string, dest: Path)
    requires Consistent(sha, s)
    ensures forall x :: x in Superseded(s, name, dest) ==> x.dir.Curated? && x != dest
  {
    if name in s.modules {
      assert Backed(s, name);
      assert PrintHolds(sha, s, s.modules[name].source);
    }
  }

  lemma {:induction false} FilingSettles(sha: Content -> string, s: State, p: Path, dest: Path, name: string,
      strict: bool)
    requires Consistent(sha, s) && p in s.disk && p.dir == Intake && GoodDest(s, dest, name)
    requires strict ==> Tidy(s) && name !in s.modules
    ensures Settled(sha, s, Filed(sha, s, p, dest, name), Imported(p, name, dest), strict)
  {
    var t := Filed(sha, s, p, dest, name);
    FilingKeepsConsistent(sha, s, p, dest, name);
    SupersededIsCurated(sha, s, name, dest);
    assert LeftIntake(s, t, p);
    assert Tells(s, t, Imported(p, name, dest));
    if strict {
      FilingKeeps(sha, s, p, dest, name);
    }
  }

  // ---- A batch ----

  ghost function PathsOf(outs: seq<Outcome>): set<Path> {
    set o | o in outs :: o.path
  }

  ghost function NamesOf(outs: seq<Outcome>): set<string> {
    set o | o in outs && o.Imported? :: o.mod
  }

  ghost predicate EachOnce(outs: seq<Outcome>) {
    forall i, j :: 0 <= i < j < |outs| ==> outs[i].path != outs[j].path
  }

  ghost predicate EachNameOnce(outs: seq<Outcome>) {
    forall i, j :: 0 <= i < j < |outs| && outs[i].Imported? && outs[j].Imported? ==> outs[i].mod != outs[j].mod
  }

  /** Reported files are gone from intake, and outside the curated tree all others are there unchanged. */
  ghost predicate Reported(s: State, t: State, batch: set<Path>, outs: seq<Outcome>) {
    && PathsOf(outs) <= batch && PathsOf(outs) <= s.disk.Keys && EachOnce(outs)
    && (forall x :: x in s.disk && !x.dir.Curated? && x !in PathsOf(outs) ==> x in t.disk && t.disk[x] == s.disk[x])
    && (forall x :: x in t.disk && x.dir == Intake ==> x in s.disk && x !in PathsOf(outs))
  }

  /** The imported modules are new ones, each of one file. */
  ghost predicate OnlyNew(s: State, outs: seq<Outcome>) {
    NamesOf(outs) !! s.modules.Keys && EachNameOnce(outs)
  }

  ghost predicate NamedAfter(p: Path, q: Path) {
    q == p || exists k: nat :: q == Numbered(p, k)
  }

  /** The content of the file is found in the directory of its outcome, under its name or a numbered one. */
  ghost predicate Shelved(s: State, t: State, o: Outcome) {
    && o.path in s.disk
    && exists q :: q in t.disk && NamedAfter(Path(OutcomeDir(o), o.path.base), q) && q.dir == OutcomeDir(o)
                   && t.disk[q] == s.disk[o.path]
  }

  ghost predicate AllShelved(s: State, t: State, outs: seq<Outcome>) {
    forall o :: o in outs && !o.Imported? ==> Shelved(s, t, o)
  }

  /** How far a batch has come. */
  ghost predicate Advanced(sha: Content -> string, s: State, t: State, batch: set<Path>, outs: seq<Outcome>,
      strict: bool)
  {
    && Consistent(sha, t) && Reported(s, t, batch, outs) && AllShelved(s, t, outs) && Added(s, t, outs, strict)
    && (strict ==> Kept(s, t, batch))
  }

  /** The former modules with every import written over them in order. */
  ghost function ModulesAfter(s: State, outs: seq<Outcome>): map<string, Row>
    requires PathsOf(outs) <= s.disk.Keys
  {
    if outs == [] then s.modules
    else
      PathsOn(outs[..|outs| - 1], outs[|outs| - 1]);
      assert outs == outs[..|outs| - 1] + [outs[|outs| - 1]];
      var m, o := ModulesAfter(s, outs[..|outs| - 1]), outs[|outs| - 1];
      if o.Imported? then m[o.mod := Row(o.dest, s.disk[o.path])] else m
  }

  ghost predicate Added(s: State, t: State, outs: seq<Outcome>, strict: bool)
    requires PathsOf(outs) <= s.disk.Keys
  {
    t.modules == ModulesAfter(s, outs) && (strict ==> OnlyNew(s, outs))
  }

  lemma {:induction false} ModulesAfterSnoc(s: State, outs: seq<Outcome>, o: Outcome)
    requires PathsOf(outs) <= s.disk.Keys && o.path in s.disk
    ensures PathsOf(outs + [o]) <= s.disk.Keys
    ensures ModulesAfter(s, outs + [o])
         == if o.Imported? then ModulesAfter(s, outs)[o.mod := Row(o.dest, s.disk[o.path])] else ModulesAfter(s, outs)
  {
    PathsOn(outs, o);
    assert (outs + [o])[..|outs|] == outs;
  }

  lemma {:induction false} ModulesAfterKeys(s: State, outs: seq<Outcome>)
    requires PathsOf(outs) <= s.disk.Keys
    ensures ModulesAfter(s, outs).Keys == s.modules.Keys + NamesOf(outs)
  {
    if outs != [] {
      var rest, o := outs[..|outs| - 1], outs[|outs| - 1];
      assert outs == rest + [o];
      PathsOn(rest, o);
      NamesOn(rest, o);
      ModulesAfterKeys(s, rest);
      ModulesAfterSnoc(s, rest, o);
    }
  }

  lemma {:induction false} Starts(sha: Content -> string, s: State, batch: set<Path>, strict: bool)
    requires Consistent(sha, s) && (strict ==> Tidy(s))
    ensures Advanced(sha, s, s, batch, [], strict)
  {}

  lemma {:induction false} KeptOn(s: State, t: State, u: State, batch: set<Path>, p: Path)
    requires Kept(s, t, batch) && Kept(t, u, {p}) && p in batch
    ensures Kept(s, u, batch)
  {}

  lemma {:induction false} PathsOn(outs: seq<Outcome>, o: Outcome)
    ensures PathsOf(outs + [o]) == PathsOf(outs) + {o.path}
    ensures EachOnce(outs) && o.path !in PathsOf(outs) ==> EachOnce(outs + [o])
  {
    assert forall i :: 0 <= i < |outs| ==> outs[i].path in PathsOf(outs);
  }

  function NameOf(o: Outcome): set<string> {
    if o.Imported? then {o.mod} else {}
  }

  lemma {:induction false} NamesOn(outs: seq<Outcome>, o: Outcome)
    ensures NamesOf(outs + [o]) == NamesOf(outs) + NameOf(o)
    ensures EachNameOnce(outs) && NameOf(o) !! NamesOf(outs) ==> EachNameOnce(outs + [o])
  {
    assert forall i :: 0 <= i < |outs| && outs[i].Imported? ==> outs[i].mod in NamesOf(outs);
  }

  lemma {:induction false} ReportedOn(s: State, t: State, u: State, batch: set<Path>, outs: seq<Outcome>, o: Outcome)
    requires Reported(s, t, batch, outs) && LeftIntake(t, u, o.path) && o.path in t.disk
    requires o.path in batch && o.path.dir == Intake
    ensures Reported(s, u, batch, outs + [o])
  {
    PathsOn(outs, o);
  }

  lemma {:induction false} AddedOn(s: State, t: State, u: State, outs: seq<Outcome>, o: Outcome, strict: bool)
    requires PathsOf(outs) <= s.disk.Keys && Added(s, t, outs, strict) && Tells(t, u, o)
    requires o.path in s.disk && s.disk[o.path] == t.disk[o.path] && (strict && o.Imported? ==> o.mod !in t.modules)
    ensures PathsOf(outs + [o]) <= s.disk.Keys && Added(s, u, outs + [o], strict)
  {
    NamesOn(outs, o);
    ModulesAfterKeys(s, outs);
    ModulesAfterSnoc(s, outs, o);
  }

  lemma {:induction false} ShelvedOn(s: State, t: State, u: State, outs: seq<Outcome>, o: Outcome)
    requires AllShelved(s, t, outs) && LeftIntake(t, u, o.path) && o.path.dir == Intake
    requires o.path in s.disk && o.path in t.disk && s.disk[o.path] == t.disk[o.path]
    requires !o.Imported? ==> PutAway(t.disk, u.disk, o)
    ensures AllShelved(s, u, outs + [o])
  {
    forall x | x in outs + [o] && !x.Imported? ensures Shelved(s, u, x) {
      if x in outs {
        var q :| q in t.disk && NamedAfter(Path(OutcomeDir(x), x.path.base), q) && q.dir == OutcomeDir(x)
                 && t.disk[q] == s.disk[x.path];
        assert q in u.disk && u.disk[q] == t.disk[q];
      } else {
        var q :| FreeFor(t.disk, Path(OutcomeDir(o), o.path.base), q) && q.dir == OutcomeDir(o)
                 && u.disk == MoveFile(t.disk, o.path, q);
        assert q in u.disk && NamedAfter(Path(OutcomeDir(o), o.path.base), q);
      }
    }
  }

  lemma {:induction false} Continues(sha: Content -> string, s: State, t: State, u: State, batch: set<Path>,
      outs: seq<Outcome>, o: Outcome, strict: bool)
    requires Advanced(sha, s, t, batch, outs, strict) && Settled(sha, t, u, o, strict)
    requires o.path in batch && o.path.dir == Intake
    ensures Advanced(sha, s, u, batch, outs + [o], strict)
  {
    ReportedOn(s, t, u, batch, outs, o);
    AddedOn(s, t, u, outs, o, strict);
    ShelvedOn(s, t, u, outs, o);
    if strict {
      KeptOn(s, t, u, batch, o.path);
    }
  }

  ghost predicate Distinct(q: seq<Path>) {
    forall i, j :: 0 <= i < j < |q| ==> q[i] != q[j]
  }

  function Batch(paths: seq<Path>): set<Path> {
    set p | p in paths
  }

  /** The files of `q` from `i` on are still to be reported. */
  ghost predicate Waiting(s: State, q: seq<Path>, i: nat, outs: seq<Outcome>) {
    forall k :: i <= k < |q| ==> Eligible(s, q[k]) && q[k] !in PathsOf(outs)
  }

  lemma {:induction false} WaitingOn(s: State, todo: seq<Path>, i: nat, outs: seq<Outcome>, o: Outcome)
    requires Distinct(todo) && i < |todo| && Waiting(s, todo, i, outs) && o.path == todo[i]
    ensures Waiting(s, todo, i + 1, outs + [o])
  {
    PathsOn(outs, o);
  }

  /** Why a file is turned away before the compile. */
  ghost predicate SniffVerdict(tools: Tools, s: State, o: Outcome, replace: bool) {
    && o.path in s.disk && !o.Imported?
    && if tools.opener(s.disk[o.path]) then
         !replace && o.Known? && o.existing in s.prints && s.prints[o.existing].sha == tools.sha(s.disk[o.path])
       else o.Rejected?
  }

  ghost predicate AllSniffed(tools: Tools, s: State, outs: seq<Outcome>, replace: bool) {
    forall o :: o in outs ==> SniffVerdict(tools, s, o, replace)
  }

  lemma {:induction false} SniffedOn(tools: Tools, s: State, t: State, outs: seq<Outcome>, o: Outcome, replace: bool)
    requires AllSniffed(tools, s, outs, replace) && SniffVerdict(tools, t, o, replace) && t.prints == s.prints
    requires o.path in s.disk && s.disk[o.path] == t.disk[o.path]
    ensures AllSniffed(tools, s, outs + [o], replace)
  {}

  /** Of a batch of eligible files only those reported have changed. */
  lemma {:induction false} Narrow(sha: Content -> string, s: State, t: State, batch: set<Path>, outs: seq<Outcome>,
      strict: bool)
    requires Advanced(sha, s, t, batch, outs, strict) && forall p :: p in batch ==> Eligible(s, p)
    ensures Advanced(sha, s, t, PathsOf(outs), outs, strict)
  {}

  // ---- Who is reported, and with which outcome ----

  ghost function Selected(q: seq<Path>, keep: Path -> bool): (r: seq<Path>)
    ensures forall p :: p in r <==> p in q && keep(p)
  {
    if q == [] then []
    else
      var rest, p := Selected(q[..|q| - 1], keep), q[|q| - 1];
      assert q == q[..|q| - 1] + [p];
      if keep(p) then rest + [p] else rest
  }

  lemma {:induction false} SelectedOn(q: seq<Path>, p: Path, keep: Path -> bool)
    ensures Selected(q + [p], keep) == if keep(p) then Selected(q, keep) + [p] else Selected(q, keep)
  {
    assert (q + [p])[..|q|] == q;
  }

  ghost function Listed(outs: seq<Outcome>): (r: seq<Path>)
    ensures |r| == |outs| && forall p :: p in r <==> p in PathsOf(outs)
  {
    var r := seq(|outs|, k requires 0 <= k < |outs| => outs[k].path);
    assert forall k :: 0 <= k < |outs| ==> outs[k] in outs && r[k] == outs[k].path;
    r
  }

  lemma {:induction false} ListedOn(outs: seq<Outcome>, o: Outcome)
    ensures Listed(outs + [o]) == Listed(outs) + [o.path]
  {}

  ghost predicate Fingerprinted(tools: Tools, s: State, p: Path)
    requires p in s.disk
  {
    exists x :: x in s.prints && s.prints[x].sha == tools.sha(s.disk[p])
  }

  /** The file is worth a compile: it looks like a module and, without replacement, its content is a new one. */
  ghost predicate Passes(tools: Tools, s: State, p: Path, replace: bool) {
    p in s.disk && tools.opener(s.disk[p]) && (replace || !Fingerprinted(tools, s, p))
  }

  ghost function Candidate(s: State): Path -> bool {
    p => Eligible(s, p)
  }

  ghost function Passing(tools: Tools, s: State, replace: bool): Path -> bool {
    p => Passes(tools, s, p, replace)
  }

  ghost function Failing(tools: Tools, s: State, replace: bool): Path -> bool {
    p => !Passes(tools, s, p, replace)
  }

  ghost function InBudget(tools: Tools, mid: map<Path, Content>): Path -> bool {
    p => tools.compile(mid, p) != OutOfBudget
  }

  predicate Identified(tools: Tools, c: Compiled) {
    c.Compiled? && c.name != "" && tools.validName(c.name)
  }

  ghost predicate Placed(tools: Tools, c: Compiled, dest: Path)
    requires c.Compiled?
  {
    match tools.place(c.oid, c.name)
    case Some(d) => dest == Path(Curated(d), c.name)
    case None => dest.dir == UNSORTED
  }

  /** What a compile result is worth while the modules `m` are stored. */
  ghost predicate Judged(tools: Tools, c: Compiled, m: map<string, Row>, replace: bool, o: Outcome) {
    && (o.Rejected? <==> !Identified(tools, c))
    && (o.Known? <==> Identified(tools, c) && c.name in m && !replace)
    && (o.Known? ==> o.existing == m[c.name].source)
    && (o.Imported? ==> o.mod == c.name && Placed(tools, c, o.dest))
  }

  /** The outcome a file deserves: the verdict of the sniff, or that of its compile on the disk `mid`. */
  ghost predicate Deserved(tools: Tools, s: State, mid: map<Path, Content>, m: map<string, Row>, replace: bool,
      o: Outcome)
  {
    if Passes(tools, s, o.path, replace) then Judged(tools, tools.compile(mid, o.path), m, replace, o)
    else SniffVerdict(tools, s, o, replace)
  }

  /** Every outcome is the deserved one, in view of the modules stored by the outcomes before it. */
  ghost predicate Explained(tools: Tools, s: State, mid: map<Path, Content>, outs: seq<Outcome>, replace: bool)
    requires PathsOf(outs) <= s.disk.Keys
  {
    forall k: nat :: k < |outs| ==> Deserved(tools, s, mid, Former(s, outs, k), replace, outs[k])
  }

  /** The modules stored when the first `k` files were settled. */
  ghost function Former(s: State, outs: seq<Outcome>, k: nat): map<string, Row>
    requires PathsOf(outs) <= s.disk.Keys && k <= |outs|
  {
    assert PathsOf(outs[..k]) <= PathsOf(outs);
    ModulesAfter(s, outs[..k])
  }

  lemma {:induction false} FormerOn(s: State, outs: seq<Outcome>, o: Outcome, k: nat)
    requires PathsOf(outs) <= s.disk.Keys && o.path in s.disk && k <= |outs|
    ensures PathsOf(outs + [o]) <= s.disk.Keys && Former(s, outs + [o], k) == Former(s, outs, k)
  {
    PathsOn(outs, o);
    assert (outs + [o])[..k] == outs[..k];
  }

  lemma {:induction false} ExplainedOn(tools: Tools, s: State, mid: map<Path, Content>, outs: seq<Outcome>,
      o: Outcome, replace: bool)
    requires PathsOf(outs) <= s.disk.Keys && o.path in s.disk && Explained(tools, s, mid, outs, replace)
    requires Deserved(tools, s, mid, ModulesAfter(s, outs), replace, o)
    ensures PathsOf(outs + [o]) <= s.disk.Keys && Explained(tools, s, mid, outs + [o], replace)
  {
    PathsOn(outs, o);
    assert outs[..|outs|] == outs;
    forall k: nat | k < |outs + [o]|
      ensures Deserved(tools, s, mid, Former(s, outs + [o], k), replace, (outs + [o])[k])
    {
      FormerOn(s, outs, o, k);
    }
  }

  /** The file at `x` is one of the files `away`, now in quarantine. */
  ghost predicate InQuarantine(disk: map<Path, Content>, x: Path, content: Content, away: set<Path>) {
    && (x.dir == FailedDir || x.dir == DuplicateDir)
    && exists p :: p in away && p in disk && NamedAfter(Path(x.dir, p.base), x) && content == disk[p]
  }

  /** The files `away` have moved to quarantine, and nothing else has changed. */
  ghost predicate Cleared(disk: map<Path, Content>, mid: map<Path, Content>, away: set<Path>) {
    && (forall x :: x in disk && x !in away ==> x in mid && mid[x] == disk[x])
    && (forall x :: x in mid ==> (x in disk && x !in away) || InQuarantine(disk, x, mid[x], away))
    && Bag(mid) == Bag(disk)
  }

  lemma {:induction false} ClearedOn(disk: map<Path, Content>, mid: map<Path, Content>, after: map<Path, Content>,
      away: set<Path>, o: Outcome)
    requires Cleared(disk, mid, away) && PutAway(mid, after, o) && o.path.dir == Intake
    ensures Cleared(disk, after, away + {o.path})
  {
    var q :| FreeFor(mid, Path(OutcomeDir(o), o.path.base), q) && q.dir == OutcomeDir(o)
             && after == MoveFile(mid, o.path, q);
    MoveConserves(mid, o.path, q);
    var more := away + {o.path};
    forall x | x in after ensures (x in disk && x !in more) || InQuarantine(disk, x, after[x], more) {
      if x == q {
        assert NamedAfter(Path(q.dir, o.path.base), q) && after[q] == disk[o.path] && o.path in more;
      } else if !(x in disk && x !in away) {
        var p :| p in away && p in disk && NamedAfter(Path(x.dir, p.base), x) && mid[x] == disk[p];
        assert p in more;
      }
    }
  }

  /**
   * What a whole batch comes to. The sniff turns away some of the candidates, which leaves the disk `mid`; every
   * other candidate is compiled there, all are reported whose compile ends, and each with the deserved outcome.
   */
  ghost predicate Decided(tools: Tools, s: State, mid: map<Path, Content>, paths: seq<Path>, outs: seq<Outcome>,
      replace: bool)
  {
    var q := Selected(paths, Candidate(s));
    var away := Selected(q, Failing(tools, s, replace));
    && Cleared(s.disk, mid, Batch(away))
    && Listed(outs) == away + Selected(Selected(q, Passing(tools, s, replace)), InBudget(tools, mid))
    && PathsOf(outs) <= s.disk.Keys && Explained(tools, s, mid, outs, replace)
  }

  lemma {:induction false} SelectedDistinct(q: seq<Path>, keep: Path -> bool)
    requires Distinct(q)
    ensures Distinct(Selected(q, keep))
  {
    if q != [] {
      var rest, p := q[..|q| - 1], q[|q| - 1];
      assert q == rest + [p];
      assert p !in rest;
      SelectedDistinct(rest, keep);
      SelectedOn(rest, p, keep);
    }
  }

  /** How far the sniff has come. */
  ghost predicate Sifting(tools: Tools, s: State, t: State, q: seq<Path>, i: nat, outs: seq<Outcome>,
      todo: seq<Path>, replace: bool, strict: bool)
    requires i <= |q|
  {
    && Advanced(tools.sha, s, t, Batch(q), outs, strict) && t.prints == s.prints
    && AllSniffed(tools, s, outs, replace) && Cleared(s.disk, t.disk, PathsOf(outs))
    && Listed(outs) == Selected(q[..i], Failing(tools, s, replace))
    && todo == Selected(q[..i], Passing(tools, s, replace))
    && Waiting(s, q, i, outs) && (outs == [] ==> t == s)
  }

  /** What the sniff comes to: who is turned away, who is left for the compile, and on which disk. */
  ghost predicate Sniffed(tools: Tools, s: State, t: State, q: seq<Path>, outs: seq<Outcome>, todo: seq<Path>,
      replace: bool, strict: bool)
  {
    && Advanced(tools.sha, s, t, Batch(q), outs, strict) && t.prints == s.prints
    && AllSniffed(tools, s, outs, replace) && Cleared(s.disk, t.disk, PathsOf(outs))
    && Listed(outs) == Selected(q, Failing(tools, s, replace)) && todo == Selected(q, Passing(tools, s, replace))
    && Distinct(todo) && Waiting(s, todo, 0, outs) && (outs == [] ==> t == s)
  }

  lemma {:induction false} SiftStarts(tools: Tools, s: State, q: seq<Path>, replace: bool, strict: bool)
    requires Consistent(tools.sha, s) && (strict ==> Tidy(s)) && forall k :: 0 <= k < |q| ==> Eligible(s, q[k])
    ensures Sifting(tools, s, s, q, 0, [], [], replace, strict)
  {
    Starts(tools.sha, s, Batch(q), strict);
    assert q[..0] == [];
  }

  lemma {:induction false} SiftEnds(tools: Tools, s: State, t: State, q: seq<Path>, outs: seq<Outcome>,
      todo: seq<Path>, replace: bool, strict: bool)
    requires Distinct(q) && (forall k :: 0 <= k < |q| ==> Eligible(s, q[k]))
    requires Sifting(tools, s, t, q, |q|, outs, todo, replace, strict)
    ensures Sniffed(tools, s, t, q, outs, todo, replace, strict)
  {
    assert q[..|q|] == q;
    SelectedDistinct(q, Passing(tools, s, replace));
    forall k | 0 <= k < |todo| ensures Eligible(s, todo[k]) && todo[k] !in PathsOf(outs) {
      assert todo[k] in todo;
      assert todo[k] !in Listed(outs);
    }
  }

  lemma {:induction false} SiftOn(tools: Tools, s: State, t: State, q: seq<Path>, i: nat, outs: seq<Outcome>,
      todo: seq<Path>, replace: bool, strict: bool)
    requires i < |q| && Sifting(tools, s, t, q, i, outs, todo, replace, strict) && Passes(tools, t, q[i], replace)
    ensures Sifting(tools, s, t, q, i + 1, outs, todo + [q[i]], replace, strict)
  {
    assert Eligible(s, q[i]) && Passes(tools, s, q[i], replace);
    SplitOn(tools, s, q, i, replace);
  }

  lemma {:induction false} SiftOut(tools: Tools, s: State, t: State, u: State, q: seq<Path>, i: nat,
      outs: seq<Outcome>, todo: seq<Path>, o: Outcome, replace: bool, strict: bool)
    requires Distinct(q) && i < |q| && Sifting(tools, s, t, q, i, outs, todo, replace, strict)
    requires o.path == q[i] && !Passes(tools, t, q[i], replace) && SniffVerdict(tools, t, o, replace)
    requires Settled(tools.sha, t, u, o, strict) && u.prints == t.prints
    ensures Sifting(tools, s, u, q, i + 1, outs + [o], todo, replace, strict)
  {
    assert Eligible(s, q[i]) && !Passes(tools, s, q[i], replace);
    SplitOn(tools, s, q, i, replace);
    WaitingOn(s, q, i, outs, o);
    ListedOn(outs, o);
    Continues(tools.sha, s, t, u, Batch(q), outs, o, strict);
    SniffedOn(tools, s, t, outs, o, replace);
    ClearedOnOuts(s.disk, t.disk, u.disk, outs, o);
  }

  lemma {:induction false} ClearedOnOuts(disk: map<Path, Content>, mid: map<Path, Content>,
      after: map<Path, Content>, outs: seq<Outcome>, o: Outcome)
    requires Cleared(disk, mid, PathsOf(outs)) && PutAway(mid, after, o) && o.path.dir == Intake
    ensures Cleared(disk, after, PathsOf(outs + [o]))
  {
    PathsOn(outs, o);
    ClearedOn(disk, mid, after, PathsOf(outs), o);
  }

  lemma {:induction false} SplitOn(tools: Tools, s: State, q: seq<Path>, i: nat, replace: bool)
    requires i < |q|
    ensures Selected(q[..i + 1], Passing(tools, s, replace))
         == Selected(q[..i], Passing(tools, s, replace)) + if Passes(tools, s, q[i], replace) then [q[i]] else []
    ensures Selected(q[..i + 1], Failing(tools, s, replace))
         == Selected(q[..i], Failing(tools, s, replace)) + if Passes(tools, s, q[i], replace) then [] else [q[i]]
  {
    assert q[..i + 1] == q[..i] + [q[i]];
    SelectedOn(q[..i], q[i], Failing(tools, s, replace));
    SelectedOn(q[..i], q[i], Passing(tools, s, replace));
  }

  /** The outcomes of the sniff are the deserved ones. */
  lemma {:induction false} SniffedAreExplained(tools: Tools, s: State, mid: map<Path, Content>, q: seq<Path>,
      outs: seq<Outcome>, replace: bool)
    requires PathsOf(outs) <= s.disk.Keys && AllSniffed(tools, s, outs, replace)
    requires Listed(outs) == Selected(q, Failing(tools, s, replace))
    ensures Explained(tools, s, mid, outs, replace)
  {
    forall k: nat | k < |outs| ensures Deserved(tools, s, mid, Former(s, outs, k), replace, outs[k]) {
      assert outs[k] in outs && outs[k].path in Listed(outs);
    }
  }

  /** How far the compile results are taken up. */
  ghost predicate Routing(tools: Tools, s: State, t: State, mid: map<Path, Content>, q: seq<Path>, todo: seq<Path>,
      i: nat, sniffed: seq<Outcome>, outs: seq<Outcome>, replace: bool, strict: bool)
    requires i <= |todo|
  {
    && Advanced(tools.sha, s, t, Batch(q), outs, strict) && Waiting(s, todo, i, outs)
    && Listed(outs) == Listed(sniffed) + Selected(todo[..i], InBudget(tools, mid))
    && Explained(tools, s, mid, outs, replace) && (outs == [] ==> t == s)
  }

  lemma {:induction false} PassedOver(tools: Tools, s: State, t: State, mid: map<Path, Content>, q: seq<Path>,
      todo: seq<Path>, i: nat, sniffed: seq<Outcome>, outs: seq<Outcome>, replace: bool, strict: bool)
    requires i < |todo| && Routing(tools, s, t, mid, q, todo, i, sniffed, outs, replace, strict)
    requires tools.compile(mid, todo[i]) == OutOfBudget
    ensures Routing(tools, s, t, mid, q, todo, i + 1, sniffed, outs, replace, strict)
  {
    OutOfBudgetIsSkipped(tools, mid, todo, i);
    WaitingLess(s, todo, i, outs);
  }

  lemma {:induction false} OutOfBudgetIsSkipped(tools: Tools, mid: map<Path, Content>, todo: seq<Path>, i: nat)
    requires i < |todo| && tools.compile(mid, todo[i]) == OutOfBudget
    ensures Selected(todo[..i + 1], InBudget(tools, mid)) == Selected(todo[..i], InBudget(tools, mid))
  {
    assert todo[..i + 1] == todo[..i] + [todo[i]];
    SelectedOn(todo[..i], todo[i], InBudget(tools, mid));
  }

  lemma {:induction false} WaitingLess(s: State, todo: seq<Path>, i: nat, outs: seq<Outcome>)
    requires Waiting(s, todo, i, outs)
    ensures Waiting(s, todo, i + 1, outs)
  {}

  lemma {:induction false} RoutedOn(tools: Tools, s: State, t: State, u: State, mid: map<Path, Content>,
      q: seq<Path>, todo: seq<Path>, i: nat, sniffed: seq<Outcome>, outs: seq<Outcome>, o: Outcome, replace: bool,
      strict: bool)
    requires Distinct(todo) && i < |todo| && Routing(tools, s, t, mid, q, todo, i, sniffed, outs, replace, strict)
    requires todo[i] in q && Passes(tools, s, todo[i], replace) && o.path == todo[i]
    requires tools.compile(mid, todo[i]) != OutOfBudget && Settled(tools.sha, t, u, o, strict)
    requires Judged(tools, tools.compile(mid, todo[i]), t.modules, replace, o)
    ensures Routing(tools, s, u, mid, q, todo, i + 1, sniffed, outs + [o], replace, strict)
  {
    assert Eligible(s, todo[i]);
    Continues(tools.sha, s, t, u, Batch(q), outs, o, strict);
    WaitingOn(s, todo, i, outs, o);
    ListedInBudget(tools, mid, todo, i, sniffed, outs, o);
    ExplainedOn(tools, s, mid, outs, o, replace);
  }

  lemma {:induction false} ListedInBudget(tools: Tools, mid: map<Path, Content>, todo: seq<Path>, i: nat,
      sniffed: seq<Outcome>, outs: seq<Outcome>, o: Outcome)
    requires i < |todo| && Listed(outs) == Listed(sniffed) + Selected(todo[..i], InBudget(tools, mid))
    requires o.path == todo[i] && tools.compile(mid, todo[i]) != OutOfBudget
    ensures Listed(outs + [o]) == Listed(sniffed) + Selected(todo[..i + 1], InBudget(tools, mid))
  {
    assert todo[..i + 1] == todo[..i] + [todo[i]];
    SelectedOn(todo[..i], todo[i], InBudget(tools, mid));
    ListedOn(outs, o);
  }

  lemma {:induction false} RoutingStarts(tools: Tools, s: State, t: State, q: seq<Path>, todo: seq<Path>,
      sniffed: seq<Outcome>, replace: bool, strict: bool)
    requires Sniffed(tools, s, t, q, sniffed, todo, replace, strict)
    ensures Routing(tools, s, t, t.disk, q, todo, 0, sniffed, sniffed, replace, strict)
    ensures Distinct(todo) && forall p :: p in todo ==> p in q && Passes(tools, s, p, replace)
  {
    assert todo[..0] == [];
    SniffedAreExplained(tools, s, t.disk, q, sniffed, replace);
  }

  lemma {:induction false} ListedBatch(outs: seq<Outcome>)
    ensures Batch(Listed(outs)) == PathsOf(outs)
  {}

  lemma {:induction false} RoutingEnds(tools: Tools, s: State, mid: map<Path, Content>, t: State, paths: seq<Path>,
      q: seq<Path>, todo: seq<Path>, sniffed: seq<Outcome>, outs: seq<Outcome>, replace: bool, strict: bool)
    requires q == Selected(paths, Candidate(s)) && todo == Selected(q, Passing(tools, s, replace))
    requires Listed(sniffed) == Selected(q, Failing(tools, s, replace)) && Cleared(s.disk, mid, PathsOf(sniffed))
    requires Routing(tools, s, t, mid, q, todo, |todo|, sniffed, outs, replace, strict)
    ensures Decided(tools, s, mid, paths, outs, replace)
    ensures Advanced(tools.sha, s, t, PathsOf(outs), outs, strict) && (outs == [] ==> t == s)
  {
    assert todo[..|todo|] == todo;
    ListedBatch(sniffed);
    Narrow(tools.sha, s, t, Batch(q), outs, strict);
  }

  function NoOutcome(path: Path, known: Option<Path>): Outcome {
    if known.Some? then Known(path, known.value) else Rejected(path)
  }

  lemma {:induction false} DropKeepsConsistent(sha: Content -> string, s: State, p: Path, content: Content)
    requires Consistent(sha, s) && !p.dir.Curated?
    ensures Consistent(sha, s.(disk := s.disk[p := content]))
  {
    var t := s.(disk := s.disk[p := content]);
    forall x | x in t.prints ensures PrintHolds(sha, t, x) {
      assert PrintHolds(sha, s, x);
    }
    forall m | m in t.modules ensures Backed(t, m) {
      assert Backed(s, m);
    }
  }

  // ---- Batches that list a path more than once ----

  /** Each path at its first mention. */
  ghost function First(q: seq<Path>): (r: seq<Path>)
    ensures Distinct(r) && forall p :: p in r <==> p in q
  {
    if q == [] then []
    else
      var rest, p := q[..|q| - 1], q[|q| - 1];
      assert q == rest + [p];
      if p in rest then First(rest) else First(rest) + [p]
  }

  lemma {:induction false} FirstOn(q: seq<Path>, p: Path)
    ensures First(q + [p]) == if p in q then First(q) else First(q) + [p]
  {
    assert (q + [p])[..|q|] == q;
  }

  lemma {:induction false} FirstOfDistinct(q: seq<Path>)
    requires Distinct(q)
    ensures First(q) == q
  {
    if q != [] {
      var rest, p := q[..|q| - 1], q[|q| - 1];
      assert q == rest + [p] && p !in rest;
      FirstOfDistinct(rest);
      FirstOn(rest, p);
    }
  }

  lemma {:induction false} FirstSelected(q: seq<Path>, keep: Path -> bool)
    ensures First(Selected(q, keep)) == Selected(First(q), keep)
  {
    if q != [] {
      var rest, p := q[..|q| - 1], q[|q| - 1];
      assert q == rest + [p];
      FirstSelected(rest, keep);
      FirstOn(rest, p);
      SelectedOn(rest, p, keep);
      SelectedOn(First(rest), p, keep);
      FirstOn(Selected(rest, keep), p);
    }
  }

  /** What a longer list adds comes after. */
  lemma {:induction false} FirstPrefix(q: seq<Path>, i: nat)
    requires i <= |q|
    ensures First(q[..i]) <= First(q)
  {
    if i < |q| {
      var rest, p := q[..|q| - 1], q[|q| - 1];
      assert q == rest + [p] && rest[..i] == q[..i];
      FirstPrefix(rest, i);
      FirstOn(rest, p);
    } else {
      assert q[..i] == q;
    }
  }

  lemma {:induction false} FirstNext(q: seq<Path>, i: nat)
    requires i < |q|
    ensures var d, next := First(q[..i]), First(q[..i + 1]);
            && d <= First(q) && next <= First(q) && |next| <= |First(q)|
            && next == if q[i] in q[..i] then d else d + [q[i]]
    ensures q[i] !in q[..i] ==> |First(q[..i])| < |First(q)| && First(q)[|First(q[..i])|] == q[i]
  {
    var k := i + 1;
    assert q[..k] == q[..i] + [q[i]];
    FirstOn(q[..i], q[i]);
    FirstPrefix(q, i);
    FirstPrefix(q, k);
  }

  lemma {:induction false} SelectedNext(q: seq<Path>, i: nat, keep: Path -> bool)
    requires i < |q|
    ensures Selected(q[..i + 1], keep) == if keep(q[i]) then Selected(q[..i], keep) + [q[i]] else Selected(q[..i], keep)
    ensures forall p :: p in q[..i + 1] <==> p in q[..i] || p == q[i]
  {
    var k := i + 1;
    assert q[..k] == q[..i] + [q[i]];
    SelectedOn(q[..i], q[i], keep);
  }

  /** The first outcome of each path. */
  ghost function Thinned(outs: seq<Outcome>): (r: seq<Outcome>)
    ensures PathsOf(r) == PathsOf(outs)
  {
    if outs == [] then []
    else
      var rest, o := outs[..|outs| - 1], outs[|outs| - 1];
      assert outs == rest + [o];
      PathsOn(rest, o);
      PathsOn(Thinned(rest), o);
      if o.path in PathsOf(rest) then Thinned(rest) else Thinned(rest) + [o]
  }

  lemma {:induction false} ThinnedOn(outs: seq<Outcome>, o: Outcome)
    ensures Thinned(outs + [o]) == if o.path in PathsOf(outs) then Thinned(outs) else Thinned(outs) + [o]
  {
    assert (outs + [o])[..|outs|] == outs;
  }

  lemma {:induction false} ThinnedOfEachOnce(outs: seq<Outcome>)
    requires EachOnce(outs)
    ensures Thinned(outs) == outs
  {
    if outs != [] {
      var rest, o := outs[..|outs| - 1], outs[|outs| - 1];
      assert outs == rest + [o];
      assert forall x :: x in rest ==> x.path != o.path;
      ThinnedOfEachOnce(rest);
      ThinnedOn(rest, o);
    }
  }

  ghost predicate Repeated(q: seq<Path>, p: Path) {
    multiset(q)[p] > 1
  }

  lemma {:induction false} RepeatedAt(q: seq<Path>, i: nat)
    requires i < |q| && q[i] in q[..i]
    ensures Repeated(q, q[i])
  {
    var k := i + 1;
    assert q == q[..i] + ([q[i]] + q[k..]);
    assert multiset(q) == multiset(q[..i]) + (multiset{q[i]} + multiset(q[k..]));
    assert multiset(q[..i])[q[i]] >= 1;
  }

  lemma {:induction false} RepeatedSelected(q: seq<Path>, keep: Path -> bool, p: Path)
    ensures multiset(Selected(q, keep))[p] <= multiset(q)[p]
  {
    if q != [] {
      var rest, x := q[..|q| - 1], q[|q| - 1];
      assert q == rest + [x];
      RepeatedSelected(rest, keep, p);
      SelectedOn(rest, x, keep);
    }
  }

  lemma {:induction false} DistinctRepeatsNothing(q: seq<Path>, p: Path)
    requires Distinct(q)
    ensures !Repeated(q, p)
  {
    if q != [] {
      var rest, x := q[..|q| - 1], q[|q| - 1];
      assert q == rest + [x] && x !in rest;
      DistinctRepeatsNothing(rest, p);
    }
  }

  /** The outcomes of further mentions: they import nothing. */
  ghost predicate ExtraIsIdle(q: seq<Path>, outs: seq<Outcome>, k: nat)
    requires k < |outs|
  {
    outs[k].path in PathsOf(outs[..k]) ==> !outs[k].Imported? && Repeated(q, outs[k].path)
  }

  ghost predicate ExtrasAreIdle(q: seq<Path>, outs: seq<Outcome>) {
    forall k: nat :: k < |outs| ==> ExtraIsIdle(q, outs, k)
  }

  lemma {:induction false} ExtrasOn(q: seq<Path>, outs: seq<Outcome>, o: Outcome)
    requires ExtrasAreIdle(q, outs)
    requires o.path in PathsOf(outs) ==> !o.Imported? && Repeated(q, o.path)
    ensures ExtrasAreIdle(q, outs + [o])
  {
    var all := outs + [o];
    forall k: nat | k < |all| ensures ExtraIsIdle(q, all, k) {
      assert all[..k] == outs[..k];
      if k < |outs| {
        assert ExtraIsIdle(q, outs, k);
      } else {
        assert outs[..k] == outs;
      }
    }
  }

  lemma {:induction false} NoExtras(q: seq<Path>, outs: seq<Outcome>)
    requires Distinct(q) && ExtrasAreIdle(q, outs)
    ensures EachOnce(outs)
  {
    forall i, j | 0 <= i < j < |outs| ensures outs[i].path != outs[j].path {
      assert ExtraIsIdle(q, outs, j);
      DistinctRepeatsNothing(q, outs[j].path);
      assert outs[..j][i] == outs[i] && outs[i].path in PathsOf(outs[..j]);
    }
  }

  /**
   * A file listed twice may be replaced only by itself: its module has a directory of its own, and any file of the
   * batch with the same module goes to the same one.
   */
  ghost predicate Harmless(tools: Tools, paths: seq<Path>) {
    forall p, x, mid :: Repeated(paths, p) && x in paths ==>
      SameHome(tools, tools.compile(mid, p), tools.compile(mid, x))
  }

  ghost predicate SameHome(tools: Tools, c: Compiled, d: Compiled) {
    Identified(tools, c) && Identified(tools, d) && c.name == d.name ==>
      tools.place(c.oid, c.name).Some? && tools.place(c.oid, c.name) == tools.place(d.oid, d.name)
  }

  /**
   * What a batch from `s` to `t` promises: for the first mentions of its paths what they deserve, and of further
   * mentions nothing but outcomes.
   */
  ghost predicate Batched(tools: Tools, s: State, t: State, mid: map<Path, Content>, paths: seq<Path>,
      outs: seq<Outcome>, replace: bool)
  {
    && Advanced(tools.sha, s, t, PathsOf(outs), Thinned(outs), !replace && Tidy(s))
    && Decided(tools, s, mid, First(paths), Thinned(outs), replace) && ExtrasAreIdle(paths, outs)
  }

  lemma {:induction false} DistinctBatch(tools: Tools, s: State, t: State, mid: map<Path, Content>, paths: seq<Path>,
      outs: seq<Outcome>, replace: bool)
    requires Batched(tools, s, t, mid, paths, outs, replace) && Distinct(paths)
    ensures Advanced(tools.sha, s, t, PathsOf(outs), outs, !replace && Tidy(s))
    ensures Decided(tools, s, mid, paths, outs, replace)
  {
    FirstOfDistinct(paths);
    NoExtras(paths, outs);
    ThinnedOfEachOnce(outs);
  }

  // How far the sniff of such a batch has come.

  ghost predicate SiftingAll(tools: Tools, s: State, t: State, q: seq<Path>, i: nat, outs: seq<Outcome>,
      todo: seq<Path>, replace: bool, strict: bool)
    requires i <= |q|
  {
    && First(q[..i]) <= First(q)
    && Sifting(tools, s, t, First(q), |First(q[..i])|, Thinned(outs), First(todo), replace, strict)
    && todo == Selected(q[..i], Passing(tools, s, replace)) && ExtrasAreIdle(q, outs)
  }

  ghost predicate SniffedAll(tools: Tools, s: State, t: State, q: seq<Path>, outs: seq<Outcome>, todo: seq<Path>,
      replace: bool, strict: bool)
  {
    && Sniffed(tools, s, t, First(q), Thinned(outs), First(todo), replace, strict)
    && todo == Selected(q, Passing(tools, s, replace)) && ExtrasAreIdle(q, outs)
  }

  lemma {:induction false} SiftAllStarts(tools: Tools, s: State, q: seq<Path>, replace: bool, strict: bool)
    requires Consistent(tools.sha, s) && (strict ==> Tidy(s)) && forall p :: p in q ==> Eligible(s, p)
    ensures SiftingAll(tools, s, s, q, 0, [], [], replace, strict)
  {
    assert q[..0] == [];
    SiftStarts(tools, s, First(q), replace, strict);
  }

  lemma {:induction false} SiftAllEnds(tools: Tools, s: State, t: State, q: seq<Path>, outs: seq<Outcome>,
      todo: seq<Path>, replace: bool, strict: bool)
    requires SiftingAll(tools, s, t, q, |q|, outs, todo, replace, strict) && forall p :: p in q ==> Eligible(s, p)
    ensures SniffedAll(tools, s, t, q, outs, todo, replace, strict)
  {
    assert q[..|q|] == q;
    SiftEnds(tools, s, t, First(q), Thinned(outs), First(todo), replace, strict);
  }

  /** Where the next file stands: gone if an earlier mention was turned away, and else as it was. */
  lemma {:induction false} NextSifted(tools: Tools, s: State, t: State, q: seq<Path>, i: nat, outs: seq<Outcome>,
      todo: seq<Path>, replace: bool, strict: bool)
    requires i < |q| && SiftingAll(tools, s, t, q, i, outs, todo, replace, strict)
    requires forall p :: p in q ==> Eligible(s, p)
    ensures Consistent(tools.sha, t) && q[i].dir == Intake && (strict ==> Tidy(t))
    ensures q[i] !in t.disk <==> q[i] in q[..i] && !Passes(tools, s, q[i], replace)
    ensures q[i] in t.disk ==> (Passes(tools, t, q[i], replace) <==> Passes(tools, s, q[i], replace))
    ensures q[i] in q[..i] && !Passes(tools, s, q[i], replace) ==> q[i] in PathsOf(outs)
    ensures q[i] !in q[..i] ==> q[i] !in PathsOf(outs)
  {
    var d, p := First(q[..i]), q[i];
    assert Eligible(s, p) && First(q)[..|d|] == d;
    assert p in PathsOf(outs) <==> p in Listed(Thinned(outs));
    assert p in Listed(Thinned(outs)) <==> p in d && !Passes(tools, s, p, replace);
  }

  /** The file stays for the compile, */
  lemma {:induction false} SiftAllOn(tools: Tools, s: State, t: State, q: seq<Path>, i: nat, outs: seq<Outcome>,
      todo: seq<Path>, replace: bool, strict: bool)
    requires i < |q| && SiftingAll(tools, s, t, q, i, outs, todo, replace, strict) && q[i] !in q[..i]
    requires Passes(tools, t, q[i], replace) && Passes(tools, s, q[i], replace)
    ensures SiftingAll(tools, s, t, q, i + 1, outs, todo + [q[i]], replace, strict)
  {
    FirstNext(q, i);
    assert q[i] !in todo;
    FirstOn(todo, q[i]);
    SelectedNext(q, i, Passing(tools, s, replace));
    SiftOnTo(tools, s, t, First(q), |First(q[..i])|, |First(q[..i + 1])|, Thinned(outs), First(todo),
             First(todo + [q[i]]), replace, strict);
  }

  lemma {:induction false} SiftOnTo(tools: Tools, s: State, t: State, q: seq<Path>, i: nat, n: nat,
      outs: seq<Outcome>, todo: seq<Path>, more: seq<Path>, replace: bool, strict: bool)
    requires i < |q| && Sifting(tools, s, t, q, i, outs, todo, replace, strict) && Passes(tools, t, q[i], replace)
    requires n == i + 1 && more == todo + [q[i]]
    ensures Sifting(tools, s, t, q, n, outs, more, replace, strict)
  {
    SiftOn(tools, s, t, q, i, outs, todo, replace, strict);
  }

  /** or it is there for the compile already. */
  lemma {:induction false} SiftAllAgain(tools: Tools, s: State, t: State, q: seq<Path>, i: nat, outs: seq<Outcome>,
      todo: seq<Path>, replace: bool, strict: bool)
    requires i < |q| && SiftingAll(tools, s, t, q, i, outs, todo, replace, strict) && q[i] in q[..i]
    requires Passes(tools, s, q[i], replace)
    ensures SiftingAll(tools, s, t, q, i + 1, outs, todo + [q[i]], replace, strict)
  {
    FirstNext(q, i);
    assert q[i] in todo;
    FirstOn(todo, q[i]);
    SelectedNext(q, i, Passing(tools, s, replace));
  }

  /** The file is turned away. */
  lemma {:induction false} SiftAllOut(tools: Tools, s: State, t: State, u: State, q: seq<Path>, i: nat,
      outs: seq<Outcome>, todo: seq<Path>, o: Outcome, replace: bool, strict: bool)
    requires i < |q| && SiftingAll(tools, s, t, q, i, outs, todo, replace, strict) && q[i] !in q[..i]
    requires o.path == q[i] && !Passes(tools, t, q[i], replace) && SniffVerdict(tools, t, o, replace)
    requires !Passes(tools, s, q[i], replace) && q[i] !in PathsOf(outs)
    requires Settled(tools.sha, t, u, o, strict) && u.prints == t.prints
    ensures SiftingAll(tools, s, u, q, i + 1, outs + [o], todo, replace, strict)
  {
    NextTurned(tools, s, q, i, replace);
    ThinnedOn(outs, o);
    ExtrasOn(q, outs, o);
    SiftOutTo(tools, s, t, u, First(q), |First(q[..i])|, |First(q[..i + 1])|, Thinned(outs), Thinned(outs + [o]),
              First(todo), o, replace, strict);
  }

  lemma {:induction false} SiftOutTo(tools: Tools, s: State, t: State, u: State, q: seq<Path>, i: nat, n: nat,
      outs: seq<Outcome>, more: seq<Outcome>, todo: seq<Path>, o: Outcome, replace: bool, strict: bool)
    requires Distinct(q) && i < |q| && Sifting(tools, s, t, q, i, outs, todo, replace, strict)
    requires o.path == q[i] && !Passes(tools, t, q[i], replace) && SniffVerdict(tools, t, o, replace)
    requires Settled(tools.sha, t, u, o, strict) && u.prints == t.prints
    requires n == i + 1 && more == outs + [o]
    ensures Sifting(tools, s, u, q, n, more, todo, replace, strict)
  {
    SiftOut(tools, s, t, u, q, i, outs, todo, o, replace, strict);
  }

  lemma {:induction false} NextTurned(tools: Tools, s: State, q: seq<Path>, i: nat, replace: bool)
    requires i < |q| && q[i] !in q[..i] && !Passes(tools, s, q[i], replace)
    ensures Selected(q[..i + 1], Passing(tools, s, replace)) == Selected(q[..i], Passing(tools, s, replace))
    ensures |First(q[..i])| < |First(q)| && First(q)[|First(q[..i])|] == q[i]
    ensures First(q[..i + 1]) <= First(q) && |First(q[..i + 1])| == |First(q[..i])| + 1
  {
    FirstNext(q, i);
    SelectedNext(q, i, Passing(tools, s, replace));
  }

  /** The file was turned away before and is gone. */
  lemma {:induction false} SiftAllGone(tools: Tools, s: State, t: State, q: seq<Path>, i: nat, outs: seq<Outcome>,
      todo: seq<Path>, o: Outcome, replace: bool, strict: bool)
    requires i < |q| && SiftingAll(tools, s, t, q, i, outs, todo, replace, strict) && q[i] in q[..i]
    requires o == Rejected(q[i]) && !Passes(tools, s, q[i], replace) && q[i] in PathsOf(outs)
    ensures SiftingAll(tools, s, t, q, i + 1, outs + [o], todo, replace, strict)
  {
    FirstNext(q, i);
    SelectedNext(q, i, Passing(tools, s, replace));
    ThinnedOn(outs, o);
    RepeatedAt(q, i);
    ExtrasOn(q, outs, o);
  }

  /** One file looked at. */
  ghost predicate SniffStep(tools: Tools, t: State, u: State, path: Path, o: Option<Outcome>, replace: bool,
      strict: bool)
  {
    && (o.None? <==> Passes(tools, t, path, replace)) && u.prints == t.prints
    && (o.None? || path !in t.disk ==> u == t)
    && (path !in t.disk ==> o == Some(Rejected(path)))
    && (o.Some? && path in t.disk ==>
          && o.value.path == path && Settled(tools.sha, t, u, o.value, strict)
          && SniffVerdict(tools, t, o.value, replace))
  }

  lemma {:induction false} SiftAllNext(tools: Tools, s: State, t: State, u: State, q: seq<Path>, i: nat,
      outs: seq<Outcome>, todo: seq<Path>, o: Option<Outcome>, replace: bool, strict: bool)
    requires i < |q| && SiftingAll(tools, s, t, q, i, outs, todo, replace, strict)
    requires (forall p :: p in q ==> Eligible(s, p)) && SniffStep(tools, t, u, q[i], o, replace, strict)
    ensures SiftingAll(tools, s, u, q, i + 1, if o.Some? then outs + [o.value] else outs,
                       if o.None? then todo + [q[i]] else todo, replace, strict)
  {
    NextSifted(tools, s, t, q, i, outs, todo, replace, strict);
    if o.None? {
      if q[i] in q[..i] {
        SiftAllAgain(tools, s, t, q, i, outs, todo, replace, strict);
      } else {
        SiftAllOn(tools, s, t, q, i, outs, todo, replace, strict);
      }
    } else if q[i] in q[..i] {
      SiftAllGone(tools, s, t, q, i, outs, todo, o.value, replace, strict);
    } else {
      SiftAllOut(tools, s, t, u, q, i, outs, todo, o.value, replace, strict);
    }
  }

  // How far the compile results of such a batch are taken up.

  ghost predicate RoutingAll(tools: Tools, s: State, t: State, mid: map<Path, Content>, q: seq<Path>, todo: seq<Path>,
      i: nat, sniffed: seq<Outcome>, outs: seq<Outcome>, replace: bool, strict: bool)
    requires i <= |todo|
  {
    && First(todo[..i]) <= First(todo)
    && Routing(tools, s, t, mid, First(q), First(todo), |First(todo[..i])|, Thinned(sniffed), Thinned(outs), replace,
               strict)
    && ExtrasAreIdle(q, outs)
  }

  lemma {:induction false} RoutingAllStarts(tools: Tools, s: State, t: State, q: seq<Path>, todo: seq<Path>,
      sniffed: seq<Outcome>, replace: bool, strict: bool)
    requires SniffedAll(tools, s, t, q, sniffed, todo, replace, strict)
    ensures RoutingAll(tools, s, t, t.disk, q, todo, 0, sniffed, sniffed, replace, strict)
    ensures forall p :: p in todo ==> p in q && Passes(tools, s, p, replace)
  {
    assert todo[..0] == [];
    RoutingStarts(tools, s, t, First(q), First(todo), Thinned(sniffed), replace, strict);
  }

  lemma {:induction false} ExtrasWiden(q: seq<Path>, keep: Path -> bool, outs: seq<Outcome>)
    requires ExtrasAreIdle(Selected(q, keep), outs)
    ensures ExtrasAreIdle(q, outs)
  {
    forall k: nat | k < |outs| ensures ExtraIsIdle(q, outs, k) {
      assert ExtraIsIdle(Selected(q, keep), outs, k);
      RepeatedSelected(q, keep, outs[k].path);
    }
  }

  lemma {:induction false} RoutingAllEnds(tools: Tools, s: State, mid: map<Path, Content>, t: State, paths: seq<Path>,
      q: seq<Path>, todo: seq<Path>, sniffed: seq<Outcome>, outs: seq<Outcome>, replace: bool)
    requires q == Selected(paths, Candidate(s)) && todo == Selected(q, Passing(tools, s, replace))
    requires Listed(Thinned(sniffed)) == Selected(First(q), Failing(tools, s, replace))
    requires Cleared(s.disk, mid, PathsOf(sniffed))
    requires RoutingAll(tools, s, t, mid, q, todo, |todo|, sniffed, outs, replace, !replace && Tidy(s))
    ensures Batched(tools, s, t, mid, paths, outs, replace) && (outs == [] ==> t == s)
  {
    assert todo[..|todo|] == todo;
    FirstSelected(paths, Candidate(s));
    FirstSelected(q, Passing(tools, s, replace));
    RoutingEnds(tools, s, mid, t, First(paths), First(q), First(todo), Thinned(sniffed), Thinned(outs), replace,
                !replace && Tidy(s));
    ExtrasWiden(paths, Candidate(s), outs);
  }

  /** The files left for the compile: all candidates the sniff let pass, not yet reported. */
  ghost predicate ForCompile(s: State, q: seq<Path>, todo: seq<Path>, sniffed: seq<Outcome>) {
    forall p :: p in todo ==> p in q && Eligible(s, p) && p !in PathsOf(sniffed)
  }

  lemma {:induction false} LeftForCompile(tools: Tools, s: State, t: State, q: seq<Path>, todo: seq<Path>,
      sniffed: seq<Outcome>, replace: bool, strict: bool)
    requires SniffedAll(tools, s, t, q, sniffed, todo, replace, strict) && forall p :: p in q ==> Eligible(s, p)
    ensures ForCompile(s, q, todo, sniffed)
  {
    forall p | p in todo ensures p !in PathsOf(sniffed) {
      assert p !in Listed(Thinned(sniffed));
    }
  }

  lemma {:induction false} RepeatedForCompile(tools: Tools, s: State, q: seq<Path>, todo: seq<Path>, i: nat,
      replace: bool)
    requires todo == Selected(q, Passing(tools, s, replace)) && i < |todo| && todo[i] in todo[..i]
    ensures Repeated(q, todo[i])
  {
    RepeatedAt(todo, i);
    RepeatedSelected(q, Passing(tools, s, replace), todo[i]);
  }

  /** Further mentions import nothing, so the imports are those of the first mentions. */
  lemma {:induction false} ThinnedNames(q: seq<Path>, outs: seq<Outcome>)
    requires ExtrasAreIdle(q, outs)
    ensures NamesOf(Thinned(outs)) == NamesOf(outs) && (EachNameOnce(Thinned(outs)) ==> EachNameOnce(outs))
  {
    if outs != [] {
      var rest, o := outs[..|outs| - 1], outs[|outs| - 1];
      assert outs == rest + [o];
      forall k: nat | k < |rest| ensures ExtraIsIdle(q, rest, k) {
        assert outs[..k] == rest[..k] && ExtraIsIdle(q, outs, k);
      }
      assert ExtraIsIdle(q, outs, |rest|);
      ThinnedNames(q, rest);
      ThinnedOn(rest, o);
      NamesOn(rest, o);
      NamesOn(Thinned(rest), o);
      if EachNameOnce(Thinned(outs)) && o.path !in PathsOf(rest) {
        NamesApart(Thinned(rest), o);
      }
    }
  }

  lemma {:induction false} NamesApart(outs: seq<Outcome>, o: Outcome)
    requires EachNameOnce(outs + [o])
    ensures EachNameOnce(outs) && NameOf(o) !! NamesOf(outs)
  {
    var all := outs + [o];
    assert forall i :: 0 <= i < |outs| ==> all[i] == outs[i];
    forall x | x in outs && x.Imported? && o.Imported? ensures x.mod != o.mod {
      var i :| 0 <= i < |outs| && outs[i] == x;
      assert all[i] == x && all[|outs|] == o;
    }
  }

  /** Where the next result stands: its file is gone if an earlier mention was reported, and else as it was. */
  lemma {:induction false} NextRouted(tools: Tools, s: State, t: State, mid: map<Path, Content>, q: seq<Path>,
      todo: seq<Path>, i: nat, sniffed: seq<Outcome>, outs: seq<Outcome>, replace: bool, strict: bool)
    requires i < |todo| && RoutingAll(tools, s, t, mid, q, todo, i, sniffed, outs, replace, strict)
    requires ForCompile(s, q, todo, sniffed)
    ensures Consistent(tools.sha, t) && todo[i].dir == Intake && (strict ==> Tidy(t))
    ensures todo[i] !in t.disk <==> todo[i] in todo[..i] && tools.compile(mid, todo[i]) != OutOfBudget
    ensures todo[i] !in t.disk ==> todo[i] in PathsOf(outs)
    ensures todo[i] !in todo[..i] ==> todo[i] !in PathsOf(outs)
  {
    var d, p := First(todo[..i]), todo[i];
    assert p in todo && Eligible(s, p) && First(todo)[..|d|] == d;
    assert p in PathsOf(outs) <==> p in Listed(Thinned(outs));
    assert p in Listed(Thinned(sniffed)) <==> p in PathsOf(sniffed);
    assert p in Listed(Thinned(outs)) <==> p in d && tools.compile(mid, p) != OutOfBudget;
  }

  /** The file of the first mention is settled, */
  lemma {:induction false} RoutedAllOn(tools: Tools, s: State, t: State, u: State, mid: map<Path, Content>,
      q: seq<Path>, todo: seq<Path>, i: nat, sniffed: seq<Outcome>, outs: seq<Outcome>, o: Outcome, replace: bool,
      strict: bool)
    requires i < |todo| && RoutingAll(tools, s, t, mid, q, todo, i, sniffed, outs, replace, strict)
    requires todo[i] !in todo[..i] && todo[i] !in PathsOf(outs) && todo[i] in q
    requires Passes(tools, s, todo[i], replace) && o.path == todo[i]
    requires tools.compile(mid, todo[i]) != OutOfBudget && Settled(tools.sha, t, u, o, strict)
    requires Judged(tools, tools.compile(mid, todo[i]), t.modules, replace, o)
    ensures RoutingAll(tools, s, u, mid, q, todo, i + 1, sniffed, outs + [o], replace, strict)
  {
    FirstNext(todo, i);
    RoutedOn(tools, s, t, u, mid, First(q), First(todo), |First(todo[..i])|, Thinned(sniffed), Thinned(outs), o,
             replace, strict);
    ThinnedOn(outs, o);
    ExtrasOn(q, outs, o);
  }

  /** or left for lack of budget; */
  lemma {:induction false} PassedOverAll(tools: Tools, s: State, t: State, mid: map<Path, Content>, q: seq<Path>,
      todo: seq<Path>, i: nat, sniffed: seq<Outcome>, outs: seq<Outcome>, replace: bool, strict: bool)
    requires i < |todo| && RoutingAll(tools, s, t, mid, q, todo, i, sniffed, outs, replace, strict)
    requires tools.compile(mid, todo[i]) == OutOfBudget
    ensures RoutingAll(tools, s, t, mid, q, todo, i + 1, sniffed, outs, replace, strict)
  {
    FirstNext(todo, i);
    if todo[i] !in todo[..i] {
      PassedOver(tools, s, t, mid, First(q), First(todo), |First(todo[..i])|, Thinned(sniffed), Thinned(outs), replace,
                 strict);
    }
  }

  /** a further mention of it changes nothing. */
  lemma {:induction false} RoutedAgain(tools: Tools, s: State, t: State, mid: map<Path, Content>, q: seq<Path>,
      todo: seq<Path>, i: nat, sniffed: seq<Outcome>, outs: seq<Outcome>, o: Option<Outcome>, replace: bool,
      strict: bool)
    requires i < |todo| && RoutingAll(tools, s, t, mid, q, todo, i, sniffed, outs, replace, strict)
    requires todo[i] in todo[..i] && todo[i] in PathsOf(outs) && Repeated(q, todo[i])
    requires o.Some? ==> o.value.path == todo[i] && !o.value.Imported?
    ensures RoutingAll(tools, s, t, mid, q, todo, i + 1, sniffed, if o.Some? then outs + [o.value] else outs, replace,
                       strict)
  {
    FirstNext(todo, i);
    if o.Some? {
      ThinnedOn(outs, o.value);
      ExtrasOn(q, outs, o.value);
    }
  }

  // ---- Which file gets which outcome ----

  /** A file stays in intake exactly when the sniff lets it pass and its compile runs out of budget. */
  lemma {:induction false} ReportedAre(tools: Tools, s: State, mid: map<Path, Content>, paths: seq<Path>,
      outs: seq<Outcome>, replace: bool, p: Path)
    requires Decided(tools, s, mid, paths, outs, replace)
    ensures p in PathsOf(outs) <==>
      p in paths && Eligible(s, p) && !(Passes(tools, s, p, replace) && tools.compile(mid, p) == OutOfBudget)
  {
    var q := Selected(paths, Candidate(s));
    var away, todo := Selected(q, Failing(tools, s, replace)), Selected(q, Passing(tools, s, replace));
    assert p in Listed(outs) <==> p in away || p in Selected(todo, InBudget(tools, mid));
  }

  lemma {:induction false} OutcomesAre(tools: Tools, s: State, mid: map<Path, Content>, paths: seq<Path>,
      outs: seq<Outcome>, replace: bool, k: nat)
    requires Decided(tools, s, mid, paths, outs, replace) && k < |outs|
    ensures var o, m := outs[k], Former(s, outs, k);
      var c := tools.compile(mid, o.path);
      && o.path in s.disk
      && var opens, repeats := tools.opener(s.disk[o.path]), !replace && Fingerprinted(tools, s, o.path);
      && (o.Rejected? <==> !opens || (!repeats && !Identified(tools, c)))
      && (o.Known? <==> opens && (repeats || (Identified(tools, c) && !replace && c.name in m)))
      && (o.Imported? <==> opens && !repeats && Identified(tools, c) && (replace || c.name !in m))
      && (o.Imported? ==> o.mod == c.name)
  {
    assert outs[k] in outs && outs[k].path in PathsOf(outs);
    assert Deserved(tools, s, mid, Former(s, outs, k), replace, outs[k]);
  }

  /** The `k`-th reported file holds, by its compile, the module of this name. */
  ghost predicate Offers(tools: Tools, s: State, mid: map<Path, Content>, outs: seq<Outcome>, k: nat, name: string)
    requires k < |outs|
  {
    var c := tools.compile(mid, outs[k].path);
    Passes(tools, s, outs[k].path, false) && Identified(tools, c) && c.name == name
  }

  ghost predicate OfferedBefore(tools: Tools, s: State, mid: map<Path, Content>, outs: seq<Outcome>, k: nat,
      name: string)
    requires k <= |outs|
  {
    exists j: nat :: j < k && Offers(tools, s, mid, outs, j, name)
  }

  lemma {:induction false} FormerStep(s: State, outs: seq<Outcome>, k: nat)
    requires PathsOf(outs) <= s.disk.Keys && k < |outs|
    ensures outs[k].path in s.disk
    ensures Former(s, outs, k + 1)
         == if outs[k].Imported? then Former(s, outs, k)[outs[k].mod := Row(outs[k].dest, s.disk[outs[k].path])]
            else Former(s, outs, k)
  {
    assert outs[k] in outs && outs[k].path in PathsOf(outs);
    assert outs[..k + 1] == outs[..k] + [outs[k]];
    assert PathsOf(outs[..k]) <= PathsOf(outs);
    ModulesAfterSnoc(s, outs[..k], outs[k]);
  }

  lemma {:induction false} OffersAre(tools: Tools, s: State, mid: map<Path, Content>, outs: seq<Outcome>, k: nat,
      name: string)
    requires PathsOf(outs) <= s.disk.Keys && k < |outs| && Explained(tools, s, mid, outs, false)
    ensures Offers(tools, s, mid, outs, k, name) ==>
      if name in Former(s, outs, k) then outs[k] == Known(outs[k].path, Former(s, outs, k)[name].source)
      else outs[k].Imported? && outs[k].mod == name
    ensures outs[k].Imported? && outs[k].mod == name ==> Offers(tools, s, mid, outs, k, name)
  {
    assert Deserved(tools, s, mid, Former(s, outs, k), false, outs[k]);
  }

  lemma {:induction false} NamesBefore(tools: Tools, s: State, mid: map<Path, Content>, outs: seq<Outcome>, k: nat,
      name: string)
    requires PathsOf(outs) <= s.disk.Keys && k <= |outs| && Explained(tools, s, mid, outs, false)
    ensures name in Former(s, outs, k) <==> name in s.modules || OfferedBefore(tools, s, mid, outs, k, name)
  {
    if k == 0 {
      assert outs[..0] == [];
    } else {
      NamesBefore(tools, s, mid, outs, k - 1, name);
      FormerStep(s, outs, k - 1);
      OffersAre(tools, s, mid, outs, k - 1, name);
      OfferedStep(tools, s, mid, outs, k - 1, name);
    }
  }

  lemma {:induction false} OfferedStep(tools: Tools, s: State, mid: map<Path, Content>, outs: seq<Outcome>, k: nat,
      name: string)
    requires k < |outs|
    ensures OfferedBefore(tools, s, mid, outs, k + 1, name)
       <==> OfferedBefore(tools, s, mid, outs, k, name) || Offers(tools, s, mid, outs, k, name)
  {}

  /** Of the files of a plain batch that hold one new module, exactly the first is imported; the rest are duplicates. */
  lemma {:induction false} FirstOfEachNameIsImported(tools: Tools, s: State, mid: map<Path, Content>,
      paths: seq<Path>, outs: seq<Outcome>, k: nat, name: string)
    requires Decided(tools, s, mid, paths, outs, false) && k < |outs| && Offers(tools, s, mid, outs, k, name)
    ensures outs[k].Imported? <==> name !in s.modules && !OfferedBefore(tools, s, mid, outs, k, name)
    ensures outs[k].Imported? ==> outs[k].mod == name
    ensures !outs[k].Imported? ==> name in Former(s, outs, k)
                                   && outs[k] == Known(outs[k].path, Former(s, outs, k)[name].source)
  {
    NamesBefore(tools, s, mid, outs, k, name);
    OffersAre(tools, s, mid, outs, k, name);
  }

  // ---- The re-run of one quarantined file ----

  /** Whether a re-run finds the file: in quarantine, under a name that import/ does not reserve. */
  predicate PickedUp(s: State, path: Path) {
    && path.dir != Intake && path in s.disk && !Hidden(path.base)
    && (IsSidecar(path.base) ==> Path(Intake, path.base) in s.disk)
  }

  lemma {:induction false} StagedName(disk: map<Path, Content>, base: string, r: Path)
    requires FreeFor(disk, Path(Intake, base), r)
    ensures Reserved(r.base) <==> Hidden(base) || (IsSidecar(base) && Path(Intake, base) !in disk)
  {
    if Path(Intake, base) in disk {
      var k: nat :| 1 <= k && r == Numbered(Path(Intake, base), k);
      NumberedName(Path(Intake, base), k);
    }
  }

  /** A numbered name ends in a digit, and begins like the name it numbers. */
  lemma {:induction false} NumberedName(p: Path, k: nat)
    ensures !IsSidecar(Numbered(p, k).base) && (Hidden(Numbered(p, k).base) <==> Hidden(p.base))
  {
    ValueOfDec(k);
    var base, d := Numbered(p, k).base, Dec(k);
    assert base == p.base + ("-" + d) && |("-" + d)| == 1 + |d| && ("-" + d)[|d|] == d[|d| - 1];
    assert base[|base| - 1] == d[|d| - 1] && IsDigit(d[|d| - 1]);
  }

  /** What a re-run comes to: the file is staged in import/ and goes through a replacing batch of its own. */
  ghost predicate Rerunning(tools: Tools, s: State, t: State, path: Path, intake: Path, o: Outcome) {
    if path.dir == Intake || path !in s.disk then t == s && o.Rejected?
    else
      var staged := Moved(s, path, intake);
      var c := tools.compile(staged.disk, intake);
      if !PickedUp(s, path) || (tools.opener(s.disk[path]) && c == OutOfBudget) then t == staged && o == Rejected(intake)
      else if tools.opener(s.disk[path]) && Identified(tools, c) then
        && o.Imported? && o.path == intake && o.mod == c.name && Placed(tools, c, o.dest)
        && t.modules == s.modules[c.name := Row(o.dest, s.disk[path])]
        && o.dest in t.disk && t.disk[o.dest] == s.disk[path]
      else o == Rejected(intake) && t.modules == s.modules && Shelved(staged, t, o)
  }

  lemma {:induction false} OneSettled(tools: Tools, s: State, t: State, mid: map<Path, Content>, outs: seq<Outcome>)
    requires PathsOf(outs) <= s.disk.Keys && |outs| == 1 && Explained(tools, s, mid, outs, true)
    requires Consistent(tools.sha, t) && Added(s, t, outs, false) && AllShelved(s, t, outs)
    ensures Deserved(tools, s, mid, s.modules, true, outs[0])
    ensures outs[0].Imported? ==> t.modules == s.modules[outs[0].mod := Row(outs[0].dest, s.disk[outs[0].path])]
                                  && outs[0].dest in t.disk && t.disk[outs[0].dest] == s.disk[outs[0].path]
    ensures !outs[0].Imported? ==> t.modules == s.modules && Shelved(s, t, outs[0])
  {
    var o := outs[0];
    assert o in outs && outs == [] + [o] && outs[..0] == [];
    assert o.path in PathsOf(outs);
    assert Deserved(tools, s, mid, Former(s, outs, 0), true, outs[0]);
    ModulesAfterSnoc(s, [], o);
    assert o.Imported? ==> Backed(t, o.mod) && PrintHolds(tools.sha, t, o.dest);
  }

  /** A replacing batch of the one file `p`. */
  lemma {:induction false} OneDecided(tools: Tools, s: State, t: State, mid: map<Path, Content>, p: Path,
      outs: seq<Outcome>)
    requires Advanced(tools.sha, s, t, PathsOf(outs), outs, false) && Decided(tools, s, mid, [p], outs, true)
    ensures |outs| <= 1 && (|outs| == 0 ==> t.modules == s.modules)
    ensures |outs| == 1 <==> Eligible(s, p) && !(tools.opener(s.disk[p]) && tools.compile(s.disk, p) == OutOfBudget)
    ensures |outs| == 1 ==> var o, c := outs[0], tools.compile(s.disk, p);
      if tools.opener(s.disk[p]) && Identified(tools, c) then
        && o.Imported? && o.path == p && o.mod == c.name && Placed(tools, c, o.dest)
        && t.modules == s.modules[c.name := Row(o.dest, s.disk[p])]
        && o.dest in t.disk && t.disk[o.dest] == s.disk[p]
      else o == Rejected(p) && t.modules == s.modules && Shelved(s, t, o)
  {
    OneListed(tools, s, mid, p, outs);
    if |outs| == 1 {
      OneSettled(tools, s, t, mid, outs);
    }
  }

  lemma {:induction false} UntouchedDisk(disk: map<Path, Content>, mid: map<Path, Content>)
    ensures Cleared(disk, mid, {}) ==> mid == disk
  {}

  lemma {:induction false} SelectedFromOne(p: Path, keep: Path -> bool)
    ensures Selected([p], keep) == if keep(p) then [p] else []
  {
    assert [] + [p] == [p];
    SelectedOn([], p, keep);
  }

  lemma {:induction false} OneListed(tools: Tools, s: State, mid: map<Path, Content>, p: Path, outs: seq<Outcome>)
    requires Decided(tools, s, mid, [p], outs, true)
    ensures Passes(tools, s, p, true) ==> mid == s.disk
    ensures Listed(outs) == if Eligible(s, p) && !(Passes(tools, s, p, true) && tools.compile(mid, p) == OutOfBudget)
                            then [p] else []
  {
    var q := Selected([p], Candidate(s));
    var away := Selected(q, Failing(tools, s, true));
    OneSelected(tools, s, mid, p);
    if Passes(tools, s, p, true) {
      assert Batch(away) == {};
      UntouchedDisk(s.disk, mid);
    }
  }

  lemma {:induction false} OneSelected(tools: Tools, s: State, mid: map<Path, Content>, p: Path)
    ensures var q := Selected([p], Candidate(s));
            && Selected(q, Failing(tools, s, true))
               == (if Eligible(s, p) && !Passes(tools, s, p, true) then [p] else [])
            && Selected(Selected(q, Passing(tools, s, true)), InBudget(tools, mid))
               == (if Eligible(s, p) && Passes(tools, s, p, true) && tools.compile(mid, p) != OutOfBudget
                   then [p] else [])
  {
    SelectedFromOne(p, Candidate(s));
    if Eligible(s, p) {
      SelectedFromOne(p, Failing(tools, s, true));
      SelectedFromOne(p, Passing(tools, s, true));
      SelectedFromOne(p, InBudget(tools, mid));
    }
  }

  // ---- Any sequence of arrivals and batches ----

  datatype Call = Arrive(base: string, content: Content) | PlainBatch(paths: seq<Path>)
                | ReplacingBatch(paths: seq<Path>) | Rerun(path: Path)

  /** A batch of a run lists each path once; one that cannot be moved a second time is skipped until the next start. */
  ghost predicate ValidCall(c: Call) {
    match c
    case Arrive(_, _) => true
    case PlainBatch(paths) => Distinct(paths)
    case ReplacingBatch(paths) => Distinct(paths)
    case Rerun(path) => !path.dir.Curated?
  }

  /** A batch from `s` to `t`, with what it promises. */
  ghost predicate BatchStep(tools: Tools, s: State, t: State, paths: seq<Path>, outs: seq<Outcome>, replace: bool) {
    && Advanced(tools.sha, s, t, PathsOf(outs), outs, !replace && Tidy(s))
    && exists mid :: Decided(tools, s, mid, paths, outs, replace)
  }

  /** One call from `s` to `t`, with the outcomes it reports. */
  ghost predicate CallStep(tools: Tools, s: State, t: State, c: Call, outs: seq<Outcome>) {
    match c
    case Arrive(base, content) => outs == [] && t == s.(disk := s.disk[Path(Intake, base) := content])
    case PlainBatch(paths) => BatchStep(tools, s, t, paths, outs, false)
    case ReplacingBatch(paths) => BatchStep(tools, s, t, paths, outs, true)
    case Rerun(path) =>
      Consistent(tools.sha, t) && exists o, intake :: outs == [o] && Rerunning(tools, s, t, path, intake, o)
  }

  type CallRelation = (State, State, Call, seq<Outcome>) -> bool

  ghost predicate Steps(rel: CallRelation, states: seq<State>, calls: seq<Call>, reports: seq<seq<Outcome>>) {
    && |states| == |calls| + 1 && |reports| == |calls|
    && forall k: nat :: k < |calls| ==> rel(states[k], states[k + 1], calls[k], reports[k])
  }

  lemma {:induction false} StepsOn(rel: CallRelation, states: seq<State>, calls: seq<Call>, reports: seq<seq<Outcome>>,
      t: State, c: Call, outs: seq<Outcome>)
    requires Steps(rel, states, calls, reports) && rel(states[|calls|], t, c, outs)
    ensures Steps(rel, states + [t], calls + [c], reports + [outs])
  {
    var all, cs, rs := states + [t], calls + [c], reports + [outs];
    forall k: nat | k < |cs| ensures rel(all[k], all[k + 1], cs[k], rs[k]) {
      if k < |calls| {
        var next := k + 1;
        assert all[k] == states[k] && all[next] == states[next];
      }
    }
  }

  /** The outcomes of the calls from `i` to `n`, in order. */
  ghost function Reports(reports: seq<seq<Outcome>>, i: nat, n: nat): seq<Outcome>
    requires i <= n <= |reports|
    decreases n
  {
    if n == i then [] else Reports(reports, i, n - 1) + reports[n - 1]
  }

  /** What a relation that composes says of one step it says of many. */
  lemma {:induction false} StepsCompose(rel: CallRelation, states: seq<State>, calls: seq<Call>,
      reports: seq<seq<Outcome>>, whole: (State, State, seq<Outcome>) -> bool, i: nat, n: nat)
    requires Steps(rel, states, calls, reports) && i <= n <= |calls|
    requires forall s, t, c, outs :: c in calls && rel(s, t, c, outs) ==> whole(s, t, outs)
    requires (forall s :: whole(s, s, []))
             && forall s, t, u, a, b :: whole(s, t, a) && whole(t, u, b) ==> whole(s, u, a + b)
    ensures whole(states[i], states[n], Reports(reports, i, n))
    decreases n
  {
    if n > i {
      var k := n - 1;
      StepsCompose(rel, states, calls, reports, whole, i, k);
      assert calls[k] in calls && rel(states[k], states[k + 1], calls[k], reports[k]);
    }
  }

  ghost function Calling(tools: Tools): CallRelation {
    (s, t, c, outs) => CallStep(tools, s, t, c, outs)
  }

  /** The states between the calls of a run, and the reports of the calls. */
  ghost predicate Trace(tools: Tools, states: seq<State>, calls: seq<Call>, reports: seq<seq<Outcome>>) {
    Steps(Calling(tools), states, calls, reports)
  }

  lemma {:induction false} StepOf(tools: Tools, states: seq<State>, calls: seq<Call>, reports: seq<seq<Outcome>>,
      k: nat)
    requires Trace(tools, states, calls, reports) && k < |calls|
    ensures CallStep(tools, states[k], states[k + 1], calls[k], reports[k]) && calls[k] in calls
  {
    assert Calling(tools)(states[k], states[k + 1], calls[k], reports[k]);
  }

  lemma {:induction false} TraceIsConsistent(tools: Tools, states: seq<State>, calls: seq<Call>,
      reports: seq<seq<Outcome>>, k: nat)
    requires Trace(tools, states, calls, reports) && k < |states| && Consistent(tools.sha, states[0])
    ensures Consistent(tools.sha, states[k])
  {
    if k > 0 {
      var before := k - 1;
      TraceIsConsistent(tools, states, calls, reports, before);
      StepOf(tools, states, calls, reports, before);
      if calls[before].Arrive? {
        DropKeepsConsistent(tools.sha, states[before], Path(Intake, calls[before].base), calls[before].content);
      }
    }
  }

  // ---- A file that is gone when its result is taken up ----

  /** The former source of the module and its fingerprint are removed, and nothing comes in their place. */
  function Dropped(s: State, name: string, dest: Path): State {
    var gone := Superseded(s, name, dest);
    s.(disk := s.disk - gone, prints := s.prints - gone)
  }

  /** The destination of a module. */
  ghost predicate GoesTo(tools: Tools, disk: map<Path, Content>, base: string, c: Compiled, dest: Path)
    requires c.Compiled?
  {
    match tools.place(c.oid, c.name)
    case Some(d) => dest == Path(Curated(d), c.name)
    case None => dest.dir == UNSORTED && FreeFor(disk, Path(UNSORTED, base), dest)
  }

  /** What is reported of such a file. */
  function VanishedOutcome(tools: Tools, s: State, path: Path, c: Compiled, replace: bool): Option<Outcome> {
    if c == OutOfBudget then None
    else if !Identified(tools, c) then Some(Rejected(path))
    else if c.name in s.modules && !replace then Some(Known(path, s.modules[c.name].source))
    else None
  }

  /** What becomes of the corpus: nothing, unless the module was to be filed; then its former source goes first. */
  ghost predicate VanishedStep(tools: Tools, s: State, t: State, path: Path, c: Compiled, replace: bool) {
    if Identified(tools, c) && (replace || c.name !in s.modules) then
      exists dest :: GoesTo(tools, s.disk, path.base, c, dest) && t == Dropped(s, c.name, dest)
    else t == s
  }

  /** A module with a directory of its own lies there once a file of the batch has put it there. */
  lemma {:induction false} StaysHome(tools: Tools, s: State, mid: map<Path, Content>, outs: seq<Outcome>, name: string,
      d: string, k: nat)
    requires PathsOf(outs) <= s.disk.Keys && k <= |outs| && Explained(tools, s, mid, outs, true)
    requires forall o :: o in outs && o.Imported? && o.mod == name ==>
               tools.place(tools.compile(mid, o.path).oid, name) == Some(d)
    requires exists j: nat :: j < k && outs[j].Imported? && outs[j].mod == name
    ensures name in Former(s, outs, k) && Former(s, outs, k)[name].source == Path(Curated(d), name)
  {
    var last := k - 1;
    FormerStep(s, outs, last);
    if outs[last].Imported? && outs[last].mod == name {
      assert Deserved(tools, s, mid, Former(s, outs, last), true, outs[last]);
    } else {
      StaysHome(tools, s, mid, outs, name, d, last);
    }
  }

  /** All files of a harmless batch that are imported as the module of a repeated one share its directory. */
  lemma {:induction false} ImportedAtHome(tools: Tools, s: State, mid: map<Path, Content>, q: seq<Path>,
      outs: seq<Outcome>, p: Path)
    requires PathsOf(outs) <= s.disk.Keys && PathsOf(outs) <= Batch(q) && Explained(tools, s, mid, outs, true)
    requires Harmless(tools, q) && Repeated(q, p) && p in PathsOf(outs) && Passes(tools, s, p, true)
    requires Identified(tools, tools.compile(mid, p))
    ensures var c := tools.compile(mid, p);
            && tools.place(c.oid, c.name).Some?
            && ModulesAfter(s, outs).Keys >= {c.name}
            && ModulesAfter(s, outs)[c.name].source == Path(Curated(tools.place(c.oid, c.name).value), c.name)
  {
    var c := tools.compile(mid, p);
    var first := MentionOf(outs, p);
    assert Deserved(tools, s, mid, Former(s, outs, first), true, outs[first]);
    assert p in q && SameHome(tools, c, tools.compile(mid, p));
    forall o | o in outs && o.Imported? && o.mod == c.name
      ensures tools.place(tools.compile(mid, o.path).oid, c.name) == tools.place(c.oid, c.name)
    {
      var j: nat :| j < |outs| && outs[j] == o;
      assert Deserved(tools, s, mid, Former(s, outs, j), true, outs[j]);
      assert o.path in PathsOf(outs);
      assert SameHome(tools, c, tools.compile(mid, o.path));
    }
    assert outs[..|outs|] == outs;
    StaysHome(tools, s, mid, outs, c.name, tools.place(c.oid, c.name).value, |outs|);
  }

  ghost function MentionOf(outs: seq<Outcome>, p: Path): (k: nat)
    requires p in PathsOf(outs)
    ensures k < |outs| && outs[k].path == p
  {
    var o :| o in outs && o.path == p;
    var k: nat :| k < |outs| && outs[k] == o;
    k
  }

  /** Nothing is dropped for a module that is not stored, or that lies where it would go. */
  lemma {:induction false} NothingDropped(s: State, name: string, dest: Path)
    requires name in s.modules ==> s.modules[name].source == dest
    ensures Dropped(s, name, dest) == s
  {
    assert s.disk - {} == s.disk && s.prints - {} == s.prints;
  }

  lemma {:induction false} DistinctIsHarmless(tools: Tools, q: seq<Path>)
    requires Distinct(q)
    ensures Harmless(tools, q)
  {
    forall p ensures !Repeated(q, p) {
      DistinctRepeatsNothing(q, p);
    }
  }

  lemma {:induction false} HarmlessSelected(tools: Tools, q: seq<Path>, keep: Path -> bool)
    requires Harmless(tools, q)
    ensures Harmless(tools, Selected(q, keep))
  {
    forall p | Repeated(Selected(q, keep), p) ensures Repeated(q, p) {
      RepeatedSelected(q, keep, p);
    }
  }

  /** The second mention of a reported file finds nothing to remove. */
  lemma {:induction false} AgainStands(tools: Tools, s: State, t: State, u: State, mid: map<Path, Content>,
      q: seq<Path>, todo: seq<Path>, i: nat, sniffed: seq<Outcome>, outs: seq<Outcome>, replace: bool, strict: bool)
    requires i < |todo| && RoutingAll(tools, s, t, mid, q, todo, i, sniffed, outs, replace, strict)
    requires todo[i] in PathsOf(outs) && Repeated(q, todo[i]) && Passes(tools, s, todo[i], replace)
    requires replace ==> Harmless(tools, q)
    requires VanishedStep(tools, t, u, todo[i], tools.compile(mid, todo[i]), replace)
    ensures u == t
  {
    var c := tools.compile(mid, todo[i]);
    if Identified(tools, c) && (replace || c.name !in t.modules) {
      var dest :| GoesTo(tools, t.disk, todo[i].base, c, dest) && u == Dropped(t, c.name, dest);
      if replace {
        AtHome(tools, s, t, mid, q, todo, i, sniffed, outs, strict);
      }
      NothingDropped(t, c.name, dest);
    }
  }

  lemma {:induction false} AtHome(tools: Tools, s: State, t: State, mid: map<Path, Content>, q: seq<Path>,
      todo: seq<Path>, i: nat, sniffed: seq<Outcome>, outs: seq<Outcome>, strict: bool)
    requires i < |todo| && RoutingAll(tools, s, t, mid, q, todo, i, sniffed, outs, true, strict)
    requires todo[i] in PathsOf(outs) && Repeated(q, todo[i]) && Passes(tools, s, todo[i], true)
    requires Harmless(tools, q) && Identified(tools, tools.compile(mid, todo[i]))
    ensures var c := tools.compile(mid, todo[i]);
            && tools.place(c.oid, c.name).Some? && c.name in t.modules
            && t.modules[c.name].source == Path(Curated(tools.place(c.oid, c.name).value), c.name)
  {
    assert Batch(First(q)) == Batch(q);
    ImportedAtHome(tools, s, mid, q, Thinned(outs), todo[i]);
  }

  /** The only writer of the curated tree. */
  class Engine {
    const tools: Tools
    var disk: map<Path, Content>
    var prints: map<Path, Print>
    var modules: map<string, Row>

    ghost function View(): State
      reads this
    {
      State(disk, prints, modules)
    }

    constructor (tools: Tools, disk: map<Path, Content>, prints: map<Path, Print>, modules: map<string, Row>)
      ensures View() == State(disk, prints, modules) && this.tools == tools
    {
      this.tools := tools;
      this.disk := disk;
      this.prints := prints;
      this.modules := modules;
    }

    /** Moves a file to a free name of the matching outcome directory. */
    method Quarantine(path: Path, known: Option<Path>, ghost strict: bool) returns (o: Outcome)
      requires Consistent(tools.sha, View()) && path in disk && path.dir == Intake && (strict ==> Tidy(View()))
      modifies this`disk
      ensures o == NoOutcome(path, known)
      ensures Settled(tools.sha, old(View()), View(), o, strict)
    {
      var dir := if known.Some? then DuplicateDir else FailedDir;
      var q := UniquePath(disk, Path(dir, path.base));
      o := NoOutcome(path, known);
      QuarantineSettles(tools.sha, View(), o, q, strict);
      disk := MoveFile(disk, path, q);
    }

    /** Where a module goes: a directory of its own under its name, or a free name in unsorted/. */
    method Destination(base: string, name: string, oid: string) returns (dest: Path)
      requires NamesUnsortedByNone(tools)
      ensures match tools.place(oid, name)
              case Some(d) => dest == Path(Curated(d), name)
              case None => dest.dir == UNSORTED && FreeFor(disk, Path(UNSORTED, base), dest)
      ensures GoodDest(View(), dest, name)
    {
      match tools.place(oid, name) {
        case Some(d) =>
          assert tools.place(oid, name) != Some("unsorted");
          dest := Path(Curated(d), name);
        case None => dest := UniquePath(disk, Path(UNSORTED, base));
      }
    }

    /** Files a compiled module, superseding its former source if there is one. */
    method File(path: Path, name: string, oid: string, ghost strict: bool) returns (o: Outcome)
      requires Consistent(tools.sha, View()) && NamesUnsortedByNone(tools) && path in disk && path.dir == Intake
      requires strict ==> Tidy(View()) && name !in modules
      modifies this`disk, this`prints, this`modules
      ensures o.Imported? && o.path == path && o.mod == name
      ensures match tools.place(oid, name)
              case Some(d) => o.dest == Path(Curated(d), name)
              case None => o.dest.dir == UNSORTED && FreeFor(old(disk), Path(UNSORTED, path.base), o.dest)
      ensures View() == Filed(tools.sha, old(View()), path, o.dest, name)
      ensures Settled(tools.sha, old(View()), View(), o, strict)
    {
      var dest := Destination(path.base, name, oid);
      FilingSettles(tools.sha, View(), path, dest, name, strict);
      SupersededIsCurated(tools.sha, View(), name, dest);
      ghost var gone := Superseded(View(), name, dest);
      assert path !in gone && gone - {path} == gone;
      Supersede(name, dest);
      var content := disk[path];
      disk := MoveFile(disk, path, dest);
      modules := modules[name := Row(dest, content)];
      prints := prints[dest := Print(tools.sha(content), name)];
      o := Imported(path, name, dest);
    }

    /** Removes the former source of the module and its fingerprint. */
    method Supersede(name: string, dest: Path)
      modifies this`disk, this`prints
      ensures View() == Dropped(old(View()), name, dest)
    {
      ghost var gone := Superseded(View(), name, dest);
      assert disk - {} == disk && prints - {} == prints;
      if name in modules && modules[name].source != dest {
        var former := modules[name].source;
        disk := disk - {former};
        prints := prints - {former};
      }
    }

    /**
     * The result of a file that is no longer there, taken by another pass or listed twice: a quarantine has nothing to
     * move, and neither has the move into the tree, but the superseded source is removed before it.
     */
    method TakeUpVanished(path: Path, c: Compiled, replace: bool) returns (o: Option<Outcome>)
      requires path !in disk && NamesUnsortedByNone(tools)
      modifies this`disk, this`prints
      ensures o == VanishedOutcome(tools, old(View()), path, c, replace)
      ensures VanishedStep(tools, old(View()), View(), path, c, replace)
    {
      match c {
        case OutOfBudget => o := None;
        case Broken => o := Some(Rejected(path));
        case NoIdentity => o := Some(Rejected(path));
        case Compiled(name, oid) =>
          if name == "" || !tools.validName(name) {
            o := Some(Rejected(path));
          } else if name in modules && !replace {
            o := Some(Known(path, modules[name].source));
          } else {
            var dest := Destination(path.base, name, oid);
            assert GoesTo(tools, disk, path.base, c, dest);
            Supersede(name, dest);
            o := None;
          }
      }
    }

    /** One compile result; without replacement a module that is already stored makes the file a duplicate. */
    method Process(path: Path, c: Compiled, replace: bool, ghost strict: bool) returns (o: Option<Outcome>)
      requires Consistent(tools.sha, View()) && NamesUnsortedByNone(tools) && path in disk && path.dir == Intake
      requires strict ==> Tidy(View()) && !replace
      modifies this`disk, this`prints, this`modules
      ensures c == OutOfBudget <==> o.None?
      ensures o.None? ==> View() == old(View())
      ensures o.Some? ==> o.value.path == path && Settled(tools.sha, old(View()), View(), o.value, strict)
      ensures o.Some? ==> Judged(tools, c, old(modules), replace, o.value)
    {
      match c {
        case OutOfBudget =>
          o := None;
        case Broken =>
          var r := Quarantine(path, None, strict);
          o := Some(r);
        case NoIdentity =>
          var r := Quarantine(path, None, strict);
          o := Some(r);
        case Compiled(name, oid) =>
          var r;
          if name == "" || !tools.validName(name) {
            r := Quarantine(path, None, strict);
          } else if name in modules && !replace {
            r := Quarantine(path, Some(modules[name].source), strict);
          } else {
            r := File(path, name, oid, strict);
          }
          o := Some(r);
      }
    }

    /** Whether some curated file has this content hash, and which. */
    method FindBySha(sha: string) returns (p: Option<Path>)
      ensures p.Some? <==> exists x :: x in prints && prints[x].sha == sha
      ensures p.Some? ==> p.value in prints && prints[p.value].sha == sha
    {
      if x :| x in prints && prints[x].sha == sha {
        return Some(x);
      }
      p := None;
    }
  
    /** The flat-intake filter. */
    method Candidates(paths: seq<Path>) returns (q: seq<Path>)
      ensures q == Selected(paths, Candidate(View()))
    {
      q := [];
      for i := 0 to |paths|
        invariant q == Selected(paths[..i], Candidate(View()))
      {
        SelectedNext(paths, i, Candidate(View()));
        if paths[i].dir == Intake && !Reserved(paths[i].base) && paths[i] in disk {
          q := q + [paths[i]];
        }
      }
      assert paths[..|paths|] == paths;
    }

    /** The sniff and the byte-identical check, before any compile. */
    method Sniff(q: seq<Path>, replace: bool, ghost strict: bool) returns (outs: seq<Outcome>, todo: seq<Path>)
      requires Consistent(tools.sha, View()) && (strict ==> Tidy(View()) && !replace)
      requires forall p :: p in q ==> Eligible(View(), p)
      modifies this`disk
      ensures SniffedAll(tools, old(View()), View(), q, outs, todo, replace, strict)
    {
      ghost var s := View();
      outs, todo := [], [];
      SiftAllStarts(tools, s, q, replace, strict);
      for i := 0 to |q|
        invariant SiftingAll(tools, s, View(), q, i, outs, todo, replace, strict)
      {
        ghost var before := View();
        NextSifted(tools, s, before, q, i, outs, todo, replace, strict);
        var o := SniffOne(q[i], replace, strict);
        SiftAllNext(tools, s, before, View(), q, i, outs, todo, o, replace, strict);
        if o.None? {
          todo := todo + [q[i]];
        } else {
          outs := outs + [o.value];
        }
      }
      SiftAllEnds(tools, s, View(), q, outs, todo, replace, strict);
    }

    /** A file that is gone cannot be read and is turned away; there is nothing to move. */
    method SniffOne(path: Path, replace: bool, ghost strict: bool) returns (o: Option<Outcome>)
      requires Consistent(tools.sha, View()) && path.dir == Intake
      requires strict ==> Tidy(View()) && !replace
      modifies this`disk
      ensures SniffStep(tools, old(View()), View(), path, o, replace, strict)
    {
      if path !in disk {
        return Some(Rejected(path));
      }
      var known: Option<Path> := None;
      if tools.opener(disk[path]) && !replace {
        known := FindBySha(tools.sha(disk[path]));
      }
      if tools.opener(disk[path]) && known.None? {
        return None;
      }
      var r := Quarantine(path, known, strict);
      o := Some(r);
    }

    /**
     * One pass over a batch, as `run`; `mid` is the disk on which the compiles ran. With replacement, a path may be
     * repeated only where that is harmless.
     */
    method Run(paths: seq<Path>, replace: bool) returns (outs: seq<Outcome>, ghost mid: map<Path, Content>)
      requires Consistent(tools.sha, View()) && NamesUnsortedByNone(tools)
      requires replace ==> Harmless(tools, paths)
      modifies this`disk, this`prints, this`modules
      ensures Batched(tools, old(View()), View(), mid, paths, outs, replace)
      ensures outs == [] ==> View() == old(View())
    {
      ghost var s, strict := View(), !replace && Tidy(View());
      var q := Candidates(paths);
      if replace {
        HarmlessSelected(tools, paths, Candidate(s));
      }
      var sniffed, todo := Sniff(q, replace, strict);
      mid := disk;
      ghost var sifted := View();
      var results := CompileAll(todo);
      RoutingAllStarts(tools, s, sifted, q, todo, sniffed, replace, strict);
      LeftForCompile(tools, s, sifted, q, todo, sniffed, replace, strict);
      outs := Route(todo, results, sniffed, replace, s, mid, q, strict);
      RoutingAllEnds(tools, s, mid, View(), paths, q, todo, sniffed, outs, replace);
    }

    /** Takes up the compile results one by one. */
    method Route(todo: seq<Path>, results: seq<Compiled>, sniffed: seq<Outcome>, replace: bool, ghost s: State,
        ghost mid: map<Path, Content>, ghost q: seq<Path>, ghost strict: bool) returns (outs: seq<Outcome>)
      requires NamesUnsortedByNone(tools) && (strict ==> !replace) && (replace ==> Harmless(tools, q))
      requires |results| == |todo| && forall i :: 0 <= i < |todo| ==> results[i] == tools.compile(mid, todo[i])
      requires todo == Selected(q, Passing(tools, s, replace)) && ForCompile(s, q, todo, sniffed)
      requires RoutingAll(tools, s, View(), mid, q, todo, 0, sniffed, sniffed, replace, strict)
      modifies this`disk, this`prints, this`modules
      ensures RoutingAll(tools, s, View(), mid, q, todo, |todo|, sniffed, outs, replace, strict)
    {
      outs := sniffed;
      for i := 0 to |todo|
        invariant RoutingAll(tools, s, View(), mid, q, todo, i, sniffed, outs, replace, strict)
      {
        var o := RouteOne(todo, i, results[i], sniffed, outs, replace, s, mid, q, strict);
        if o.Some? {
          outs := outs + [o.value];
        }
      }
    }

    method RouteOne(todo: seq<Path>, i: nat, c: Compiled, ghost sniffed: seq<Outcome>, ghost outs: seq<Outcome>,
        replace: bool, ghost s: State, ghost mid: map<Path, Content>, ghost q: seq<Path>, ghost strict: bool)
        returns (o: Option<Outcome>)
      requires NamesUnsortedByNone(tools) && (strict ==> !replace) && (replace ==> Harmless(tools, q))
      requires i < |todo| && c == tools.compile(mid, todo[i])
      requires todo == Selected(q, Passing(tools, s, replace)) && ForCompile(s, q, todo, sniffed)
      requires RoutingAll(tools, s, View(), mid, q, todo, i, sniffed, outs, replace, strict)
      modifies this`disk, this`prints, this`modules
      ensures RoutingAll(tools, s, View(), mid, q, todo, i + 1, sniffed,
                         if o.Some? then outs + [o.value] else outs, replace, strict)
    {
      ghost var before := View();
      NextRouted(tools, s, before, mid, q, todo, i, sniffed, outs, replace, strict);
      assert todo[i] in todo;
      if todo[i] in disk {
        o := Process(todo[i], c, replace, strict);
        if o.Some? {
          RoutedAllOn(tools, s, before, View(), mid, q, todo, i, sniffed, outs, o.value, replace, strict);
        } else {
          PassedOverAll(tools, s, before, mid, q, todo, i, sniffed, outs, replace, strict);
        }
      } else {
        RepeatedForCompile(tools, s, q, todo, i, replace);
        o := TakeUpVanished(todo[i], c, replace);
        AgainStands(tools, s, before, View(), mid, q, todo, i, sniffed, outs, replace, strict);
        RoutedAgain(tools, s, before, mid, q, todo, i, sniffed, outs, o, replace, strict);
      }
    }

    method CompileAll(todo: seq<Path>) returns (results: seq<Compiled>)
      ensures |results| == |todo| && forall i :: 0 <= i < |todo| ==> results[i] == tools.compile(disk, todo[i])
    {
      results := [];
      for i := 0 to |todo|
        invariant |results| == i && forall k :: 0 <= k < i ==> results[k] == tools.compile(disk, todo[k])
      {
        results := results + [tools.compile(disk, todo[i])];
      }
    }

    /** A plain import of a tidy corpus keeps every stored module and file, and loses no content. */
    method Import(paths: seq<Path>) returns (outs: seq<Outcome>, ghost mid: map<Path, Content>)
      requires Consistent(tools.sha, View()) && NamesUnsortedByNone(tools)
      modifies this`disk, this`prints, this`modules
      ensures Batched(tools, old(View()), View(), mid, paths, outs, false)
      ensures Tidy(old(View())) ==> Tidy(View()) && Kept(old(View()), View(), PathsOf(outs)) && OnlyNew(old(View()), outs)
      ensures Distinct(paths) ==> Decided(tools, old(View()), mid, paths, outs, false)
    {
      ghost var s := View();
      outs, mid := Run(paths, false);
      if Tidy(s) {
        ThinnedNames(paths, outs);
      }
      if Distinct(paths) {
        DistinctBatch(tools, s, View(), mid, paths, outs, false);
      }
    }

    method ImportReplace(paths: seq<Path>) returns (outs: seq<Outcome>, ghost mid: map<Path, Content>)
      requires Consistent(tools.sha, View()) && NamesUnsortedByNone(tools) && Harmless(tools, paths)
      modifies this`disk, this`prints, this`modules
      ensures Batched(tools, old(View()), View(), mid, paths, outs, true)
      ensures Distinct(paths) ==> Decided(tools, old(View()), mid, paths, outs, true)
    {
      ghost var s := View();
      outs, mid := Run(paths, true);
      if Distinct(paths) {
        DistinctBatch(tools, s, View(), mid, paths, outs, true);
      }
    }

    /**
     * Re-runs one quarantined file with replacement. A file that still sits in import/ is not picked up: the path
     * made for it is one where no file is, so nothing happens and the call reports failure.
     */
    method ImportReplacing(path: Path) returns (o: Outcome, ghost intake: Path)
      requires Consistent(tools.sha, View()) && NamesUnsortedByNone(tools) && !path.dir.Curated?
      modifies this`disk, this`prints, this`modules
      ensures Consistent(tools.sha, View())
      ensures intake.dir == Intake && FreeFor(old(disk), Path(Intake, path.base), intake)
      ensures Rerunning(tools, old(View()), View(), path, intake, o)
      ensures o.Imported? <==> PickedUp(old(View()), path)
                               && tools.opener(old(disk)[path])
                               && Identified(tools, tools.compile(MoveFile(old(disk), path, intake), intake))
    {
      var target := UniquePath(disk, Path(Intake, path.base));
      intake := target;
      StagedName(disk, path.base, target);
      if path.dir != Intake {
        if path !in disk {
          return Rejected(path), intake;
        }
        MoveKeepsConsistent(tools.sha, View(), path, target);
        disk := MoveFile(disk, path, target);
      }
      ghost var s := View();
      DistinctIsHarmless(tools, [target]);
      var res, mid := Run([target], true);
      DistinctBatch(tools, s, View(), mid, [target], res, true);
      OneDecided(tools, s, View(), mid, target, res);
      if |res| == 1 {
        return res[0], intake;
      }
      o := Rejected(target);
    }

    /** A file arriving in import/, from an upload or a file drop. */
    method Drop(base: string, content: Content)
      requires Consistent(tools.sha, View())
      modifies this`disk
      ensures disk == old(disk)[Path(Intake, base) := content] && Consistent(tools.sha, View())
    {
      DropKeepsConsistent(tools.sha, View(), Path(Intake, base), content);
      disk := disk[Path(Intake, base) := content];
    }

    /** Any sequence of arrivals and batches, call by call; modules and fingerprints stay in bijection. */
    method Serve(calls: seq<Call>) returns (reports: seq<seq<Outcome>>, ghost states: seq<State>)
      requires Consistent(tools.sha, View()) && NamesUnsortedByNone(tools)
      requires forall c :: c in calls ==> ValidCall(c)
      modifies this`disk, this`prints, this`modules
      ensures Trace(tools, states, calls, reports) && states[0] == old(View()) && states[|calls|] == View()
      ensures Consistent(tools.sha, View())
    {
      reports, states := [], [View()];
      for i := 0 to |calls|
        invariant Trace(tools, states, calls[..i], reports) && states[0] == old(View()) && states[i] == View()
        invariant Consistent(tools.sha, View())
      {
        assert calls[i] in calls && calls[..i + 1] == calls[..i] + [calls[i]];
        var outs := ServeOne(calls[i]);
        StepsOn(Calling(tools), states, calls[..i], reports, View(), calls[i], outs);
        reports := reports + [outs];
        states := states + [View()];
      }
      assert calls[..|calls|] == calls;
    }

    method ServeOne(c: Call) returns (outs: seq<Outcome>)
      requires Consistent(tools.sha, View()) && NamesUnsortedByNone(tools) && ValidCall(c)
      modifies this`disk, this`prints, this`modules
      ensures CallStep(tools, old(View()), View(), c, outs) && Consistent(tools.sha, View())
    {
      match c {
        case Arrive(base, content) =>
          Drop(base, content);
          outs := [];
        case PlainBatch(paths) =>
          ghost var s := View();
          ghost var mid;
          outs, mid := Import(paths);
          DistinctBatch(tools, s, View(), mid, paths, outs, false);
        case ReplacingBatch(paths) =>
          ghost var s := View();
          ghost var mid;
          DistinctIsHarmless(tools, paths);
          outs, mid := ImportReplace(paths);
          DistinctBatch(tools, s, View(), mid, paths, outs, true);
        case Rerun(path) =>
          var o, intake := ImportReplacing(path);
          outs := [o];
      }
    }
  }
}
