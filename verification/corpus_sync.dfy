/** The boot walk that validates the stored corpus against the curated tree (internal/mibimport/sync.go). */
module CorpusSync {
  import opened Model

  datatype File = File(content: string, mtime: int)

  datatype Print = Print(size: nat, mtime: int, sha: string, mod: string)

  datatype Row = Row(source: string, data: string)

  /** A compile without module or with an empty name counts as broken. */
  datatype Compiled = Broken | Compiled(name: string)

  datatype Tools =
    Tools(sha: string -> string, opener: string -> bool, compile: (map<string, File>, string) -> Compiled)

  /** The files the walk sees by path, the fingerprints by path, and the stored modules. */
  datatype State = State(disk: map<string, File>, prints: map<string, Print>, modules: map<string, Row>)

  datatype Action = Trust | Skip | Touch | Compile

  function ActionFor(tools: Tools, s: State, p: string): Action
    requires p in s.disk
  {
    var f := s.disk[p];
    if p in s.prints && s.prints[p].size == |f.content| && s.prints[p].mtime == f.mtime then Trust
    else if !tools.opener(f.content) then Skip
    else if p in s.prints && s.prints[p].sha == tools.sha(f.content) then Touch
    else Compile
  }

  /** The module a file that needs compiling declares, if it compiles. */
  function Declares(tools: Tools, s: State, p: string): Option<string>
    requires p in s.disk
  {
    if ActionFor(tools, s, p) != Compile then None
    else
      match tools.compile(s.disk, p)
      case Broken => None
      case Compiled(name) => if name == "" then None else Some(name)
  }

  function Fresh(tools: Tools, f: File, mod: string): Print {
    Print(|f.content|, f.mtime, tools.sha(f.content), mod)
  }

  /** The fingerprint of one path after the walk. */
  function PrintAfter(tools: Tools, s: State, p: string): Option<Print> {
    if p !in s.disk then None
    else
      match ActionFor(tools, s, p)
      case Trust => Some(s.prints[p])
      case Skip => if p in s.prints then Some(s.prints[p]) else None
      case Touch => Some(Fresh(tools, s.disk[p], s.prints[p].mod))
      case Compile =>
        match Declares(tools, s, p)
        case None => None
        case Some(name) => Some(Fresh(tools, s.disk[p], name))
  }

  /** The fingerprints after the walk, path by path. */
  ghost predicate PrintsSynced(tools: Tools, s: State, prints: map<string, Print>) {
    forall p :: Look(prints, p) == PrintAfter(tools, s, p)
  }

  ghost function Named(prints: map<string, Print>): set<string> {
    set p | p in prints :: prints[p].mod
  }

  ghost function Compiles(tools: Tools, s: State): set<string> {
    set p | p in s.disk && Declares(tools, s, p).Some?
  }

  ghost function Changed(tools: Tools, s: State): set<string> {
    set p | p in s.disk && ActionFor(tools, s, p) == Compile
  }

  /** Names of the modules compiled from `paths`. */
  ghost function NamesFrom(tools: Tools, s: State, paths: set<string>): set<string> {
    set p | p in paths && p in s.disk && Declares(tools, s, p).Some? :: Declares(tools, s, p).value
  }

  /** `row` is compiled from one of `paths`. */
  ghost predicate RowFrom(tools: Tools, s: State, paths: set<string>, m: string, row: Row) {
    row.source in paths && row.source in s.disk
    && Declares(tools, s, row.source) == Some(m) && row.data == s.disk[row.source].content
  }

  /** `after` is `before` with the modules compiled from `paths` stored over it. */
  ghost predicate StoredBy(tools: Tools, s: State, before: map<string, Row>, after: map<string, Row>,
      paths: set<string>)
  {
    && after.Keys == before.Keys + NamesFrom(tools, s, paths)
    && forall m :: m in after ==>
         if m in NamesFrom(tools, s, paths) then RowFrom(tools, s, paths, m, after[m])
         else m in before && after[m] == before[m]
  }

  lemma {:induction false} StoredOn(tools: Tools, s: State, before: map<string, Row>, after: map<string, Row>,
      paths: set<string>, p: string)
    requires StoredBy(tools, s, before, after, paths) && p in Compiles(tools, s)
    ensures StoredBy(tools, s, before, after[Declares(tools, s, p).value := Row(p, s.disk[p].content)], paths + {p})
  {
    assert NamesFrom(tools, s, paths + {p}) == NamesFrom(tools, s, paths) + {Declares(tools, s, p).value};
  }

  /** Both tables after the changed files outside `left` are compiled. */
  ghost predicate CompiledDown(tools: Tools, s: State, todo: set<string>, good: set<string>,
      prints0: map<string, Print>, modules0: map<string, Row>, prints: map<string, Print>, modules: map<string, Row>,
      left: set<string>)
  {
    && StoredBy(tools, s, modules0, modules, good - left)
    && PrintedBy(tools, s, prints0, prints, todo, left)
  }

  /** `prints` is `prints0` with what is left by the files of `todo` outside `left`. */
  ghost predicate PrintedBy(tools: Tools, s: State, prints0: map<string, Print>, prints: map<string, Print>,
      todo: set<string>, left: set<string>)
  {
    forall x {:trigger Look(prints, x)} ::
      Look(prints, x) == if x in todo && x !in left then PrintAfter(tools, s, x) else Look(prints0, x)
  }

  lemma {:induction false} PrintsOn(tools: Tools, s: State, prints0: map<string, Print>, prints: map<string, Print>,
      prints': map<string, Print>, todo: set<string>, left: set<string>, p: string)
    requires p in left && p in todo && PrintedBy(tools, s, prints0, prints, todo, left)
    requires forall x {:trigger Look(prints', x)} ::
               Look(prints', x) == if x == p then PrintAfter(tools, s, p) else Look(prints, x)
    ensures PrintedBy(tools, s, prints0, prints', todo, left - {p})
  {}

  /** What compiling `p` does to both tables. */
  ghost predicate OneCompiled(tools: Tools, s: State, prints: map<string, Print>, modules: map<string, Row>,
      prints': map<string, Print>, modules': map<string, Row>, p: string)
    requires p in s.disk
  {
    && (forall x {:trigger Look(prints', x)} ::
          Look(prints', x) == if x == p then PrintAfter(tools, s, p) else Look(prints, x))
    && modules' == match Declares(tools, s, p)
                   case None => modules
                   case Some(name) => modules[name := Row(p, s.disk[p].content)]
  }

  /** `todo` needs compiling, and `good` is what of it compiles. */
  ghost predicate ToCompile(tools: Tools, s: State, todo: set<string>, good: set<string>) {
    && (forall p :: p in todo ==> p in s.disk && ActionFor(tools, s, p) == Compile)
    && (forall p :: p in todo ==> (p in good <==> Declares(tools, s, p).Some?))
    && good <= todo
  }

  lemma {:induction false} ChangedToCompile(tools: Tools, s: State)
    ensures ToCompile(tools, s, Changed(tools, s), Compiles(tools, s))
  {}

  lemma {:induction false} NothingCompiled(tools: Tools, s: State, todo: set<string>, good: set<string>,
      prints: map<string, Print>, modules: map<string, Row>)
    requires good <= todo
    ensures CompiledDown(tools, s, todo, good, prints, modules, prints, modules, todo)
    ensures good - todo == {}
  {
    assert good - todo == {};
    assert NamesFrom(tools, s, {}) == {};
  }

  lemma {:induction false} CompiledOn(tools: Tools, s: State, todo: set<string>, good: set<string>,
      prints0: map<string, Print>, modules0: map<string, Row>, prints: map<string, Print>, modules: map<string, Row>,
      prints': map<string, Print>, modules': map<string, Row>, left: set<string>, p: string)
    requires CompiledDown(tools, s, todo, good, prints0, modules0, prints, modules, left)
    requires p in left && p in todo && ToCompile(tools, s, todo, good)
    requires OneCompiled(tools, s, prints, modules, prints', modules', p)
    ensures CompiledDown(tools, s, todo, good, prints0, modules0, prints', modules', left - {p})
    ensures |good - (left - {p})| == |good - left| + if Declares(tools, s, p).Some? then 1 else 0
  {
    MinusOn(good, left, p);
    PrintsOn(tools, s, prints0, prints, prints', todo, left, p);
    ModulesOn(tools, s, good, modules0, modules, modules', left, p);
  }

  lemma {:induction false} ModulesOn(tools: Tools, s: State, good: set<string>, modules0: map<string, Row>,
      modules: map<string, Row>, modules': map<string, Row>, left: set<string>, p: string)
    requires p in left && p in s.disk && StoredBy(tools, s, modules0, modules, good - left)
    requires p in good <==> Declares(tools, s, p).Some?
    requires modules' == match Declares(tools, s, p)
                         case None => modules
                         case Some(name) => modules[name := Row(p, s.disk[p].content)]
    ensures StoredBy(tools, s, modules0, modules', good - (left - {p}))
  {
    MinusOn(good, left, p);
    if Declares(tools, s, p).Some? {
      StoredOn(tools, s, modules0, modules, good - left, p);
    } else {
      assert good - (left - {p}) == good - left;
    }
  }

  /** Modules some fingerprint on disk still backs. */
  function Backed(s: State): set<string> {
    set p | p in s.prints && p in s.disk :: s.prints[p].mod
  }

  /** Vanished files whose module nothing on disk backs. */
  function Orphaned(s: State): set<string> {
    set p | p in s.prints && p !in s.disk && s.prints[p].mod !in Backed(s) && s.prints[p].mod != ""
  }

  /** The fingerprints without a file. */
  function Vanished(s: State): set<string> {
    set p | p in s.prints && p !in s.disk
  }

  /** Both tables after the vanished files outside `left` are dropped. */
  ghost predicate VanishedDown(s: State, prints0: map<string, Print>, modules0: map<string, Row>,
      prints: map<string, Print>, modules: map<string, Row>, left: set<string>)
  {
    prints == prints0 - (Vanished(s) - left) && modules == modules0 - ModsOf(s.prints, Orphaned(s) - left)
  }

  lemma {:induction false} NothingVanished(s: State, prints: map<string, Print>, modules: map<string, Row>)
    ensures VanishedDown(s, prints, modules, prints, modules, s.prints.Keys)
    ensures Orphaned(s) - s.prints.Keys == {}
  {
    assert Vanished(s) - s.prints.Keys == {} && Orphaned(s) - s.prints.Keys == {};
    assert prints - {} == prints && modules - {} == modules && ModsOf(s.prints, {}) == {};
  }

  lemma {:induction false} DroppedOn<T>(m0: map<string, T>, all: set<string>, left: set<string>, p: string)
    requires p in left
    ensures m0 - (all - (left - {p})) == m0 - (all - left) - (if p in all then {p} else {})
  {}

  lemma {:induction false} OrphansOn(s: State, modules0: map<string, Row>, left: set<string>, p: string)
    requires p in left && p in s.prints
    ensures modules0 - ModsOf(s.prints, Orphaned(s) - (left - {p}))
         == modules0 - ModsOf(s.prints, Orphaned(s) - left) - (if p in Orphaned(s) then {s.prints[p].mod} else {})
    ensures |Orphaned(s) - (left - {p})| == |Orphaned(s) - left| + if p in Orphaned(s) then 1 else 0
  {
    MinusOn(Orphaned(s), left, p);
    if p in Orphaned(s) {
      ModsOn(s.prints, Orphaned(s) - left, p);
      DropOn(modules0, ModsOf(s.prints, Orphaned(s) - left), s.prints[p].mod);
    } else {
      assert Orphaned(s) - (left - {p}) == Orphaned(s) - left;
    }
  }

  lemma {:induction false} VanishedOn(s: State, prints0: map<string, Print>, modules0: map<string, Row>,
      prints: map<string, Print>, modules: map<string, Row>, left: set<string>, p: string)
    requires p in left && p in s.prints && VanishedDown(s, prints0, modules0, prints, modules, left)
    ensures VanishedDown(s, prints0, modules0, prints - (if p in s.disk then {} else {p}),
                         modules - (if p in Orphaned(s) then {s.prints[p].mod} else {}), left - {p})
    ensures |Orphaned(s) - (left - {p})| == |Orphaned(s) - left| + if p in Orphaned(s) then 1 else 0
  {
    DroppedOn(prints0, Vanished(s), left, p);
    OrphansOn(s, modules0, left, p);
  }

  lemma {:induction false} MinusOn(all: set<string>, left: set<string>, p: string)
    requires p in left
    ensures all - (left - {p}) == (all - left) + (if p in all then {p} else {})
  {}

  function ModsOf(prints: map<string, Print>, paths: set<string>): set<string>
    requires paths <= prints.Keys
  {
    set p | p in paths :: prints[p].mod
  }

  lemma {:induction false} ModsOn(prints: map<string, Print>, paths: set<string>, p: string)
    requires paths <= prints.Keys && p in prints
    ensures ModsOf(prints, paths + {p}) == ModsOf(prints, paths) + {prints[p].mod}
  {}

  lemma {:induction false} DropOn<T>(m: map<string, T>, gone: set<string>, x: string)
    ensures m - gone - {x} == m - (gone + {x})
  {}

  function Dropped(s: State): set<string> {
    ModsOf(s.prints, Orphaned(s))
  }

  /** Fingerprints name stored modules: what imports and earlier walks leave behind. */
  ghost predicate NamesStored(s: State) {
    forall p :: p in s.prints ==> s.prints[p].mod in s.modules
  }

  /** The stored modules are exactly the named ones. */
  ghost predicate Exact(s: State) {
    s.modules.Keys == Named(s.prints) && forall p :: p in s.prints ==> p in s.disk
  }

  /** Modules that end without a fingerprint although no vanished file took them along. */
  ghost function Ghosts(tools: Tools, s: State, prints: map<string, Print>): set<string> {
    (s.modules.Keys - Dropped(s) + NamesFrom(tools, s, Compiles(tools, s))) - Named(prints)
  }

  /** The outcome of the walk: fingerprints by path, and the rows of newly compiled and of kept modules. */
  ghost predicate Synced(tools: Tools, s: State, t: State) {
    && t.disk == s.disk && PrintsSynced(tools, s, t.prints)
    && forall m :: m in t.modules ==>
         if m in NamesFrom(tools, s, Compiles(tools, s)) then RowFrom(tools, s, Compiles(tools, s), m, t.modules[m])
         else m in s.modules && t.modules[m] == s.modules[m]
  }

  /** Only the fingerprints of touched files are refreshed. */
  ghost predicate Touched(tools: Tools, s: State, prints: map<string, Print>) {
    forall p :: Look(prints, p) ==
      if p in s.disk && ActionFor(tools, s, p) == Touch then Some(Fresh(tools, s.disk[p], s.prints[p].mod))
      else Look(s.prints, p)
  }

  /** Diff, drop and compile together leave at each path what PrintAfter says. */
  lemma {:induction false} PrintsAreSynced(tools: Tools, s: State, touched: map<string, Print>,
      dropped: map<string, Print>, prints: map<string, Print>)
    requires Touched(tools, s, touched) && dropped == touched - (Vanished(s) - {})
    requires PrintedBy(tools, s, dropped, prints, Changed(tools, s), {})
    ensures PrintsSynced(tools, s, prints)
  {
    forall p ensures Look(prints, p) == PrintAfter(tools, s, p) {
      assert Look(dropped, p) == if p in Vanished(s) then None else Look(touched, p);
    }
  }

  /** No fingerprint that stays names a dropped module. */
  lemma {:induction false} KeysStored(tools: Tools, s: State, stored: set<string>, prints: map<string, Print>)
    requires NamesStored(s) && PrintsSynced(tools, s, prints)
    requires stored == s.modules.Keys - Dropped(s) + NamesFrom(tools, s, Compiles(tools, s))
    ensures Named(prints) <= stored && forall p :: p in prints ==> p in s.disk
  {
    forall p | p in prints ensures prints[p].mod in stored && p in s.disk {
      assert Look(prints, p) == PrintAfter(tools, s, p);
      if Declares(tools, s, p).None? {
        assert p in s.prints && prints[p].mod == s.prints[p].mod;
        assert s.prints[p].mod in Backed(s);
      } else {
        assert p in Compiles(tools, s);
      }
    }
  }

  /** Dropping what nothing names leaves the rows described by Synced. */
  lemma {:induction false} PruneEnds(tools: Tools, s: State, stored: map<string, Row>, prints: map<string, Print>)
    requires NamesStored(s) && PrintsSynced(tools, s, prints)
    requires StoredBy(tools, s, s.modules - Dropped(s), stored, Compiles(tools, s))
    ensures var ghosts := stored.Keys - Named(prints);
            var t := State(s.disk, prints, stored - ghosts);
            Synced(tools, s, t) && Exact(t) && ghosts == Ghosts(tools, s, prints)
  {
    KeysStored(tools, s, stored.Keys, prints);
  }

  /** The state the walk ends in, from those after its passes. */
  lemma {:induction false} WalkEnds(tools: Tools, s: State, touched: map<string, Print>, dropped: State, stored: State)
    requires NamesStored(s) && Touched(tools, s, touched)
    requires VanishedDown(s, touched, s.modules, dropped.prints, dropped.modules, {})
    requires CompiledDown(tools, s, Changed(tools, s), Compiles(tools, s), dropped.prints, dropped.modules, stored.prints,
                          stored.modules, {})
    ensures var ghosts := stored.modules.Keys - Named(stored.prints);
            var t := State(s.disk, stored.prints, stored.modules - ghosts);
            Synced(tools, s, t) && Exact(t) && ghosts == Ghosts(tools, s, t.prints)
  {
    PrintsAreSynced(tools, s, touched, dropped.prints, stored.prints);
    assert Orphaned(s) - {} == Orphaned(s) && Compiles(tools, s) - {} == Compiles(tools, s);
    PruneEnds(tools, s, stored.modules, stored.prints);
  }

  // ---- The walk, file by file ----

  /** No fingerprint, or the file's size or time is not the recorded one. */
  predicate LooksChanged(s: State, p: string)
    requires p in s.disk
  {
    p in s.prints ==> s.prints[p].size != |s.disk[p].content| || s.prints[p].mtime != s.disk[p].mtime
  }

  /** The file is compiled: it looks changed and like a module, and its content is not the fingerprinted one. */
  predicate IsCompiled(tools: Tools, s: State, p: string) {
    && p in s.disk && LooksChanged(s, p) && tools.opener(s.disk[p].content)
    && (p in s.prints ==> s.prints[p].sha != tools.sha(s.disk[p].content))
  }

  predicate CompilesTo(tools: Tools, s: State, p: string, m: string) {
    IsCompiled(tools, s, p) && tools.compile(s.disk, p) == Compiled(m) && m != ""
  }

  /** The fingerprint of a file the walk has taken in names its module, and has its size, time and hash. */
  ghost predicate PrintedAs(tools: Tools, s: State, t: State, p: string, m: string)
    requires p in s.disk
  {
    var f := s.disk[p];
    p in t.prints && t.prints[p] == Print(|f.content|, f.mtime, tools.sha(f.content), m)
  }

  /** What becomes of the fingerprint of one file the walk sees. */
  ghost predicate FileSettled(tools: Tools, s: State, t: State, p: string)
    requires p in s.disk
  {
    if !LooksChanged(s, p) || !tools.opener(s.disk[p].content) then Look(t.prints, p) == Look(s.prints, p)
    else if p in s.prints && s.prints[p].sha == tools.sha(s.disk[p].content) then
      PrintedAs(tools, s, t, p, s.prints[p].mod)
    else
      match tools.compile(s.disk, p)
      case Broken => p !in t.prints
      case Compiled(m) => if m == "" then p !in t.prints else PrintedAs(tools, s, t, p, m)
  }

  /** What becomes of one stored module: a row compiled in this walk if there is one, and otherwise the former row. */
  ghost predicate ModuleSettled(tools: Tools, s: State, t: State, m: string)
    requires m in t.modules
  {
    var row := t.modules[m];
    if exists p :: CompilesTo(tools, s, p, m) then
      CompilesTo(tools, s, row.source, m) && row.data == s.disk[row.source].content
    else m in s.modules && row == s.modules[m]
  }

  /** A fingerprint whose file is gone, naming a module that no file on disk is fingerprinted for. */
  predicate VanishedAlone(s: State, p: string) {
    && p in s.prints && p !in s.disk && s.prints[p].mod != ""
    && forall x :: x in s.prints && x in s.disk ==> s.prints[x].mod != s.prints[p].mod
  }

  ghost function VanishedPaths(s: State): set<string> {
    set p | p in s.prints && VanishedAlone(s, p)
  }

  ghost function CompiledPaths(tools: Tools, s: State): set<string> {
    set p | p in s.disk && exists m :: CompilesTo(tools, s, p, m)
  }

  /** The modules that go although no such fingerprint names them. */
  ghost function OthersRemoved(s: State, t: State): set<string> {
    set m | m in s.modules && m !in t.modules && forall p :: VanishedAlone(s, p) ==> s.prints[p].mod != m
  }

  /** The whole walk from `s` to `t`. */
  ghost predicate WalkIs(tools: Tools, s: State, t: State, compiled: nat, removed: nat) {
    && t.disk == s.disk
    && (forall p :: if p in s.disk then FileSettled(tools, s, t, p) else p !in t.prints)
    && (forall m :: m in t.modules <==> exists p :: p in t.prints && t.prints[p].mod == m)
    && (forall m :: m in t.modules ==> ModuleSettled(tools, s, t, m))
    && compiled == |CompiledPaths(tools, s)|
    && removed == |VanishedPaths(s)| + |OthersRemoved(s, t)|
  }

  lemma {:induction false} DeclaresIs(tools: Tools, s: State, p: string, m: string)
    requires p in s.disk
    ensures Declares(tools, s, p) == Some(m) <==> CompilesTo(tools, s, p, m)
    ensures Declares(tools, s, p).Some? <==> exists n :: CompilesTo(tools, s, p, n)
  {
    if Declares(tools, s, p).Some? {
      assert CompilesTo(tools, s, p, Declares(tools, s, p).value);
    }
  }

  lemma {:induction false} FileIsSettled(tools: Tools, s: State, t: State, p: string)
    requires Synced(tools, s, t)
    ensures if p in s.disk then FileSettled(tools, s, t, p) else p !in t.prints
  {
    assert Look(t.prints, p) == PrintAfter(tools, s, p);
  }

  lemma {:induction false} ModuleIsSettled(tools: Tools, s: State, t: State, m: string)
    requires Synced(tools, s, t) && m in t.modules
    ensures ModuleSettled(tools, s, t, m)
  {
    if m in NamesFrom(tools, s, Compiles(tools, s)) {
      DeclaresIs(tools, s, t.modules[m].source, m);
    } else {
      forall p ensures !CompilesTo(tools, s, p, m) {
        if p in s.disk {
          DeclaresIs(tools, s, p, m);
          assert Declares(tools, s, p) == Some(m) ==> p in Compiles(tools, s);
        }
      }
    }
  }

  lemma {:induction false} RemovedAre(tools: Tools, s: State, t: State)
    requires NamesStored(s) && Synced(tools, s, t) && Exact(t)
    ensures Orphaned(s) == VanishedPaths(s)
    ensures Ghosts(tools, s, t.prints) == OthersRemoved(s, t)
  {
    assert forall p :: p in s.prints ==> (p in Orphaned(s) <==> VanishedAlone(s, p));
    forall m | m in NamesFrom(tools, s, Compiles(tools, s)) ensures m in Named(t.prints) {
      var p :| p in Compiles(tools, s) && Declares(tools, s, p).value == m;
      assert Look(t.prints, p) == PrintAfter(tools, s, p);
    }
    forall m ensures m in Dropped(s) <==> exists p :: VanishedAlone(s, p) && s.prints[p].mod == m {
      if p :| VanishedAlone(s, p) && s.prints[p].mod == m {
        assert p in Orphaned(s);
      }
    }
  }

  lemma {:induction false} CompiledAre(tools: Tools, s: State)
    ensures Compiles(tools, s) == CompiledPaths(tools, s)
  {
    forall p | p in s.disk ensures p in Compiles(tools, s) <==> exists m :: CompilesTo(tools, s, p, m) {
      DeclaresIs(tools, s, p, "");
    }
  }

  lemma {:induction false} ModulesAreNamed(t: State)
    requires Exact(t)
    ensures forall m :: m in t.modules <==> exists p :: p in t.prints && t.prints[p].mod == m
  {
    assert forall m :: m in t.modules <==> m in Named(t.prints);
  }

  /** The outcome of the walk in these terms. */
  lemma {:induction false} SyncedIsWalk(tools: Tools, s: State, t: State, compiled: nat, removed: nat)
    requires NamesStored(s) && Synced(tools, s, t) && Exact(t)
    requires compiled == |Compiles(tools, s)| && removed == |Orphaned(s)| + |Ghosts(tools, s, t.prints)|
    ensures WalkIs(tools, s, t, compiled, removed)
  {
    forall p ensures if p in s.disk then FileSettled(tools, s, t, p) else p !in t.prints {
      FileIsSettled(tools, s, t, p);
    }
    forall m | m in t.modules ensures ModuleSettled(tools, s, t, m) {
      ModuleIsSettled(tools, s, t, m);
    }
    CompiledAre(tools, s);
    ModulesAreNamed(t);
    RemovedAre(tools, s, t);
  }

  class Cache {
    const tools: Tools
    var disk: map<string, File>
    var prints: map<string, Print>
    var modules: map<string, Row>

    ghost function View(): State
      reads this
    {
      State(disk, prints, modules)
    }

    constructor (tools: Tools, disk: map<string, File>, prints: map<string, Print>, modules: map<string, Row>)
      ensures this.tools == tools && View() == State(disk, prints, modules)
    {
      this.tools, this.disk, this.prints, this.modules := tools, disk, prints, modules;
    }

    /** What needs compiling; a mere touch refreshes its fingerprint on the way. */
    method Diff() returns (todo: set<string>)
      modifies this`prints
      ensures todo == Changed(tools, old(View()))
      ensures Touched(tools, old(View()), prints)
    {
      var known, left := prints, disk.Keys;
      ghost var s := View();
      todo := {};
      while left != {}
        invariant left <= disk.Keys
        invariant todo == set p | p in disk && p !in left && ActionFor(tools, s, p) == Compile
        invariant forall p :: Look(prints, p) ==
                    if p in disk && p !in left && ActionFor(tools, s, p) == Touch
                    then Some(Fresh(tools, disk[p], known[p].mod)) else Look(known, p)
        decreases left
      {
        var p :| p in left;
        left := left - {p};
        var f := disk[p];
        if p in known && known[p].size == |f.content| && known[p].mtime == f.mtime {
          continue;
        }
        if !tools.opener(f.content) {
          continue;
        }
        var sha := tools.sha(f.content);
        if p in known && known[p].sha == sha {
          prints := prints[p := Print(|f.content|, f.mtime, sha, known[p].mod)];
          continue;
        }
        todo := todo + {p};
      }
    }

    method VanishOne(p: string, known: map<string, Print>, backers: set<string>, ghost s: State, ghost before: State,
        ghost left: set<string>) returns (dropped: bool)
      requires p in known && known == s.prints && p in left && s.disk == disk && backers == Backed(s)
      requires VanishedDown(s, before.prints, before.modules, prints, modules, left)
      modifies this`prints, this`modules
      ensures VanishedDown(s, before.prints, before.modules, prints, modules, left - {p})
      ensures |Orphaned(s) - (left - {p})| == |Orphaned(s) - left| + if dropped then 1 else 0
    {
      VanishedOn(s, before.prints, before.modules, prints, modules, left, p);
      assert prints - {} == prints && modules - {} == modules;
      dropped := false;
      if p !in disk {
        prints := prints - {p};
        if known[p].mod !in backers && known[p].mod != "" {
          modules := modules - {known[p].mod};
          dropped := true;
        }
      }
    }

    /** Drops the fingerprints of vanished files, and their modules unless another file on disk backs them. */
    method DropVanished(known: map<string, Print>, ghost s: State) returns (removed: nat)
      requires s.disk == disk && s.prints == known
      modifies this`prints, this`modules
      ensures VanishedDown(s, old(prints), old(modules), prints, modules, {})
      ensures removed == |Orphaned(s)|
    {
      var backers := set p | p in known && p in disk :: known[p].mod;
      assert backers == Backed(s);
      var left := known.Keys;
      removed := 0;
      ghost var before := View();
      NothingVanished(s, prints, modules);
      while left != {}
        invariant left <= known.Keys && removed == |Orphaned(s) - left|
        invariant VanishedDown(s, before.prints, before.modules, prints, modules, left)
        decreases left
      {
        var p :| p in left;
        var dropped := VanishOne(p, known, backers, s, before, left);
        if dropped {
          removed := removed + 1;
        }
        left := left - {p};
      }
      assert Orphaned(s) - {} == Orphaned(s);
    }

    method CompileOne(p: string, ghost todo: set<string>, ghost good: set<string>, ghost s: State, ghost before: State,
        ghost left: set<string>) returns (stored: bool)
      requires s.disk == disk && ToCompile(tools, s, todo, good) && p in left && p in todo
      requires CompiledDown(tools, s, todo, good, before.prints, before.modules, prints, modules, left)
      modifies this`prints, this`modules
      ensures CompiledDown(tools, s, todo, good, before.prints, before.modules, prints, modules, left - {p})
      ensures |good - (left - {p})| == |good - left| + if stored then 1 else 0
    {
      var c := tools.compile(disk, p);
      ghost var now := View();
      if c == Broken || c.name == "" {
        prints := prints - {p};
        stored := false;
      } else {
        modules := modules[c.name := Row(p, disk[p].content)];
        prints := prints[p := Fresh(tools, disk[p], c.name)];
        stored := true;
      }
      CompiledOn(tools, s, todo, good, before.prints, before.modules, now.prints, now.modules, prints, modules, left, p);
    }

    /** Stores what the changed files declare; a file that fails loses its fingerprint. */
    method CompileAll(todo: set<string>, ghost good: set<string>, ghost s: State) returns (compiled: nat)
      requires s.disk == disk && ToCompile(tools, s, todo, good)
      modifies this`prints, this`modules
      ensures compiled == |good|
      ensures CompiledDown(tools, s, todo, good, old(prints), old(modules), prints, modules, {})
    {
      var left := todo;
      compiled := 0;
      ghost var before := View();
      NothingCompiled(tools, s, todo, good, prints, modules);
      while left != {}
        invariant left <= todo && compiled == |good - left|
        invariant CompiledDown(tools, s, todo, good, before.prints, before.modules, prints, modules, left)
        decreases left
      {
        var p :| p in left;
        var stored := CompileOne(p, todo, good, s, before, left);
        if stored {
          compiled := compiled + 1;
        }
        left := left - {p};
      }
      assert good - {} == good;
    }

    /** Removes the modules no fingerprint names. */
    method PruneGhosts() returns (removed: nat)
      modifies this`modules
      ensures modules == old(modules) - (old(modules).Keys - Named(prints))
      ensures removed == |old(modules).Keys - Named(prints)|
    {
      var names := set p | p in prints :: prints[p].mod;
      var ghosts := modules.Keys - names;
      modules := modules - ghosts;
      removed := |ghosts|;
    }
  
    /**
     * The walk. Every path ends with the fingerprint its file calls for, and the stored modules are exactly those
     * the fingerprints name.
     */
    method SyncCorpus() returns (compiled: nat, removed: nat)
      requires NamesStored(View())
      modifies this`prints, this`modules
      ensures Synced(tools, old(View()), View()) && Exact(View())
      ensures compiled == |Compiles(tools, old(View()))|
      ensures removed == |Orphaned(old(View()))| + |Ghosts(tools, old(View()), prints)|
      ensures WalkIs(tools, old(View()), View(), compiled, removed)
    {
      ghost var s := View();
      var known := prints;
      var todo := Diff();
      ghost var touched := prints;
      removed := DropVanished(known, s);
      ghost var dropped := View();
      ChangedToCompile(tools, s);
      compiled := CompileAll(todo, Compiles(tools, s), s);
      WalkEnds(tools, s, touched, dropped, View());
      var ghosts := PruneGhosts();
      removed := removed + ghosts;
      SyncedIsWalk(tools, s, View(), compiled, removed);
    }
  
    /** Run twice over the same tree, the second walk finds nothing to do and changes nothing. */
    method SyncTwice() returns (compiled: nat, removed: nat)
      requires NamesStored(View())
      modifies this`prints, this`modules
      ensures Synced(tools, old(View()), View()) && Exact(View())
      ensures compiled == 0 && removed == 0
      ensures exists c: nat, r: nat :: WalkIs(tools, old(View()), View(), c, r)
    {
      ghost var s := View();
      var c, r := SyncCorpus();
      ghost var t := View();
      assert WalkIs(tools, s, t, c, r);
      compiled, removed := SyncCorpus();
      SecondWalkIsQuiet(tools, s, t, View());
    }
  }

  // ---- What a walk promises ----

  /** After a walk every fingerprint is what the next walk would leave, and nothing compiles. */
  lemma {:induction false} NothingLeft(tools: Tools, s: State, t: State, p: string)
    requires Synced(tools, s, t)
    ensures PrintAfter(tools, t, p) == if p in s.disk then Look(t.prints, p) else None
    ensures p in t.disk ==> Declares(tools, t, p).None?
  {
    assert Look(t.prints, p) == PrintAfter(tools, s, p);
  }

  /** A second walk over the unchanged tree changes no module and no fingerprint, and reports nothing. */
  lemma {:induction false} SecondWalkIsQuiet(tools: Tools, s: State, t: State, u: State)
    requires Synced(tools, s, t) && Exact(t) && Synced(tools, t, u) && Exact(u)
    ensures u == t && Compiles(tools, t) == {} && Orphaned(t) == {} && Ghosts(tools, t, u.prints) == {}
  {
    forall p ensures Look(u.prints, p) == Look(t.prints, p) {
      NothingLeft(tools, s, t, p);
      assert Look(u.prints, p) == PrintAfter(tools, t, p);
    }
    forall p | p in t.disk ensures p !in Compiles(tools, t) {
      NothingLeft(tools, s, t, p);
    }
    SameMap(u.prints, t.prints);
    assert NamesFrom(tools, t, {}) == {};
    assert u.modules.Keys == t.modules.Keys;
    assert u.modules == t.modules;
  }

  lemma {:induction false} SameMap<T>(a: map<string, T>, b: map<string, T>)
    requires forall k :: Look(a, k) == Look(b, k)
    ensures a == b
  {
    forall k ensures k in a <==> k in b {
      assert Look(a, k) == Look(b, k);
    }
    forall k | k in a ensures a[k] == b[k] {
      assert Look(a, k) == Look(b, k);
    }
  }

  /** After the walk some file other than `p` has a fingerprint that names the module. */
  ghost predicate BackedBesides(tools: Tools, s: State, p: string, m: string) {
    exists x :: x != p && PrintAfter(tools, s, x).Some? && PrintAfter(tools, s, x).value.mod == m
  }

  ghost predicate FormerRow(s: State, t: State, m: string) {
    m in t.modules && m in s.modules && t.modules[m] == s.modules[m]
  }

  /**
   * A curated file that changed and no longer compiles loses its fingerprint. Its stored module outlives the walk only
   * if another file's fingerprint names it, and then with its former row unless such a file was compiled as well; on
   * its own it is removed, unlike what the comment at sync.go:179-181 says.
   */
  lemma {:induction false} BrokenFileLosesModule(tools: Tools, s: State, t: State, p: string)
    requires Synced(tools, s, t) && Exact(t) && p in s.prints && p in s.disk
    requires ActionFor(tools, s, p) == Compile && Declares(tools, s, p).None?
    ensures p !in t.prints
    ensures var m := s.prints[p].mod;
            m in t.modules <==> BackedBesides(tools, s, p, m)
    ensures var m := s.prints[p].mod;
            m in t.modules ==> if m in NamesFrom(tools, s, Compiles(tools, s))
                               then RowFrom(tools, s, Compiles(tools, s) - {p}, m, t.modules[m])
                               else FormerRow(s, t, m)
    ensures var m := s.prints[p].mod;
            (forall row :: RowFrom(tools, s, Compiles(tools, s), m, row) ==> Look(s.modules, m) != Some(row)) ==>
              (FormerRow(s, t, m)
               <==> BackedBesides(tools, s, p, m) && m !in NamesFrom(tools, s, Compiles(tools, s)))
  {
    var m := s.prints[p].mod;
    assert Look(t.prints, p) == PrintAfter(tools, s, p);
    if m in t.modules {
      assert m in Named(t.prints);
      var x :| x in t.prints && t.prints[x].mod == m;
      assert Look(t.prints, x) == PrintAfter(tools, s, x);
    }
    if BackedBesides(tools, s, p, m) {
      var x :| x != p && PrintAfter(tools, s, x).Some? && PrintAfter(tools, s, x).value.mod == m;
      assert Look(t.prints, x) == PrintAfter(tools, s, x);
      assert m in Named(t.prints);
    }
  }

  /** A changed file that lost its opener keeps its old fingerprint, and with it its module and stored data. */
  lemma {:induction false} FileWithoutOpenerStays(tools: Tools, s: State, t: State, p: string)
    requires Synced(tools, s, t) && Exact(t) && p in s.prints && p in s.disk && ActionFor(tools, s, p) == Skip
    ensures p in t.prints && t.prints[p] == s.prints[p] && s.prints[p].mod in t.modules
    ensures (t.prints[p].size, t.prints[p].mtime) != (|s.disk[p].content|, s.disk[p].mtime)
  {
    assert Look(t.prints, p) == PrintAfter(tools, s, p);
  }

  /** A file that was merely touched costs no compile: its module is untouched unless another file redefines it. */
  lemma {:induction false} TouchKeepsModule(tools: Tools, s: State, t: State, p: string)
    requires Synced(tools, s, t) && Exact(t) && p in s.prints && p in s.disk && ActionFor(tools, s, p) == Touch
    ensures p in t.prints && t.prints[p] == s.prints[p].(size := |s.disk[p].content|, mtime := s.disk[p].mtime)
    ensures var m := s.prints[p].mod;
            m in t.modules && ((forall x :: x in s.disk ==> Declares(tools, s, x) != Some(m)) ==>
              m in s.modules && t.modules[m] == s.modules[m])
  {
    assert Look(t.prints, p) == PrintAfter(tools, s, p);
  }
}
