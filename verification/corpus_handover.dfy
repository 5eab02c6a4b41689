/** From the import engine to the next boot: whether the walk over an untouched corpus changes anything. */
module CorpusHandover {
  import opened Model
  import opened Decimal
  import opened CorpusSync
  import E = Corpus

  // ---- Which curated files the walk sees ----

  /** From the last dot on; without a dot "". */
  function Ext(base: string): string {
    if base == "" then ""
    else if base[|base| - 1] == '.' then "."
    else
      var e := Ext(base[..|base| - 1]);
      if e == "" then "" else e + [base[|base| - 1]]
  }

  predicate IsWalked(base: string) {
    (base == "" || base[0] != '.') && Lower(Ext(base)) in {".mib", ".txt", ".my", ""}
  }

  /** `enters` tells the directories the walk enters. */
  predicate IsSeen(enters: string -> bool, p: E.Path) {
    p.dir.Curated? && enters(p.dir.dir) && IsWalked(p.base)
  }

  function Rel(p: E.Path): string
    requires p.dir.Curated?
  {
    p.dir.dir + ("/" + p.base)
  }

  predicate NoSlash(s: string) {
    forall i :: 0 <= i < |s| ==> s[i] != '/'
  }

  ghost predicate PlainNames(s: E.State) {
    && (forall p :: p in s.disk ==> NoSlash(p.base))
    && (forall p :: p in s.prints ==> p.dir.Curated? && p in s.disk)
    && (forall m :: m in s.modules ==> s.modules[m].source.dir.Curated?)
  }

  lemma {:induction false} LastSlash(d: string, a: string, e: string, b: string)
    requires NoSlash(a) && NoSlash(b) && d + ("/" + a) == e + ("/" + b)
    ensures d == e && a == b
  {
    var s, t := d + ("/" + a), e + ("/" + b);
    assert s[|d|] == '/' && t[|e|] == '/';
    assert forall i :: |d| < i < |s| ==> s[i] == a[i - |d| - 1];
    assert forall i :: |e| < i < |t| ==> t[i] == b[i - |e| - 1];
    assert |d| == |e|;
    assert d == s[..|d|] && e == t[..|e|] && a == s[|d| + 1..] && b == t[|e| + 1..];
  }

  lemma {:induction false} RelTells(s: E.State)
    requires PlainNames(s)
    ensures forall p, q :: p in s.disk && q in s.disk && p.dir.Curated? && q.dir.Curated? && Rel(p) == Rel(q) ==> p == q
  {
    forall p, q | p in s.disk && q in s.disk && p.dir.Curated? && q.dir.Curated? && Rel(p) == Rel(q) ensures p == q {
      LastSlash(p.dir.dir, p.base, q.dir.dir, q.base);
    }
  }

  /** What the walk is handed: sizes and times as recorded when the files were filed. */
  ghost function Handed(s: E.State, mtime: E.Path -> int, enters: string -> bool): State
    requires PlainNames(s)
  {
    RelTells(s);
    State(map p | p in s.disk && IsSeen(enters, p) :: Rel(p) := File(s.disk[p], mtime(p)),
          map p | p in s.prints :: Rel(p) := Print(|s.disk[p]|, mtime(p), s.prints[p].sha, s.prints[p].mod),
          map m | m in s.modules :: Row(Rel(s.modules[m].source), s.modules[m].data))
  }

  lemma {:induction false} HandedPrints(s: E.State, mtime: E.Path -> int, enters: string -> bool, p: E.Path)
    requires PlainNames(s) && p in s.disk && p.dir.Curated?
    ensures var w := Handed(s, mtime, enters);
            && (Rel(p) in w.prints <==> p in s.prints)
            && (p in s.prints ==> w.prints[Rel(p)] == Print(|s.disk[p]|, mtime(p), s.prints[p].sha, s.prints[p].mod))
            && (Rel(p) in w.disk <==> IsSeen(enters, p))
            && (IsSeen(enters, p) ==> w.disk[Rel(p)] == File(s.disk[p], mtime(p)))
  {
    RelTells(s);
  }

  // ---- The next walk ----

  ghost predicate AllSeen(s: E.State, enters: string -> bool) {
    forall p :: p in s.prints ==> IsSeen(enters, p)
  }

  /** No curated file without a fingerprint declares a module. */
  ghost predicate NothingNew(tools: Tools, w: State) {
    forall x :: x in w.disk && x !in w.prints ==> Declares(tools, w, x).None?
  }

  /** The walk from `w` to `u` changed nothing and reports nothing. */
  ghost predicate Quiet(tools: Tools, w: State, u: State) {
    u == w && Compiles(tools, w) == {} && Orphaned(w) == {} && Ghosts(tools, w, u.prints) == {}
  }

  /** A fingerprinted file the walk sees is trusted. */
  lemma {:induction false} SeenIsTrusted(tools: Tools, s: E.State, mtime: E.Path -> int, enters: string -> bool,
      p: E.Path)
    requires PlainNames(s) && p in s.prints
    ensures var w := Handed(s, mtime, enters);
            Rel(p) in w.prints
            && PrintAfter(tools, w, Rel(p)) == (if IsSeen(enters, p) then Some(w.prints[Rel(p)]) else None)
            && (Rel(p) in w.disk ==> ActionFor(tools, w, Rel(p)) == Trust)
  {
    HandedPrints(s, mtime, enters, p);
  }

  lemma {:induction false} PrintIsOfFile(s: E.State, mtime: E.Path -> int, enters: string -> bool, x: string)
    requires PlainNames(s) && x in Handed(s, mtime, enters).prints
    ensures exists p :: p in s.prints && Rel(p) == x
  {}

  lemma {:induction false} NothingCompiles(tools: Tools, s: E.State, mtime: E.Path -> int, enters: string -> bool)
    requires PlainNames(s)
    ensures Compiles(tools, Handed(s, mtime, enters)) == {} <==> NothingNew(tools, Handed(s, mtime, enters))
  {
    var w := Handed(s, mtime, enters);
    forall x | x in w.disk && x in w.prints ensures Declares(tools, w, x).None? {
      PrintIsOfFile(s, mtime, enters, x);
      var p :| p in s.prints && Rel(p) == x;
      SeenIsTrusted(tools, s, mtime, enters, p);
    }
    forall x | x in w.disk ensures x in Compiles(tools, w) <==> Declares(tools, w, x).Some? {}
  }

  lemma {:induction false} NewLeavesNothing(tools: Tools, w: State, x: string)
    requires NothingNew(tools, w) && x !in w.prints
    ensures PrintAfter(tools, w, x) == None
  {}

  lemma {:induction false} PrintsStay(tools: Tools, s: E.State, mtime: E.Path -> int, enters: string -> bool, x: string)
    requires PlainNames(s) && AllSeen(s, enters) && NothingNew(tools, Handed(s, mtime, enters))
    ensures PrintAfter(tools, Handed(s, mtime, enters), x) == Look(Handed(s, mtime, enters).prints, x)
  {
    var w := Handed(s, mtime, enters);
    if x in w.prints {
      PrintIsOfFile(s, mtime, enters, x);
      var p :| p in s.prints && Rel(p) == x;
      SeenIsTrusted(tools, s, mtime, enters, p);
    } else {
      NewLeavesNothing(tools, w, x);
    }
  }

  /** Modules and fingerprints are handed over as the bijection they are. */
  lemma {:induction false} HandedIsExact(sha: string -> string, s: E.State, mtime: E.Path -> int,
      enters: string -> bool)
    requires E.Consistent(sha, s) && PlainNames(s)
    ensures var w := Handed(s, mtime, enters); w.modules.Keys == Named(w.prints) == s.modules.Keys
  {
    var w := Handed(s, mtime, enters);
    forall m | m in s.modules ensures m in Named(w.prints) {
      assert E.Backed(s, m);
      var p := s.modules[m].source;
      SeenIsTrusted(Tools(sha, _ => true, (_, _) => Broken), s, mtime, enters, p);
      HandedPrints(s, mtime, enters, p);
      assert w.prints[Rel(p)].mod == m;
    }
    forall x | x in w.prints ensures w.prints[x].mod in s.modules {
      PrintIsOfFile(s, mtime, enters, x);
      var p :| p in s.prints && Rel(p) == x;
      assert E.PrintHolds(sha, s, p);
      HandedPrints(s, mtime, enters, p);
    }
  }

  lemma {:induction false} QuietFrom(tools: Tools, w: State, u: State)
    requires Synced(tools, w, u) && Exact(u) && Compiles(tools, w) == {} && w.modules.Keys == Named(w.prints)
    requires (forall x :: PrintAfter(tools, w, x) == Look(w.prints, x)) && forall x :: x in w.prints ==> x in w.disk
    ensures Quiet(tools, w, u)
  {
    forall x ensures Look(u.prints, x) == Look(w.prints, x) {
      assert Look(u.prints, x) == PrintAfter(tools, w, x);
    }
    SameMap(u.prints, w.prints);
    assert NamesFrom(tools, w, {}) == {};
    assert u.modules == w.modules;
  }

  lemma {:induction false} QuietIf(tools: Tools, s: E.State, mtime: E.Path -> int, enters: string -> bool, u: State)
    requires E.Consistent(tools.sha, s) && PlainNames(s)
    requires AllSeen(s, enters) && NothingNew(tools, Handed(s, mtime, enters))
    requires Synced(tools, Handed(s, mtime, enters), u) && Exact(u)
    ensures Quiet(tools, Handed(s, mtime, enters), u)
  {
    var w := Handed(s, mtime, enters);
    forall x ensures PrintAfter(tools, w, x) == Look(w.prints, x) {
      PrintsStay(tools, s, mtime, enters, x);
    }
    NothingCompiles(tools, s, mtime, enters);
    HandedIsExact(tools.sha, s, mtime, enters);
    forall x | x in w.prints ensures x in w.disk {
      PrintIsOfFile(s, mtime, enters, x);
      var p :| p in s.prints && Rel(p) == x;
      HandedPrints(s, mtime, enters, p);
    }
    QuietFrom(tools, w, u);
  }

  lemma {:induction false} QuietOnlyIf(tools: Tools, s: E.State, mtime: E.Path -> int, enters: string -> bool,
      u: State)
    requires PlainNames(s) && Synced(tools, Handed(s, mtime, enters), u) && Quiet(tools, Handed(s, mtime, enters), u)
    ensures AllSeen(s, enters) && NothingNew(tools, Handed(s, mtime, enters))
  {
    var w := Handed(s, mtime, enters);
    NothingCompiles(tools, s, mtime, enters);
    forall p | p in s.prints ensures IsSeen(enters, p) {
      SeenIsTrusted(tools, s, mtime, enters, p);
      assert Look(u.prints, Rel(p)) == PrintAfter(tools, w, Rel(p));
    }
  }

  /**
   * The walk over a corpus that nobody touched since the engine left it changes nothing and reports nothing, if and
   * only if it sees every file the engine filed, and no file it sees besides declares a module.
   */
  lemma {:induction false} HandoverIsQuietIff(tools: Tools, s: E.State, mtime: E.Path -> int, enters: string -> bool,
      u: State)
    requires E.Consistent(tools.sha, s) && PlainNames(s)
    requires Synced(tools, Handed(s, mtime, enters), u) && Exact(u)
    ensures Quiet(tools, Handed(s, mtime, enters), u)
       <==> AllSeen(s, enters) && NothingNew(tools, Handed(s, mtime, enters))
  {
    if AllSeen(s, enters) && NothingNew(tools, Handed(s, mtime, enters)) {
      QuietIf(tools, s, mtime, enters, u);
    }
    if Quiet(tools, Handed(s, mtime, enters), u) {
      QuietOnlyIf(tools, s, mtime, enters, u);
    }
  }

  /** A module whose file the walk does not see is removed at the next boot, unless a file without fingerprint holds it. */
  lemma {:induction false} UnseenModuleIsRemoved(tools: Tools, s: E.State, mtime: E.Path -> int,
      enters: string -> bool, u: State, m: string)
    requires E.Consistent(tools.sha, s) && PlainNames(s) && m in s.modules && !IsSeen(enters, s.modules[m].source)
    requires NothingNew(tools, Handed(s, mtime, enters)) && Synced(tools, Handed(s, mtime, enters), u) && Exact(u)
    ensures m !in u.modules
  {
    forall x | x in u.prints ensures u.prints[x].mod != m {
      UnseenIsNotNamed(tools, s, mtime, enters, m, x);
      assert Look(u.prints, x) == PrintAfter(tools, Handed(s, mtime, enters), x);
    }
  }

  /** In particular one whose directory the walk does not enter. */
  lemma {:induction false} UnenteredModuleIsRemoved(tools: Tools, s: E.State, mtime: E.Path -> int,
      enters: string -> bool, u: State, m: string)
    requires E.Consistent(tools.sha, s) && PlainNames(s) && m in s.modules
    requires s.modules[m].source.dir.Curated? && !enters(s.modules[m].source.dir.dir)
    requires NothingNew(tools, Handed(s, mtime, enters)) && Synced(tools, Handed(s, mtime, enters), u) && Exact(u)
    ensures m !in u.modules
  {
    UnseenModuleIsRemoved(tools, s, mtime, enters, u, m);
  }

  lemma {:induction false} UnseenIsNotNamed(tools: Tools, s: E.State, mtime: E.Path -> int, enters: string -> bool,
      m: string, x: string)
    requires E.Consistent(tools.sha, s) && PlainNames(s) && m in s.modules && !IsSeen(enters, s.modules[m].source)
    requires NothingNew(tools, Handed(s, mtime, enters))
    ensures PrintAfter(tools, Handed(s, mtime, enters), x).Some? ==>
              PrintAfter(tools, Handed(s, mtime, enters), x).value.mod != m
  {
    var w := Handed(s, mtime, enters);
    if x in w.prints {
      PrintIsOfFile(s, mtime, enters, x);
      var p :| p in s.prints && Rel(p) == x;
      SeenIsTrusted(tools, s, mtime, enters, p);
      HandedPrints(s, mtime, enters, p);
      E.OnePrintEach(tools.sha, s, p, m);
    } else {
      NewLeavesNothing(tools, w, x);
    }
  }

  // ---- Numbered names ----

  lemma {:induction false} ExtOfNumbered(base: string, tail: string)
    requires forall i :: 0 <= i < |tail| ==> tail[i] != '.'
    ensures Ext(base + tail) == if Ext(base) == "" then "" else Ext(base) + tail
  {
    if tail == "" {
      assert base + tail == base;
    } else {
      var rest, c := tail[..|tail| - 1], tail[|tail| - 1];
      assert (base + tail)[..|base + tail| - 1] == base + rest && (base + tail)[|base + tail| - 1] == c;
      ExtOfNumbered(base, rest);
      assert rest + [c] == tail;
    }
  }

  /** A file that got a number in unsorted/ is walked only if its name has no extension: "x.mib-1" is passed over. */
  lemma {:induction false} NumberedIsWalkedIff(p: E.Path, k: nat)
    ensures IsWalked(E.Numbered(p, k).base) <==> (p.base == "" || p.base[0] != '.') && Ext(p.base) == ""
  {
    ValueOfDec(k);
    var tail := "-" + Dec(k);
    ExtOfNumbered(p.base, tail);
    if Ext(p.base) != "" {
      var e := Lower(Ext(p.base) + tail);
      assert e[|e| - 1] == LowerChar(Dec(k)[|Dec(k)| - 1]) && IsDigit(e[|e| - 1]);
    }
  }

  /** `e` is what the name has from its last dot on. */
  ghost predicate EndsIn(base: string, e: string) {
    exists k: nat :: k < |base| && base[k] == '.' && e == base[k..] && forall j: nat :: k < j < |base| ==> base[j] != '.'
  }

  lemma {:induction false} ExtAt(base: string, k: nat)
    requires k < |base| && base[k] == '.' && forall j: nat :: k < j < |base| ==> base[j] != '.'
    ensures Ext(base) == base[k..]
  {
    var n := |base| - 1;
    if k < n {
      ExtAt(base[..n], k);
      assert base[k..] == base[..n][k..] + [base[n]];
    } else {
      assert base[n..] == ".";
    }
  }

  lemma {:induction false} NoExt(base: string)
    requires forall k :: 0 <= k < |base| ==> base[k] != '.'
    ensures Ext(base) == ""
  {
    if base != "" {
      NoExt(base[..|base| - 1]);
    }
  }

  lemma {:induction false} LastDot(base: string, n: nat) returns (k: nat)
    requires n < |base| && base[n] == '.'
    ensures k < |base| && base[k] == '.' && forall j: nat :: k < j < |base| ==> base[j] != '.'
    decreases |base| - n
  {
    if j: nat :| n < j < |base| && base[j] == '.' {
      k := LastDot(base, j);
    } else {
      k := n;
    }
  }

  lemma {:induction false} ExtIs(base: string)
    ensures Ext(base) == "" <==> forall k :: 0 <= k < |base| ==> base[k] != '.'
    ensures Ext(base) != "" ==> EndsIn(base, Ext(base))
    ensures forall e :: EndsIn(base, e) ==> e == Ext(base) && e != ""
  {
    if n: nat :| n < |base| && base[n] == '.' {
      var k := LastDot(base, n);
      ExtAt(base, k);
      assert base[k..] != "" && EndsIn(base, base[k..]);
    } else {
      NoExt(base);
    }
    forall e | EndsIn(base, e) ensures e == Ext(base) && e != "" {
      var k: nat :| k < |base| && base[k] == '.' && e == base[k..] && forall j: nat :: k < j < |base| ==> base[j] != '.';
      ExtAt(base, k);
    }
  }

  /**
   * The walk looks at a name unless it begins with a dot: one without any dot, or with the extension .mib, .txt or .my
   * in whatever case.
   */
  lemma {:induction false} WalkedIff(base: string)
    ensures IsWalked(base) <==>
              && (base == "" || base[0] != '.')
              && (|| (forall k :: 0 <= k < |base| ==> base[k] != '.')
                  || (exists e :: EndsIn(base, e) && (Lower(e) == ".mib" || Lower(e) == ".txt" || Lower(e) == ".my")))
  {
    ExtIs(base);
    assert Lower("") == "";
    assert Ext(base) != "" ==> Lower(Ext(base)) != "";
  }

  // ---- A module lost at the next boot ----

  const FIRST := E.Path(E.UNSORTED, "x.mib")
  const SECOND := E.Path(E.UNSORTED, "x.mib-1")

  /** Two modules of files of one name, neither classified. */
  function TwoUnsorted(sha: string -> string): E.State {
    E.State(map[FIRST := "a", SECOND := "b"],
            map[FIRST := E.Print(sha("a"), "A-MIB"), SECOND := E.Print(sha("b"), "B-MIB")],
            map["A-MIB" := E.Row(FIRST, "a"), "B-MIB" := E.Row(SECOND, "b")])
  }

  lemma {:induction false} TwoPaths()
    ensures SECOND == E.Numbered(FIRST, 1) && FIRST != SECOND
    ensures NoSlash(FIRST.base) && NoSlash(SECOND.base)
  {
    assert Dec(1) == "1" && "x.mib" + ("-" + "1") == "x.mib-1";
    assert |FIRST.base| != |SECOND.base|;
  }

  lemma {:induction false} SecondIsPassedOver()
    ensures !IsWalked(SECOND.base)
  {
    TwoPaths();
    assert FIRST.base == "x." + "mib";
    assert Ext("x.") == ".";
    ExtOfNumbered("x.", "mib");
    NumberedIsWalkedIff(FIRST, 1);
  }

  lemma {:induction false} TwoUnsortedStands(sha: string -> string)
    ensures PlainNames(TwoUnsorted(sha)) && E.Consistent(sha, TwoUnsorted(sha))
    ensures E.FreeFor(map[FIRST := "a"], FIRST, SECOND)
  {
    var s := TwoUnsorted(sha);
    TwoPaths();
    assert E.TakenBelow(map[FIRST := "a"], FIRST, 1);
    assert "A-MIB" != "B-MIB" by { assert "A-MIB"[0] != "B-MIB"[0]; }
    forall p | p in s.prints ensures E.PrintHolds(sha, s, p) {
      assert p == FIRST || p == SECOND;
    }
    forall m | m in s.modules ensures E.Backed(s, m) {
      assert m == "A-MIB" || m == "B-MIB";
    }
  }

  /** The second file gets its number from the engine, and the next boot removes its module. */
  lemma {:induction false} NumberedModuleIsRemoved(tools: Tools, mtime: E.Path -> int, enters: string -> bool, u: State)
    requires PlainNames(TwoUnsorted(tools.sha))
    requires Synced(tools, Handed(TwoUnsorted(tools.sha), mtime, enters), u) && Exact(u)
    ensures E.FreeFor(map[FIRST := "a"], FIRST, SECOND)
    ensures E.Consistent(tools.sha, TwoUnsorted(tools.sha)) && "B-MIB" in TwoUnsorted(tools.sha).modules
    ensures "B-MIB" !in u.modules
  {
    var s := TwoUnsorted(tools.sha);
    TwoUnsortedStands(tools.sha);
    SecondIsPassedOver();
    AllFingerprinted(tools, s, mtime, enters);
    assert s.modules["B-MIB"].source == SECOND;
    UnseenModuleIsRemoved(tools, s, mtime, enters, u, "B-MIB");
  }

  lemma {:induction false} AllFingerprinted(tools: Tools, s: E.State, mtime: E.Path -> int, enters: string -> bool)
    requires PlainNames(s) && forall p :: p in s.disk ==> p in s.prints
    ensures NothingNew(tools, Handed(s, mtime, enters))
  {
    var w := Handed(s, mtime, enters);
    forall x | x in w.disk ensures x in w.prints {
      var p :| p in s.disk && IsSeen(enters, p) && Rel(p) == x;
      HandedPrints(s, mtime, enters, p);
    }
  }
}
