/** The relationships of a module, read off its symbols and reference rows. */
module PairingRows {
  import opened Model
  import opened Ordering
  import opened Signals
  import opened Correlate
  import opened PairingLaws

  // ---- Names and texts ----

  predicate IsWord(t: string, v: Vocabulary) {
    t in v.raiseTokens || t in v.clearTokens
  }

  /** The last directional word of the name is its `k`-th token. */
  ghost predicate LastWordAt(name: string, v: Vocabulary, k: nat) {
    && k < |Tokens(name)| && IsWord(Tokens(name)[k], v)
    && forall j :: k < j < |Tokens(name)| ==> !IsWord(Tokens(name)[j], v)
  }

  /** The name speaks of a problem or of its end, by its last directional word, or of neither without such a word. */
  ghost predicate NameSays(name: string, v: Vocabulary, d: Direction) {
    match d
    case Neither => forall k: nat :: !LastWordAt(name, v, k)
    case RaiseDir => exists k: nat :: LastWordAt(name, v, k) && Tokens(name)[k] in v.raiseTokens
    case ClearDir => exists k: nat :: LastWordAt(name, v, k) && Tokens(name)[k] !in v.raiseTokens
  }

  /** What is left of the name without its last directional word. */
  ghost predicate HasRoot(name: string, v: Vocabulary, root: string) {
    exists k: nat :: LastWordAt(name, v, k) && root == Join(Tokens(name)[..k] + Tokens(name)[k + 1..], "-")
  }

  ghost predicate SameNameRoot(a: Symbol, c: Symbol, v: Vocabulary) {
    exists root :: root != "" && HasRoot(a.name, v, root) && HasRoot(c.name, v, root)
  }

  predicate FoundAt(text: string, part: string, i: nat) {
    i + |part| <= |text| && text[i..i + |part|] == part
  }

  ghost predicate Mentions(s: Symbol, phrases: seq<string>) {
    exists p, i: nat :: p in phrases && FoundAt(Lower(s.description + " " + s.reference), p, i)
  }

  /** The prose speaks of the end of a problem wherever it has such a phrase, whatever else it has. */
  ghost predicate ProseSays(s: Symbol, v: Vocabulary, d: Direction) {
    match d
    case ClearDir => Mentions(s, v.clearPhrases)
    case RaiseDir => !Mentions(s, v.clearPhrases) && Mentions(s, v.raisePhrases)
    case Neither => !Mentions(s, v.clearPhrases) && !Mentions(s, v.raisePhrases)
  }

  /** The name decides, and only where it says nothing the prose. */
  ghost predicate Says(s: Symbol, v: Vocabulary, d: Direction) {
    if NameSays(s.name, v, Neither) then ProseSays(s, v, d) else NameSays(s.name, v, d)
  }

  /** Name and prose contradict each other. */
  ghost predicate Contradicts(s: Symbol, v: Vocabulary) {
    || (NameSays(s.name, v, RaiseDir) && ProseSays(s, v, ClearDir))
    || (NameSays(s.name, v, ClearDir) && ProseSays(s, v, RaiseDir))
  }

  lemma {:induction false} NameDirIs(name: string, v: Vocabulary, d: Direction)
    ensures NameSays(name, v, d) <==> SplitAt(Tokens(name), LastDirectional(Tokens(name), v), v).1 == d
  {
    WordIs(name, v);
  }

  lemma {:induction false} WordIs(name: string, v: Vocabulary)
    ensures var at := LastDirectional(Tokens(name), v);
            && (at.Some? ==> LastWordAt(name, v, at.value) && forall k: nat :: LastWordAt(name, v, k) ==> k == at.value)
            && (at.None? ==> forall k: nat :: !LastWordAt(name, v, k))
  {
    var toks, at := Tokens(name), LastDirectional(Tokens(name), v);
    assert forall k :: 0 <= k < |toks| ==> (IsWord(toks[k], v) <==> TokenDirection(toks[k], v) != Neither);
  }

  lemma {:induction false} RootIs(name: string, v: Vocabulary, root: string)
    ensures HasRoot(name, v, root) <==>
              !NameSays(name, v, Neither) && root == SplitAt(Tokens(name), LastDirectional(Tokens(name), v), v).0
  {
    WordIs(name, v);
  }

  lemma {:induction false} FoundIs(text: string, p: string)
    ensures ContainsText(text, p) <==> exists i: nat :: FoundAt(text, p, i)
  {
    if i: nat :| i <= |text| && OccursAt(text, p, i) {
      assert text[i..][..|p|] == text[i..i + |p|];
      assert FoundAt(text, p, i);
    }
    if i: nat :| FoundAt(text, p, i) {
      assert text[i..][..|p|] == text[i..i + |p|];
      assert OccursAt(text, p, i);
    }
  }

  lemma {:induction false} FirstPhraseIs(text: string, phrases: seq<string>)
    ensures FirstPhrase(text, phrases).Some? <==> exists p, i: nat :: p in phrases && FoundAt(text, p, i)
  {
    if phrases != [] {
      FirstPhraseIs(text, phrases[1..]);
      FoundIs(text, phrases[0]);
      assert phrases == [phrases[0]] + phrases[1..];
    }
  }

  lemma {:induction false} ProseDirIs(s: Symbol, v: Vocabulary, d: Direction)
    ensures ProseSays(s, v, d) <==> ProseDirection(s, v).0 == d
  {
    FirstPhraseIs(Lower(s.description + " " + s.reference), v.clearPhrases);
    FirstPhraseIs(Lower(s.description + " " + s.reference), v.raisePhrases);
  }

  /** The phrase shown: the first clear phrase of the list found in the prose, else the first raise phrase. */
  ghost predicate IsPhrase(s: Symbol, v: Vocabulary, phrase: string) {
    if Mentions(s, v.clearPhrases) then FoundFirst(s, v.clearPhrases, phrase)
    else if Mentions(s, v.raisePhrases) then FoundFirst(s, v.raisePhrases, phrase)
    else phrase == ""
  }

  ghost predicate FoundFirst(s: Symbol, phrases: seq<string>, phrase: string) {
    exists k: nat :: k < |phrases| && phrases[k] == phrase && Mentions(s, [phrase]) && !Mentions(s, phrases[..k])
  }

  lemma {:induction false} MentionsIs(s: Symbol, phrases: seq<string>)
    ensures Mentions(s, phrases) <==> FirstPhrase(Lower(s.description + " " + s.reference), phrases).Some?
  {
    FirstPhraseIs(Lower(s.description + " " + s.reference), phrases);
  }

  lemma {:induction false} FirstPhraseIsFirst(s: Symbol, phrases: seq<string>)
    requires FirstPhrase(Lower(s.description + " " + s.reference), phrases).Some?
    ensures FoundFirst(s, phrases, FirstPhrase(Lower(s.description + " " + s.reference), phrases).value)
  {
    var text := Lower(s.description + " " + s.reference);
    var phrase := FirstPhrase(text, phrases).value;
    MentionsIs(s, [phrases[0]]);
    assert [phrases[0]][1..] == [] && FirstPhrase(text, []).None?;
    if ContainsText(text, phrases[0]) {
      assert phrases[..0] == [] && !Mentions(s, []);
      assert phrases[0] == phrase && Mentions(s, [phrase]);
    } else {
      FirstPhraseIsFirst(s, phrases[1..]);
      var k: nat :| k < |phrases[1..]| && phrases[1..][k] == phrase && Mentions(s, [phrase])
                    && !Mentions(s, phrases[1..][..k]);
      var next := k + 1;
      assert phrases[..next] == [phrases[0]] + phrases[1..][..k];
      assert phrases[next] == phrase;
      NoneBefore(s, phrases[0], phrases[1..][..k]);
    }
  }

  lemma {:induction false} NoneBefore(s: Symbol, first: string, rest: seq<string>)
    requires !Mentions(s, [first]) && !Mentions(s, rest)
    ensures !Mentions(s, [first] + rest)
  {
    forall p, i: nat | FoundAt(Lower(s.description + " " + s.reference), p, i) ensures p !in [first] + rest {
      assert p !in [first] && p !in rest;
    }
  }

  lemma {:induction false} PhraseIs(s: Symbol, v: Vocabulary)
    ensures IsPhrase(s, v, ProseDirection(s, v).1)
  {
    MentionsIs(s, v.clearPhrases);
    MentionsIs(s, v.raisePhrases);
    if Mentions(s, v.clearPhrases) {
      FirstPhraseIsFirst(s, v.clearPhrases);
    } else if Mentions(s, v.raisePhrases) {
      FirstPhraseIsFirst(s, v.raisePhrases);
    }
  }

  // ---- Reference rows ----

  predicate Bound(r: Ref, n: string, key: string) {
    r.kind == NotificationObject && r.sourceName == n && key == r.targetModule + "::" + r.targetName
  }

  predicate Grouped(r: Ref, n: string, g: string) {
    r.kind == GroupMember && r.targetName == n && g == r.sourceModule + "::" + r.sourceName
  }

  ghost predicate Binds(refs: seq<Ref>, n: string, key: string) {
    exists r :: r in refs && Bound(r, n, key)
  }

  ghost predicate InGroup(refs: seq<Ref>, n: string, g: string) {
    exists r :: r in refs && Grouped(r, n, g)
  }

  ghost predicate BindSame(refs: seq<Ref>, m: string, n: string) {
    forall key :: Binds(refs, m, key) <==> Binds(refs, n, key)
  }

  ghost predicate ShareVarbind(refs: seq<Ref>, m: string, n: string) {
    exists key :: Binds(refs, m, key) && Binds(refs, n, key)
  }

  ghost predicate CountsAt(refs: seq<Ref>, names: set<string>, g: string, i: nat) {
    i < |refs| && refs[i].targetName in names && Grouped(refs[i], refs[i].targetName, g)
  }

  /** Two rows, and no third, put notifications into the group. */
  ghost predicate HasTwoRows(refs: seq<Ref>, names: set<string>, g: string) {
    exists i: nat, j: nat :: i < j && CountsAt(refs, names, g, i) && CountsAt(refs, names, g, j)
                             && forall k: nat :: CountsAt(refs, names, g, k) ==> k == i || k == j
  }

  ghost predicate ShareSmallGroup(refs: seq<Ref>, names: set<string>, m: string, n: string) {
    exists g :: InGroup(refs, m, g) && InGroup(refs, n, g) && HasTwoRows(refs, names, g)
  }

  lemma {:induction false} BindsIs(refs: seq<Ref>, n: string, key: string)
    ensures key in VarbindsOf(refs, n) <==> Binds(refs, n, key)
  {}

  lemma {:induction false} InGroupIs(refs: seq<Ref>, n: string, g: string)
    ensures g in GroupsOf(refs, n) <==> InGroup(refs, n, g)
  {}

  ghost function CountedRows(refs: seq<Ref>, names: set<string>, g: string): set<nat> {
    set i: nat | i < |refs| && CountsAt(refs, names, g, i)
  }

  lemma {:induction false} RowsAreCounted(refs: seq<Ref>, names: set<string>, g: string)
    ensures GroupRows(refs, names, g) == |CountedRows(refs, names, g)|
  {
    if refs != [] {
      var n := |refs| - 1;
      var rest := refs[..n];
      RowsAreCounted(rest, names, g);
      forall i: nat ensures CountsAt(refs, names, g, i) <==>
                              CountsAt(rest, names, g, i) || (i == n && CountsFor(refs[n], names, g))
      {
        assert i < n ==> refs[i] == rest[i];
      }
      assert CountedRows(refs, names, g)
          == CountedRows(rest, names, g) + if CountsFor(refs[n], names, g) then {n} else {};
    }
  }

  lemma {:induction false} TwoOf(s: set<nat>) returns (i: nat, j: nat)
    requires |s| == 2
    ensures i < j && s == {i, j}
  {
    var a :| a in s;
    var rest := s - {a};
    assert |rest| == 1;
    var b :| b in rest;
    OnlyOne(rest, b);
    assert s == {a} + rest;
    i, j := if a < b then a else b, if a < b then b else a;
  }

  lemma {:induction false} TwoRowsIs(refs: seq<Ref>, names: set<string>, g: string)
    ensures GroupRows(refs, names, g) == 2 <==> HasTwoRows(refs, names, g)
  {
    RowsAreCounted(refs, names, g);
    if |CountedRows(refs, names, g)| == 2 {
      TwoRowsFound(refs, names, g);
    }
    if HasTwoRows(refs, names, g) {
      var i: nat, j: nat :| i < j && CountsAt(refs, names, g, i) && CountsAt(refs, names, g, j)
                            && forall k: nat :: CountsAt(refs, names, g, k) ==> k == i || k == j;
      TwoRowsGiven(refs, names, g, i, j);
    }
  }

  lemma {:induction false} TwoRowsFound(refs: seq<Ref>, names: set<string>, g: string)
    requires |CountedRows(refs, names, g)| == 2
    ensures HasTwoRows(refs, names, g)
  {
    var i, j := TwoOf(CountedRows(refs, names, g));
    assert i in CountedRows(refs, names, g) && j in CountedRows(refs, names, g);
    forall k: nat | CountsAt(refs, names, g, k) ensures k == i || k == j {
      assert k in CountedRows(refs, names, g);
    }
  }

  lemma {:induction false} TwoRowsGiven(refs: seq<Ref>, names: set<string>, g: string, i: nat, j: nat)
    requires i < j && CountsAt(refs, names, g, i) && CountsAt(refs, names, g, j)
    requires forall k: nat :: CountsAt(refs, names, g, k) ==> k == i || k == j
    ensures |CountedRows(refs, names, g)| == 2
  {
    assert CountedRows(refs, names, g) == {i, j};
  }

  lemma {:induction false} SharedVarbindIs(refs: seq<Ref>, m: string, n: string)
    ensures FirstShared(VarbindsOf(refs, m), VarbindsOf(refs, n)) != "" <==> ShareVarbind(refs, m, n)
  {
    var a, b := VarbindsOf(refs, m), VarbindsOf(refs, n);
    forall key ensures key in a * b <==> Binds(refs, m, key) && Binds(refs, n, key) {
      BindsIs(refs, m, key);
      BindsIs(refs, n, key);
    }
    assert "" !in a;
    assert a * b == {} || exists key :: key in a * b;
  }

  lemma {:induction false} SharedGroupIs(refs: seq<Ref>, names: set<string>, m: string, n: string)
    ensures FirstShared(PairGroups(refs, names, m), PairGroups(refs, names, n)) != ""
       <==> ShareSmallGroup(refs, names, m, n)
  {
    var a, b := PairGroups(refs, names, m), PairGroups(refs, names, n);
    forall g ensures g in a * b <==> InGroup(refs, m, g) && InGroup(refs, n, g) && HasTwoRows(refs, names, g) {
      InGroupIs(refs, m, g);
      InGroupIs(refs, n, g);
      TwoRowsIs(refs, names, g);
    }
    assert "" !in a;
    assert a * b == {} || exists g :: g in a * b;
  }

  lemma {:induction false} BindSameIs(refs: seq<Ref>, m: string, n: string)
    ensures BindSame(refs, m, n) <==> VarbindsOf(refs, m) == VarbindsOf(refs, n)
  {
    forall key ensures key in VarbindsOf(refs, m) <==> Binds(refs, m, key) {
      BindsIs(refs, m, key);
    }
    forall key ensures key in VarbindsOf(refs, n) <==> Binds(refs, n, key) {
      BindsIs(refs, n, key);
    }
  }

  // ---- Which notifications pair ----

  predicate IsNotified(syms: seq<Symbol>, s: Symbol) {
    s in syms && (s.kind == NotificationType || s.kind == TrapType)
  }

  predicate IsLegacy(s: Symbol) {
    s.status == Deprecated || s.status == Obsolete
  }

  /** The two bind one and the same nonempty set of objects, and no third notification does. */
  ghost predicate AloneBind(syms: seq<Symbol>, refs: seq<Ref>, a: Symbol, c: Symbol) {
    && (exists key :: Binds(refs, a.name, key))
    && forall s :: IsNotified(syms, s) ==> (BindSame(refs, s.name, a.name) <==> s.name == a.name || s.name == c.name)
  }

  /** `a` speaks of a problem, `c` of its end, both are legacy or neither, and something groups the two. */
  ghost predicate PairsWith(syms: seq<Symbol>, refs: seq<Ref>, v: Vocabulary, a: Symbol, c: Symbol) {
    && IsNotified(syms, a) && IsNotified(syms, c) && Says(a, v, RaiseDir) && Says(c, v, ClearDir)
    && (IsLegacy(a) <==> IsLegacy(c))
    && (SameNameRoot(a, c, v) || ShareSmallGroup(refs, Names(syms), a.name, c.name) || AloneBind(syms, refs, a, c))
  }

  lemma {:induction false} NamesAre(syms: seq<Symbol>, n: string)
    ensures n in Names(syms) <==> exists s :: IsNotified(syms, s) && s.name == n
  {
    if s :| IsNotified(syms, s) && s.name == n {
      assert s in Notifications(syms);
    }
  }

  lemma {:induction false} FactsOfRow(syms: seq<Symbol>, refs: seq<Ref>, v: Vocabulary, s: Symbol)
    requires DistinctNames(syms) && IsNotified(syms, s)
    ensures s.name in ModuleFacts(syms, refs, v)
    ensures ModuleFacts(syms, refs, v)[s.name] == FactsOf(s, refs, Names(syms), v)
  {
    assert s in Notifications(syms);
    NamedIsUnique(syms, Named(syms, s.name), s);
  }

  lemma {:induction false} FactsSay(s: Symbol, refs: seq<Ref>, names: set<string>, v: Vocabulary, d: Direction)
    ensures FactsOf(s, refs, names, v).nameDir == d <==> NameSays(s.name, v, d)
    ensures FactsOf(s, refs, names, v).descDir == d <==> ProseSays(s, v, d)
    ensures FactsOf(s, refs, names, v).eff == d <==> Says(s, v, d)
    ensures FactsOf(s, refs, names, v).legacy <==> IsLegacy(s)
  {
    NameDirIs(s.name, v, d);
    NameDirIs(s.name, v, Neither);
    ProseDirIs(s, v, d);
  }

  lemma {:induction false} RootsAgree(a: Symbol, c: Symbol, refs: seq<Ref>, names: set<string>, v: Vocabulary)
    ensures SameRoot(FactsOf(a, refs, names, v), FactsOf(c, refs, names, v)) <==> SameNameRoot(a, c, v)
  {
    var f, g := FactsOf(a, refs, names, v), FactsOf(c, refs, names, v);
    FactsSay(a, refs, names, v, Neither);
    FactsSay(c, refs, names, v, Neither);
    RootIs(a.name, v, f.root);
    RootIs(c.name, v, f.root);
    forall root | HasRoot(a.name, v, root) ensures root == f.root {
      RootIs(a.name, v, root);
    }
  }

  /** Among the names only these two bind the same as `a`. */
  ghost predicate OnlyTheseBind(names: set<string>, refs: seq<Ref>, a: string, c: string) {
    forall n :: n in names ==> (BindSame(refs, n, a) <==> n == a || n == c)
  }

  lemma {:induction false} SameSignatureIs(t: map<string, Facts>, refs: seq<Ref>, a: string, c: string)
    requires BarFree(refs) && a in t && c in t && a != c
    requires forall n :: n in t ==> t[n].sig == Signature(VarbindsOf(refs, n))
    ensures SameSignature(t, t[a], t[c]) <==> (exists key :: Binds(refs, a, key)) && OnlyTheseBind(t.Keys, refs, a, c)
  {
    SignatureIsEmpty(refs, a);
    SignaturesBind(t, refs, a);
    HoldersPair(t.Keys, Holders(t, t[a].sig), n => BindSame(refs, n, a), a, c);
  }

  lemma {:induction false} SignaturesBind(t: map<string, Facts>, refs: seq<Ref>, a: string)
    requires BarFree(refs) && a in t && forall n :: n in t ==> t[n].sig == Signature(VarbindsOf(refs, n))
    ensures forall n :: n in t ==> (t[n].sig == t[a].sig <==> BindSame(refs, n, a))
  {
    forall n | n in t ensures t[n].sig == t[a].sig <==> BindSame(refs, n, a) {
      SignaturesTell(refs, n, a);
      BindSameIs(refs, n, a);
    }
  }

  lemma {:induction false} HoldersPair(names: set<string>, same: set<string>, like: string -> bool, a: string, c: string)
    requires (forall n :: n in same <==> n in names && like(n)) && a in same && c in names && a != c
    ensures (like(c) && |same| == 2) <==> forall n :: n in names ==> (like(n) <==> n == a || n == c)
  {
    PairIff(same, a, c);
    if forall n :: n in names ==> (like(n) <==> n == a || n == c) {
      assert same == {a, c};
    }
  }

  lemma {:induction false} AloneIs(syms: seq<Symbol>, refs: seq<Ref>, a: Symbol, c: Symbol)
    ensures AloneBind(syms, refs, a, c)
       <==> (exists key :: Binds(refs, a.name, key)) && OnlyTheseBind(Names(syms), refs, a.name, c.name)
  {
    forall n ensures n in Names(syms) <==> exists s :: IsNotified(syms, s) && s.name == n {
      NamesAre(syms, n);
    }
    forall s | IsNotified(syms, s) ensures s.name in Names(syms) {
      NamesAre(syms, s.name);
    }
  }

  lemma {:induction false} SignaturesAre(syms: seq<Symbol>, refs: seq<Ref>, v: Vocabulary, a: Symbol, c: Symbol)
    requires DistinctNames(syms) && BarFree(refs) && IsNotified(syms, a) && IsNotified(syms, c) && a.name != c.name
    ensures var t := ModuleFacts(syms, refs, v);
            a.name in t && c.name in t && (SameSignature(t, t[a.name], t[c.name]) <==> AloneBind(syms, refs, a, c))
  {
    FactsOfRow(syms, refs, v, a);
    FactsOfRow(syms, refs, v, c);
    SigsOf(syms, refs, v);
    SameSignatureIs(ModuleFacts(syms, refs, v), refs, a.name, c.name);
    AloneIs(syms, refs, a, c);
  }

  lemma {:induction false} SigsOf(syms: seq<Symbol>, refs: seq<Ref>, v: Vocabulary)
    ensures var t := ModuleFacts(syms, refs, v);
            t.Keys == Names(syms) && forall n :: n in t ==> t[n].sig == Signature(VarbindsOf(refs, n))
  {}

  lemma {:induction false} SignatureIsEmpty(refs: seq<Ref>, n: string)
    requires BarFree(refs)
    ensures Signature(VarbindsOf(refs, n)) != "" <==> exists key :: Binds(refs, n, key)
  {
    forall key ensures key in VarbindsOf(refs, n) <==> Binds(refs, n, key) {
      BindsIs(refs, n, key);
    }
    EmptySignature();
    if Signature(VarbindsOf(refs, n)) == "" {
      SignatureIdentifies(VarbindsOf(refs, n), {});
    }
    assert VarbindsOf(refs, n) == {} || exists key :: key in VarbindsOf(refs, n);
  }

  lemma {:induction false} PairIff(same: set<string>, a: string, c: string)
    requires a in same && a != c
    ensures (c in same && |same| == 2) <==> same == {a, c}
  {
    if c in same && |same| == 2 {
      OnlyTwo(same, a, c);
    }
  }

  /** Two notifications pair exactly when the rows say so. */
  lemma {:induction false} EdgesAreRows(syms: seq<Symbol>, refs: seq<Ref>, v: Vocabulary, a: Symbol, c: Symbol)
    requires DistinctNames(syms) && BarFree(refs) && IsNotified(syms, a) && IsNotified(syms, c)
    ensures Edge(ModuleFacts(syms, refs, v), a.name, c.name) <==> PairsWith(syms, refs, v, a, c)
  {
    var names := Names(syms);
    FactsOfRow(syms, refs, v, a);
    FactsOfRow(syms, refs, v, c);
    FactsSay(a, refs, names, v, RaiseDir);
    FactsSay(c, refs, names, v, ClearDir);
    if Says(a, v, RaiseDir) && Says(c, v, ClearDir) {
      assert a.name != c.name;
      RootsAgree(a, c, refs, names, v);
      SharedGroupIs(refs, names, a.name, c.name);
      SignaturesAre(syms, refs, v, a, c);
    }
  }

  // ---- The relationship of one notification ----

  ghost predicate Partnered(syms: seq<Symbol>, refs: seq<Ref>, v: Vocabulary, s: Symbol, p: Symbol) {
    PairsWith(syms, refs, v, s, p) || PairsWith(syms, refs, v, p, s)
  }

  /** The four signals, each fired by some partner. */
  ghost predicate Fires(syms: seq<Symbol>, refs: seq<Ref>, v: Vocabulary, s: Symbol, kind: SignalKind) {
    exists p :: Partnered(syms, refs, v, s, p) && FiresWith(syms, refs, v, s, p, kind)
  }

  ghost predicate FiresWith(syms: seq<Symbol>, refs: seq<Ref>, v: Vocabulary, s: Symbol, p: Symbol, kind: SignalKind) {
    match kind
    case NameSignal => SameNameRoot(s, p, v)
    case VarbindSignal => ShareVarbind(refs, s.name, p.name)
    case DescriptionSignal =>
      if Says(s, v, RaiseDir) then ProseSays(s, v, RaiseDir) && ProseSays(p, v, ClearDir)
      else ProseSays(p, v, RaiseDir) && ProseSays(s, v, ClearDir)
    case GroupSignal => ShareSmallGroup(refs, Names(syms), s.name, p.name)
  }

  predicate AtLeastTwo(n: bool, vb: bool, d: bool, g: bool) {
    (n && vb) || (n && d) || (n && g) || (vb && d) || (vb && g) || (d && g)
  }

  predicate AtLeastThree(n: bool, vb: bool, d: bool, g: bool) {
    (n && vb && d) || (n && vb && g) || (n && d && g) || (vb && d && g)
  }

  /** All partners are one and the same notification. */
  ghost predicate OnePartner(syms: seq<Symbol>, refs: seq<Ref>, v: Vocabulary, s: Symbol) {
    forall p, q :: Partnered(syms, refs, v, s, p) && Partnered(syms, refs, v, s, q) ==> p.name == q.name
  }

  /** The confidence of a paired notification. */
  ghost predicate IsConfidence(syms: seq<Symbol>, refs: seq<Ref>, v: Vocabulary, s: Symbol, band: Confidence) {
    var n, vb := Fires(syms, refs, v, s, NameSignal), Fires(syms, refs, v, s, VarbindSignal);
    var d, g := Fires(syms, refs, v, s, DescriptionSignal), Fires(syms, refs, v, s, GroupSignal);
    && (band == High <==>
          && ((n && vb) || AtLeastThree(n, vb, d, g)) && (n || g)
          && OnePartner(syms, refs, v, s) && !Contradicts(s, v))
    && (band == Guess <==> !AtLeastTwo(n, vb, d, g))
  }

  ghost predicate NamesAscend(q: seq<string>) {
    forall i, j :: 0 <= i < j < |q| ==> TextBefore(q[i], q[j])
  }

  /** `q` lists the notifications in byte order. */
  ghost predicate ListsPartners(syms: seq<Symbol>, refs: seq<Ref>, v: Vocabulary, s: Symbol, q: seq<string>) {
    NamesAscend(q) && forall n :: n in q <==> exists p :: Partnered(syms, refs, v, s, p) && p.name == n
  }

  ghost predicate ReadsOrphan(refs: seq<Ref>, v: Vocabulary, s: Symbol, summary: string) {
    && (Says(s, v, RaiseDir) ==> summary == "problem with no matching clear notification")
    && (Says(s, v, ClearDir) ==> summary == "resolution with no matching problem notification")
    && (Says(s, v, Neither) ==>
          summary == if exists key :: Binds(refs, s.name, key) then "no resolution found"
                     else "standalone notification (no varbinds); no resolution")
  }

  /** What a relationship says of its notification, in terms of the rows. */
  ghost predicate IsRelationship(syms: seq<Symbol>, refs: seq<Ref>, v: Vocabulary, s: Symbol, rel: Relationship) {
    && rel.notification == s.name
    && (rel.role == Raise <==> exists c :: PairsWith(syms, refs, v, s, c))
    && (rel.role == Clear <==> exists a :: PairsWith(syms, refs, v, a, s))
    && (rel.role == Clear ==> ListsPartners(syms, refs, v, s, rel.clears))
    && (rel.role != Clear ==> rel.clears == [])
    && if rel.role == Orphan then
         rel.confidence == High && rel.signals == [] && ReadsOrphan(refs, v, s, rel.summary)
       else
         && IsConfidence(syms, refs, v, s, rel.confidence)
         && (forall kind :: Fires(syms, refs, v, s, kind) <==> exists h :: h in rel.signals && h.kind == kind)
         && exists q :: ListsPartners(syms, refs, v, s, q)
                        && rel.summary == (if rel.role == Clear then "clears " else "problem; cleared by ") + Join(q, ", ")
  }

  // ---- From the facts to the rows ----

  ghost predicate ProblemFor(syms: seq<Symbol>, refs: seq<Ref>, v: Vocabulary, s: Symbol, n: string) {
    exists c :: PairsWith(syms, refs, v, s, c) && c.name == n
  }

  ghost predicate EndOf(syms: seq<Symbol>, refs: seq<Ref>, v: Vocabulary, s: Symbol, n: string) {
    exists a :: PairsWith(syms, refs, v, a, s) && a.name == n
  }

  ghost predicate PartnerNamed(syms: seq<Symbol>, refs: seq<Ref>, v: Vocabulary, s: Symbol, n: string) {
    exists p :: Partnered(syms, refs, v, s, p) && p.name == n
  }

  lemma {:induction false} PartnerEnds(syms: seq<Symbol>, refs: seq<Ref>, v: Vocabulary, s: Symbol)
    ensures forall n :: PartnerNamed(syms, refs, v, s, n)
                   <==> ProblemFor(syms, refs, v, s, n) || EndOf(syms, refs, v, s, n)
    ensures (exists n :: ProblemFor(syms, refs, v, s, n)) <==> exists c :: PairsWith(syms, refs, v, s, c)
    ensures (exists n :: EndOf(syms, refs, v, s, n)) <==> exists a :: PairsWith(syms, refs, v, a, s)
  {
    if c :| PairsWith(syms, refs, v, s, c) {
      assert ProblemFor(syms, refs, v, s, c.name);
    }
    if a :| PairsWith(syms, refs, v, a, s) {
      assert EndOf(syms, refs, v, s, a.name);
    }
  }

  lemma {:induction false} EdgesOf(syms: seq<Symbol>, refs: seq<Ref>, v: Vocabulary, s: Symbol, n: string)
    requires DistinctNames(syms) && BarFree(refs) && IsNotified(syms, s)
    ensures var t := ModuleFacts(syms, refs, v);
            && s.name in t
            && (Edge(t, s.name, n) <==> ProblemFor(syms, refs, v, s, n))
            && (Edge(t, n, s.name) <==> EndOf(syms, refs, v, s, n))
  {
    FactsOfRow(syms, refs, v, s);
    NamesAre(syms, n);
    SigsOf(syms, refs, v);
    forall p | IsNotified(syms, p)
      ensures Edge(ModuleFacts(syms, refs, v), s.name, p.name) <==> PairsWith(syms, refs, v, s, p)
      ensures Edge(ModuleFacts(syms, refs, v), p.name, s.name) <==> PairsWith(syms, refs, v, p, s)
    {
      EdgesAreRows(syms, refs, v, s, p);
      EdgesAreRows(syms, refs, v, p, s);
    }
  }

  /** The table of facts `t` knows the pairs of `s`. */
  ghost predicate Knows(t: map<string, Facts>, syms: seq<Symbol>, refs: seq<Ref>, v: Vocabulary, s: Symbol) {
    s.name in t && forall n ::
      && (Edge(t, s.name, n) <==> ProblemFor(syms, refs, v, s, n))
      && (Edge(t, n, s.name) <==> EndOf(syms, refs, v, s, n))
  }

  lemma {:induction false} FactsKnow(syms: seq<Symbol>, refs: seq<Ref>, v: Vocabulary, s: Symbol)
    requires DistinctNames(syms) && BarFree(refs) && IsNotified(syms, s)
    ensures Knows(ModuleFacts(syms, refs, v), syms, refs, v, s)
  {
    FactsOfRow(syms, refs, v, s);
    forall n
      ensures (Edge(ModuleFacts(syms, refs, v), s.name, n) <==> ProblemFor(syms, refs, v, s, n))
              && (Edge(ModuleFacts(syms, refs, v), n, s.name) <==> EndOf(syms, refs, v, s, n))
    {
      EdgesOf(syms, refs, v, s, n);
    }
  }

  lemma {:induction false} PartnersAre(t: map<string, Facts>, syms: seq<Symbol>, refs: seq<Ref>, v: Vocabulary,
      s: Symbol)
    requires Knows(t, syms, refs, v, s)
    ensures forall n :: n in Partners(t, s.name) <==> PartnerNamed(syms, refs, v, s, n)
  {
    PartnerEnds(syms, refs, v, s);
    assert forall n :: n in Partners(t, s.name) <==> Edge(t, s.name, n) || Edge(t, n, s.name);
  }

  lemma {:induction false} RolesAre(t: map<string, Facts>, syms: seq<Symbol>, refs: seq<Ref>, v: Vocabulary, s: Symbol)
    requires Knows(t, syms, refs, v, s)
    ensures var role := Verdict(t, s.name).role;
            && (role == Raise <==> exists c :: PairsWith(syms, refs, v, s, c))
            && (role == Clear <==> exists a :: PairsWith(syms, refs, v, a, s))
  {
    PartnerEnds(syms, refs, v, s);
    RolesAreEdges(t, s.name);
  }

  lemma {:induction false} SortedListsPartners(t: map<string, Facts>, syms: seq<Symbol>, refs: seq<Ref>, v: Vocabulary,
      s: Symbol)
    requires Knows(t, syms, refs, v, s)
    ensures ListsPartners(syms, refs, v, s, SortedNames(Partners(t, s.name)))
  {
    PartnersAre(t, syms, refs, v, s);
    var q := SortedNames(Partners(t, s.name));
    forall i, j | 0 <= i < j < |q| ensures TextBefore(q[i], q[j]) {
      LexLeIs(q[i], q[j]);
    }
    assert forall n :: n in q <==> n in Elements(q);
    assert forall n :: PartnerNamed(syms, refs, v, s, n)
                  <==> exists p :: Partnered(syms, refs, v, s, p) && p.name == n;
  }

  lemma {:induction false} AtMostOneIff(ps: set<string>)
    ensures |ps| <= 1 <==> forall m, n :: m in ps && n in ps ==> m == n
  {
    if |ps| <= 1 {
      forall m, n | m in ps && n in ps ensures m == n {
        SubsetSize({m, n}, ps);
      }
    } else {
      var m :| m in ps;
      assert |ps - {m}| > 0;
      var n :| n in ps - {m};
    }
  }

  lemma {:induction false} FanOutIs(t: map<string, Facts>, syms: seq<Symbol>, refs: seq<Ref>, v: Vocabulary, s: Symbol)
    requires Knows(t, syms, refs, v, s)
    ensures |Partners(t, s.name)| <= 1 <==> OnePartner(syms, refs, v, s)
  {
    PartnersAre(t, syms, refs, v, s);
    AtMostOneIff(Partners(t, s.name));
    if forall m, n :: PartnerNamed(syms, refs, v, s, m) && PartnerNamed(syms, refs, v, s, n) ==> m == n {
      forall p, q | Partnered(syms, refs, v, s, p) && Partnered(syms, refs, v, s, q) ensures p.name == q.name {
        assert PartnerNamed(syms, refs, v, s, p.name) && PartnerNamed(syms, refs, v, s, q.name);
      }
    }
  }

  predicate FiresFor(a: Facts, b: Facts, kind: SignalKind) {
    match kind
    case NameSignal => SameRoot(a, b)
    case VarbindSignal => FirstShared(a.vb, b.vb) != ""
    case DescriptionSignal =>
      if a.eff == RaiseDir then a.descDir == RaiseDir && b.descDir == ClearDir
      else b.descDir == RaiseDir && a.descDir == ClearDir
    case GroupSignal => FirstShared(a.groups, b.groups) != ""
  }

  function Signal(s: SignalSet, kind: SignalKind): bool {
    match kind
    case NameSignal => s.name
    case VarbindSignal => s.varbind
    case DescriptionSignal => s.desc
    case GroupSignal => s.group
  }

  lemma {:induction false} SignalFrom(t: map<string, Facts>, n: string, kind: SignalKind)
    requires n in t
    ensures Signal(SignalsWith(t, n, Partners(t, n)), kind)
       <==> exists p :: p in Partners(t, n) && FiresFor(t[n], t[p], kind)
  {
    if kind == DescriptionSignal {
      assert forall p :: p in Partners(t, n) ==> (Opposing(t, n, p) <==> FiresFor(t[n], t[p], kind));
    }
  }

  /** The signals of one pair. */
  lemma {:induction false} PairFires(syms: seq<Symbol>, refs: seq<Ref>, v: Vocabulary, s: Symbol, p: Symbol,
      kind: SignalKind)
    ensures var names := Names(syms);
            FiresFor(FactsOf(s, refs, names, v), FactsOf(p, refs, names, v), kind)
            <==> FiresWith(syms, refs, v, s, p, kind)
  {
    var names := Names(syms);
    match kind {
      case NameSignal => RootsAgree(s, p, refs, names, v);
      case VarbindSignal => SharedVarbindIs(refs, s.name, p.name);
      case DescriptionSignal =>
        FactsSay(s, refs, names, v, RaiseDir);
        FactsSay(s, refs, names, v, ClearDir);
        FactsSay(p, refs, names, v, RaiseDir);
        FactsSay(p, refs, names, v, ClearDir);
      case GroupSignal => SharedGroupIs(refs, names, s.name, p.name);
    }
  }

  /** The table has the facts of every notification. */
  ghost predicate HoldsFacts(t: map<string, Facts>, syms: seq<Symbol>, refs: seq<Ref>, v: Vocabulary) {
    forall s :: IsNotified(syms, s) ==> s.name in t && t[s.name] == FactsOf(s, refs, Names(syms), v)
  }

  lemma {:induction false} SignalsAre(t: map<string, Facts>, syms: seq<Symbol>, refs: seq<Ref>, v: Vocabulary, s: Symbol,
      kind: SignalKind)
    requires Knows(t, syms, refs, v, s) && HoldsFacts(t, syms, refs, v) && IsNotified(syms, s)
    ensures Signal(SignalsWith(t, s.name, Partners(t, s.name)), kind) <==> Fires(syms, refs, v, s, kind)
  {
    PartnersAre(t, syms, refs, v, s);
    forall p | Partnered(syms, refs, v, s, p)
      ensures p.name in t && (FiresFor(t[s.name], t[p.name], kind) <==> FiresWith(syms, refs, v, s, p, kind))
    {
      PartnerFires(t, syms, refs, v, s, p, kind);
    }
    FiresByName(t, syms, refs, v, s, kind);
    SignalFrom(t, s.name, kind);
  }

  lemma {:induction false} PartnerFires(t: map<string, Facts>, syms: seq<Symbol>, refs: seq<Ref>, v: Vocabulary,
      s: Symbol, p: Symbol, kind: SignalKind)
    requires HoldsFacts(t, syms, refs, v) && IsNotified(syms, s) && IsNotified(syms, p)
    ensures s.name in t && p.name in t
    ensures FiresFor(t[s.name], t[p.name], kind) <==> FiresWith(syms, refs, v, s, p, kind)
  {
    PairFires(syms, refs, v, s, p, kind);
  }

  lemma {:induction false} FiresByName(t: map<string, Facts>, syms: seq<Symbol>, refs: seq<Ref>, v: Vocabulary,
      s: Symbol, kind: SignalKind)
    requires s.name in t && forall n :: n in Partners(t, s.name) <==> PartnerNamed(syms, refs, v, s, n)
    requires forall p :: Partnered(syms, refs, v, s, p) ==>
               p.name in t && (FiresFor(t[s.name], t[p.name], kind) <==> FiresWith(syms, refs, v, s, p, kind))
    ensures (exists n :: n in Partners(t, s.name) && FiresFor(t[s.name], t[n], kind))
       <==> Fires(syms, refs, v, s, kind)
  {
    if n :| n in Partners(t, s.name) && FiresFor(t[s.name], t[n], kind) {
      var p :| Partnered(syms, refs, v, s, p) && p.name == n;
      assert FiresWith(syms, refs, v, s, p, kind);
    }
    if Fires(syms, refs, v, s, kind) {
      var p :| Partnered(syms, refs, v, s, p) && FiresWith(syms, refs, v, s, p, kind);
      assert PartnerNamed(syms, refs, v, s, p.name);
      assert p.name in Partners(t, s.name);
    }
  }

  lemma {:induction false} BandIs(s: SignalSet, fanOut: nat, conflict: bool)
    ensures Band(s, fanOut, conflict) == High <==>
              && ((s.name && s.varbind) || AtLeastThree(s.name, s.varbind, s.desc, s.group)) && (s.name || s.group)
              && fanOut <= 1 && !conflict
    ensures Band(s, fanOut, conflict) == Guess <==> !AtLeastTwo(s.name, s.varbind, s.desc, s.group)
  {}

  lemma {:induction false} ConfidenceIs(syms: seq<Symbol>, refs: seq<Ref>, v: Vocabulary, s: Symbol, sigs: SignalSet,
      fanOut: nat, conflict: bool)
    requires forall kind :: Signal(sigs, kind) <==> Fires(syms, refs, v, s, kind)
    requires (fanOut <= 1 <==> OnePartner(syms, refs, v, s)) && (conflict <==> Contradicts(s, v))
    ensures IsConfidence(syms, refs, v, s, Band(sigs, fanOut, conflict))
  {
    assert sigs.name == Signal(sigs, NameSignal) && sigs.varbind == Signal(sigs, VarbindSignal);
    assert sigs.desc == Signal(sigs, DescriptionSignal) && sigs.group == Signal(sigs, GroupSignal);
    BandIs(sigs, fanOut, conflict);
  }

  lemma {:induction false} HitsAre(s: SignalSet, vbEx: string, phrase: string, groupEx: string, kind: SignalKind)
    ensures (exists h :: h in Hits(s, vbEx, phrase, groupEx) && h.kind == kind) <==> Signal(s, kind)
  {
    var name := Hit(NameSignal, "matching name root with opposing directional token");
    var vb, desc := Hit(VarbindSignal, "shared correlating varbind " + vbEx),
                    Hit(DescriptionSignal, "DESCRIPTION direction: " + phrase);
    var group := Hit(GroupSignal, groupEx);
    var a, b := if s.name then [name] else [], if s.varbind then [vb] else [];
    var c, d := if s.desc then [desc] else [], if s.group then [group] else [];
    var hits := Hits(s, vbEx, phrase, groupEx);
    assert hits == a + b + c + d;
    var expected := match kind case NameSignal => name case VarbindSignal => vb case DescriptionSignal => desc
                               case GroupSignal => group;
    assert forall h :: h in hits <==> h in a || h in b || h in c || h in d;
    if Signal(s, kind) {
      assert expected in hits;
    }
  }

  lemma {:induction false} OrphanReads(f: Facts, refs: seq<Ref>, v: Vocabulary, s: Symbol)
    requires f.vb == VarbindsOf(refs, s.name) && forall d :: f.eff == d <==> Says(s, v, d)
    ensures ReadsOrphan(refs, v, s, OrphanSummary(f))
  {
    forall key ensures key in f.vb <==> Binds(refs, s.name, key) {
      BindsIs(refs, s.name, key);
    }
    assert f.vb == {} || exists key :: key in f.vb;
    assert f.eff == f.eff;
  }

  lemma {:induction false} OwnFacts(syms: seq<Symbol>, refs: seq<Ref>, v: Vocabulary, s: Symbol)
    ensures var f := FactsOf(s, refs, Names(syms), v);
            && f.vb == VarbindsOf(refs, s.name) && (Conflict(f) <==> Contradicts(s, v))
            && (forall d :: f.eff == d <==> Says(s, v, d))
  {
    var names := Names(syms);
    forall d ensures FactsOf(s, refs, names, v).eff == d <==> Says(s, v, d) {
      FactsSay(s, refs, names, v, d);
    }
    FactsSay(s, refs, names, v, RaiseDir);
    FactsSay(s, refs, names, v, ClearDir);
  }

  /** What a verdict consists of. */
  ghost predicate Consists(rel: Relationship, n: string, f: Facts, q: seq<string>, sigs: SignalSet, fanOut: nat) {
    && rel.notification == n
    && if q == [] then rel == Relationship(n, Orphan, High, [], OrphanSummary(f), [])
       else && rel.role != Orphan && rel.confidence == Band(sigs, fanOut, Conflict(f))
            && rel.clears == (if rel.role == Clear then q else [])
            && (forall kind :: Signal(sigs, kind) <==> exists h :: h in rel.signals && h.kind == kind)
            && rel.summary == (if rel.role == Clear then "clears " else "problem; cleared by ") + Join(q, ", ")
  }

  lemma {:induction false} VerdictConsists(t: map<string, Facts>, n: string)
    requires n in t
    ensures var ps := Partners(t, n);
            Consists(Verdict(t, n), n, t[n], SortedNames(ps), SignalsWith(t, n, ps), |ps|)
  {
    var a, f := Summary(t, n), t[n];
    forall kind ensures Signal(a.signals, kind)
                   <==> exists h :: h in Hits(a.signals, a.vbEx, f.phrase, a.groupEx) && h.kind == kind
    {
      HitsAre(a.signals, a.vbEx, f.phrase, a.groupEx, kind);
    }
    WrittenConsists(f, n, a);
  }

  lemma {:induction false} WrittenConsists(f: Facts, n: string, a: Acc)
    requires a.role != Orphan
    requires forall kind :: Signal(a.signals, kind)
                       <==> exists h :: h in Hits(a.signals, a.vbEx, f.phrase, a.groupEx) && h.kind == kind
    ensures Consists(Written(f, n, a), n, f, a.partners, a.signals, |a.partners|)
  {}

  lemma {:induction false} ConsistingReads(syms: seq<Symbol>, refs: seq<Ref>, v: Vocabulary, s: Symbol,
      rel: Relationship, f: Facts, q: seq<string>, sigs: SignalSet, fanOut: nat)
    requires Consists(rel, s.name, f, q, sigs, fanOut)
    requires rel.role == Raise <==> exists c :: PairsWith(syms, refs, v, s, c)
    requires rel.role == Clear <==> exists a :: PairsWith(syms, refs, v, a, s)
    requires ListsPartners(syms, refs, v, s, q) && ReadsOrphan(refs, v, s, OrphanSummary(f))
    requires IsConfidence(syms, refs, v, s, Band(sigs, fanOut, Conflict(f)))
    requires forall kind :: Signal(sigs, kind) <==> Fires(syms, refs, v, s, kind)
    ensures IsRelationship(syms, refs, v, s, rel)
  {}

  /**
   * Every relationship follows from the rows: the role from the pairs the notification is in, the clears from its
   * problems, the confidence and the evidence from what its pairs share.
   */
  lemma {:induction false} RelationshipsAreRows(syms: seq<Symbol>, refs: seq<Ref>, v: Vocabulary, s: Symbol)
    requires DistinctNames(syms) && BarFree(refs) && IsNotified(syms, s)
    ensures s.name in ModuleFacts(syms, refs, v)
    ensures IsRelationship(syms, refs, v, s, Verdict(ModuleFacts(syms, refs, v), s.name))
  {
    forall x | IsNotified(syms, x)
      ensures x.name in ModuleFacts(syms, refs, v)
              && ModuleFacts(syms, refs, v)[x.name] == FactsOf(x, refs, Names(syms), v)
    {
      FactsOfRow(syms, refs, v, x);
    }
    FactsKnow(syms, refs, v, s);
    KnownRelationship(ModuleFacts(syms, refs, v), syms, refs, v, s);
  }

  lemma {:induction false} KnownRelationship(t: map<string, Facts>, syms: seq<Symbol>, refs: seq<Ref>, v: Vocabulary,
      s: Symbol)
    requires Knows(t, syms, refs, v, s) && HoldsFacts(t, syms, refs, v) && IsNotified(syms, s)
    ensures IsRelationship(syms, refs, v, s, Verdict(t, s.name))
  {
    var ps := Partners(t, s.name);
    KnownConfidence(t, syms, refs, v, s);
    RolesAre(t, syms, refs, v, s);
    SortedListsPartners(t, syms, refs, v, s);
    KnownOrphan(t, syms, refs, v, s);
    VerdictConsists(t, s.name);
    ConsistingReads(syms, refs, v, s, Verdict(t, s.name), t[s.name], SortedNames(ps), SignalsWith(t, s.name, ps), |ps|);
  }

  lemma {:induction false} KnownOrphan(t: map<string, Facts>, syms: seq<Symbol>, refs: seq<Ref>, v: Vocabulary,
      s: Symbol)
    requires s.name in t && HoldsFacts(t, syms, refs, v) && IsNotified(syms, s)
    ensures ReadsOrphan(refs, v, s, OrphanSummary(t[s.name]))
  {
    OwnFacts(syms, refs, v, s);
    OrphanReads(t[s.name], refs, v, s);
  }

  lemma {:induction false} KnownConfidence(t: map<string, Facts>, syms: seq<Symbol>, refs: seq<Ref>, v: Vocabulary,
      s: Symbol)
    requires Knows(t, syms, refs, v, s) && HoldsFacts(t, syms, refs, v) && IsNotified(syms, s)
    ensures var sigs, ps := SignalsWith(t, s.name, Partners(t, s.name)), Partners(t, s.name);
            && IsConfidence(syms, refs, v, s, Band(sigs, |ps|, Conflict(t[s.name])))
            && forall kind :: Signal(sigs, kind) <==> Fires(syms, refs, v, s, kind)
  {
    var ps := Partners(t, s.name);
    var sigs := SignalsWith(t, s.name, ps);
    forall kind ensures Signal(sigs, kind) <==> Fires(syms, refs, v, s, kind) {
      SignalsAre(t, syms, refs, v, s, kind);
    }
    FanOutIs(t, syms, refs, v, s);
    OwnFacts(syms, refs, v, s);
    ConfidenceIs(syms, refs, v, s, sigs, |ps|, Conflict(t[s.name]));
  }

  // ---- The whole answer ----

  /** One relationship for each notification, in the byte order of the names, each as the rows say. */
  ghost predicate IsAnswer(syms: seq<Symbol>, refs: seq<Ref>, v: Vocabulary, out: seq<Relationship>) {
    && (forall i, j :: 0 <= i < j < |out| ==> TextBefore(out[i].notification, out[j].notification))
    && (forall rel :: rel in out ==> IsFromRows(syms, refs, v, rel))
    && (forall s :: IsNotified(syms, s) ==> exists rel :: rel in out && rel.notification == s.name)
  }

  ghost predicate IsFromRows(syms: seq<Symbol>, refs: seq<Ref>, v: Vocabulary, rel: Relationship) {
    exists s :: IsNotified(syms, s) && IsRelationship(syms, refs, v, s, rel)
  }

  lemma {:induction false} VerdictFromRows(syms: seq<Symbol>, refs: seq<Ref>, v: Vocabulary, n: string)
    requires DistinctNames(syms) && BarFree(refs) && n in Names(syms)
    ensures n in ModuleFacts(syms, refs, v)
    ensures IsFromRows(syms, refs, v, Verdict(ModuleFacts(syms, refs, v), n))
  {
    NamesAre(syms, n);
    var s :| IsNotified(syms, s) && s.name == n;
    RelationshipsAreRows(syms, refs, v, s);
  }

  lemma {:induction false} InByteOrder(out: seq<Relationship>, q: seq<string>)
    requires Ascending(LexLe, q) && |out| == |q| && forall i: nat :: i < |q| ==> out[i].notification == q[i]
    ensures forall i, j :: 0 <= i < j < |out| ==> TextBefore(out[i].notification, out[j].notification)
    ensures forall n :: n in q ==> exists rel :: rel in out && rel.notification == n
  {
    forall i, j | 0 <= i < j < |out| ensures TextBefore(out[i].notification, out[j].notification) {
      LexLeIs(q[i], q[j]);
    }
    forall n | n in q ensures exists rel :: rel in out && rel.notification == n {
      var i: nat :| i < |q| && q[i] == n;
      assert out[i] in out;
    }
  }

  lemma {:induction false} VerdictsAreNamed(t: map<string, Facts>)
    ensures |Verdicts(t)| == |SortedNames(t.Keys)|
    ensures forall i: nat :: i < |Verdicts(t)| ==> Verdicts(t)[i].notification == SortedNames(t.Keys)[i]
    ensures forall rel :: rel in Verdicts(t) ==> rel.notification in t && rel == Verdict(t, rel.notification)
  {
    var out, q := Verdicts(t), SortedNames(t.Keys);
    OnePerNotification(t, 0);
    forall i: nat | i < |out|
      ensures out[i].notification == q[i] && out[i].notification in t && out[i] == Verdict(t, out[i].notification)
    {
      OnePerNotification(t, i);
    }
  }

  lemma {:induction false} VerdictsInOrder(t: map<string, Facts>)
    ensures forall rel :: rel in Verdicts(t) ==> rel.notification in t && rel == Verdict(t, rel.notification)
    ensures forall i, j :: 0 <= i < j < |Verdicts(t)| ==> TextBefore(Verdicts(t)[i].notification, Verdicts(t)[j].notification)
    ensures forall n :: n in t ==> exists rel :: rel in Verdicts(t) && rel.notification == n
  {
    VerdictsAreNamed(t);
    InByteOrder(Verdicts(t), SortedNames(t.Keys));
    SortedAreKeys(t);
  }

  /** What pairing answers for a module. */
  lemma {:induction false} VerdictsAreAnswer(syms: seq<Symbol>, refs: seq<Ref>, v: Vocabulary)
    requires DistinctNames(syms) && BarFree(refs)
    ensures IsAnswer(syms, refs, v, Verdicts(ModuleFacts(syms, refs, v)))
  {
    var t := ModuleFacts(syms, refs, v);
    SigsOf(syms, refs, v);
    VerdictsInOrder(t);
    forall rel | rel in Verdicts(t) ensures IsFromRows(syms, refs, v, rel) {
      VerdictFromRows(syms, refs, v, rel.notification);
    }
    forall s | IsNotified(syms, s) ensures s.name in t {
      NamesAre(syms, s.name);
    }
  }
}
