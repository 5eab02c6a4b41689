/** Pairing of a module's notifications into raise, clear and orphan (internal/correlate/correlate.go). */
module Correlate {
  import opened Model
  import opened Ordering
  import opened Signals

  datatype Class = Raise | Clear | Orphan

  datatype Confidence = High | Likely | Guess

  datatype SignalKind = NameSignal | VarbindSignal | DescriptionSignal | GroupSignal

  datatype Hit = Hit(kind: SignalKind, detail: string)

  datatype Relationship =
    Relationship(notification: string, role: Class, confidence: Confidence, signals: seq<Hit>, summary: string,
                 clears: seq<string>)

  /** What pairing looks at for one notification. */
  datatype Facts =
    Facts(root: string, nameDir: Direction, descDir: Direction, phrase: string, vb: set<string>, groups: set<string>,
          legacy: bool, eff: Direction, sig: string)

  // ---- Facts of a module ----

  predicate IsNotification(s: Symbol) {
    s.kind == NotificationType || s.kind == TrapType
  }

  function Notifications(syms: seq<Symbol>): set<Symbol> {
    set s | s in syms && IsNotification(s)
  }

  /** Names are unique within a module. */
  ghost predicate DistinctNames(syms: seq<Symbol>) {
    forall i, j :: 0 <= i < j < |syms| && IsNotification(syms[i]) && IsNotification(syms[j]) ==>
      syms[i].name != syms[j].name
  }

  function Names(syms: seq<Symbol>): set<string> {
    set s | s in Notifications(syms) :: s.name
  }

  /** A group pairs only when exactly two rows put notifications of the module into it. */
  function PairGroups(refs: seq<Ref>, names: set<string>, n: string): set<string> {
    set g | g in GroupsOf(refs, n) && GroupRows(refs, names, g) == 2
  }

  function FactsOf(s: Symbol, refs: seq<Ref>, names: set<string>, v: Vocabulary): Facts {
    var toks := Tokens(s.name);
    var (root, nameDir) := SplitAt(toks, LastDirectional(toks, v), v);
    var (descDir, phrase) := ProseDirection(s, v);
    var vb := VarbindsOf(refs, s.name);
    Facts(root, nameDir, descDir, phrase, vb, PairGroups(refs, names, s.name), Legacy(s.status),
          if nameDir == Neither then descDir else nameDir, Signature(vb))
  }

  ghost function Named(syms: seq<Symbol>, n: string): (s: Symbol)
    requires n in Names(syms)
    ensures s in Notifications(syms) && s.name == n
  {
    var s :| s in Notifications(syms) && s.name == n;
    s
  }

  /** The facts by name: all of a module that pairing depends on. */
  ghost function ModuleFacts(syms: seq<Symbol>, refs: seq<Ref>, v: Vocabulary): map<string, Facts> {
    map n | n in Names(syms) :: FactsOf(Named(syms, n), refs, Names(syms), v)
  }

  // ---- When two notifications pair ----

  function Holders(facts: map<string, Facts>, sig: string): set<string> {
    set n | n in facts && facts[n].sig == sig
  }

  predicate SameRoot(a: Facts, b: Facts) {
    a.nameDir != Neither && b.nameDir != Neither && a.root != "" && a.root == b.root
  }

  predicate SameSignature(facts: map<string, Facts>, a: Facts, b: Facts) {
    a.sig != "" && a.sig == b.sig && |Holders(facts, a.sig)| == 2
  }

  /** `r` is a problem and `c` its resolution. */
  predicate Edge(facts: map<string, Facts>, r: string, c: string) {
    r in facts && c in facts
    && var a, b := facts[r], facts[c];
       && a.eff == RaiseDir && b.eff == ClearDir && a.legacy == b.legacy
       && (SameRoot(a, b) || FirstShared(a.groups, b.groups) != "" || SameSignature(facts, a, b))
  }

  predicate Linked(facts: map<string, Facts>, a: string, b: string) {
    Edge(facts, a, b) || Edge(facts, b, a)
  }

  function Partners(facts: map<string, Facts>, n: string): (ps: set<string>)
    ensures ps <= facts.Keys
  {
    set p | p in facts && Linked(facts, n, p)
  }

  // ---- The verdict on one notification ----

  datatype SignalSet = SignalSet(name: bool, varbind: bool, desc: bool, group: bool)

  function Bit(b: bool): nat {
    if b then 1 else 0
  }

  function Count(s: SignalSet): nat {
    Bit(s.name) + Bit(s.varbind) + Bit(s.desc) + Bit(s.group)
  }

  /** Base band by signal strength, then the caps. */
  method ScoreConfidence(s: SignalSet, fanOut: nat, conflict: bool) returns (band: Confidence)
    ensures band == Band(s, fanOut, conflict)
  {
    band := Guess;
    if (s.name && s.varbind) || Count(s) >= 3 {
      band := High;
    } else if Count(s) >= 2 {
      band := Likely;
    }
    if band == High && (conflict || fanOut > 1) {
      band := Likely;
    }
    if band == High && !s.name && !s.group {
      band := Likely;
    }
  }

  /** High needs strong signals, a grouping one among them, a single partner and no conflict. */
  function Band(s: SignalSet, fanOut: nat, conflict: bool): Confidence {
    if Count(s) <= 1 then Guess
    else if ((s.name && s.varbind) || Count(s) >= 3) && !conflict && fanOut <= 1 && (s.name || s.group) then High
    else Likely
  }

  predicate Opposing(facts: map<string, Facts>, a: string, b: string)
    requires a in facts && b in facts
  {
    var (r, c) := if facts[a].eff == RaiseDir then (a, b) else (b, a);
    facts[r].descDir == RaiseDir && facts[c].descDir == ClearDir
  }

  /** The signals that some pair of `n` with one of `partners` fires. */
  function SignalsWith(facts: map<string, Facts>, n: string, partners: set<string>): SignalSet
    requires n in facts && partners <= facts.Keys
  {
    SignalSet(
      exists p | p in partners :: SameRoot(facts[n], facts[p]),
      exists p | p in partners :: FirstShared(facts[n].vb, facts[p].vb) != "",
      exists p | p in partners :: Opposing(facts, n, p),
      exists p | p in partners :: FirstShared(facts[n].groups, facts[p].groups) != "")
  }

  function FirstText(texts: seq<string>): string {
    if texts == [] then "" else if texts[0] != "" then texts[0] else FirstText(texts[1..])
  }

  function SharedVarbinds(facts: map<string, Facts>, n: string, partners: seq<string>): (q: seq<string>)
    requires n in facts && forall p :: p in partners ==> p in facts
    ensures |q| == |partners|
  {
    seq(|partners|, i requires 0 <= i < |partners| => Short(FirstShared(facts[n].vb, facts[partners[i]].vb)))
  }

  function SharedGroups(facts: map<string, Facts>, n: string, partners: seq<string>): (q: seq<string>)
    requires n in facts && forall p :: p in partners ==> p in facts
    ensures |q| == |partners|
  {
    seq(|partners|, i requires 0 <= i < |partners| => FirstShared(facts[n].groups, facts[partners[i]].groups))
  }

  function Hits(s: SignalSet, vbEx: string, phrase: string, groupEx: string): seq<Hit> {
    (if s.name then [Hit(NameSignal, "matching name root with opposing directional token")] else [])
    + (if s.varbind then [Hit(VarbindSignal, "shared correlating varbind " + vbEx)] else [])
    + (if s.desc then [Hit(DescriptionSignal, "DESCRIPTION direction: " + phrase)] else [])
    + (if s.group then [Hit(GroupSignal, groupEx)] else [])
  }

  function OrphanSummary(f: Facts): string {
    match f.eff
    case RaiseDir => "problem with no matching clear notification"
    case ClearDir => "resolution with no matching problem notification"
    case Neither => if f.vb == {} then "standalone notification (no varbinds); no resolution" else "no resolution found"
  }

  predicate Conflict(f: Facts) {
    f.nameDir != Neither && f.descDir != Neither && f.nameDir != f.descDir
  }

  /** What pairing collects for one notification. */
  datatype Acc =
    Acc(role: Class, partners: seq<string>, signals: SignalSet, vbEx: string, groupEx: string)

  const NOTHING := SignalSet(false, false, false, false)

  function Role(f: Facts): Class {
    if f.eff == RaiseDir then Raise else Clear
  }

  /** The partners of a notification in name order, the signals of its pairs, and the first example of each. */
  function Summary(facts: map<string, Facts>, n: string): Acc
    requires n in facts
  {
    var partners := SortedNames(Partners(facts, n));
    assert forall p :: p in partners ==> p in Elements(partners);
    var group := FirstText(SharedGroups(facts, n, partners));
    Acc(Role(facts[n]), partners, SignalsWith(facts, n, Partners(facts, n)),
        FirstText(SharedVarbinds(facts, n, partners)),
        if group == "" then "" else "NOTIFICATION-GROUP " + Short(group))
  }

  function Written(f: Facts, n: string, a: Acc): Relationship {
    if a.partners == [] then Relationship(n, Orphan, High, [], OrphanSummary(f), [])
    else
      Relationship(n, a.role, Band(a.signals, |a.partners|, Conflict(f)), Hits(a.signals, a.vbEx, f.phrase, a.groupEx),
                   (if a.role == Clear then "clears " else "problem; cleared by ") + Join(a.partners, ", "),
                   if a.role == Clear then a.partners else [])
  }

  function Verdict(facts: map<string, Facts>, n: string): Relationship
    requires n in facts
  {
    Written(facts[n], n, Summary(facts, n))
  }

  function VerdictOn(facts: map<string, Facts>): string --> Relationship {
    (n: string) requires n in facts => Verdict(facts, n)
  }

  /** One relationship per notification, in name order. */
  function Verdicts(facts: map<string, Facts>): seq<Relationship> {
    SortedAreKeys(facts);
    Each(VerdictOn(facts), SortedNames(facts.Keys))
  }

  ghost predicate InOrder(facts: map<string, Facts>, q: seq<string>) {
    Ascending(LexLe, q) && forall k :: 0 <= k < |q| ==> q[k] in facts
  }

  lemma {:induction false} SortedAreKeys(facts: map<string, Facts>)
    ensures InOrder(facts, SortedNames(facts.Keys))
    ensures forall n :: n in SortedNames(facts.Keys) <==> n in facts
  {
    var q := SortedNames(facts.Keys);
    assert forall n :: n in q <==> n in Elements(q);
  }

  function Each<R>(f: string --> R, names: seq<string>): (out: seq<R>)
    requires forall n :: n in names ==> f.requires(n)
    ensures |out| == |names|
  {
    if names == [] then [] else Each(f, names[..|names| - 1]) + [f(names[|names| - 1])]
  }

  lemma {:induction false} EachAt<R>(f: string --> R, names: seq<string>, i: nat)
    requires (forall n :: n in names ==> f.requires(n)) && i < |names|
    ensures Each(f, names)[i] == f(names[i])
  {
    if i < |names| - 1 {
      EachAt(f, names[..|names| - 1], i);
    }
  }

  lemma {:induction false} EachSnoc<R>(f: string --> R, q: seq<string>, i: nat, out: seq<R>, r: R)
    requires i < |q| && forall n :: n in q ==> f.requires(n)
    requires out == Each(f, q[..i]) && r == f(q[i])
    ensures out + [r] == Each(f, q[..i + 1])
  {
    assert q[..i + 1][..i] == q[..i] && q[..i + 1][i] == q[i];
  }

  // ---- The passes of Classify ----

  method FactsFor(s: Symbol, vbAll: map<string, set<string>>, grpAll: map<string, set<string>>,
      counts: map<string, nat>, v: Vocabulary, ghost refs: seq<Ref>, ghost names: set<string>) returns (f: Facts)
    requires At(vbAll, s.name) == VarbindsOf(refs, s.name) && At(grpAll, s.name) == GroupsOf(refs, s.name)
    requires forall g :: CountAt(counts, g) == GroupRows(refs, names, g)
    ensures f == FactsOf(s, refs, names, v)
  {
    var toks := Tokenize(s.name);
    var root, nameDir := SplitDirection(toks, v);
    var (descDir, phrase) := ProseDirection(s, v);
    var eff := nameDir;
    if eff == Neither {
      eff := descDir;
    }
    var small := set g | g in At(grpAll, s.name) && CountAt(counts, g) == 2;
    assert small == PairGroups(refs, names, s.name);
    var vb := At(vbAll, s.name);
    f := Facts(root, nameDir, descDir, phrase, vb, small, Legacy(s.status), eff, Signature(vb));
  }

  method BuildFacts(syms: seq<Symbol>, refs: seq<Ref>, v: Vocabulary) returns (info: map<string, Facts>)
    requires DistinctNames(syms)
    ensures info == ModuleFacts(syms, refs, v)
  {
    var names := Names(syms);
    var vbAll := VarbindSets(refs);
    var grpAll := GroupSets(refs);
    var counts := GroupCounts(refs, names);
    info := map[];
    for i := 0 to |syms|
      invariant forall k :: 0 <= k < i && IsNotification(syms[k]) ==>
                  syms[k].name in info && info[syms[k].name] == FactsOf(syms[k], refs, names, v)
      invariant forall n :: n in info ==> exists k :: 0 <= k < i && IsNotification(syms[k]) && syms[k].name == n
    {
      var s := syms[i];
      if IsNotification(s) {
        var f := FactsFor(s, vbAll, grpAll, counts, v, refs, names);
        info := info[s.name := f];
      }
    }
    IsModuleFacts(info, syms, refs, v);
  }

  lemma {:induction false} IsModuleFacts(info: map<string, Facts>, syms: seq<Symbol>, refs: seq<Ref>, v: Vocabulary)
    requires DistinctNames(syms)
    requires forall k :: 0 <= k < |syms| && IsNotification(syms[k]) ==>
               syms[k].name in info && info[syms[k].name] == FactsOf(syms[k], refs, Names(syms), v)
    requires forall n :: n in info ==> exists k :: 0 <= k < |syms| && IsNotification(syms[k]) && syms[k].name == n
    ensures info == ModuleFacts(syms, refs, v)
  {
    var t := ModuleFacts(syms, refs, v);
    forall n ensures n in info <==> n in t {
      if n in info {
        var k :| 0 <= k < |syms| && IsNotification(syms[k]) && syms[k].name == n;
        assert syms[k] in Notifications(syms);
      }
      if n in t {
        var k :| 0 <= k < |syms| && syms[k] == Named(syms, n);
      }
    }
    forall n | n in t ensures info[n] == t[n] {
      var k :| 0 <= k < |syms| && syms[k] == Named(syms, n);
    }
  }

  method CountSignatures(info: map<string, Facts>, q: seq<string>) returns (counts: map<string, nat>)
    requires Ascending(LexLe, q) && Elements(q) == info.Keys
    ensures forall s :: s != "" ==> CountAt(counts, s) == |Holders(info, s)|
  {
    counts := map[];
    for i := 0 to |q|
      invariant Counted(counts, info, q[..i])
    {
      assert q[i] in Elements(q);
      CountedSnoc(counts, info, q, i);
      var sig := info[q[i]].sig;
      if sig != "" {
        counts := counts[sig := CountAt(counts, sig) + 1];
      }
    }
    forall s ensures HoldersIn(info, q[..|q|], s) == Holders(info, s) {
      assert q[..|q|] == q;
      assert forall n :: n in q <==> n in Elements(q);
    }
  }

  ghost predicate Counted(counts: map<string, nat>, info: map<string, Facts>, names: seq<string>) {
    forall s :: s != "" ==> CountAt(counts, s) == |HoldersIn(info, names, s)|
  }

  lemma {:induction false} CountedSnoc(counts: map<string, nat>, info: map<string, Facts>, q: seq<string>, i: nat)
    requires Ascending(LexLe, q) && i < |q| && q[i] in info && Counted(counts, info, q[..i])
    ensures var sig := info[q[i]].sig;
            Counted(if sig != "" then counts[sig := CountAt(counts, sig) + 1] else counts, info, q[..i + 1])
  {
    var sig := info[q[i]].sig;
    var after := if sig != "" then counts[sig := CountAt(counts, sig) + 1] else counts;
    forall s | s != "" ensures CountAt(after, s) == |HoldersIn(info, q[..i + 1], s)| {
      HoldersSnoc(info, q, i, s);
      assert CountAt(counts, s) == |HoldersIn(info, q[..i], s)|;
    }
  }

  ghost function HoldersIn(facts: map<string, Facts>, names: seq<string>, sig: string): set<string> {
    set n | n in names && n in facts && facts[n].sig == sig
  }

  lemma {:induction false} HoldersSnoc(facts: map<string, Facts>, q: seq<string>, i: nat, sig: string)
    requires Ascending(LexLe, q) && i < |q| && q[i] in facts
    ensures |HoldersIn(facts, q[..i + 1], sig)| == |HoldersIn(facts, q[..i], sig)| + Bit(facts[q[i]].sig == sig)
  {
    assert q[..i + 1] == q[..i] + [q[i]];
    assert q[i] !in HoldersIn(facts, q[..i], sig);
    if facts[q[i]].sig == sig {
      assert HoldersIn(facts, q[..i + 1], sig) == HoldersIn(facts, q[..i], sig) + {q[i]};
    } else {
      assert HoldersIn(facts, q[..i + 1], sig) == HoldersIn(facts, q[..i], sig);
    }
  }

  function Get(rels: map<string, Acc>, n: string, role: Class): Acc {
    if n in rels then rels[n] else Acc(role, [], NOTHING, "", "")
  }

  /** One more partner, with the signals of this pair. */
  function Extend(a: Acc, p: string, sameRoot: bool, vbEx: string, opposing: bool, grpEx: string): Acc {
    Acc(a.role, a.partners + [p],
        SignalSet(a.signals.name || sameRoot, a.signals.varbind || vbEx != "", a.signals.desc || opposing,
                  a.signals.group || grpEx != ""),
        if vbEx != "" && a.vbEx == "" then Short(vbEx) else a.vbEx,
        if grpEx != "" && !a.signals.group then "NOTIFICATION-GROUP " + Short(grpEx) else a.groupEx)
  }

  function Met(facts: map<string, Facts>, n: string, a: Acc, p: string): Acc
    requires n in facts && p in facts
  {
    Extend(a, p, SameRoot(facts[n], facts[p]), FirstShared(facts[n].vb, facts[p].vb), Opposing(facts, n, p),
           FirstShared(facts[n].groups, facts[p].groups))
  }

  /** What a notification has collected after meeting `others` in order. */
  ghost function Collected(facts: map<string, Facts>, n: string, others: seq<string>): Acc
    requires n in facts && forall p :: p in others ==> p in facts
  {
    if others == [] then Acc(Role(facts[n]), [], NOTHING, "", "")
    else
      var a := Collected(facts, n, others[..|others| - 1]);
      var p := others[|others| - 1];
      if Linked(facts, n, p) then Met(facts, n, a, p) else a
  }

  /** How many of the sorted names notification `k` has met when the pair loop stands at (i, j). */
  ghost function Seen(i: nat, j: nat, k: nat, n: nat): (m: nat)
    requires i <= n && j <= n
    ensures m <= n
  {
    if k < i then n else if k == i then j else if k < j then i + 1 else i
  }

  ghost predicate CollectedSoFar(rels: map<string, Acc>, facts: map<string, Facts>, q: seq<string>, i: nat, j: nat)
    requires InOrder(facts, q) && i <= |q| && j <= |q|
  {
    forall k :: 0 <= k < |q| ==> HasCollected(rels, facts, q, k, Seen(i, j, k, |q|))
  }

  ghost predicate AllCollected(rels: map<string, Acc>, facts: map<string, Facts>, q: seq<string>)
    requires InOrder(facts, q)
  {
    forall k :: 0 <= k < |q| ==> HasCollected(rels, facts, q, k, |q|)
  }

  ghost predicate HasCollected(rels: map<string, Acc>, facts: map<string, Facts>, q: seq<string>, k: nat, m: nat)
    requires InOrder(facts, q) && k < |q| && m <= |q|
  {
    var a := Collected(facts, q[k], q[..m]);
    (q[k] in rels <==> a.partners != []) && (q[k] in rels ==> rels[q[k]] == a)
  }

  lemma {:induction false} CollectedSnoc(facts: map<string, Facts>, q: seq<string>, k: nat, m: nat)
    requires InOrder(facts, q) && k < |q| && m < |q|
    ensures var a := Collected(facts, q[k], q[..m]);
            Collected(facts, q[k], q[..m + 1]) == if Linked(facts, q[k], q[m]) then Met(facts, q[k], a, q[m]) else a
  {
    assert q[..m + 1][..m] == q[..m] && q[..m + 1][m] == q[m];
  }

  /** Visiting the pair (i, j) lets each of the two meet the other, and nobody else. */
  lemma {:induction false} PairVisited(rels: map<string, Acc>, after: map<string, Acc>, facts: map<string, Facts>,
      q: seq<string>, i: nat, j: nat)
    requires InOrder(facts, q) && i < j < |q| && CollectedSoFar(rels, facts, q, i, j)
    requires q[i] != q[j] && after == Visited(facts, q[i], q[j], rels)
    ensures CollectedSoFar(after, facts, q, i, j + 1)
  {
    var next := j + 1;
    forall k | 0 <= k < |q| ensures HasCollected(after, facts, q, k, Seen(i, next, k, |q|)) {
      assert HasCollected(rels, facts, q, k, Seen(i, j, k, |q|));
      CollectedRole(facts, q[k], q[..Seen(i, j, k, |q|)]);
      if k == i {
        CollectedSnoc(facts, q, i, j);
      } else if k == j {
        CollectedSnoc(facts, q, j, i);
      } else {
        assert q[k] != q[i] && q[k] != q[j];
      }
    }
  }

  lemma {:induction false} CollectedRole(facts: map<string, Facts>, n: string, others: seq<string>)
    requires n in facts && forall p :: p in others ==> p in facts
    ensures var a := Collected(facts, n, others);
            a.role == Role(facts[n]) && (a.partners == [] ==> a == Acc(Role(facts[n]), [], NOTHING, "", ""))
  {
    if others != [] {
      CollectedRole(facts, n, others[..|others| - 1]);
    }
  }

  lemma {:induction false} RowStarts(rels: map<string, Acc>, facts: map<string, Facts>, q: seq<string>, i: nat)
    requires InOrder(facts, q) && i < |q| && CollectedSoFar(rels, facts, q, i, i)
    ensures CollectedSoFar(rels, facts, q, i, i + 1)
  {
    var next := i + 1;
    forall k | 0 <= k < |q| ensures HasCollected(rels, facts, q, k, Seen(i, next, k, |q|)) {
      assert HasCollected(rels, facts, q, k, Seen(i, i, k, |q|));
      if k == i {
        CollectedSnoc(facts, q, i, i);
      }
    }
  }

  lemma {:induction false} RowEnds(rels: map<string, Acc>, facts: map<string, Facts>, q: seq<string>, i: nat)
    requires InOrder(facts, q) && i < |q| && CollectedSoFar(rels, facts, q, i, |q|)
    ensures CollectedSoFar(rels, facts, q, i + 1, i + 1)
  {
    var next := i + 1;
    forall k | 0 <= k < |q| ensures HasCollected(rels, facts, q, k, Seen(next, next, k, |q|)) {
      assert HasCollected(rels, facts, q, k, Seen(i, |q|, k, |q|));
    }
  }

  /** The nested loop over pairs of sorted names. */
  method PairUp(info: map<string, Facts>, counts: map<string, nat>, q: seq<string>) returns (rels: map<string, Acc>)
    requires InOrder(info, q)
    requires forall s :: s != "" ==> CountAt(counts, s) == |Holders(info, s)|
    ensures AllCollected(rels, info, q)
  {
    rels := map[];
    for i := 0 to |q|
      invariant CollectedSoFar(rels, info, q, i, i)
    {
      RowStarts(rels, info, q, i);
      for j := i + 1 to |q|
        invariant CollectedSoFar(rels, info, q, i, j)
      {
        ghost var before := rels;
        rels := VisitPair(info, counts, q[i], q[j], rels);
        PairVisited(before, rels, info, q, i, j);
      }
      RowEnds(rels, info, q, i);
    }
    forall k | 0 <= k < |q| ensures HasCollected(rels, info, q, k, |q|) {
      assert HasCollected(rels, info, q, k, Seen(|q|, |q|, k, |q|));
    }
  }

  /** Each of a linked pair meets the other. */
  ghost function Visited(facts: map<string, Facts>, x: string, y: string, rels: map<string, Acc>): map<string, Acc>
    requires x in facts && y in facts
  {
    if Linked(facts, x, y) then
      rels[x := Met(facts, x, Get(rels, x, Role(facts[x])), y)][y := Met(facts, y, Get(rels, y, Role(facts[y])), x)]
    else rels
  }

  lemma {:induction false} BothMeet(facts: map<string, Facts>, r: string, c: string, rels: map<string, Acc>)
    requires Edge(facts, r, c) && r != c
    ensures var a, b := facts[r], facts[c];
            var root, vb, grp := SameRoot(a, b), FirstShared(a.vb, b.vb), FirstShared(a.groups, b.groups);
            var opp := a.descDir == RaiseDir && b.descDir == ClearDir;
            var after := rels[r := Extend(Get(rels, r, Raise), c, root, vb, opp, grp)]
                             [c := Extend(Get(rels, c, Clear), r, root, vb, opp, grp)];
            after == Visited(facts, r, c, rels) && after == Visited(facts, c, r, rels)
  {
    var a, b := facts[r], facts[c];
    SharedSymmetric(a.vb, b.vb);
    SharedSymmetric(a.groups, b.groups);
    assert SameRoot(a, b) == SameRoot(b, a);
    var x, y := Met(facts, r, Get(rels, r, Raise), c), Met(facts, c, Get(rels, c, Clear), r);
    UpdatesCommute(rels, r, x, c, y);
  }

  lemma {:induction false} UpdatesCommute(rels: map<string, Acc>, r: string, x: Acc, c: string, y: Acc)
    requires r != c
    ensures rels[r := x][c := y] == rels[c := y][r := x]
  {}

  /** The body of the pair loop. */
  method VisitPair(info: map<string, Facts>, counts: map<string, nat>, x: string, y: string, rels: map<string, Acc>)
      returns (after: map<string, Acc>)
    requires x in info && y in info && x != y
    requires forall s :: s != "" ==> CountAt(counts, s) == |Holders(info, s)|
    ensures after == Visited(info, x, y, rels)
  {
    var a, b := info[x], info[y];
    var raise, clear;
    if a.eff == RaiseDir && b.eff == ClearDir {
      raise, clear := x, y;
    } else if a.eff == ClearDir && b.eff == RaiseDir {
      raise, clear := y, x;
    } else {
      return rels;
    }
    after := LinkPair(info, counts, raise, clear, rels);
  }

  /** The signals of one raise and one clear. */
  method LinkPair(info: map<string, Facts>, counts: map<string, nat>, raise: string, clear: string,
      rels: map<string, Acc>) returns (after: map<string, Acc>)
    requires raise in info && clear in info && info[raise].eff == RaiseDir && info[clear].eff == ClearDir
    requires forall s :: s != "" ==> CountAt(counts, s) == |Holders(info, s)|
    ensures after == Visited(info, raise, clear, rels) && after == Visited(info, clear, raise, rels)
  {
    var ra, ca := info[raise], info[clear];
    if ra.legacy != ca.legacy {
      return rels;
    }
    var sameRoot := ra.nameDir != Neither && ca.nameDir != Neither && ra.root != "" && ra.root == ca.root;
    var grpEx := FirstShared(ra.groups, ca.groups);
    var sameSig := ra.sig != "" && ra.sig == ca.sig && CountAt(counts, ra.sig) == 2;
    if !sameRoot && grpEx == "" && !sameSig {
      return rels;
    }
    var vbEx := FirstShared(ra.vb, ca.vb);
    var opposing := ra.descDir == RaiseDir && ca.descDir == ClearDir;
    BothMeet(info, raise, clear, rels);
    after := rels[raise := Extend(Get(rels, raise, Raise), clear, sameRoot, vbEx, opposing, grpEx)]
                 [clear := Extend(Get(rels, clear, Clear), raise, sameRoot, vbEx, opposing, grpEx)];
  }

  lemma {:induction false} SharedSymmetric(a: set<string>, b: set<string>)
    ensures FirstShared(a, b) == FirstShared(b, a)
  {
    assert a * b == b * a;
  }

  // ---- What a notification has collected is what its partners say ----

  lemma {:induction false} CollectedPartners(facts: map<string, Facts>, n: string, others: seq<string>)
    requires n in facts && Ascending(LexLe, others) && forall p :: p in others ==> p in facts
    ensures var ps := Collected(facts, n, others).partners;
            Ascending(LexLe, ps) && forall p :: p in ps <==> p in others && Linked(facts, n, p)
  {
    if others != [] {
      var rest, p := others[..|others| - 1], others[|others| - 1];
      CollectedPartners(facts, n, rest);
      assert others == rest + [p];
      var ps := Collected(facts, n, rest).partners;
      forall i | 0 <= i < |ps| ensures LexLe(ps[i], p) && ps[i] != p {
        assert ps[i] in rest;
      }
    }
  }

  lemma {:induction false} FirstTextSnoc(texts: seq<string>, t: string)
    ensures FirstText(texts + [t]) == if FirstText(texts) != "" then FirstText(texts) else t
  {
    if texts == [] {
      assert texts + [t] == [t];
    } else {
      FirstTextSnoc(texts[1..], t);
      assert (texts + [t])[1..] == texts[1..] + [t];
    }
  }

  /** The collected signals and examples are those of the collected partners. */
  ghost predicate Sums(facts: map<string, Facts>, n: string, a: Acc)
    requires n in facts
  {
    && (forall p :: p in a.partners ==> p in facts)
    && a.signals == SignalsWith(facts, n, Known(facts, a.partners))
    && a.vbEx == FirstText(SharedVarbinds(facts, n, a.partners))
    && GroupExample(a, FirstText(SharedGroups(facts, n, a.partners)))
  }

  ghost function Known(facts: map<string, Facts>, names: seq<string>): (s: set<string>)
    requires forall p :: p in names ==> p in facts
    ensures s == Elements(names) && s <= facts.Keys
  {
    Elements(names)
  }

  ghost predicate GroupExample(a: Acc, g: string) {
    (a.signals.group <==> g != "") && a.groupEx == if g == "" then "" else "NOTIFICATION-GROUP " + Short(g)
  }

  lemma {:induction false} SignalsSnoc(facts: map<string, Facts>, n: string, ps: set<string>, p: string)
    requires n in facts && ps <= facts.Keys && p in facts
    ensures var s := SignalsWith(facts, n, ps);
            SignalsWith(facts, n, ps + {p})
            == SignalSet(s.name || SameRoot(facts[n], facts[p]),
                         s.varbind || FirstShared(facts[n].vb, facts[p].vb) != "",
                         s.desc || Opposing(facts, n, p),
                         s.group || FirstShared(facts[n].groups, facts[p].groups) != "")
  {}

  lemma {:induction false} SharedSnoc(facts: map<string, Facts>, n: string, ps: seq<string>, p: string)
    requires n in facts && p in facts && forall x :: x in ps ==> x in facts
    ensures SharedVarbinds(facts, n, ps + [p])
         == SharedVarbinds(facts, n, ps) + [Short(FirstShared(facts[n].vb, facts[p].vb))]
    ensures SharedGroups(facts, n, ps + [p])
         == SharedGroups(facts, n, ps) + [FirstShared(facts[n].groups, facts[p].groups)]
  {}

  /** A new partner changes an example only when there is none yet. */
  lemma {:induction false} ExamplesSnoc(vbs: seq<string>, vb: string, grps: seq<string>, grp: string)
    ensures FirstText(vbs + [Short(vb)]) == if vb != "" && FirstText(vbs) == "" then Short(vb) else FirstText(vbs)
    ensures FirstText(grps + [grp]) == if FirstText(grps) != "" then FirstText(grps) else grp
  {
    FirstTextSnoc(vbs, Short(vb));
    FirstTextSnoc(grps, grp);
    assert Short("") == "";
  }

  lemma {:induction false} MetSums(facts: map<string, Facts>, n: string, a: Acc, p: string)
    requires n in facts && p in facts && Sums(facts, n, a)
    ensures Sums(facts, n, Met(facts, n, a, p))
  {
    var ps := a.partners;
    assert Known(facts, ps + [p]) == Known(facts, ps) + {p};
    SignalsSnoc(facts, n, Known(facts, ps), p);
    SharedSnoc(facts, n, ps, p);
    ExamplesSnoc(SharedVarbinds(facts, n, ps), FirstShared(facts[n].vb, facts[p].vb),
                 SharedGroups(facts, n, ps), FirstShared(facts[n].groups, facts[p].groups));
  }

  lemma {:induction false} CollectedSums(facts: map<string, Facts>, n: string, others: seq<string>)
    requires n in facts && forall p :: p in others ==> p in facts
    ensures Sums(facts, n, Collected(facts, n, others))
  {
    if others != [] {
      CollectedSums(facts, n, others[..|others| - 1]);
      MetSums(facts, n, Collected(facts, n, others[..|others| - 1]), others[|others| - 1]);
    } else {
      assert SignalsWith(facts, n, Known(facts, [])) == NOTHING;
    }
  }

  /** After the pair loop a notification has collected exactly its partners, in name order, and their signals. */
  lemma {:induction false} CollectedAll(facts: map<string, Facts>, n: string, q: seq<string>)
    requires n in facts && InOrder(facts, q) && Elements(q) == facts.Keys
    ensures Collected(facts, n, q) == Summary(facts, n)
  {
    var ps := Collected(facts, n, q).partners;
    CollectedRole(facts, n, q);
    CollectedPartners(facts, n, q);
    CollectedSums(facts, n, q);
    forall p ensures p in Elements(ps) <==> p in Partners(facts, n) {
      assert p in q <==> p in Elements(q);
    }
    SortedUnique(ps, Partners(facts, n));
  }

  lemma {:induction false} SortedUnique(q: seq<string>, s: set<string>)
    requires Ascending(LexLe, q) && Elements(q) == s
    ensures q == SortedNames(s)
  {
    LexLeTotal();
    AscendingUnique(LexLe, q, SortedNames(s));
  }

  /** The relationship written for one notification. */
  method Emit(info: map<string, Facts>, q: seq<string>, i: nat, rels: map<string, Acc>) returns (rel: Relationship)
    requires InOrder(info, q) && Elements(q) == info.Keys && AllCollected(rels, info, q) && i < |q|
    ensures rel == VerdictOn(info)(q[i])
  {
    var n := q[i];
    assert HasCollected(rels, info, q, i, |q|) && q[..|q|] == q;
    CollectedAll(info, n, q);
    SortedUnique(Summary(info, n).partners, Elements(Summary(info, n).partners));
    var ni := info[n];
    if n !in rels {
      return Relationship(n, Orphan, High, [], OrphanSummary(ni), []);
    }
    var a := rels[n];
    var partners := SortedNames(Elements(a.partners));
    var conf := ScoreConfidence(a.signals, |partners|, Conflict(ni));
    var summary := "problem; cleared by " + Join(partners, ", ");
    if a.role == Clear {
      summary := "clears " + Join(partners, ", ");
    }
    rel := Relationship(n, a.role, conf, Hits(a.signals, a.vbEx, ni.phrase, a.groupEx), summary, []);
    if a.role == Clear {
      rel := rel.(clears := partners);
    }
  }

  method EmitAll(info: map<string, Facts>, rels: map<string, Acc>, q: seq<string>) returns (out: seq<Relationship>)
    requires InOrder(info, q) && Elements(q) == info.Keys && AllCollected(rels, info, q)
    ensures out == Each(VerdictOn(info), q)
  {
    out := [];
    for i := 0 to |q|
      invariant out == Each(VerdictOn(info), q[..i])
    {
      var rel := Emit(info, q, i, rels);
      EachSnoc(VerdictOn(info), q, i, out, rel);
      out := out + [rel];
    }
    assert q[..|q|] == q;
  }

  /**
   * One relationship per notification of the module, in name order, each the verdict its facts determine.
   * The sort of the partner lists changes nothing, since pairs are visited in name order.
   */
  method Classify(syms: seq<Symbol>, refs: seq<Ref>, v: Vocabulary) returns (out: seq<Relationship>)
    requires DistinctNames(syms)
    ensures out == Verdicts(ModuleFacts(syms, refs, v))
  {
    var info := BuildFacts(syms, refs, v);
    var q := SortedNames(info.Keys);
    SortedAreKeys(info);
    var counts := CountSignatures(info, q);
    var rels := PairUp(info, counts, q);
    out := EmitAll(info, rels, q);
  }
}
