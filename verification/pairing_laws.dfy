/** What the relationships of a module promise, whatever its symbols and references. */
module PairingLaws {
  import opened Ordering
  import opened Signals
  import opened Correlate

  // ---- One relationship per notification ----

  /** Exactly one relationship per notification, in name order. */
  lemma {:induction false} OnePerNotification(facts: map<string, Facts>, i: nat)
    ensures |Verdicts(facts)| == |SortedNames(facts.Keys)| == |facts.Keys|
    ensures i < |Verdicts(facts)| ==>
              var n := SortedNames(facts.Keys)[i];
              n in facts && Verdicts(facts)[i].notification == n && Verdicts(facts)[i] == Verdict(facts, n)
  {
    SortedAreKeys(facts);
    if i < |Verdicts(facts)| {
      EachAt(VerdictOn(facts), SortedNames(facts.Keys), i);
    }
  }

  // ---- Edges ----

  /**
   * A clear lists exactly the problems it has an edge from, in name order; a raise is one with an edge to
   * some clear; orphans are exactly the notifications without an edge.
   */
  lemma {:induction false} RolesAreEdges(facts: map<string, Facts>, n: string)
    requires n in facts
    ensures var rel := Verdict(facts, n);
            && (rel.role == Orphan <==> forall p :: !Linked(facts, n, p))
            && (rel.role == Raise <==> exists p :: Edge(facts, n, p))
            && (rel.role == Clear <==> exists p :: Edge(facts, p, n))
            && Ascending(LexLe, rel.clears)
            && forall p :: p in rel.clears <==> Edge(facts, p, n)
  {
    var ps := Partners(facts, n);
    var q := SortedNames(ps);
    assert forall p :: p in q <==> p in Elements(q);
    assert forall p :: p in ps <==> Linked(facts, n, p);
    if q == [] {
      assert ps == {};
    } else {
      assert q[0] in ps;
    }
    if facts[n].eff == RaiseDir {
      assert forall p :: !Edge(facts, p, n);
    } else {
      assert forall p :: !Edge(facts, n, p);
    }
  }

  /** Both ends of an edge agree on it: the clear names the raise, and neither takes the other role. */
  lemma {:induction false} EdgesAreSymmetric(facts: map<string, Facts>, r: string, c: string)
    requires c in facts && r in Verdict(facts, c).clears
    ensures r in facts && Verdict(facts, c).role == Clear && Verdict(facts, r).role == Raise
    ensures r != c && facts[r].legacy == facts[c].legacy && Verdict(facts, r).clears == []
  {
    RolesAreEdges(facts, c);
    assert Edge(facts, r, c);
    RolesAreEdges(facts, r);
  }

  // ---- Why an edge is there ----

  function Members(refs: seq<Ref>, names: set<string>, g: string): set<string> {
    set n | n in names && g in GroupsOf(refs, n)
  }

  lemma {:induction false} MembersSnoc(rest: seq<Ref>, r: Ref, names: set<string>, g: string)
    ensures Members(rest + [r], names, g)
         == Members(rest, names, g) + (if CountsFor(r, names, g) then {r.targetName} else {})
  {
    forall n ensures n in Members(rest + [r], names, g)
                 <==> n in Members(rest, names, g) || (CountsFor(r, names, g) && n == r.targetName) {
      SetsSnoc(rest, r, n);
    }
  }

  /** A group has at least as many rows as notification members. */
  lemma {:induction false} RowsCoverMembers(refs: seq<Ref>, names: set<string>, g: string)
    ensures |Members(refs, names, g)| <= GroupRows(refs, names, g)
  {
    if refs == [] {
      assert Members(refs, names, g) == {};
    } else {
      var rest, r := refs[..|refs| - 1], refs[|refs| - 1];
      RowsCoverMembers(rest, names, g);
      assert refs == rest + [r];
      MembersSnoc(rest, r, names, g);
    }
  }

  lemma {:induction false} OnlyTwo<T>(s: set<T>, a: T, b: T)
    requires a in s && b in s && a != b && |s| <= 2
    ensures s == {a, b}
  {
    if s != {a, b} {
      var c :| c in s && c != a && c != b;
      SubsetSize({a, b, c}, s);
    }
  }

  lemma {:induction false} OnlyOne<T>(s: set<T>, a: T)
    requires a in s && |s| == 1
    ensures s == {a}
  {
    SubsetIsWhole({a}, s);
  }

  lemma {:induction false} SubsetIsWhole<T>(a: set<T>, b: set<T>)
    requires a <= b && |a| == |b|
    ensures a == b
  {
    if x :| x in b && x !in a {
      SubsetSize(a + {x}, b);
    }
  }

  ghost predicate BarFree(refs: seq<Ref>) {
    forall r :: r in refs && r.kind == NotificationObject ==> NoBar(Key(r.targetModule, r.targetName))
  }

  /**
   * Every edge has a reason: the names share a root with opposing tokens, or the two are all the notifications
   * of some group, or they alone bind one and the same set of objects.
   */
  lemma {:induction false} EdgesAreJustified(syms: seq<Symbol>, refs: seq<Ref>, v: Vocabulary, r: string, c: string)
    requires BarFree(refs)
    ensures var t := ModuleFacts(syms, refs, v);
            Edge(t, r, c) ==>
              || SameRoot(t[r], t[c])
              || (exists g :: Members(refs, Names(syms), g) == {r, c})
              || (VarbindsOf(refs, r) != {} && (forall n :: n in Names(syms) ==>
                   (VarbindsOf(refs, n) == VarbindsOf(refs, r) <==> n == r || n == c)))
  {
    var t := ModuleFacts(syms, refs, v);
    if Edge(t, r, c) && !SameRoot(t[r], t[c]) {
      var g := FirstShared(t[r].groups, t[c].groups);
      if g != "" {
        SharedGroupIsThePair(refs, Names(syms), g, r, c);
      } else {
        SharedSignatureIsThePair(t, refs, r, c);
      }
    }
  }

  lemma {:induction false} SharedGroupIsThePair(refs: seq<Ref>, names: set<string>, g: string, a: string, b: string)
    requires a in names && b in names && a != b
    requires g in PairGroups(refs, names, a) && g in PairGroups(refs, names, b)
    ensures Members(refs, names, g) == {a, b}
  {
    RowsCoverMembers(refs, names, g);
    OnlyTwo(Members(refs, names, g), a, b);
  }

  lemma {:induction false} SharedSignatureIsThePair(t: map<string, Facts>, refs: seq<Ref>, a: string, b: string)
    requires BarFree(refs) && a in t && b in t && a != b && SameSignature(t, t[a], t[b])
    requires forall n :: n in t ==> t[n].sig == Signature(VarbindsOf(refs, n))
    ensures VarbindsOf(refs, a) != {}
    ensures forall n :: n in t ==> (VarbindsOf(refs, n) == VarbindsOf(refs, a) <==> n == a || n == b)
  {
    HoldersAre(t, a, b);
    EmptySignature();
    forall n | n in t ensures VarbindsOf(refs, n) == VarbindsOf(refs, a) <==> n == a || n == b {
      SignaturesTell(refs, n, a);
    }
  }

  lemma {:induction false} HoldersAre(t: map<string, Facts>, a: string, b: string)
    requires a in t && b in t && a != b && SameSignature(t, t[a], t[b])
    ensures forall n :: n in t ==> (t[n].sig == t[a].sig <==> n == a || n == b)
  {
    OnlyTwo(Holders(t, t[a].sig), a, b);
    assert forall n :: n in Holders(t, t[a].sig) <==> n in t && t[n].sig == t[a].sig;
  }

  lemma {:induction false} SignaturesTell(refs: seq<Ref>, m: string, n: string)
    requires BarFree(refs)
    ensures Signature(VarbindsOf(refs, m)) == Signature(VarbindsOf(refs, n))
       <==> VarbindsOf(refs, m) == VarbindsOf(refs, n)
  {
    if Signature(VarbindsOf(refs, m)) == Signature(VarbindsOf(refs, n)) {
      SignatureIdentifies(VarbindsOf(refs, m), VarbindsOf(refs, n));
    }
  }

  lemma {:induction false} EmptySignature()
    ensures Signature({}) == ""
  {
    assert |SortedNames({})| == 0;
  }

  // ---- Confidence ----

  /** High on a paired notification: one partner, no conflict, strong signals, a grouping one among them. */
  lemma {:induction false} HighMeans(facts: map<string, Facts>, n: string)
    requires n in facts
    ensures Verdict(facts, n).role != Orphan && Verdict(facts, n).confidence == High ==>
              var s := SignalsWith(facts, n, Partners(facts, n));
              && |Partners(facts, n)| == 1 && !Conflict(facts[n])
              && ((s.name && s.varbind) || Count(s) >= 3) && (s.name || s.group)
    ensures Verdict(facts, n).role == Clear && Verdict(facts, n).confidence == High ==>
              |Verdict(facts, n).clears| == 1
  {}

  // ---- Order of the rows ----

  lemma {:induction false} RowsSplit(a: seq<Ref>, b: seq<Ref>, names: set<string>, g: string)
    ensures GroupRows(a + b, names, g) == GroupRows(a, names, g) + GroupRows(b, names, g)
  {
    if b == [] {
      assert a + b == a;
    } else {
      var rest, r := b[..|b| - 1], b[|b| - 1];
      RowsSplit(a, rest, names, g);
      assert (a + b)[..|a + b| - 1] == a + rest && (a + b)[|a + b| - 1] == r;
    }
  }

  lemma {:induction false} DropOne<T>(rest: seq<T>, left: seq<T>, right: seq<T>, r: T)
    requires multiset(rest + [r]) == multiset(left + ([r] + right))
    ensures multiset(rest) == multiset(left + right)
  {
    assert multiset(rest + [r]) == multiset(rest) + multiset{r};
    assert multiset(left + ([r] + right)) == multiset(left) + multiset([r] + right);
    assert multiset([r] + right) == multiset{r} + multiset(right);
    assert multiset(left + right) == multiset(left) + multiset(right);
    assert multiset(rest) == multiset(rest) + multiset{r} - multiset{r};
    assert multiset(left + right) == multiset(left) + (multiset{r} + multiset(right)) - multiset{r};
  }

  lemma {:induction false} RowsIgnoreOrder(a: seq<Ref>, b: seq<Ref>, names: set<string>, g: string)
    requires multiset(a) == multiset(b)
    ensures GroupRows(a, names, g) == GroupRows(b, names, g)
  {
    if a == [] {
      assert |multiset(b)| == 0;
    } else {
      var rest, r := a[..|a| - 1], a[|a| - 1];
      assert a == rest + [r];
      assert r in multiset(b);
      var k :| 0 <= k < |b| && b[k] == r;
      var left, right := b[..k], b[k + 1..];
      assert b == left + ([r] + right);
      DropOne(rest, left, right, r);
      RowsIgnoreOrder(rest, left + right, names, g);
      RowsSplit(left, right, names, g);
      RowsSplit(left, [r] + right, names, g);
      RowsSplit([r], right, names, g);
      RowsSplit(rest, [r], names, g);
    }
  }

  /**
   * The facts, and so every relationship with its evidence, do not depend on the order of the symbols or of
   * the reference rows.
   */
  lemma {:induction false} OrderIsIrrelevant(syms: seq<Symbol>, syms': seq<Symbol>, refs: seq<Ref>, refs': seq<Ref>,
      v: Vocabulary)
    requires DistinctNames(syms) && multiset(syms) == multiset(syms') && multiset(refs) == multiset(refs')
    ensures DistinctNames(syms')
    ensures Verdicts(ModuleFacts(syms, refs, v)) == Verdicts(ModuleFacts(syms', refs', v))
  {
    SameElements(syms, syms');
    SameElements(refs, refs');
    DistinctIsOrderFree(syms, syms');
    assert Notifications(syms) == Notifications(syms');
    var names := Names(syms);
    assert names == Names(syms');
    forall g ensures GroupRows(refs, names, g) == GroupRows(refs', names, g) {
      RowsIgnoreOrder(refs, refs', names, g);
    }
    SameFacts(syms, syms', refs, refs', v);
  }

  lemma {:induction false} SameElements<T>(a: seq<T>, b: seq<T>)
    requires multiset(a) == multiset(b)
    ensures forall x :: x in a <==> x in b
  {
    forall x ensures x in a <==> x in b {
      assert x in multiset(a) <==> x in multiset(b);
    }
  }

  lemma {:induction false} CountsOne(syms: seq<Symbol>, i: nat, j: nat)
    requires i < j < |syms| && syms[i] == syms[j]
    ensures multiset(syms)[syms[i]] >= 2
  {
    assert syms == syms[..j] + ([syms[j]] + syms[j + 1..]);
    assert syms[i] in syms[..j];
    assert multiset(syms) == multiset(syms[..j]) + (multiset{syms[j]} + multiset(syms[j + 1..]));
  }

  lemma {:induction false} AtMostOnce(syms: seq<Symbol>, s: Symbol)
    requires DistinctNames(syms) && IsNotification(s)
    ensures multiset(syms)[s] <= 1
  {
    if syms != [] {
      var rest, last := syms[..|syms| - 1], syms[|syms| - 1];
      assert syms == rest + [last];
      AtMostOnce(rest, s);
      assert forall i :: 0 <= i < |rest| ==> rest[i] == syms[i];
      assert s == last ==> s !in rest;
    }
  }

  lemma {:induction false} DistinctIsOrderFree(a: seq<Symbol>, b: seq<Symbol>)
    requires DistinctNames(a) && multiset(a) == multiset(b)
    ensures DistinctNames(b)
  {
    SameElements(a, b);
    forall i, j | 0 <= i < j < |b| && IsNotification(b[i]) && IsNotification(b[j]) ensures b[i].name != b[j].name {
      if b[i] == b[j] {
        CountsOne(b, i, j);
        AtMostOnce(a, b[i]);
      } else {
        assert b[i] in a && b[j] in a;
      }
    }
  }

  /** Same notifications and rows, and the same groups of two: the same facts. */
  lemma {:induction false} SameFacts(syms: seq<Symbol>, syms': seq<Symbol>, refs: seq<Ref>, refs': seq<Ref>, v: Vocabulary)
    requires DistinctNames(syms) && DistinctNames(syms') && Notifications(syms) == Notifications(syms')
    requires forall r :: r in refs <==> r in refs'
    requires forall g :: GroupRows(refs, Names(syms), g) == 2 <==> GroupRows(refs', Names(syms), g) == 2
    ensures ModuleFacts(syms, refs, v) == ModuleFacts(syms', refs', v)
  {
    var t, t' := ModuleFacts(syms, refs, v), ModuleFacts(syms', refs', v);
    var names := Names(syms);
    assert Names(syms') == names && t.Keys == names == t'.Keys;
    forall n | n in names ensures t[n] == t'[n] {
      var s := Named(syms, n);
      NamedIsUnique(syms, s, Named(syms', n));
      SameFactsOf(s, refs, refs', names, v);
      assert t[n] == FactsOf(s, refs, names, v) && t'[n] == FactsOf(s, refs', names, v);
    }
  }

  lemma {:induction false} SameFactsOf(s: Symbol, refs: seq<Ref>, refs': seq<Ref>, names: set<string>, v: Vocabulary)
    requires forall r :: r in refs <==> r in refs'
    requires forall g :: GroupRows(refs, names, g) == 2 <==> GroupRows(refs', names, g) == 2
    ensures FactsOf(s, refs, names, v) == FactsOf(s, refs', names, v)
  {
    assert VarbindsOf(refs, s.name) == VarbindsOf(refs', s.name);
    assert GroupsOf(refs, s.name) == GroupsOf(refs', s.name);
    assert PairGroups(refs, names, s.name) == PairGroups(refs', names, s.name);
  }

  lemma {:induction false} NamedIsUnique(syms: seq<Symbol>, a: Symbol, b: Symbol)
    requires DistinctNames(syms) && a in Notifications(syms) && b in Notifications(syms) && a.name == b.name
    ensures a == b
  {
    var i :| 0 <= i < |syms| && syms[i] == a;
    var j :| 0 <= j < |syms| && syms[j] == b;
  }

  lemma {:induction false} RoleOf(t: map<string, Facts>, n: string)
    requires n in t
    ensures Verdict(t, n).role == if Partners(t, n) == {} then Orphan else Role(t[n])
  {
    assert SortedNames(Partners(t, n)) == [] <==> |Partners(t, n)| == 0;
  }

  lemma {:induction false} TwoSymbols(a: Symbol, c: Symbol)
    requires IsNotification(a) && IsNotification(c) && a.name != c.name
    ensures var syms := [a, c];
            DistinctNames(syms) && Names(syms) == {a.name, c.name}
            && Named(syms, a.name) == a && Named(syms, c.name) == c
  {
    var syms := [a, c];
    assert syms[0] == a && syms[1] == c;
    assert Notifications(syms) == {a, c};
    NamedIsUnique(syms, Named(syms, a.name), a);
    NamedIsUnique(syms, Named(syms, c.name), c);
  }
}
