/** The boot backfill over the stored rows (internal/store/store.go) against the pairing at ingest. */
module BackfillLaws {
  import opened Model
  import opened Ordering
  import opened Signals
  import opened Correlate
  import opened PairingLaws

  // ---- Stored rows against ingested rows ----

  ghost predicate NoRepeats<T(!new)>(q: seq<T>) {
    forall i, j :: 0 <= i < j < |q| ==> q[i] != q[j]
  }

  /** The reference table holds each row once, in whatever order. */
  ghost predicate Stores(stored: seq<Ref>, refs: seq<Ref>) {
    NoRepeats(stored) && forall r :: r in stored <==> r in refs
  }

  lemma {:induction false} OnceEach<T(!new)>(q: seq<T>, x: T)
    requires NoRepeats(q)
    ensures multiset(q)[x] == if x in q then 1 else 0
  {
    if q != [] {
      var rest, last := q[..|q| - 1], q[|q| - 1];
      assert q == rest + [last];
      OnceEach(rest, x);
    }
  }

  /**
   * The boot backfill over the stored rows gives the relationships of the ingest, evidence included, when no
   * reference was repeated.
   */
  lemma {:induction false} BackfillAgrees(syms: seq<Symbol>, refs: seq<Ref>, stored: seq<Ref>, v: Vocabulary)
    requires DistinctNames(syms) && Stores(stored, refs) && NoRepeats(refs)
    ensures Verdicts(ModuleFacts(syms, stored, v)) == Verdicts(ModuleFacts(syms, refs, v))
  {
    forall r ensures multiset(stored)[r] == multiset(refs)[r] {
      OnceEach(stored, r);
      OnceEach(refs, r);
    }
    OrderIsIrrelevant(syms, syms, refs, stored, v);
  }

  lemma {:induction false} NoMembersNoRows(refs: seq<Ref>, names: set<string>, g: string)
    requires Members(refs, names, g) == {}
    ensures GroupRows(refs, names, g) == 0
  {
    if refs != [] {
      var rest, r := refs[..|refs| - 1], refs[|refs| - 1];
      assert refs == rest + [r];
      MembersSnoc(rest, r, names, g);
      NoMembersNoRows(rest, names, g);
    }
  }

  lemma {:induction false} GroupsOfFacts(syms: seq<Symbol>, refs: seq<Ref>, v: Vocabulary, n: string)
    requires n in Names(syms)
    ensures ModuleFacts(syms, refs, v)[n].groups == PairGroups(refs, Names(syms), n)
  {}

  lemma {:induction false} PairGroupsTell(refs: seq<Ref>, stored: seq<Ref>, names: set<string>, g: string)
    requires forall r :: r in refs <==> r in stored
    requires forall n :: n in names ==> PairGroups(refs, names, n) == PairGroups(stored, names, n)
    ensures GroupRows(refs, names, g) == 2 <==> GroupRows(stored, names, g) == 2
  {
    assert forall n :: GroupsOf(refs, n) == GroupsOf(stored, n);
    assert Members(refs, names, g) == Members(stored, names, g);
    if Members(refs, names, g) == {} {
      NoMembersNoRows(refs, names, g);
      NoMembersNoRows(stored, names, g);
    } else {
      var n :| n in Members(refs, names, g);
      assert g in PairGroups(refs, names, n) <==> g in PairGroups(stored, names, n);
    }
  }

  /** The groups with two rows are the same in both lists. */
  ghost predicate SamePairs(refs: seq<Ref>, stored: seq<Ref>, names: set<string>) {
    forall g :: GroupRows(refs, names, g) == 2 <==> GroupRows(stored, names, g) == 2
  }

  /** With repeats, exactly the groups with two rows must be those with two distinct rows. */
  lemma {:induction false} BackfillFactsIff(syms: seq<Symbol>, refs: seq<Ref>, stored: seq<Ref>, v: Vocabulary)
    requires DistinctNames(syms) && Stores(stored, refs)
    ensures ModuleFacts(syms, refs, v) == ModuleFacts(syms, stored, v) <==> SamePairs(refs, stored, Names(syms))
  {
    BackfillFactsIf(syms, refs, stored, v);
    BackfillFactsOnlyIf(syms, refs, stored, v);
  }

  lemma {:induction false} BackfillFactsIf(syms: seq<Symbol>, refs: seq<Ref>, stored: seq<Ref>, v: Vocabulary)
    requires DistinctNames(syms) && Stores(stored, refs)
    ensures SamePairs(refs, stored, Names(syms)) ==> ModuleFacts(syms, refs, v) == ModuleFacts(syms, stored, v)
  {
    if SamePairs(refs, stored, Names(syms)) {
      SameFacts(syms, syms, refs, stored, v);
    }
  }

  lemma {:induction false} BackfillFactsOnlyIf(syms: seq<Symbol>, refs: seq<Ref>, stored: seq<Ref>, v: Vocabulary)
    requires Stores(stored, refs)
    ensures ModuleFacts(syms, refs, v) == ModuleFacts(syms, stored, v) ==> SamePairs(refs, stored, Names(syms))
  {
    if ModuleFacts(syms, refs, v) == ModuleFacts(syms, stored, v) {
      forall n | n in Names(syms) ensures PairGroups(refs, Names(syms), n) == PairGroups(stored, Names(syms), n) {
        GroupsOfFacts(syms, refs, v, n);
        GroupsOfFacts(syms, stored, v, n);
      }
      forall g ensures GroupRows(refs, Names(syms), g) == 2 <==> GroupRows(stored, Names(syms), g) == 2 {
        PairGroupsTell(refs, stored, Names(syms), g);
      }
    }
  }

  // ---- The exact condition ----

  predicate SameText(x: string, y: string) {
    (x == "" <==> y == "") && Short(x) == Short(y)
  }

  function NameDirection(n: string, v: Vocabulary): Direction {
    SplitAt(Tokens(n), LastDirectional(Tokens(n), v), v).1
  }

  /** By their names alone `a` can be a problem and `c` its resolution. */
  predicate CanOppose(a: string, c: string, v: Vocabulary) {
    a != c && NameDirection(a, v) != ClearDir && NameDirection(c, v) != RaiseDir
  }

  /**
   * For every two notifications that can oppose each other both row lists show the same first group of just these two,
   * or neither shows any.
   */
  ghost predicate SharedAlike(refs: seq<Ref>, stored: seq<Ref>, names: set<string>, v: Vocabulary) {
    forall a, c :: a in names && c in names && CanOppose(a, c, v) ==> SharedAlikeBy(refs, stored, names, a, c)
  }

  ghost predicate SharedAlikeBy(refs: seq<Ref>, stored: seq<Ref>, names: set<string>, a: string, c: string) {
    SameText(FirstShared(PairGroups(refs, names, a), PairGroups(refs, names, c)),
             FirstShared(PairGroups(stored, names, a), PairGroups(stored, names, c)))
  }

  ghost predicate SameRelationships(syms: seq<Symbol>, refs: seq<Ref>, stored: seq<Ref>, v: Vocabulary) {
    Verdicts(ModuleFacts(syms, refs, v)) == Verdicts(ModuleFacts(syms, stored, v))
  }

  predicate UpToGroups(f: Facts, h: Facts) {
    f == h.(groups := f.groups)
  }

  /** Facts that differ at most in the groups, and there only in what no verdict looks at. */
  ghost predicate AlikeFacts(t: map<string, Facts>, u: map<string, Facts>) {
    && t.Keys == u.Keys
    && (forall n :: n in t ==> UpToGroups(t[n], u[n]))
    && (forall a, c :: a in t && c in t && Oppose(t[a], t[c]) ==> AlikeGroups(t[a], t[c], u[a], u[c]))
  }

  predicate Oppose(f: Facts, h: Facts) {
    f.eff == RaiseDir && h.eff == ClearDir
  }

  predicate AlikeGroups(f: Facts, h: Facts, f': Facts, h': Facts) {
    SameText(FirstShared(f.groups, h.groups), FirstShared(f'.groups, h'.groups))
  }

  /** The ways in which two notifications can be linked, apart from groups. */
  lemma {:induction false} UpToGroupsLinks(f: Facts, h: Facts, f': Facts, h': Facts)
    requires UpToGroups(f, f') && UpToGroups(h, h')
    ensures SameRoot(f, h) <==> SameRoot(f', h')
    ensures FirstShared(f.vb, h.vb) == FirstShared(f'.vb, h'.vb)
    ensures f.eff == f'.eff && h.eff == h'.eff && f.legacy == f'.legacy && h.legacy == h'.legacy
    ensures f.descDir == f'.descDir && h.descDir == h'.descDir && f.sig == f'.sig && h.sig == h'.sig
  {}

  lemma {:induction false} AlikeHolders(t: map<string, Facts>, u: map<string, Facts>, sig: string)
    requires t.Keys == u.Keys && forall n :: n in t ==> t[n].sig == u[n].sig
    ensures Holders(t, sig) == Holders(u, sig)
  {}

  lemma {:induction false} AlikeEdges(t: map<string, Facts>, u: map<string, Facts>, r: string, c: string)
    requires AlikeFacts(t, u)
    ensures Edge(t, r, c) <==> Edge(u, r, c)
  {
    if r in t && c in t {
      UpToGroupsLinks(t[r], t[c], u[r], u[c]);
      AlikeHolders(t, u, t[r].sig);
      assert Oppose(t[r], t[c]) ==> AlikeGroups(t[r], t[c], u[r], u[c]);
    }
  }

  lemma {:induction false} AlikePartners(t: map<string, Facts>, u: map<string, Facts>, n: string)
    requires AlikeFacts(t, u)
    ensures Partners(t, n) == Partners(u, n)
    ensures forall p :: p in Partners(t, n) ==> n in t && (Oppose(t[n], t[p]) || Oppose(t[p], t[n]))
  {
    forall p ensures Linked(t, n, p) <==> Linked(u, n, p) {
      AlikeEdges(t, u, n, p);
      AlikeEdges(t, u, p, n);
    }
    assert !Edge(t, n, n);
  }

  lemma {:induction false} AlikePair(t: map<string, Facts>, u: map<string, Facts>, n: string, p: string)
    requires AlikeFacts(t, u) && n in t && p in t && (Oppose(t[n], t[p]) || Oppose(t[p], t[n]))
    ensures SameRoot(t[n], t[p]) <==> SameRoot(u[n], u[p])
    ensures FirstShared(t[n].vb, t[p].vb) == FirstShared(u[n].vb, u[p].vb)
    ensures Opposing(t, n, p) <==> Opposing(u, n, p)
    ensures SameText(FirstShared(t[n].groups, t[p].groups), FirstShared(u[n].groups, u[p].groups))
  {
    UpToGroupsLinks(t[n], t[p], u[n], u[p]);
    if Oppose(t[n], t[p]) {
      assert AlikeGroups(t[n], t[p], u[n], u[p]);
    } else {
      assert AlikeGroups(t[p], t[n], u[p], u[n]);
      SharedSymmetric(t[p].groups, t[n].groups);
      SharedSymmetric(u[p].groups, u[n].groups);
    }
  }

  lemma {:induction false} AlikeSignals(t: map<string, Facts>, u: map<string, Facts>, n: string, ps: set<string>)
    requires AlikeFacts(t, u) && n in t && ps <= t.Keys
    requires forall p :: p in ps ==> Oppose(t[n], t[p]) || Oppose(t[p], t[n])
    ensures SignalsWith(t, n, ps) == SignalsWith(u, n, ps)
  {
    forall p | p in ps
      ensures SameRoot(t[n], t[p]) <==> SameRoot(u[n], u[p])
      ensures FirstShared(t[n].vb, t[p].vb) == FirstShared(u[n].vb, u[p].vb)
      ensures Opposing(t, n, p) <==> Opposing(u, n, p)
      ensures FirstShared(t[n].groups, t[p].groups) != "" <==> FirstShared(u[n].groups, u[p].groups) != ""
    {
      AlikePair(t, u, n, p);
    }
  }

  lemma {:induction false} SameFirstText(xs: seq<string>, ys: seq<string>)
    requires |xs| == |ys| && forall i :: 0 <= i < |xs| ==> SameText(xs[i], ys[i])
    ensures SameText(FirstText(xs), FirstText(ys))
  {
    if xs != [] && xs[0] == "" {
      SameFirstText(xs[1..], ys[1..]);
    }
  }

  lemma {:induction false} AlikeTexts(t: map<string, Facts>, u: map<string, Facts>, n: string, q: seq<string>)
    requires AlikeFacts(t, u) && n in t
    requires forall p :: p in q ==> p in t && (Oppose(t[n], t[p]) || Oppose(t[p], t[n]))
    ensures SharedVarbinds(t, n, q) == SharedVarbinds(u, n, q)
    ensures SameText(FirstText(SharedGroups(t, n, q)), FirstText(SharedGroups(u, n, q)))
  {
    forall i | 0 <= i < |q|
      ensures SharedVarbinds(t, n, q)[i] == SharedVarbinds(u, n, q)[i]
      ensures SameText(SharedGroups(t, n, q)[i], SharedGroups(u, n, q)[i])
    {
      AlikePair(t, u, n, q[i]);
    }
    SameFirstText(SharedGroups(t, n, q), SharedGroups(u, n, q));
  }

  lemma {:induction false} AlikeVerdicts(t: map<string, Facts>, u: map<string, Facts>, n: string)
    requires AlikeFacts(t, u) && n in t
    ensures Verdict(t, n) == Verdict(u, n)
  {
    AlikePartners(t, u, n);
    var ps := Partners(t, n);
    var q := SortedNames(ps);
    assert forall p :: p in q ==> p in Elements(q);
    AlikeSignals(t, u, n, ps);
    AlikeTexts(t, u, n, q);
    assert UpToGroups(t[n], u[n]);
    SameWritten(t[n], u[n], n, Summary(t, n));
  }

  lemma {:induction false} SameWritten(f: Facts, h: Facts, n: string, a: Acc)
    requires UpToGroups(f, h)
    ensures Written(f, n, a) == Written(h, n, a)
  {}

  lemma {:induction false} SameEach<R>(f: string --> R, g: string --> R, q: seq<string>)
    requires forall n :: n in q ==> f.requires(n) && g.requires(n) && f(n) == g(n)
    ensures Each(f, q) == Each(g, q)
  {
    if q != [] {
      SameEach(f, g, q[..|q| - 1]);
    }
  }

  lemma {:induction false} EqualVerdicts(t: map<string, Facts>, u: map<string, Facts>)
    requires t.Keys == u.Keys && forall n :: n in t ==> Verdict(t, n) == Verdict(u, n)
    ensures Verdicts(t) == Verdicts(u)
  {
    SortedAreKeys(t);
    SameEach(VerdictOn(t), VerdictOn(u), SortedNames(t.Keys));
  }

  lemma {:induction false} VerdictsTell(t: map<string, Facts>, u: map<string, Facts>, n: string)
    requires t.Keys == u.Keys && Verdicts(t) == Verdicts(u) && n in t
    ensures Verdict(t, n) == Verdict(u, n)
  {
    SortedAreKeys(t);
    var i: nat :| i < |SortedNames(t.Keys)| && SortedNames(t.Keys)[i] == n;
    OnePerNotification(t, i);
    OnePerNotification(u, i);
  }

  lemma {:induction false} RowsDecideFacts(s: Symbol, refs: seq<Ref>, stored: seq<Ref>, names: set<string>,
      v: Vocabulary)
    requires forall r :: r in stored <==> r in refs
    ensures FactsOf(s, refs, names, v).groups == PairGroups(refs, names, s.name)
    ensures FactsOf(s, stored, names, v).groups == PairGroups(stored, names, s.name)
    ensures UpToGroups(FactsOf(s, refs, names, v), FactsOf(s, stored, names, v))
  {
    assert VarbindsOf(refs, s.name) == VarbindsOf(stored, s.name);
  }

  /** A name that shows a direction decides it. */
  lemma {:induction false} NamesLeaveDirection(s: Symbol, x: Symbol, refs: seq<Ref>, names: set<string>, v: Vocabulary)
    requires Oppose(FactsOf(s, refs, names, v), FactsOf(x, refs, names, v))
    ensures s.name != x.name ==> CanOppose(s.name, x.name, v)
  {}

  lemma {:induction false} BackfillIf(syms: seq<Symbol>, refs: seq<Ref>, stored: seq<Ref>, v: Vocabulary)
    requires Stores(stored, refs) && SharedAlike(refs, stored, Names(syms), v)
    ensures SameRelationships(syms, refs, stored, v)
  {
    var t, u := ModuleFacts(syms, refs, v), ModuleFacts(syms, stored, v);
    forall n | n in Names(syms)
      ensures t[n].groups == PairGroups(refs, Names(syms), n) && u[n].groups == PairGroups(stored, Names(syms), n)
      ensures UpToGroups(t[n], u[n])
    {
      RowsDecideFacts(Named(syms, n), refs, stored, Names(syms), v);
    }
    forall a, c | a in t && c in t && Oppose(t[a], t[c])
      ensures AlikeGroups(t[a], t[c], u[a], u[c])
    {
      NamesLeaveDirection(Named(syms, a), Named(syms, c), refs, Names(syms), v);
      assert SharedAlikeBy(refs, stored, Names(syms), a, c);
    }
    forall n | n in t ensures Verdict(t, n) == Verdict(u, n) {
      AlikeVerdicts(t, u, n);
    }
    EqualVerdicts(t, u);
  }

  // One table in which just `a` and `c` speak, of a problem and of its end, tells their group.

  function Says(text: string, v: Vocabulary): (Direction, string) {
    ProseDirection(Symbol("", NotificationType, Current, text, ""), v)
  }

  /** The texts speak of a problem and of its end. */
  predicate Speak(raise: string, clear: string, v: Vocabulary) {
    Says(raise, v).0 == RaiseDir && Says(clear, v).0 == ClearDir
  }

  /** The others are legacy, so that nothing links them with the two. */
  function Speaker(n: string, a: string, c: string, raise: string, clear: string): Symbol {
    if n == a then Symbol(n, NotificationType, Current, raise, "")
    else if n == c then Symbol(n, NotificationType, Current, clear, "")
    else Symbol(n, NotificationType, Deprecated, "", "")
  }

  function Talk(a: string, c: string, raise: string, clear: string): string -> Symbol {
    (n: string) => Speaker(n, a, c, raise, clear)
  }

  /** One notification for every name. */
  ghost function Table(names: set<string>, talk: string -> Symbol): (syms: seq<Symbol>)
    ensures |syms| == |SortedNames(names)|
    ensures forall i :: 0 <= i < |syms| ==> syms[i] == talk(SortedNames(names)[i])
  {
    var q := SortedNames(names);
    seq(|q|, i requires 0 <= i < |q| => talk(q[i]))
  }

  lemma {:induction false} TableHolds(names: set<string>, talk: string -> Symbol, s: Symbol)
    ensures s in Table(names, talk) <==> exists n :: n in names && s == talk(n)
  {
    var q, syms := SortedNames(names), Table(names, talk);
    assert forall n :: n in q <==> n in Elements(q);
    if s in syms {
      var i :| 0 <= i < |syms| && syms[i] == s;
      assert q[i] in names;
    }
    if n :| n in names && s == talk(n) {
      var i :| 0 <= i < |q| && q[i] == n;
      assert syms[i] == s;
    }
  }

  lemma {:induction false} TableSpeaks(names: set<string>, talk: string -> Symbol)
    requires forall n :: talk(n).name == n && IsNotification(talk(n))
    ensures var syms := Table(names, talk);
            DistinctNames(syms) && Names(syms) == names && forall n :: n in names ==> Named(syms, n) == talk(n)
  {
    var syms := Table(names, talk);
    forall s ensures s in Notifications(syms) <==> exists n :: n in names && s == talk(n) {
      TableHolds(names, talk, s);
    }
    forall n | n in names ensures n in Names(syms) && Named(syms, n) == talk(n) {
      assert talk(n) in Notifications(syms);
    }
  }

  /** What everybody's facts look like in such a table. */
  predicate Spoken(f: Facts, n: string, a: string, c: string) {
    if n == a then f.eff == f.descDir == RaiseDir && !f.legacy
    else if n == c then f.eff == f.descDir == ClearDir && !f.legacy
    else f.legacy
  }

  lemma {:induction false} SpeakerFacts(n: string, a: string, c: string, raise: string, clear: string, refs: seq<Ref>,
      names: set<string>, v: Vocabulary)
    requires CanOppose(a, c, v) && Speak(raise, clear, v)
    ensures Spoken(FactsOf(Speaker(n, a, c, raise, clear), refs, names, v), n, a, c)
  {}

  ghost predicate AllSpoken(t: map<string, Facts>, a: string, c: string) {
    a in t && c in t && a != c && forall n :: n in t ==> Spoken(t[n], n, a, c)
  }

  lemma {:induction false} OnlyTheTwo(t: map<string, Facts>, a: string, c: string)
    requires AllSpoken(t, a, c)
    ensures Partners(t, a) == if Edge(t, a, c) then {c} else {}
    ensures FirstShared(t[a].groups, t[c].groups) != "" ==> Edge(t, a, c)
  {
    forall p ensures Linked(t, a, p) <==> p == c && Edge(t, a, c) {
      assert p in t ==> Spoken(t[p], p, a, c);
      assert Spoken(t[a], a, a, c);
    }
    assert Spoken(t[a], a, a, c) && Spoken(t[c], c, a, c);
  }

  function GroupHit(group: string): seq<Hit> {
    if group == "" then [] else [Hit(GroupSignal, "NOTIFICATION-GROUP " + Short(group))]
  }

  /** The hits of a pair that do not come from a group. */
  function OtherHits(f: Facts, h: Facts): seq<Hit> {
    var shared := FirstShared(f.vb, h.vb);
    Hits(SignalSet(SameRoot(f, h), shared != "", true, false), Short(shared), f.phrase, "")
  }

  lemma {:induction false} ListOfOne(p: string)
    ensures SortedNames({p}) == [p]
  {
    var q := SortedNames({p});
    assert q[0] in Elements(q);
  }

  lemma {:induction false} SignalsOfOne(t: map<string, Facts>, a: string, c: string)
    requires AllSpoken(t, a, c)
    ensures SignalsWith(t, a, {c})
         == SignalSet(SameRoot(t[a], t[c]), FirstShared(t[a].vb, t[c].vb) != "", true,
                      FirstShared(t[a].groups, t[c].groups) != "")
  {
    assert Spoken(t[a], a, a, c) && Spoken(t[c], c, a, c);
    assert c in {c};
  }

  lemma {:induction false} TextsOfOne(t: map<string, Facts>, a: string, c: string)
    requires a in t && c in t
    ensures FirstText(SharedVarbinds(t, a, [c])) == Short(FirstShared(t[a].vb, t[c].vb))
    ensures FirstText(SharedGroups(t, a, [c])) == FirstShared(t[a].groups, t[c].groups)
  {
    var x, y := SharedVarbinds(t, a, [c])[0], SharedGroups(t, a, [c])[0];
    assert SharedVarbinds(t, a, [c]) == [x] && SharedGroups(t, a, [c]) == [y];
    assert [x][1..] == [] && [y][1..] == [];
  }

  lemma {:induction false} HitsSplit(s: SignalSet, vbEx: string, phrase: string, group: string)
    requires s.group <==> group != ""
    ensures Hits(s, vbEx, phrase, if group == "" then "" else "NOTIFICATION-GROUP " + Short(group))
         == Hits(s.(group := false), vbEx, phrase, "") + GroupHit(group)
  {}

  /** What the verdict on `a` tells of the group it shares with `c`. */
  lemma {:induction false} GroupIsTold(t: map<string, Facts>, a: string, c: string)
    requires AllSpoken(t, a, c)
    ensures var group := FirstShared(t[a].groups, t[c].groups);
            if Edge(t, a, c) then
              Verdict(t, a).role == Raise && Verdict(t, a).signals == OtherHits(t[a], t[c]) + GroupHit(group)
            else Verdict(t, a).role == Orphan && group == ""
  {
    OnlyTheTwo(t, a, c);
    assert Spoken(t[a], a, a, c);
    if Edge(t, a, c) {
      ListOfOne(c);
      SignalsOfOne(t, a, c);
      TextsOfOne(t, a, c);
      HitsSplit(SignalsWith(t, a, {c}), Short(FirstShared(t[a].vb, t[c].vb)), t[a].phrase,
                FirstShared(t[a].groups, t[c].groups));
    } else {
      RoleOf(t, a);
    }
  }

  lemma {:induction false} HitsTellText(q: seq<Hit>, x: string, y: string)
    requires q + GroupHit(x) == q + GroupHit(y)
    ensures SameText(x, y)
  {
    assert (q + GroupHit(x))[|q|..] == GroupHit(x) && (q + GroupHit(y))[|q|..] == GroupHit(y);
    if x != "" && y != "" {
      var head := "NOTIFICATION-GROUP ";
      assert GroupHit(x)[0] == GroupHit(y)[0];
      assert (head + Short(x))[|head|..] == Short(x) && (head + Short(y))[|head|..] == Short(y);
    }
  }

  lemma {:induction false} SameOtherHits(f: Facts, h: Facts, f': Facts, h': Facts)
    requires UpToGroups(f, f') && UpToGroups(h, h')
    ensures OtherHits(f, h) == OtherHits(f', h')
  {
    UpToGroupsLinks(f, h, f', h');
  }

  lemma {:induction false} VerdictTellsText(t: map<string, Facts>, u: map<string, Facts>, a: string, c: string)
    requires AllSpoken(t, a, c) && AllSpoken(u, a, c) && UpToGroups(t[a], u[a]) && UpToGroups(t[c], u[c])
    requires Verdict(t, a) == Verdict(u, a)
    ensures AlikeGroups(t[a], t[c], u[a], u[c])
  {
    GroupIsTold(t, a, c);
    GroupIsTold(u, a, c);
    SameOtherHits(t[a], t[c], u[a], u[c]);
    if Edge(t, a, c) {
      HitsTellText(OtherHits(t[a], t[c]), FirstShared(t[a].groups, t[c].groups),
                   FirstShared(u[a].groups, u[c].groups));
    }
  }

  lemma {:induction false} TableFacts(rows: seq<Ref>, names: set<string>, v: Vocabulary, a: string, c: string,
      talk: string -> Symbol)
    requires a in names && c in names && a != c && forall n :: talk(n).name == n && IsNotification(talk(n))
    requires forall n :: Spoken(FactsOf(talk(n), rows, names, v), n, a, c)
    ensures var t := ModuleFacts(Table(names, talk), rows, v);
            && t.Keys == names && AllSpoken(t, a, c)
            && t[a] == FactsOf(talk(a), rows, names, v) && t[c] == FactsOf(talk(c), rows, names, v)
  {
    TableSpeaks(names, talk);
    FactsBySpeech(Table(names, talk), ModuleFacts(Table(names, talk), rows, v), rows, names, v, talk);
    AllSpeak(ModuleFacts(Table(names, talk), rows, v), rows, names, v, a, c, talk);
  }

  lemma {:induction false} FactsBySpeech(syms: seq<Symbol>, t: map<string, Facts>, rows: seq<Ref>, names: set<string>,
      v: Vocabulary, talk: string -> Symbol)
    requires t == ModuleFacts(syms, rows, v) && Names(syms) == names
    requires forall n :: n in names ==> Named(syms, n) == talk(n)
    ensures t.Keys == names && forall n :: n in names ==> t[n] == FactsOf(talk(n), rows, names, v)
  {
    forall n | n in names ensures n in t && t[n] == FactsOf(talk(n), rows, names, v) {
      FactsAt(syms, rows, v, n);
    }
  }

  lemma {:induction false} AllSpeak(t: map<string, Facts>, rows: seq<Ref>, names: set<string>, v: Vocabulary,
      a: string, c: string, talk: string -> Symbol)
    requires a in names && c in names && a != c
    requires t.Keys == names && forall n :: n in names ==> t[n] == FactsOf(talk(n), rows, names, v)
    requires forall n :: Spoken(FactsOf(talk(n), rows, names, v), n, a, c)
    ensures AllSpoken(t, a, c)
  {
    forall n | n in t ensures Spoken(t[n], n, a, c) {
      assert t[n] == FactsOf(talk(n), rows, names, v);
    }
  }

  lemma {:induction false} FactsAt(syms: seq<Symbol>, rows: seq<Ref>, v: Vocabulary, n: string)
    requires n in Names(syms)
    ensures n in ModuleFacts(syms, rows, v)
    ensures ModuleFacts(syms, rows, v)[n] == FactsOf(Named(syms, n), rows, Names(syms), v)
  {}

  lemma {:induction false} BackfillOnlyIf(refs: seq<Ref>, stored: seq<Ref>, names: set<string>, v: Vocabulary,
      a: string, c: string, talk: string -> Symbol)
    requires Stores(stored, refs) && a in names && c in names && a != c
    requires forall n :: talk(n).name == n && IsNotification(talk(n))
    requires forall n, rows :: Spoken(FactsOf(talk(n), rows, names, v), n, a, c)
    requires SameRelationships(Table(names, talk), refs, stored, v)
    ensures SharedAlikeBy(refs, stored, names, a, c)
  {
    var t, u := ModuleFacts(Table(names, talk), refs, v), ModuleFacts(Table(names, talk), stored, v);
    TableFacts(refs, names, v, a, c, talk);
    TableFacts(stored, names, v, a, c, talk);
    RowsDecideFacts(talk(a), refs, stored, names, v);
    RowsDecideFacts(talk(c), refs, stored, names, v);
    VerdictsTell(t, u, a);
    VerdictTellsText(t, u, a, c);
  }

  /** Every module with these notifications gets the same relationships from both row lists. */
  ghost predicate AlwaysAgree(refs: seq<Ref>, stored: seq<Ref>, names: set<string>, v: Vocabulary) {
    forall syms: seq<Symbol> :: DistinctNames(syms) && Names(syms) == names ==> SameRelationships(syms, refs, stored, v)
  }

  /**
   * The exact condition for a vocabulary in which one can speak of a problem and of its end, whatever the
   * notifications say: for any two that can oppose each other by name, both row lists show the same first group of
   * just these two, or neither shows any.
   */
  lemma {:induction false} BackfillIff(refs: seq<Ref>, stored: seq<Ref>, names: set<string>, v: Vocabulary,
      raise: string, clear: string)
    requires Stores(stored, refs) && Speak(raise, clear, v)
    ensures AlwaysAgree(refs, stored, names, v) <==> SharedAlike(refs, stored, names, v)
  {
    if SharedAlike(refs, stored, names, v) {
      forall syms: seq<Symbol> | DistinctNames(syms) && Names(syms) == names
        ensures SameRelationships(syms, refs, stored, v)
      {
        BackfillIf(syms, refs, stored, v);
      }
    }
    if AlwaysAgree(refs, stored, names, v) {
      forall a, c | a in names && c in names && CanOppose(a, c, v) ensures SharedAlikeBy(refs, stored, names, a, c) {
        TalkTells(refs, stored, names, v, a, c, raise, clear);
      }
    }
  }

  lemma {:induction false} TalkTells(refs: seq<Ref>, stored: seq<Ref>, names: set<string>, v: Vocabulary, a: string,
      c: string, raise: string, clear: string)
    requires Stores(stored, refs) && a in names && c in names && CanOppose(a, c, v) && Speak(raise, clear, v)
    requires AlwaysAgree(refs, stored, names, v)
    ensures SharedAlikeBy(refs, stored, names, a, c)
  {
    var talk := Talk(a, c, raise, clear);
    TalkIs(a, c, raise, clear);
    TableSpeaks(names, talk);
    forall n, rows ensures Spoken(FactsOf(talk(n), rows, names, v), n, a, c) {
      SpeakerFacts(n, a, c, raise, clear, rows, names, v);
    }
    AgreeOn(refs, stored, names, v, Table(names, talk));
    BackfillOnlyIf(refs, stored, names, v, a, c, talk);
  }

  lemma {:induction false} TalkIs(a: string, c: string, raise: string, clear: string)
    ensures forall n :: Talk(a, c, raise, clear)(n) == Speaker(n, a, c, raise, clear)
    ensures forall n :: Talk(a, c, raise, clear)(n).name == n && IsNotification(Talk(a, c, raise, clear)(n))
  {}

  lemma {:induction false} AgreeOn(refs: seq<Ref>, stored: seq<Ref>, names: set<string>, v: Vocabulary,
      syms: seq<Symbol>)
    requires AlwaysAgree(refs, stored, names, v) && DistinctNames(syms) && Names(syms) == names
    ensures SameRelationships(syms, refs, stored, v)
  {}

  // ---- The vocabulary of the code ----

  const CLEAR_PHRASES: seq<string> := [
    "left the down state", "out of the down state", "comes up", "has come up", "back in service",
    "returned to service", "returned to normal", "is restored", "restored", "cleared", "no longer", "recovered",
    "enters the established state", "established state", "established", "normal operation",
    "transitioned into some other state", "(cleared)", "deasserted", "back to normal", "has recovered"]

  const RAISE_PHRASES: seq<string> := [
    "about to enter the down state", "enter the down state", "down state", "has failed", "failure", "failed",
    "loss of", "is lost", "lost", "lower numbered state", "higher numbered state to a lower", "backward",
    "unreachable", "not responding", "abnormal", "degraded", "(generated)", "has exceeded", "exceeded", "exceeds",
    "fault", "faulty", "cannot be reached", "asserted"]

  lemma {:induction false} PhraseIsFound(text: string, phrases: seq<string>, p: string)
    requires p in phrases && ContainsText(text, p)
    ensures FirstPhrase(text, phrases).Some?
  {
    if p != phrases[0] {
      PhraseIsFound(text, phrases[1..], p);
    }
  }

  lemma {:induction false} LongPhrasesAreNotFound(text: string, phrases: seq<string>)
    requires forall p :: p in phrases ==> |p| > |text|
    ensures FirstPhrase(text, phrases).None?
  {
    if phrases != [] {
      assert phrases[0] in phrases && forall p :: p in phrases[1..] ==> p in phrases;
      LongPhrasesAreNotFound(text, phrases[1..]);
    }
  }

  lemma {:induction false} ClearPhrases()
    ensures "cleared" in CLEAR_PHRASES && forall p :: p in CLEAR_PHRASES ==> |p| > 6
  {
    assert CLEAR_PHRASES[9] == "cleared";
    assert forall i :: 0 <= i < |CLEAR_PHRASES| ==> |CLEAR_PHRASES[i]| > 6;
  }

  lemma {:induction false} RaisePhrases()
    ensures "fault" in RAISE_PHRASES
  {
    assert RAISE_PHRASES[20] == "fault";
  }

  lemma {:induction false} LowerWords()
    ensures Lower("fault") == "fault" && Lower("cleared") == "cleared"
  {}

  lemma {:induction false} ProseText(text: string)
    requires Lower(text) == text
    ensures Lower(text + " " + "") == text + " " && ContainsText(text + " ", text)
  {
    assert text + " " + "" == text + " ";
    assert (text + " ")[0..] == text + " " && OccursAt(text + " ", text, 0);
  }

  /** Phrases speak for themselves, if the one of the problem is too short to hold any of the others. */
  lemma {:induction false} PhrasesSpeak(v: Vocabulary, raise: string, clear: string)
    requires raise in v.raisePhrases && clear in v.clearPhrases && Lower(raise) == raise && Lower(clear) == clear
    requires forall p :: p in v.clearPhrases ==> |p| > |raise| + 1
    ensures Speak(raise, clear, v)
  {
    ProseText(raise);
    ProseText(clear);
    PhraseIsFound(clear + " ", v.clearPhrases, clear);
    PhraseIsFound(raise + " ", v.raisePhrases, raise);
    LongPhrasesAreNotFound(raise + " ", v.clearPhrases);
  }

  /** In it one can speak of both. */
  lemma {:induction false} CodeSpeaks(v: Vocabulary)
    requires v.clearPhrases == CLEAR_PHRASES && v.raisePhrases == RAISE_PHRASES
    ensures Speak("fault", "cleared", v)
  {
    ClearPhrases();
    RaisePhrases();
    LowerWords();
    PhrasesSpeak(v, "fault", "cleared");
  }

  // ---- A repeated row makes them disagree ----

  /** A problem and a resolution that neither name, status nor varbinds link. */
  ghost predicate OnlyAGroupLinks(a: Symbol, c: Symbol, v: Vocabulary) {
    && IsNotification(a) && IsNotification(c) && a.name != c.name
    && var f, h := FactsOf(a, [], {}, v), FactsOf(c, [], {}, v);
       f.eff == RaiseDir && h.eff == ClearDir && f.legacy == h.legacy && !SameRoot(f, h)
  }

  function Row(member: string): Ref {
    Ref(GroupMember, "M", "g", "M", member)
  }

  const GROUP := Key("M", "g")

  /** With rows of one group only, the facts differ from those without any row in the group alone. */
  lemma {:induction false} GroupFacts(s: Symbol, refs: seq<Ref>, names: set<string>, v: Vocabulary)
    requires Row(s.name) in refs && forall r :: r in refs ==> r == Row(r.targetName)
    ensures FactsOf(s, refs, names, v)
         == FactsOf(s, [], {}, v).(groups := if GroupRows(refs, names, GROUP) == 2 then {GROUP} else {})
    ensures FactsOf(s, refs, names, v).sig == ""
  {
    assert VarbindsOf(refs, s.name) == {} == VarbindsOf([], s.name);
    assert Row(s.name).targetName == s.name;
    assert GroupsOf(refs, s.name) == {GROUP};
    EmptySignature();
  }

  /** Two notifications of opposite direction that only a group can link are linked exactly by sharing one. */
  lemma {:induction false} LinkedByGroup(t: map<string, Facts>, r: string, c: string)
    requires t.Keys == {r, c} && r != c && t[r].eff == RaiseDir && t[c].eff == ClearDir && t[r].legacy == t[c].legacy
    requires !SameRoot(t[r], t[c]) && t[r].sig == ""
    ensures Verdict(t, c).role == (if FirstShared(t[r].groups, t[c].groups) != "" then Clear else Orphan)
  {
    RoleOf(t, c);
    assert !Linked(t, c, c);
    assert r in Partners(t, c) <==> Edge(t, r, c);
    assert Edge(t, r, c) <==> FirstShared(t[r].groups, t[c].groups) != "";
  }

  lemma {:induction false} ClearIffTwoRows(a: Symbol, c: Symbol, v: Vocabulary, refs: seq<Ref>)
    requires OnlyAGroupLinks(a, c, v)
    requires Row(a.name) in refs && Row(c.name) in refs && forall r :: r in refs ==> r == Row(r.targetName)
    ensures c.name in ModuleFacts([a, c], refs, v)
    ensures Verdict(ModuleFacts([a, c], refs, v), c.name).role
         == if GroupRows(refs, {a.name, c.name}, GROUP) == 2 then Clear else Orphan
  {
    var t, names := ModuleFacts([a, c], refs, v), {a.name, c.name};
    TwoSymbols(a, c);
    GroupFacts(a, refs, names, v);
    GroupFacts(c, refs, names, v);
    assert {GROUP} * {GROUP} == {GROUP};
    LinkedByGroup(t, a.name, c.name);
  }

  lemma {:induction false} RowCounts(a: string, c: string)
    ensures GroupRows([Row(a), Row(c)], {a, c}, GROUP) == 2
    ensures GroupRows([Row(a), Row(a), Row(c)], {a, c}, GROUP) == 3
  {
    RowsSplit([Row(a)], [Row(c)], {a, c}, GROUP);
    RowsSplit([Row(a), Row(a)], [Row(c)], {a, c}, GROUP);
    RowsSplit([Row(a)], [Row(a)], {a, c}, GROUP);
    assert [Row(a), Row(a)] + [Row(c)] == [Row(a), Row(a), Row(c)];
    assert [Row(a)] + [Row(a)] == [Row(a), Row(a)] && [Row(a)] + [Row(c)] == [Row(a), Row(c)];
    assert [Row(a)][..0] == [] && [Row(c)][..0] == [];
  }

  /** Counterexample: with its row repeated at ingest the group no longer pairs the two, */
  lemma {:induction false} RepeatedRowHidesPair(a: Symbol, c: Symbol, v: Vocabulary, refs: seq<Ref>)
    requires OnlyAGroupLinks(a, c, v) && refs == [Row(a.name), Row(a.name), Row(c.name)]
    ensures c.name in ModuleFacts([a, c], refs, v) && Verdict(ModuleFacts([a, c], refs, v), c.name).role == Orphan
  {
    RowCounts(a.name, c.name);
    ClearIffTwoRows(a, c, v, refs);
  }

  /** while the rows as stored make the backfill pair them. */
  lemma {:induction false} StoredRowsShowPair(a: Symbol, c: Symbol, v: Vocabulary, stored: seq<Ref>)
    requires OnlyAGroupLinks(a, c, v) && stored == [Row(a.name), Row(c.name)]
    ensures c.name in ModuleFacts([a, c], stored, v) && Verdict(ModuleFacts([a, c], stored, v), c.name).role == Clear
  {
    RowCounts(a.name, c.name);
    ClearIffTwoRows(a, c, v, stored);
  }

  lemma {:induction false} RowsStoredOnce(a: string, c: string)
    requires a != c
    ensures Stores([Row(a), Row(c)], [Row(a), Row(a), Row(c)])
  {
    assert Row(a).targetName == a && Row(c).targetName == c;
    var q := [Row(a), Row(c)];
    assert forall i :: 0 <= i < |q| ==> q[i] == Row(if i == 0 then a else c);
  }

  /** A name of lower-case letters is its own only token. */
  lemma {:induction false} PlainName(name: string)
    requires name != "" && forall i :: 0 <= i < |name| ==> IsLower(name[i])
    ensures Tokens(name) == [name]
  {
    LowerRun(name, 0, |name|);
    assert name[0..|name|] == name && Lower(name) == name;
    assert Scan(name, |name|).0 == [] && Scan(name, |name|).1 == name;
  }

  /** A one-word notification without prose has the direction of its word and no root. */
  lemma {:induction false} OneWord(s: Symbol, v: Vocabulary, dir: Direction)
    requires s.name != "" && forall i :: 0 <= i < |s.name| ==> IsLower(s.name[i])
    requires TokenDirection(s.name, v) == dir && dir != Neither && !Legacy(s.status)
    ensures var f := FactsOf(s, [], {}, v); f.root == "" && f.eff == dir && !f.legacy
  {
    PlainName(s.name);
    var toks := [s.name];
    assert LastDirectional(toks, v) == Some(0);
    assert toks[..0] + toks[1..] == [];
  }

  /** Two notifications of that kind: "down" and "up" without prose. */
  lemma {:induction false} DownAndUp(a: Symbol, c: Symbol, v: Vocabulary)
    requires a == Symbol("down", NotificationType, Current, "", "") && c == a.(name := "up")
    requires v == Vocabulary({"down"}, {"up"}, [], [])
    ensures OnlyAGroupLinks(a, c, v)
  {
    assert |"down"| == 4 && |"up"| == 2;
    OneWord(a, v, RaiseDir);
    OneWord(c, v, ClearDir);
  }

  const DOWN := Symbol("down", NotificationType, Current, "", "")
  const UP := Symbol("up", NotificationType, Current, "", "")
  const WORDS := Vocabulary({"down"}, {"up"}, [], [])

  /** A module on which they disagree: "up" is an orphan at ingest and resolves "down" once the backfill has run. */
  lemma {:induction false} BackfillDisagrees()
    ensures var refs, stored := [Row("down"), Row("down"), Row("up")], [Row("down"), Row("up")];
            var t, u := ModuleFacts([DOWN, UP], refs, WORDS), ModuleFacts([DOWN, UP], stored, WORDS);
            && DistinctNames([DOWN, UP]) && Stores(stored, refs) && !SharedAlike(refs, stored, {"down", "up"}, WORDS)
            && "up" in t && Verdict(t, "up").role == Orphan && "up" in u && Verdict(u, "up").role == Clear
            && !SameRelationships([DOWN, UP], refs, stored, WORDS)
  {
    var refs, stored := [Row("down"), Row("down"), Row("up")], [Row("down"), Row("up")];
    var t, u := ModuleFacts([DOWN, UP], refs, WORDS), ModuleFacts([DOWN, UP], stored, WORDS);
    assert "down" != "up" by { assert |"down"| != |"up"|; }
    DownAndUp(DOWN, UP, WORDS);
    RowsStoredOnce("down", "up");
    RepeatedRowHidesPair(DOWN, UP, WORDS, refs);
    StoredRowsShowPair(DOWN, UP, WORDS, stored);
    TwoSymbols(DOWN, UP);
    if SameRelationships([DOWN, UP], refs, stored, WORDS) {
      VerdictsTell(t, u, "up");
    }
    if SharedAlike(refs, stored, {"down", "up"}, WORDS) {
      BackfillIf([DOWN, UP], refs, stored, WORDS);
    }
  }
}
