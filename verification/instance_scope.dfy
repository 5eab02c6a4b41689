/** Which parameter scopes the alarms of a pair, and when a clear finds the instance it was raised for (instanceToken). */
module InstanceScope {
  import opened Model
  import opened Decimal
  import opened Eventconf
  import opened AlarmMatching

  // ---- The tokens of a pair ----

  ghost predicate LinkOf(notifs: seq<Notification>, l: (string, string), i: nat, j: nat) {
    Resolves(notifs, i, j) && l == (notifs[i].name, notifs[j].name)
  }

  /** The links FromModule records are exactly the resolved pairs. */
  lemma {:induction false} LinksAreThePairs(notifs: seq<Notification>, m: nat)
    requires Matched(notifs) && m <= |notifs|
    ensures forall l :: l in Links(notifs[..m]) ==> exists i: nat, j: nat :: LinkOf(notifs, l, i, j)
    ensures forall i: nat, j: nat :: i < m && Resolves(notifs, i, j) ==>
              (notifs[i].name, notifs[j].name) in Links(notifs[..m])
  {
    if m > 0 {
      LinksAreThePairs(notifs, m - 1);
      assert notifs[..m][..m - 1] == notifs[..m - 1];
      LinksOfOne(notifs, m - 1);
    }
  }

  lemma {:induction false} LinksOfOne(notifs: seq<Notification>, i: nat)
    requires Matched(notifs) && i < |notifs|
    ensures forall l :: l in LinksOf(notifs[i].name, notifs[i].rel.clears) ==> exists j: nat :: LinkOf(notifs, l, i, j)
    ensures forall j: nat :: Resolves(notifs, i, j) ==>
              (notifs[i].name, notifs[j].name) in LinksOf(notifs[i].name, notifs[i].rel.clears)
  {
    var n := notifs[i];
    if n.rel.alarmType == Some(Resolution) {
      var j: nat :| Resolves(notifs, i, j);
      var r := notifs[j].name;
      assert [r][..0] == [] && LinksOf(n.name, []) == [];
      assert LinksOf(n.name, [r]) == [(n.name, r)];
      assert LinkOf(notifs, (n.name, r), i, j);
      forall k: nat | Resolves(notifs, i, k) ensures notifs[k].name == r {
        assert [notifs[k].name][0] == [r][0];
      }
    }
  }

  lemma {:induction false} OnlyPartner(links: seq<(string, string)>, n: string, p: string)
    requires forall l :: l in links ==> (l.0 == n ==> l.1 == p) && (l.0 != n && l.1 == n ==> l.0 == p)
    ensures PartnerIn(links, n) == if exists l :: l in links && (l.0 == n || l.1 == n) then Some(p) else None
  {
    if links != [] {
      OnlyPartner(links[..|links| - 1], n, p);
      assert links == links[..|links| - 1] + [links[|links| - 1]];
    }
  }

  /** Each end of an exported pair takes its token from the objects it shares with the other end. */
  lemma {:induction false} PartnersOfPair(notifs: seq<Notification>, i: nat, j: nat)
    requires Matched(notifs) && Resolves(notifs, i, j)
    ensures PartnerObjects(notifs, notifs[i].name) == notifs[j].objects
    ensures PartnerObjects(notifs, notifs[j].name) == notifs[i].objects
  {
    var links, c, r := Links(notifs), notifs[i].name, notifs[j].name;
    assert notifs[..|notifs|] == notifs;
    LinksAreThePairs(notifs, |notifs|);
    assert (c, r) in links && (c, r).0 == c && (c, r).1 == r;
    forall l | l in links ensures l.0 != r && l.1 != c && (l.0 == c <==> l.1 == r) {
      var k: nat, h: nat :| LinkOf(notifs, l, k, h);
      LinkEnds(notifs, i, j, k, h);
    }
    OnlyPartner(links, c, r);
    OnlyPartner(links, r, c);
    FindAt(notifs, i);
    FindAt(notifs, j);
  }

  lemma {:induction false} LinkEnds(notifs: seq<Notification>, i: nat, j: nat, k: nat, h: nat)
    requires Matched(notifs) && Resolves(notifs, i, j) && Resolves(notifs, k, h)
    ensures notifs[k].name != notifs[j].name && notifs[h].name != notifs[i].name
    ensures notifs[k].name == notifs[i].name <==> notifs[h].name == notifs[j].name
  {
    assert notifs[k].name == notifs[j].name ==> k == j;
    assert notifs[h].name == notifs[i].name ==> h == i;
    assert notifs[k].name == notifs[i].name ==> k == i;
    assert notifs[h].name == notifs[j].name ==> h == j;
    assert k == i ==> [notifs[h].name][0] == [notifs[j].name][0];
  }

  predicate SharesNothing(objects: seq<Object>, others: seq<Object>) {
    forall k :: 0 <= k < |objects| ==> !SharedAt(objects, others, k)
  }

  predicate FirstSharedAt(objects: seq<Object>, others: seq<Object>, a: nat) {
    a < |objects| && SharedAt(objects, others, a) && forall k :: 0 <= k < a ==> !SharedAt(objects, others, k)
  }

  lemma {:induction false} FirstExists(objects: seq<Object>, others: seq<Object>)
    requires !SharesNothing(objects, others)
    ensures exists a: nat :: FirstSharedAt(objects, others, a)
  {
    var a := 0;
    while a < |objects| && !SharedAt(objects, others, a)
      invariant a <= |objects| && forall k :: 0 <= k < a ==> !SharedAt(objects, others, k)
    {
      a := a + 1;
    }
    assert FirstSharedAt(objects, others, a);
  }

  lemma {:induction false} SharedBack(objects: seq<Object>, others: seq<Object>, k: nat)
    requires k < |objects| && SharedAt(objects, others, k)
    ensures !SharesNothing(others, objects)
  {
    var o :| o in others && o.oid == objects[k].oid;
    var m :| 0 <= m < |others| && others[m] == o;
    assert objects[k] in objects && SharedAt(others, objects, m);
  }

  lemma {:induction false} SharingIsMutual(objects: seq<Object>, others: seq<Object>)
    ensures SharesNothing(objects, others) <==> SharesNothing(others, objects)
  {
    if !SharesNothing(objects, others) {
      var k: nat :| k < |objects| && SharedAt(objects, others, k);
      SharedBack(objects, others, k);
    }
    if !SharesNothing(others, objects) {
      var k: nat :| k < |others| && SharedAt(others, objects, k);
      SharedBack(others, objects, k);
    }
  }

  lemma {:induction false} TokenAt(objects: seq<Object>, others: seq<Object>, i: nat, a: nat, forcePositional: bool)
    requires FirstSharedAt(objects, others, a) && i <= a
    ensures TokenFrom(objects, others, i, forcePositional)
         == "%" + ParmName(objects[a], a + 1, forcePositional) + "%"
    decreases a - i
  {
    if i < a {
      TokenAt(objects, others, i + 1, a, forcePositional);
    }
  }

  predicate ByOid(o: Object, forcePositional: bool) {
    !forcePositional && (o.kind == Scalar || o.accessibleNotify)
  }

  /** The two ends name one parameter: both by the same OID, or both by the same position. */
  predicate ParmsAgree(o: Object, p: nat, x: Object, q: nat, forcePositional: bool) {
    if ByOid(o, forcePositional) then ByOid(x, forcePositional) && NoLeadingDot(o.oid) == NoLeadingDot(x.oid)
    else !ByOid(x, forcePositional) && p == q
  }

  lemma {:induction false} ByOidName(oid: string)
    ensures var name := "parm[" + oid + ".0]";
            |name| == |oid| + 8 && name[5..|name| - 3] == oid && name[|name| - 3] == '.'
  {}

  lemma {:induction false} PositionName(p: nat)
    ensures var name := "parm[#" + Dec(p) + "]";
            |name| == |Dec(p)| + 7 && name[6..|name| - 1] == Dec(p) && name[|name| - 3] != '.'
  {
    ValueOfDec(p);
    var d, name := Dec(p), "parm[#" + Dec(p) + "]";
    assert name == "parm[#" + (d + "]") && (d + "]")[..|d|] == d;
    assert |d| == 1 ==> name[|name| - 3] == '#';
    assert |d| > 1 ==> name[|name| - 3] == d[|d| - 2] && IsDigit(d[|d| - 2]);
  }

  lemma {:induction false} ParmNamesAgree(o: Object, p: nat, x: Object, q: nat, forcePositional: bool)
    ensures ParmName(o, p, forcePositional) == ParmName(x, q, forcePositional)
       <==> ParmsAgree(o, p, x, q, forcePositional)
  {
    ByOidName(NoLeadingDot(o.oid));
    ByOidName(NoLeadingDot(x.oid));
    PositionName(p);
    PositionName(q);
    ValueOfDec(p);
    ValueOfDec(q);
  }

  /** Read off the two OBJECTS lists: nothing is shared, or the first shared objects name one parameter. */
  ghost predicate SameScope(objects: seq<Object>, others: seq<Object>, forcePositional: bool) {
    || SharesNothing(objects, others)
    || exists a: nat, b: nat :: FirstSharedAt(objects, others, a) && FirstSharedAt(others, objects, b)
                                && ParmsAgree(objects[a], a + 1, others[b], b + 1, forcePositional)
  }

  lemma {:induction false} OneFirst(objects: seq<Object>, others: seq<Object>, a: nat, b: nat)
    requires FirstSharedAt(objects, others, a) && FirstSharedAt(objects, others, b)
    ensures a == b
  {}

  lemma {:induction false} PercentSigns(s: string, t: string)
    ensures "%" + s + "%" == "%" + t + "%" <==> s == t
  {
    assert ("%" + s + "%")[1..|s| + 1] == s && ("%" + t + "%")[1..|t| + 1] == t;
  }

  lemma {:induction false} TokensAgree(objects: seq<Object>, others: seq<Object>, forcePositional: bool)
    ensures TokenFrom(objects, others, 0, forcePositional) == TokenFrom(others, objects, 0, forcePositional)
       <==> SameScope(objects, others, forcePositional)
  {
    SharingIsMutual(objects, others);
    if SharesNothing(objects, others) {
      NoToken(objects, others, 0, forcePositional);
      NoToken(others, objects, 0, forcePositional);
    } else {
      FirstExists(objects, others);
      FirstExists(others, objects);
      var a: nat :| FirstSharedAt(objects, others, a);
      var b: nat :| FirstSharedAt(others, objects, b);
      FirstTokensAgree(objects, others, a, b, forcePositional);
    }
  }

  lemma {:induction false} FirstTokensAgree(objects: seq<Object>, others: seq<Object>, a: nat, b: nat,
      forcePositional: bool)
    requires FirstSharedAt(objects, others, a) && FirstSharedAt(others, objects, b)
    ensures TokenFrom(objects, others, 0, forcePositional) == TokenFrom(others, objects, 0, forcePositional)
       <==> SameScope(objects, others, forcePositional)
  {
    TokenAt(objects, others, 0, a, forcePositional);
    TokenAt(others, objects, 0, b, forcePositional);
    PercentSigns(ParmName(objects[a], a + 1, forcePositional), ParmName(others[b], b + 1, forcePositional));
    ParmNamesAgree(objects[a], a + 1, others[b], b + 1, forcePositional);
    forall c: nat, d: nat | FirstSharedAt(objects, others, c) && FirstSharedAt(others, objects, d)
      ensures c == a && d == b
    {
      OneFirst(objects, others, a, c);
      OneFirst(others, objects, b, d);
    }
  }

  lemma {:induction false} SameHead(head: string, x: string, y: string)
    ensures head + x == head + y <==> x == y
  {
    assert (head + x)[|head|..] == x && (head + y)[|head|..] == y;
  }

  lemma {:induction false} ScopeTellsToken(t: string, u: string)
    ensures Scope(t) == Scope(u) <==> t == u
  {
    var tail, end := if t == "" then "" else ":" + t, if u == "" then "" else ":" + u;
    SameHead("%dpname%:%nodeid%", tail, end);
    SameHead(":", t, u);
    assert t == "" <==> |tail| == 0;
    assert u == "" <==> |end| == 0;
  }

  lemma {:induction false} KeyTellsToken(uei: string, t: string, u: string)
    ensures Bound(uei, t) == Bound(uei, u) <==> t == u
    ensures ReductionKey(t) == ReductionKey(u) <==> t == u
  {
    ScopeTellsToken(t, u);
    SameHead(":", Scope(t), Scope(u));
    SameHead(uei, ":" + Scope(t), ":" + Scope(u));
    SameHead(UEI, ":" + Scope(t), ":" + Scope(u));
  }

  /** When the two ends of a pair are scoped by the same text, whatever that denotes. */
  lemma {:induction false} PairSharesToken(evs: seq<Event>, notifs: seq<Notification>, base: string,
      forcePositional: bool, i: nat, j: nat)
    requires Matched(notifs) && ExportOf(evs, notifs, base, forcePositional) && Resolves(notifs, i, j)
    ensures IsAlarm(evs, i, Resolution) && IsAlarm(evs, j, Problem)
    ensures evs[i].alarm.value.reductionKey == evs[j].alarm.value.reductionKey
       <==> SameScope(notifs[i].objects, notifs[j].objects, forcePositional)
    ensures evs[i].alarm.value.clearKey == ReplaceFirst(evs[i].alarm.value.reductionKey, UEI, evs[j].uei)
       <==> SameScope(notifs[i].objects, notifs[j].objects, forcePositional)
  {
    var t, u := TokenOf(notifs, notifs[i], forcePositional), TokenOf(notifs, notifs[j], forcePositional);
    PartnersOfPair(notifs, i, j);
    ClearKeyOfPair(evs, notifs, base, forcePositional, i, j);
    TokensAgree(notifs[i].objects, notifs[j].objects, forcePositional);
    BoundKey(evs[j].uei, t);
    KeyTellsToken(evs[j].uei, t, u);
  }

  // ---- What a token denotes ----

  function PlaceToken(p: nat): string {
    "%" + ("parm[#" + Dec(p + 1) + "]") + "%"
  }

  function OidToken(oid: string): string {
    "%" + ("parm[" + NoLeadingDot(oid) + ".0]") + "%"
  }

  /** The token names place `p`, where the object has this OID. */
  predicate ReadsAt(tok: string, objects: seq<Object>, p: nat, oid: string) {
    p < |objects| && tok == PlaceToken(p) && objects[p].oid == oid
  }

  predicate Binds(objects: seq<Object>, oid: string) {
    exists o | o in objects :: o.oid == oid
  }

  /** In a trap with these objects the token stands for the value of the object with this OID. */
  ghost predicate Reads(tok: string, objects: seq<Object>, oid: string) {
    || (exists p: nat :: ReadsAt(tok, objects, p, oid))
    || (tok == OidToken(oid) && Binds(objects, oid))
  }

  /**
   * A key scoped by the token means the same instance in the trap that raises and in the trap that clears: it is not
   * scoped at all, or the token stands for one and the same object in both.
   */
  ghost predicate FindsInstance(tok: string, raise: seq<Object>, clear: seq<Object>) {
    tok == "" || exists oid :: Reads(tok, raise, oid) && Reads(tok, clear, oid)
  }

  /** Read off the two OBJECTS lists: what the raise shares first is named by its OID, or sits at one place in both. */
  ghost predicate SamePlace(raise: seq<Object>, clear: seq<Object>, forcePositional: bool) {
    || SharesNothing(raise, clear)
    || exists a: nat :: FirstSharedAt(raise, clear, a) && PlacedAlike(raise, clear, a, forcePositional)
  }

  predicate PlacedAlike(raise: seq<Object>, clear: seq<Object>, a: nat, forcePositional: bool)
    requires a < |raise|
  {
    ByOid(raise[a], forcePositional) || (a < |clear| && clear[a].oid == raise[a].oid)
  }

  lemma {:induction false} PlaceTokens(p: nat, q: nat)
    ensures PlaceToken(p) == PlaceToken(q) <==> p == q
  {
    var m, n := p + 1, q + 1;
    PercentSigns("parm[#" + Dec(m) + "]", "parm[#" + Dec(n) + "]");
    PositionName(m);
    PositionName(n);
    ValueOfDec(m);
    ValueOfDec(n);
  }

  lemma {:induction false} PlaceIsNoOid(p: nat, oid: string)
    ensures PlaceToken(p) != OidToken(oid)
  {
    var m := p + 1;
    PercentSigns("parm[#" + Dec(m) + "]", "parm[" + NoLeadingDot(oid) + ".0]");
    PositionName(m);
    ByOidName(NoLeadingDot(oid));
  }

  lemma {:induction false} PlaceReads(objects: seq<Object>, p: nat, oid: string)
    ensures Reads(PlaceToken(p), objects, oid) <==> p < |objects| && objects[p].oid == oid
  {
    PlaceIsNoOid(p, oid);
    forall q: nat ensures ReadsAt(PlaceToken(p), objects, q, oid) ==> q == p {
      PlaceTokens(p, q);
    }
    assert ReadsAt(PlaceToken(p), objects, p, oid) <==> p < |objects| && objects[p].oid == oid;
  }

  /** The raise's own token, read in either trap. */
  lemma {:induction false} TokenReads(raise: seq<Object>, clear: seq<Object>, a: nat, forcePositional: bool)
    requires FirstSharedAt(raise, clear, a)
    ensures var tok := TokenFrom(raise, clear, 0, forcePositional);
            tok != "" && (FindsInstance(tok, raise, clear) <==> PlacedAlike(raise, clear, a, forcePositional))
  {
    TokenAt(raise, clear, 0, a, forcePositional);
    var oid := raise[a].oid;
    assert raise[a] in raise && Binds(raise, oid) && Binds(clear, oid);
    if ByOid(raise[a], forcePositional) {
      assert Reads(OidToken(oid), raise, oid) && Reads(OidToken(oid), clear, oid);
    } else {
      forall x ensures Reads(PlaceToken(a), raise, x) <==> x == oid
               ensures Reads(PlaceToken(a), clear, x) <==> a < |clear| && clear[a].oid == x
      {
        PlaceReads(raise, a, x);
        PlaceReads(clear, a, x);
      }
      var tok := TokenFrom(raise, clear, 0, forcePositional);
      assert tok == PlaceToken(a) && Reads(tok, raise, oid);
      assert PlacedAlike(raise, clear, a, forcePositional) ==> Reads(tok, clear, oid);
    }
  }

  lemma {:induction false} FindsInstanceIff(raise: seq<Object>, clear: seq<Object>, forcePositional: bool)
    ensures FindsInstance(TokenFrom(raise, clear, 0, forcePositional), raise, clear)
       <==> SamePlace(raise, clear, forcePositional)
  {
    if SharesNothing(raise, clear) {
      NoToken(raise, clear, 0, forcePositional);
    } else {
      FirstExists(raise, clear);
      var a: nat :| FirstSharedAt(raise, clear, a);
      TokenReads(raise, clear, a, forcePositional);
      forall b: nat | FirstSharedAt(raise, clear, b) ensures b == a {
        OneFirst(raise, clear, a, b);
      }
    }
  }

  /**
   * Exactly when a clear finds the instance it was raised for. The alarm is kept under a key scoped by one token, the
   * clear key is that key, and its token means the same object in both traps if and only if the OBJECTS lists share
   * nothing, or what the raise shares first is named by OID or sits at the same place in both.
   */
  lemma {:induction false} PairSharesInstance(evs: seq<Event>, notifs: seq<Notification>, base: string,
      forcePositional: bool, i: nat, j: nat)
    requires Matched(notifs) && ExportOf(evs, notifs, base, forcePositional) && Resolves(notifs, i, j)
    ensures IsAlarm(evs, i, Resolution) && IsAlarm(evs, j, Problem)
    ensures var tok := TokenOf(notifs, notifs[j], forcePositional);
            && KeptUnder(evs[j]) == Bound(evs[j].uei, tok) == evs[i].alarm.value.clearKey
            && (FindsInstance(tok, notifs[j].objects, notifs[i].objects)
                <==> SamePlace(notifs[j].objects, notifs[i].objects, forcePositional))
  {
    PartnersOfPair(notifs, i, j);
    ClearKeyOfPair(evs, notifs, base, forcePositional, i, j);
    KeptUnderIs(evs, notifs, base, forcePositional, j);
    FindsInstanceIff(notifs[j].objects, notifs[i].objects, forcePositional);
  }

  /** In particular for a pair that binds the same objects in the same order. */
  lemma {:induction false} SameObjectsShareInstance(objects: seq<Object>, forcePositional: bool)
    ensures SamePlace(objects, objects, forcePositional)
  {
    if !SharesNothing(objects, objects) {
      FirstExists(objects, objects);
      var a: nat :| FirstSharedAt(objects, objects, a);
      assert PlacedAlike(objects, objects, a, forcePositional);
    }
  }
}
