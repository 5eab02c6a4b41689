/** Inferred and exported pairs of linkDown and linkUp whose clear does not find its instance. */
module LinkTraps {
  import opened Model
  import opened Decimal
  import opened Eventconf
  import opened AlarmMatching
  import opened InstanceScope
  import C = Correlate
  import S = Signals
  import PairingLaws

  /** One root, opposite words and a shared varbind make a High pair, whatever else the two bind. */
  lemma {:induction false} RootAndVarbindAreHigh(t: map<string, C.Facts>, r: string, c: string)
    requires t.Keys == {r, c} && r != c && t[r].eff == S.RaiseDir && t[c].eff == S.ClearDir
    requires t[r].legacy == t[c].legacy && C.SameRoot(t[r], t[c]) && !C.Conflict(t[r]) && !C.Conflict(t[c])
    requires S.FirstShared(t[r].vb, t[c].vb) != "" && S.FirstShared(t[c].vb, t[r].vb) != ""
    ensures HighPair(t, r, c) && C.Verdict(t, c).role == C.Clear
  {
    assert C.Edge(t, r, c) && !C.Edge(t, c, r) && !C.Edge(t, r, r) && !C.Edge(t, c, c);
    assert C.Partners(t, r) == {c} && C.Partners(t, c) == {r};
    HighWithOne(t, r, c);
    HighWithOne(t, c, r);
    PairingLaws.RoleOf(t, c);
  }

  lemma {:induction false} HighWithOne(t: map<string, C.Facts>, n: string, p: string)
    requires n in t && p in t && C.Partners(t, n) == {p} && C.SameRoot(t[n], t[p]) && !C.Conflict(t[n])
    requires S.FirstShared(t[n].vb, t[p].vb) != ""
    ensures C.Verdict(t, n).confidence == C.High
  {
    var s := C.SignalsWith(t, n, {p});
    assert p in {p} && s.name && s.varbind;
    assert |S.SortedNames({p})| == 1;
  }

  lemma {:induction false} HighPairAttaches(t: map<string, C.Facts>, r: string, c: string)
    requires HighPair(t, r, c) && C.Verdict(t, c).role == C.Clear
    ensures Gated(HighOf(C.Verdicts(t)), r) == Relation(Some(Problem), [])
    ensures Gated(HighOf(C.Verdicts(t)), c) == Relation(Some(Resolution), [r])
  {
    RaiseIsProblem(t, r, c);
    HighClear(t, c);
    var x :| C.Verdict(t, c).clears == [x] && C.Edge(t, x, c);
    assert x in C.Partners(t, c);
    HighOfVerdicts(t, c);
    HighOfVerdicts(t, r);
    GateClear(HighOf(C.Verdicts(t)), c, r);
  }

  const STATE := Object("1.3.6.1.2.1.2.2.1.7", Column, false)
  const INDEX := Object("1.3.6.1.2.1.2.2.1.1", Column, false)

  function Down(objects: seq<Object>): Notification {
    Notification("linkDown", objects, Relation(Some(Problem), []))
  }

  function Up(objects: seq<Object>): Notification {
    Notification("linkUp", objects, Relation(Some(Resolution), ["linkDown"]))
  }

  const SYMBOLS :=
    [S.Symbol("linkDown", NotificationType, S.Current, "", ""), S.Symbol("linkUp", NotificationType, S.Current, "", "")]

  function BindsVar(notification: string, varbind: string): S.Ref {
    S.Ref(S.NotificationObject, "M", notification, "M", varbind)
  }

  const ROWS := [BindsVar("linkDown", "ifAdminStatus"), BindsVar("linkDown", "ifIndex"), BindsVar("linkUp", "ifIndex")]
  const BOTH_ROWS := [BindsVar("linkDown", "ifAdminStatus"), BindsVar("linkDown", "ifIndex"),
                      BindsVar("linkUp", "ifAdminStatus"), BindsVar("linkUp", "ifIndex")]

  const WORDS := S.Vocabulary({"down"}, {"up"}, [], [])

  lemma {:induction false} ScanBoundary(name: string, m: nat)
    requires m < |name| && S.Boundary(name, m)
    ensures S.Scan(name, m + 1).0 == S.Flush(S.Scan(name, m).0, S.Scan(name, m).1)
    ensures S.Scan(name, m + 1).1 == [name[m]]
  {}

  /** A word, and a second one that begins with a capital. */
  lemma {:induction false} TwoWords(name: string, m: nat)
    requires 0 < m < |name| && (forall k :: 0 <= k < m ==> S.IsLower(name[k])) && S.IsUpper(name[m])
    requires forall k :: m < k < |name| ==> S.IsLower(name[k])
    ensures S.Tokens(name) == [Lower(name[..m]), Lower(name[m..])]
  {
    S.LowerRun(name, 0, m);
    assert S.Scan(name, 0).0 == [] && S.Scan(name, 0).1 == [];
    assert [] + name[0..m] == name[..m];
    ScanBoundary(name, m);
    S.LowerRun(name, m + 1, |name|);
    assert [name[m]] + name[m + 1..|name|] == name[m..];
    var (toks, cur) := S.Scan(name, |name|);
    assert toks == [Lower(name[..m])] && cur == name[m..];
  }

  lemma {:induction false} LinkNames()
    ensures S.Tokens("linkDown") == ["link", "down"] && S.Tokens("linkUp") == ["link", "up"]
  {
    TwoWords("linkDown", 4);
    TwoWords("linkUp", 4);
    assert "linkDown"[..4] == "link" && "linkUp"[..4] == "link";
    assert "linkDown"[4..] == "Down" && "linkUp"[4..] == "Up";
    assert Lower("link") == "link" && Lower("Down") == "down" && Lower("Up") == "up";
  }

  lemma {:induction false} NamedDirection(s: S.Symbol, rows: seq<S.Ref>, second: string, dir: S.Direction)
    requires S.Tokens(s.name) == ["link", second] && S.TokenDirection(second, WORDS) == dir && dir != S.Neither
    requires !S.Legacy(s.status)
    ensures var f := C.FactsOf(s, rows, C.Names(SYMBOLS), WORDS);
            f.root == "link" && f.nameDir == dir && f.eff == dir && !f.legacy && f.vb == S.VarbindsOf(rows, s.name)
            && !C.Conflict(f)
  {
    var toks := ["link", second];
    assert |"link"| == 4 && |"down"| == 4 && |"up"| == 2 && "link"[0] != "down"[0];
    assert S.TokenDirection(toks[0], WORDS) == S.Neither;
    assert toks[..1] + toks[2..] == ["link"];
  }

  lemma {:induction false} LinkFacts(rows: seq<S.Ref>)
    ensures var t := C.ModuleFacts(SYMBOLS, rows, WORDS);
            && t.Keys == {"linkDown", "linkUp"}
            && t["linkDown"] == C.FactsOf(SYMBOLS[0], rows, C.Names(SYMBOLS), WORDS)
            && t["linkUp"] == C.FactsOf(SYMBOLS[1], rows, C.Names(SYMBOLS), WORDS)
  {
    var down, up := SYMBOLS[0], SYMBOLS[1];
    assert |down.name| != |up.name|;
    PairingLaws.TwoSymbols(down, up);
    assert SYMBOLS == [down, up];
  }

  /** Both notifications bind the index. */
  predicate ShareIndex(rows: seq<S.Ref>) {
    BindsVar("linkDown", "ifIndex") in rows && BindsVar("linkUp", "ifIndex") in rows
  }

  lemma {:induction false} LinksShareIndex(rows: seq<S.Ref>)
    requires ShareIndex(rows)
    ensures var down, up := S.VarbindsOf(rows, "linkDown"), S.VarbindsOf(rows, "linkUp");
            S.FirstShared(down, up) != "" && S.FirstShared(up, down) != ""
  {
    var key := S.Key("M", "ifIndex");
    var down, up := S.VarbindsOf(rows, "linkDown"), S.VarbindsOf(rows, "linkUp");
    assert key in down && key in up;
    assert key in down * up && key in up * down;
    assert "" !in down && "" !in up;
  }

  /** Whatever else they bind, the two are inferred as a High pair. */
  lemma {:induction false} LinksPair(rows: seq<S.Ref>)
    requires ShareIndex(rows)
    ensures var t := C.ModuleFacts(SYMBOLS, rows, WORDS);
            HighPair(t, "linkDown", "linkUp") && C.Verdict(t, "linkUp").role == C.Clear
            && t.Keys == {"linkDown", "linkUp"}
  {
    LinkFacts(rows);
    LinkNames();
    NamedDirection(SYMBOLS[0], rows, "down", S.RaiseDir);
    NamedDirection(SYMBOLS[1], rows, "up", S.ClearDir);
    LinksShareIndex(rows);
    assert |"linkDown"| != |"linkUp"|;
    RootAndVarbindAreHigh(C.ModuleFacts(SYMBOLS, rows, WORDS), "linkDown", "linkUp");
  }

  lemma {:induction false} PairAttached(t: map<string, C.Facts>, r: Notification, c: Notification)
    requires t.Keys == {r.name, c.name} && r.name != c.name
    requires r.rel == Relation(Some(Problem), []) && c.rel == Relation(Some(Resolution), [r.name])
    requires HighPair(t, r.name, c.name) && C.Verdict(t, c.name).role == C.Clear
    ensures Attached([c, r], t) && Matched([c, r]) && Resolves([c, r], 0, 1)
  {
    HighPairAttaches(t, r.name, c.name);
    TwoAttached(t, r, c);
    InferredAlarmsMatch([c, r], t);
    assert [c, r][0] == c && [c, r][1] == r;
  }

  lemma {:induction false} TwoNames(c: Notification, r: Notification)
    requires c.name != r.name
    ensures DistinctNames([c, r])
  {
    assert [c, r][0] == c && [c, r][1] == r;
  }

  ghost predicate GatedBy(notifs: seq<Notification>, gate: string -> Relation, names: set<string>) {
    && DistinctNames(notifs)
    && (forall i :: 0 <= i < |notifs| ==> notifs[i].rel == gate(notifs[i].name))
    && (forall n :: n in names ==> exists i :: 0 <= i < |notifs| && notifs[i].name == n)
  }

  lemma {:induction false} TwoGated(c: Notification, r: Notification, gate: string -> Relation)
    requires r.name != c.name && r.rel == gate(r.name) && c.rel == gate(c.name)
    ensures GatedBy([c, r], gate, {r.name, c.name})
  {
    var notifs := [c, r];
    assert notifs[0] == c && notifs[1] == r;
    TwoNames(c, r);
  }

  lemma {:induction false} AttachedBy(notifs: seq<Notification>, t: map<string, C.Facts>)
    requires GatedBy(notifs, n => Gated(HighOf(C.Verdicts(t)), n), t.Keys)
    ensures Attached(notifs, t)
  {}

  lemma {:induction false} TwoAttached(t: map<string, C.Facts>, r: Notification, c: Notification)
    requires t.Keys == {r.name, c.name} && r.name != c.name
    requires r.rel == Gated(HighOf(C.Verdicts(t)), r.name) && c.rel == Gated(HighOf(C.Verdicts(t)), c.name)
    ensures Attached([c, r], t)
  {
    TwoGated(c, r, n => Gated(HighOf(C.Verdicts(t)), n));
    AttachedBy([c, r], t);
  }

  lemma {:induction false} UpResolvesDown(rows: seq<S.Ref>, up: seq<Object>, down: seq<Object>)
    requires ShareIndex(rows)
    ensures Attached([Up(up), Down(down)], C.ModuleFacts(SYMBOLS, rows, WORDS))
    ensures Matched([Up(up), Down(down)]) && Resolves([Up(up), Down(down)], 0, 1)
  {
    LinksPair(rows);
    assert |Down(down).name| != |Up(up).name|;
    PairAttached(C.ModuleFacts(SYMBOLS, rows, WORDS), Down(down), Up(up));
  }

  /** The exported clear key, and whether it finds the alarm of the instance. */
  lemma {:induction false} LinkExport(evs: seq<Event>, base: string, forcePositional: bool, rows: seq<S.Ref>,
      up: seq<Object>, down: seq<Object>)
    requires ShareIndex(rows) && ExportOf(evs, [Up(up), Down(down)], base, forcePositional)
    ensures IsAlarm(evs, 0, Resolution)
    ensures evs[0].alarm.value.clearKey
         == Bound(UeiOf(base, "linkDown"), TokenFrom(down, up, 0, forcePositional))
    ensures FindsInstance(TokenFrom(down, up, 0, forcePositional), down, up) <==> SamePlace(down, up, forcePositional)
  {
    UpResolvesDown(rows, up, down);
    PartnersOfPair([Up(up), Down(down)], 0, 1);
    PairSharesInstance(evs, [Up(up), Down(down)], base, forcePositional, 0, 1);
  }

  lemma {:induction false} NotSamePlace(down: seq<Object>, up: seq<Object>, a: nat, forcePositional: bool)
    requires FirstSharedAt(down, up, a) && !PlacedAlike(down, up, a, forcePositional)
    ensures !SamePlace(down, up, forcePositional)
  {
    forall b: nat | FirstSharedAt(down, up, b) ensures b == a {
      OneFirst(down, up, a, b);
    }
  }

  lemma {:induction false} SecondIsIndex(forcePositional: bool)
    ensures TokenFrom([STATE, INDEX], [INDEX], 0, forcePositional) == "%parm[#2]%"
    ensures !SamePlace([STATE, INDEX], [INDEX], forcePositional)
  {
    var down, up := [STATE, INDEX], [INDEX];
    assert up[0] in up && STATE.oid != INDEX.oid;
    assert SharedAt(down, up, 1) && !SharedAt(down, up, 0);
    assert FirstSharedAt(down, up, 1);
    TokenAt(down, up, 0, 1, forcePositional);
    assert Dec(2) == "2";
    NotSamePlace(down, up, 1, forcePositional);
  }

  lemma {:induction false} FirstIsShared(down: seq<Object>, up: seq<Object>, forcePositional: bool)
    requires |down| > 0 && SharedAt(down, up, 0) && !ByOid(down[0], forcePositional)
    ensures TokenFrom(down, up, 0, forcePositional) == "%parm[#1]%"
  {
    assert FirstSharedAt(down, up, 0);
    TokenAt(down, up, 0, 0, forcePositional);
    assert Dec(1) == "1";
  }

  lemma {:induction false} SwappedTokens(forcePositional: bool)
    ensures TokenFrom([INDEX, STATE], [STATE, INDEX], 0, forcePositional) == "%parm[#1]%"
         == TokenFrom([STATE, INDEX], [INDEX, STATE], 0, forcePositional)
    ensures !SamePlace([INDEX, STATE], [STATE, INDEX], forcePositional)
  {
    var down, up := [INDEX, STATE], [STATE, INDEX];
    assert up[0] in up && up[1] in up && down[0] in down && down[1] in down && STATE.oid != INDEX.oid;
    assert SharedAt(down, up, 0) && SharedAt(up, down, 0);
    FirstIsShared(down, up, forcePositional);
    FirstIsShared(up, down, forcePositional);
    assert FirstSharedAt(down, up, 0);
    NotSamePlace(down, up, 0, forcePositional);
  }

  /**
   * Inferred with High confidence and exported; the clear binds one object, yet its clear key asks for its second
   * parameter.
   */
  lemma {:induction false} ClearAsksForAnotherParameter(evs: seq<Event>, base: string, forcePositional: bool)
    requires ExportOf(evs, [Up([INDEX]), Down([STATE, INDEX])], base, forcePositional)
    ensures Attached([Up([INDEX]), Down([STATE, INDEX])], C.ModuleFacts(SYMBOLS, ROWS, WORDS))
    ensures Resolves([Up([INDEX]), Down([STATE, INDEX])], 0, 1)
    ensures IsAlarm(evs, 0, Resolution)
    ensures evs[0].alarm.value.clearKey == Bound(UeiOf(base, "linkDown"), "%parm[#2]%")
    ensures !FindsInstance("%parm[#2]%", [STATE, INDEX], [INDEX])
  {
    var down, up := [STATE, INDEX], [INDEX];
    assert ROWS[1] in ROWS && ROWS[2] in ROWS;
    UpResolvesDown(ROWS, up, down);
    LinkExport(evs, base, forcePositional, ROWS, up, down);
    SecondIsIndex(forcePositional);
  }

  /**
   * Inferred with High confidence and exported, both ends with the same objects and scoped by the same text; but
   * the first parameter is the index in the raise and the state in the clear.
   */
  lemma {:induction false} SwappedObjectsMissInstance(evs: seq<Event>, base: string, forcePositional: bool)
    requires ExportOf(evs, [Up([STATE, INDEX]), Down([INDEX, STATE])], base, forcePositional)
    ensures Attached([Up([STATE, INDEX]), Down([INDEX, STATE])], C.ModuleFacts(SYMBOLS, BOTH_ROWS, WORDS))
    ensures Resolves([Up([STATE, INDEX]), Down([INDEX, STATE])], 0, 1)
    ensures IsAlarm(evs, 0, Resolution) && SameScope([STATE, INDEX], [INDEX, STATE], forcePositional)
    ensures evs[0].alarm.value.clearKey == Bound(UeiOf(base, "linkDown"), "%parm[#1]%")
    ensures !FindsInstance("%parm[#1]%", [INDEX, STATE], [STATE, INDEX])
  {
    var down, up := [INDEX, STATE], [STATE, INDEX];
    assert BOTH_ROWS[1] in BOTH_ROWS && BOTH_ROWS[3] in BOTH_ROWS;
    UpResolvesDown(BOTH_ROWS, up, down);
    LinkExport(evs, base, forcePositional, BOTH_ROWS, up, down);
    SwappedTokens(forcePositional);
    TokensAgree(up, down, forcePositional);
  }
}
