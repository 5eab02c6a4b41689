/** From the inferred relationships to the exported alarms: every clear resolves its own problem and nothing else. */
module AlarmMatching {
  import opened Model
  import opened Eventconf
  import C = Correlate
  import S = Signals
  import PairingLaws

  /** The gate sees exactly the High verdicts. */
  lemma {:induction false} HighOfIs(rels: seq<C.Relationship>, n: string)
    requires forall i, j :: 0 <= i < j < |rels| ==> rels[i].notification != rels[j].notification
    ensures n in HighOf(rels)
       <==> exists i :: 0 <= i < |rels| && rels[i].notification == n && rels[i].confidence == C.High
    ensures forall i :: 0 <= i < |rels| && rels[i].notification == n && n in HighOf(rels) ==> HighOf(rels)[n] == rels[i]
  {
    if rels != [] {
      HighOfIs(rels[..|rels| - 1], n);
    }
  }

  predicate IsHigh(facts: map<string, C.Facts>, n: string) {
    n in facts && C.Verdict(facts, n).confidence == C.High
  }

  lemma {:induction false} HighOfVerdicts(facts: map<string, C.Facts>, n: string)
    ensures n in HighOf(C.Verdicts(facts)) <==> IsHigh(facts, n)
    ensures n in HighOf(C.Verdicts(facts)) ==> HighOf(C.Verdicts(facts))[n] == C.Verdict(facts, n)
  {
    var rels, q := C.Verdicts(facts), S.SortedNames(facts.Keys);
    C.SortedAreKeys(facts);
    assert |rels| == |q|;
    forall i | 0 <= i < |rels| ensures rels[i].notification == q[i] && rels[i] == C.Verdict(facts, q[i]) {
      PairingLaws.OnePerNotification(facts, i);
    }
    HighOfIs(rels, n);
    if n in facts {
      var i :| 0 <= i < |q| && q[i] == n;
      assert rels[i].notification == n;
    }
  }

  /** A High pair: both ends are paired with each other only. */
  ghost predicate HighPair(facts: map<string, C.Facts>, r: string, c: string) {
    && IsHigh(facts, r) && IsHigh(facts, c)
    && C.Edge(facts, r, c) && C.Partners(facts, r) == {c} && C.Partners(facts, c) == {r}
  }

  lemma {:induction false} HighHasOnePartner(facts: map<string, C.Facts>, n: string, p: string)
    requires IsHigh(facts, n) && C.Linked(facts, n, p)
    ensures C.Partners(facts, n) == {p}
  {
    PairingLaws.RolesAreEdges(facts, n);
    PairingLaws.HighMeans(facts, n);
    assert p in C.Partners(facts, n);
    PairingLaws.OnlyOne(C.Partners(facts, n), p);
  }

  lemma {:induction false} HighClear(facts: map<string, C.Facts>, c: string)
    requires IsHigh(facts, c) && C.Verdict(facts, c).role == C.Clear
    ensures exists r :: C.Verdict(facts, c).clears == [r] && C.Edge(facts, r, c)
  {
    PairingLaws.RolesAreEdges(facts, c);
    PairingLaws.HighMeans(facts, c);
    var clears := C.Verdict(facts, c).clears;
    assert clears == [clears[0]] && clears[0] in clears;
  }

  lemma {:induction false} GateClear(high: map<string, C.Relationship>, n: string, r: string)
    requires n in high && high[n].role == C.Clear && high[n].clears == [r]
    ensures Gated(high, n) == if r in high then Relation(Some(Resolution), [r]) else UNCLASSIFIED
  {
    assert [r][..0] == [] && OnlyHigh(high, []) == [];
    assert OnlyHigh(high, [r]) == if r in high then [r] else [];
  }

  lemma {:induction false} HighClearPairs(facts: map<string, C.Facts>, r: string, c: string)
    requires IsHigh(facts, r) && IsHigh(facts, c) && C.Edge(facts, r, c)
    ensures HighPair(facts, r, c)
  {
    HighHasOnePartner(facts, c, r);
    HighHasOnePartner(facts, r, c);
  }

  ghost predicate ResolvesPair(facts: map<string, C.Facts>, rel: Relation, c: string) {
    exists r :: rel.clears == [r] && HighPair(facts, r, c)
  }

  /** What survives the gate: a resolution names the other end of its High pair, and nothing else names anybody. */
  lemma {:induction false} GatedIs(facts: map<string, C.Facts>, n: string)
    ensures var rel := Gated(HighOf(C.Verdicts(facts)), n);
            if rel.alarmType == Some(Resolution) then ResolvesPair(facts, rel, n) else rel.clears == []
  {
    HighOfVerdicts(facts, n);
    if IsHigh(facts, n) && C.Verdict(facts, n).role == C.Clear {
      GatedClear(facts, n);
    } else {
      NotAClear(HighOf(C.Verdicts(facts)), n);
    }
  }

  lemma {:induction false} NotAClear(high: map<string, C.Relationship>, n: string)
    requires n in high ==> high[n].role != C.Clear
    ensures Gated(high, n).alarmType != Some(Resolution) && Gated(high, n).clears == []
  {}

  lemma {:induction false} GatedClear(facts: map<string, C.Facts>, n: string)
    requires IsHigh(facts, n) && C.Verdict(facts, n).role == C.Clear
    ensures var rel := Gated(HighOf(C.Verdicts(facts)), n);
            rel == UNCLASSIFIED || (rel.alarmType == Some(Resolution) && ResolvesPair(facts, rel, n))
  {
    HighClear(facts, n);
    var r :| C.Verdict(facts, n).clears == [r] && C.Edge(facts, r, n);
    HighOfVerdicts(facts, n);
    HighOfVerdicts(facts, r);
    GateClear(HighOf(C.Verdicts(facts)), n, r);
    if IsHigh(facts, r) {
      HighClearPairs(facts, r, n);
      assert Gated(HighOf(C.Verdicts(facts)), n).clears == [r];
    }
  }

  /** The problem of a High pair is exported as one. */
  lemma {:induction false} RaiseIsProblem(facts: map<string, C.Facts>, r: string, c: string)
    requires HighPair(facts, r, c)
    ensures Gated(HighOf(C.Verdicts(facts)), r) == Relation(Some(Problem), [])
  {
    HighOfVerdicts(facts, r);
    PairingLaws.RolesAreEdges(facts, r);
  }

  /** The notifications of a module with the relations the handler attaches. */
  ghost predicate Attached(notifs: seq<Notification>, facts: map<string, C.Facts>) {
    && DistinctNames(notifs)
    && (forall i :: 0 <= i < |notifs| ==> notifs[i].rel == Gated(HighOf(C.Verdicts(facts)), notifs[i].name))
    && (forall n :: n in facts ==> exists i :: 0 <= i < |notifs| && notifs[i].name == n)
  }

  // ---- A matching ----

  /** `c` resolves `r`, and `r` is there as a problem. */
  ghost predicate Resolves(notifs: seq<Notification>, c: nat, r: nat) {
    && c < |notifs| && r < |notifs|
    && notifs[c].rel == Relation(Some(Resolution), [notifs[r].name]) && notifs[r].rel == Relation(Some(Problem), [])
  }

  /** Every resolution has its own problem, and only resolutions name anybody. */
  ghost predicate Matched(notifs: seq<Notification>) {
    && DistinctNames(notifs)
    && (forall i :: 0 <= i < |notifs| ==>
          if notifs[i].rel.alarmType == Some(Resolution) then exists j: nat :: Resolves(notifs, i, j)
          else notifs[i].rel.clears == [])
    && (forall i: nat, k: nat, j: nat :: Resolves(notifs, i, j) && Resolves(notifs, k, j) ==> i == k)
  }

  lemma {:induction false} AttachedResolves(notifs: seq<Notification>, facts: map<string, C.Facts>, i: nat)
    requires Attached(notifs, facts) && i < |notifs| && notifs[i].rel.alarmType == Some(Resolution)
    ensures exists j: nat :: Resolves(notifs, i, j)
  {
    var c := notifs[i].name;
    GatedIs(facts, c);
    var r :| notifs[i].rel.clears == [r] && HighPair(facts, r, c);
    RaiseIsProblem(facts, r, c);
    var j :| 0 <= j < |notifs| && notifs[j].name == r;
    assert Resolves(notifs, i, j);
  }

  lemma {:induction false} ResolvesIsHighPair(notifs: seq<Notification>, facts: map<string, C.Facts>, i: nat, j: nat)
    requires Attached(notifs, facts) && Resolves(notifs, i, j)
    ensures HighPair(facts, notifs[j].name, notifs[i].name)
  {
    GatedIs(facts, notifs[i].name);
    var r :| notifs[i].rel.clears == [r] && HighPair(facts, r, notifs[i].name);
    assert [r][0] == notifs[j].name;
  }

  /** After inference and the High gate the resolutions and problems match one to one. */
  lemma {:induction false} InferredAlarmsMatch(notifs: seq<Notification>, facts: map<string, C.Facts>)
    requires Attached(notifs, facts)
    ensures Matched(notifs)
  {
    forall i | 0 <= i < |notifs|
      ensures if notifs[i].rel.alarmType == Some(Resolution) then exists j: nat :: Resolves(notifs, i, j)
              else notifs[i].rel.clears == []
    {
      GatedIs(facts, notifs[i].name);
      if notifs[i].rel.alarmType == Some(Resolution) {
        AttachedResolves(notifs, facts, i);
      }
    }
    forall i: nat, k: nat, j: nat | Resolves(notifs, i, j) && Resolves(notifs, k, j) ensures i == k {
      ResolvesIsHighPair(notifs, facts, i, j);
      ResolvesIsHighPair(notifs, facts, k, j);
      assert notifs[i].name in {notifs[k].name};
    }
  }

  // ---- The keys ----

  /** The key under which an event's alarm is kept: its reduction key with the UEI filled in. */
  function KeptUnder(e: Event): string
    requires e.alarm.Some?
  {
    ReplaceFirst(e.alarm.value.reductionKey, UEI, e.uei)
  }

  /** The export of `notifs`. */
  ghost predicate ExportOf(evs: seq<Event>, notifs: seq<Notification>, base: string, forcePositional: bool) {
    |evs| == |notifs| && forall i :: 0 <= i < |evs| ==> evs[i] == EventOf(notifs, base, notifs[i], forcePositional)
  }

  ghost predicate IsAlarm(evs: seq<Event>, i: nat, t: AlarmType) {
    i < |evs| && evs[i].alarm.Some? && evs[i].alarm.value.alarmType == t
  }

  /** The clear key of event `i` is the key of the alarm of `j` and of no other event. */
  ghost predicate ClearsExactly(evs: seq<Event>, i: nat, j: nat)
    requires IsAlarm(evs, i, Resolution) && j < |evs|
  {
    && evs[j].alarm.Some? && evs[i].alarm.value.clearKey == KeptUnder(evs[j])
    && forall k :: 0 <= k < |evs| && k != j && evs[k].alarm.Some? ==> evs[i].alarm.value.clearKey != KeptUnder(evs[k])
  }

  lemma {:induction false} KeptUnderIs(evs: seq<Event>, notifs: seq<Notification>, base: string, forcePositional: bool,
      k: nat)
    requires ExportOf(evs, notifs, base, forcePositional) && k < |evs| && evs[k].alarm.Some?
    ensures KeptUnder(evs[k]) == AlarmKey(notifs, base, notifs[k], forcePositional)
  {
    BoundKey(evs[k].uei, TokenOf(notifs, notifs[k], forcePositional));
  }

  lemma {:induction false} ClearKeyOfPair(evs: seq<Event>, notifs: seq<Notification>, base: string,
      forcePositional: bool, i: nat, j: nat)
    requires Matched(notifs) && ExportOf(evs, notifs, base, forcePositional) && Resolves(notifs, i, j)
    ensures IsAlarm(evs, i, Resolution) && IsAlarm(evs, j, Problem)
    ensures evs[i].alarm.value.clearKey == AlarmKey(notifs, base, notifs[j], forcePositional)
  {
    FindAt(notifs, j);
    assert evs[i] == EventOf(notifs, base, notifs[i], forcePositional);
    assert evs[j] == EventOf(notifs, base, notifs[j], forcePositional);
  }

  /** With names free of ':' (RFC 2578, section 3.1), a resolution clears the alarm of its problem and no other. */
  lemma {:induction false} PairClearsExactly(evs: seq<Event>, notifs: seq<Notification>, base: string,
      forcePositional: bool, i: nat, j: nat)
    requires Matched(notifs) && ExportOf(evs, notifs, base, forcePositional) && Resolves(notifs, i, j)
    requires forall n :: n in notifs ==> NoColon(n.name)
    ensures IsAlarm(evs, i, Resolution) && IsAlarm(evs, j, Problem) && ClearsExactly(evs, i, j)
  {
    ClearKeyOfPair(evs, notifs, base, forcePositional, i, j);
    KeptUnderIs(evs, notifs, base, forcePositional, j);
    forall k | 0 <= k < |evs| && k != j && evs[k].alarm.Some?
      ensures evs[i].alarm.value.clearKey != KeptUnder(evs[k])
    {
      KeptUnderIs(evs, notifs, base, forcePositional, k);
      KeysTellNames(notifs, base, forcePositional, j, k);
    }
  }

  lemma {:induction false} KeysTellNames(notifs: seq<Notification>, base: string, forcePositional: bool, j: nat, k: nat)
    requires DistinctNames(notifs) && j < |notifs| && k < |notifs| && j != k
    requires forall n :: n in notifs ==> NoColon(n.name)
    ensures AlarmKey(notifs, base, notifs[j], forcePositional) != AlarmKey(notifs, base, notifs[k], forcePositional)
  {
    var t, u := TokenOf(notifs, notifs[j], forcePositional), TokenOf(notifs, notifs[k], forcePositional);
    assert notifs[j] in notifs && notifs[k] in notifs;
    if AlarmKey(notifs, base, notifs[j], forcePositional) == AlarmKey(notifs, base, notifs[k], forcePositional) {
      KeysDiffer(base, notifs[j].name, t, notifs[k].name, u);
    }
  }

  /** Event `i` clears the alarm of the problem paired with it, and only that alarm. */
  ghost predicate ClearsItsProblem(evs: seq<Event>, notifs: seq<Notification>, facts: map<string, C.Facts>, i: nat)
    requires |evs| == |notifs| && IsAlarm(evs, i, Resolution)
  {
    exists j: nat :: j < |evs| && HighPair(facts, notifs[j].name, notifs[i].name)
                     && IsAlarm(evs, j, Problem) && ClearsExactly(evs, i, j)
  }

  /**
   * The exported alarms form a matching: each clear resolves exactly the raise it was paired with, and no two
   * clears share one.
   */
  lemma {:induction false} ExportIsMatching(evs: seq<Event>, notifs: seq<Notification>, facts: map<string, C.Facts>,
      base: string, forcePositional: bool, i: nat)
    requires Attached(notifs, facts) && ExportOf(evs, notifs, base, forcePositional)
    requires IsAlarm(evs, i, Resolution) && forall n :: n in notifs ==> NoColon(n.name)
    ensures ClearsItsProblem(evs, notifs, facts, i)
    ensures forall k: nat :: IsAlarm(evs, k, Resolution) && i != k ==>
              evs[i].alarm.value.clearKey != evs[k].alarm.value.clearKey
  {
    InferredAlarmsMatch(notifs, facts);
    AttachedResolves(notifs, facts, i);
    var j: nat :| Resolves(notifs, i, j);
    PairClearsExactly(evs, notifs, base, forcePositional, i, j);
    ResolvesIsHighPair(notifs, facts, i, j);
    OthersClearElsewhere(evs, notifs, base, forcePositional, i);
  }

  lemma {:induction false} OthersClearElsewhere(evs: seq<Event>, notifs: seq<Notification>, base: string,
      forcePositional: bool, i: nat)
    requires Matched(notifs) && ExportOf(evs, notifs, base, forcePositional)
    requires IsAlarm(evs, i, Resolution) && forall n :: n in notifs ==> NoColon(n.name)
    ensures forall k: nat :: IsAlarm(evs, k, Resolution) && i != k ==>
              evs[i].alarm.value.clearKey != evs[k].alarm.value.clearKey
  {
    forall k: nat | IsAlarm(evs, k, Resolution) && i != k
      ensures evs[i].alarm.value.clearKey != evs[k].alarm.value.clearKey
    {
      ClearKeysDiffer(evs, notifs, base, forcePositional, i, k);
    }
  }

  lemma {:induction false} ClearKeysDiffer(evs: seq<Event>, notifs: seq<Notification>, base: string,
      forcePositional: bool, i: nat, k: nat)
    requires Matched(notifs) && ExportOf(evs, notifs, base, forcePositional) && i != k
    requires IsAlarm(evs, i, Resolution) && IsAlarm(evs, k, Resolution)
    requires forall n :: n in notifs ==> NoColon(n.name)
    ensures evs[i].alarm.value.clearKey != evs[k].alarm.value.clearKey
  {
    var j: nat :| Resolves(notifs, i, j);
    var l: nat :| Resolves(notifs, k, l);
    assert j != l;
    ClearKeyOfPair(evs, notifs, base, forcePositional, i, j);
    ClearKeyOfPair(evs, notifs, base, forcePositional, k, l);
    KeysTellNames(notifs, base, forcePositional, j, l);
  }
}
