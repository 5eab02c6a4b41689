/** Alarm export: the High-confidence gate of the events handler and the two passes of internal/eventconf/convert.go. */
module Eventconf {
  import opened Model
  import opened Decimal
  import C = Correlate

  datatype AlarmType = Problem | Resolution | Standalone

  datatype Object = Object(oid: string, kind: Kind, accessibleNotify: bool)

  /** No alarm type is an unclassified notification. */
  datatype Relation = Relation(alarmType: Option<AlarmType>, clears: seq<string>)

  datatype Notification = Notification(name: string, objects: seq<Object>, rel: Relation)

  datatype Alarm = Alarm(reductionKey: string, alarmType: AlarmType, clearKey: string)

  datatype Event = Event(uei: string, alarm: Option<Alarm>)

  const UNCLASSIFIED := Relation(None, [])

  // ---- The High gate (handleModuleEvents) ----

  function AlarmTypeOf(role: C.Class): AlarmType {
    match role
    case Raise => Problem
    case Clear => Resolution
    case Orphan => Standalone
  }

  function OnlyHigh(high: map<string, C.Relationship>, names: seq<string>): seq<string> {
    if names == [] then []
    else OnlyHigh(high, names[..|names| - 1]) + (if names[|names| - 1] in high then [names[|names| - 1]] else [])
  }

  /** The relation exported for a notification: High ones only, a clear only with a High raise left to resolve. */
  function Gated(high: map<string, C.Relationship>, n: string): Relation {
    if n !in high then UNCLASSIFIED
    else
      var rel := high[n];
      var clears := if rel.role == C.Clear then OnlyHigh(high, rel.clears) else [];
      if rel.role == C.Clear && clears == [] then UNCLASSIFIED else Relation(Some(AlarmTypeOf(rel.role)), clears)
  }

  ghost function HighOf(rels: seq<C.Relationship>): map<string, C.Relationship> {
    if rels == [] then map[]
    else
      var m, rel := HighOf(rels[..|rels| - 1]), rels[|rels| - 1];
      if rel.confidence == C.High then m[rel.notification := rel] else m
  }

  method CollectHigh(rels: seq<C.Relationship>) returns (high: map<string, C.Relationship>)
    ensures high == HighOf(rels)
  {
    high := map[];
    for i := 0 to |rels|
      invariant high == HighOf(rels[..i])
    {
      assert rels[..i + 1][..i] == rels[..i];
      if rels[i].confidence == C.High {
        high := high[rels[i].notification := rels[i]];
      }
    }
    assert rels[..|rels|] == rels;
  }

  method KeepHigh(high: map<string, C.Relationship>, names: seq<string>) returns (kept: seq<string>)
    ensures kept == OnlyHigh(high, names)
  {
    kept := [];
    for j := 0 to |names|
      invariant kept == OnlyHigh(high, names[..j])
    {
      assert names[..j + 1][..j] == names[..j];
      if names[j] in high {
        kept := kept + [names[j]];
      }
    }
    assert names[..|names|] == names;
  }

  /** The handler's loop over the notifications, editing each relation in place. */
  method Attach(notifs: seq<Notification>, rels: seq<C.Relationship>) returns (out: seq<Notification>)
    requires forall i :: 0 <= i < |notifs| ==> notifs[i].rel == UNCLASSIFIED
    ensures |out| == |notifs|
    ensures forall i :: 0 <= i < |out| ==> out[i] == notifs[i].(rel := Gated(HighOf(rels), notifs[i].name))
  {
    var high := CollectHigh(rels);
    out := notifs;
    for i := 0 to |notifs|
      invariant |out| == |notifs|
      invariant forall k :: 0 <= k < i ==> out[k] == notifs[k].(rel := Gated(high, notifs[k].name))
      invariant forall k :: i <= k < |notifs| ==> out[k] == notifs[k]
    {
      if out[i].name in high {
        var rel := high[out[i].name];
        var clears: seq<string> := [];
        if rel.role == C.Clear {
          clears := KeepHigh(high, rel.clears);
        }
        if rel.role != C.Clear || clears != [] {
          out := out[i := out[i].(rel := Relation(Some(AlarmTypeOf(rel.role)), clears))];
        }
      }
    }
  }

  // ---- Tokens and keys ----

  function NoLeadingDot(oid: string): string {
    if oid != "" && oid[0] == '.' then oid[1..] else oid
  }

  /** Scalars have a fixed ".0" instance and are named by OID; the others by their position. */
  function ParmName(o: Object, position: nat, forcePositional: bool): string {
    if !forcePositional && (o.kind == Scalar || o.accessibleNotify) then "parm[" + NoLeadingDot(o.oid) + ".0]"
    else "parm[#" + Dec(position) + "]"
  }

  predicate SharedAt(objects: seq<Object>, others: seq<Object>, i: nat)
    requires i < |objects|
  {
    objects[i].oid != "" && exists o | o in others :: o.oid == objects[i].oid
  }

  /** The token of the first object of `n` that its partner binds too; none is "". */
  ghost predicate IsToken(tok: string, n: Notification, others: seq<Object>, forcePositional: bool) {
    if n.rel.alarmType.Some? && exists i | 0 <= i < |n.objects| :: SharedAt(n.objects, others, i) then
      exists i | 0 <= i < |n.objects| ::
        SharedAt(n.objects, others, i) && (forall k :: 0 <= k < i ==> !SharedAt(n.objects, others, k))
        && tok == "%" + ParmName(n.objects[i], i + 1, forcePositional) + "%"
    else tok == ""
  }

  function Token(n: Notification, others: seq<Object>, forcePositional: bool): string {
    if n.rel.alarmType.None? then "" else TokenFrom(n.objects, others, 0, forcePositional)
  }

  function TokenFrom(objects: seq<Object>, others: seq<Object>, i: nat, forcePositional: bool): string
    requires i <= |objects|
    decreases |objects| - i
  {
    if i == |objects| then ""
    else if SharedAt(objects, others, i) then "%" + ParmName(objects[i], i + 1, forcePositional) + "%"
    else TokenFrom(objects, others, i + 1, forcePositional)
  }

  lemma {:induction false} NoToken(objects: seq<Object>, others: seq<Object>, i: nat, forcePositional: bool)
    requires i <= |objects| && forall k :: i <= k < |objects| ==> !SharedAt(objects, others, k)
    ensures TokenFrom(objects, others, i, forcePositional) == ""
    decreases |objects| - i
  {
    if i < |objects| {
      NoToken(objects, others, i + 1, forcePositional);
    }
  }

  method InstanceToken(n: Notification, partner: Notification, forcePositional: bool) returns (tok: string)
    ensures IsToken(tok, n, partner.objects, forcePositional)
    ensures tok == Token(n, partner.objects, forcePositional)
  {
    if n.rel.alarmType.None? || |n.objects| == 0 || |partner.objects| == 0 {
      if n.rel.alarmType.Some? {
        assert forall k :: 0 <= k < |n.objects| ==> !SharedAt(n.objects, partner.objects, k);
        NoToken(n.objects, partner.objects, 0, forcePositional);
      }
      return "";
    }
    var oids := {};
    for k := 0 to |partner.objects|
      invariant forall x :: x in oids <==> x != "" && exists j :: 0 <= j < k && partner.objects[j].oid == x
    {
      if partner.objects[k].oid != "" {
        oids := oids + {partner.objects[k].oid};
      }
    }
    for i := 0 to |n.objects|
      invariant forall k :: 0 <= k < i ==> !SharedAt(n.objects, partner.objects, k)
      invariant TokenFrom(n.objects, partner.objects, 0, forcePositional)
             == TokenFrom(n.objects, partner.objects, i, forcePositional)
    {
      assert SharedAt(n.objects, partner.objects, i) <==> n.objects[i].oid in oids;
      if n.objects[i].oid in oids {
        return "%" + ParmName(n.objects[i], i + 1, forcePositional) + "%";
      }
    }
    tok := "";
  }

  const UEI := "%uei%"

  /** Node scope, and the instance token if there is one. */
  function Scope(tok: string): string {
    "%dpname%:%nodeid%" + (if tok == "" then "" else ":" + tok)
  }

  function ReductionKey(tok: string): string {
    UEI + (":" + Scope(tok))
  }

  /** Go's strings.Replace with n = 1. */
  function ReplaceFirst(s: string, part: string, text: string): string {
    if part <= s then text + s[|part|..]
    else if s == "" then ""
    else [s[0]] + ReplaceFirst(s[1..], part, text)
  }

  function Bound(uei: string, tok: string): string {
    uei + (":" + Scope(tok))
  }

  lemma {:induction false} BoundKey(uei: string, tok: string)
    ensures ReplaceFirst(ReductionKey(tok), UEI, uei) == Bound(uei, tok)
  {
    var rest := ":" + Scope(tok);
    assert UEI <= UEI + rest && (UEI + rest)[|UEI|..] == rest;
  }

  // ---- The two passes of FromModule ----

  /** Partner links in the order the loop records them: both ends, the first one wins. */
  ghost function Links(notifs: seq<Notification>): seq<(string, string)> {
    if notifs == [] then []
    else Links(notifs[..|notifs| - 1]) + LinksOf(notifs[|notifs| - 1].name, notifs[|notifs| - 1].rel.clears)
  }

  ghost function LinksOf(n: string, clears: seq<string>): seq<(string, string)> {
    if clears == [] then [] else LinksOf(n, clears[..|clears| - 1]) + [(n, clears[|clears| - 1])]
  }

  ghost function PartnerIn(links: seq<(string, string)>, n: string): Option<string> {
    if links == [] then None
    else
      var before, l := PartnerIn(links[..|links| - 1], n), links[|links| - 1];
      if before.Some? then before
      else if l.0 == n then Some(l.1)
      else if l.1 == n then Some(l.0)
      else None
  }

  ghost predicate DistinctNames(notifs: seq<Notification>) {
    forall i, j :: 0 <= i < j < |notifs| ==> notifs[i].name != notifs[j].name
  }

  ghost function Find(notifs: seq<Notification>, n: string): Option<Notification> {
    if notifs == [] then None
    else if notifs[|notifs| - 1].name == n then Some(notifs[|notifs| - 1])
    else Find(notifs[..|notifs| - 1], n)
  }

  ghost function PartnerObjects(notifs: seq<Notification>, n: string): seq<Object> {
    match PartnerIn(Links(notifs), n)
    case None => ObjectsOf(Find(notifs, ""))
    case Some(p) => ObjectsOf(Find(notifs, p))
  }

  function ObjectsOf(n: Option<Notification>): seq<Object> {
    if n.Some? then n.value.objects else []
  }

  ghost function TokenOf(notifs: seq<Notification>, n: Notification, forcePositional: bool): string {
    Token(n, PartnerObjects(notifs, n.name), forcePositional)
  }

  function UeiOf(base: string, n: string): string {
    base + ("/" + n)
  }

  /** The reduction key under which the alarm of `n` is raised, with its UEI filled in. */
  ghost function AlarmKey(notifs: seq<Notification>, base: string, n: Notification, forcePositional: bool): string {
    Bound(UeiOf(base, n.name), TokenOf(notifs, n, forcePositional))
  }

  /** The bound key of the first listed raise that has an alarm. */
  ghost function ClearKey(notifs: seq<Notification>, base: string, clears: seq<string>, forcePositional: bool): string {
    if clears == [] then ""
    else
      match Find(notifs, clears[0])
      case Some(r) => if r.rel.alarmType.Some? then AlarmKey(notifs, base, r, forcePositional)
                      else ClearKey(notifs, base, clears[1..], forcePositional)
      case None => ClearKey(notifs, base, clears[1..], forcePositional)
  }

  ghost function EventOf(notifs: seq<Notification>, base: string, n: Notification, forcePositional: bool): Event {
    Event(UeiOf(base, n.name),
          if n.rel.alarmType.None? then None
          else Some(Alarm(ReductionKey(TokenOf(notifs, n, forcePositional)), n.rel.alarmType.value,
                          if n.rel.alarmType.value == Resolution
                          then ClearKey(notifs, base, n.rel.clears, forcePositional)
                          else "")))
  }

  function TrimRight(s: string): string {
    if s != "" && s[|s| - 1] == '/' then TrimRight(s[..|s| - 1]) else s
  }

  ghost predicate Records(partner: map<string, string>, links: seq<(string, string)>) {
    forall n :: Look(partner, n) == PartnerIn(links, n)
  }

  /** The partner map, first link first. */
  method PartnerMap(notifs: seq<Notification>) returns (partner: map<string, string>)
    ensures Records(partner, Links(notifs))
  {
    partner := map[];
    for i := 0 to |notifs|
      invariant Records(partner, Links(notifs[..i]))
    {
      partner := RecordClears(partner, notifs[i].name, notifs[i].rel.clears, Links(notifs[..i]));
      assert notifs[..i + 1][..i] == notifs[..i];
    }
    assert notifs[..|notifs|] == notifs;
  }

  method RecordClears(before: map<string, string>, name: string, clears: seq<string>, ghost links: seq<(string, string)>)
      returns (partner: map<string, string>)
    requires Records(before, links)
    ensures Records(partner, links + LinksOf(name, clears))
  {
    partner := before;
    assert links + LinksOf(name, []) == links;
    for j := 0 to |clears|
      invariant Records(partner, links + LinksOf(name, clears[..j]))
    {
      var raise := clears[j];
      LinksSnoc(links, name, clears, j);
      if name !in partner {
        partner := partner[name := raise];
      }
      if raise !in partner {
        partner := partner[raise := name];
      }
    }
    assert clears[..|clears|] == clears;
  }

  lemma {:induction false} LinksSnoc(before: seq<(string, string)>, name: string, clears: seq<string>, j: nat)
    requires j < |clears|
    ensures before + LinksOf(name, clears[..j + 1]) == (before + LinksOf(name, clears[..j])) + [(name, clears[j])]
    ensures forall n ::
      PartnerIn(before + LinksOf(name, clears[..j + 1]), n)
      == (var p := PartnerIn(before + LinksOf(name, clears[..j]), n);
          if p.Some? then p else if name == n then Some(clears[j]) else if clears[j] == n then Some(name) else None)
  {
    assert clears[..j + 1][..j] == clears[..j];
    var links := before + LinksOf(name, clears[..j]);
    assert before + LinksOf(name, clears[..j + 1]) == links + [(name, clears[j])];
    assert (links + [(name, clears[j])])[..|links|] == links;
  }

  method IndexByName(notifs: seq<Notification>) returns (byName: map<string, Notification>)
    ensures forall n :: Look(byName, n) == Find(notifs, n)
  {
    byName := map[];
    for i := 0 to |notifs|
      invariant forall n :: Look(byName, n) == Find(notifs[..i], n)
    {
      assert notifs[..i + 1][..i] == notifs[..i];
      byName := byName[notifs[i].name := notifs[i]];
    }
    assert notifs[..|notifs|] == notifs;
  }

  /** Find is by name, and finds what is there. */
  lemma {:induction false} FindFinds(notifs: seq<Notification>, n: string)
    ensures Find(notifs, n).Some? ==> Find(notifs, n).value in notifs && Find(notifs, n).value.name == n
    ensures Find(notifs, n).None? ==> forall x :: x in notifs ==> x.name != n
  {
    if notifs != [] {
      FindFinds(notifs[..|notifs| - 1], n);
      assert notifs == notifs[..|notifs| - 1] + [notifs[|notifs| - 1]];
    }
  }

  lemma {:induction false} FindAt(notifs: seq<Notification>, i: nat)
    requires DistinctNames(notifs) && i < |notifs|
    ensures Find(notifs, notifs[i].name) == Some(notifs[i])
  {
    if i < |notifs| - 1 {
      FindAt(notifs[..|notifs| - 1], i);
    }
  }

  ghost function KeyFound(all: seq<Notification>, part: seq<Notification>, base: string, n: string,
      forcePositional: bool): Option<string>
  {
    match Find(part, n)
    case None => None
    case Some(x) => if x.rel.alarmType.None? then None else Some(AlarmKey(all, base, x, forcePositional))
  }

  ghost predicate HasKeys(keys: map<string, string>, all: seq<Notification>, part: seq<Notification>, base: string,
      forcePositional: bool)
  {
    forall n :: Look(keys, n) == KeyFound(all, part, base, n, forcePositional)
  }

  /** The event of the first pass, its clear key still open. */
  ghost function OpenEvent(notifs: seq<Notification>, base: string, n: Notification, forcePositional: bool): Event {
    Event(UeiOf(base, n.name),
          if n.rel.alarmType.None? then None
          else Some(Alarm(ReductionKey(TokenOf(notifs, n, forcePositional)), n.rel.alarmType.value, "")))
  }

  method BuildEvent(n: Notification, byName: map<string, Notification>, partner: map<string, string>,
      ghost notifs: seq<Notification>, base: string, forcePositional: bool) returns (evt: Event)
    requires Records(partner, Links(notifs)) && forall n :: Look(byName, n) == Find(notifs, n)
    ensures evt == OpenEvent(notifs, base, n, forcePositional)
  {
    var p := if n.name in partner then partner[n.name] else "";
    assert Look(partner, n.name) == PartnerIn(Links(notifs), n.name) && Look(byName, p) == Find(notifs, p);
    var other := if p in byName then byName[p] else Notification("", [], UNCLASSIFIED);
    var tok := InstanceToken(n, other, forcePositional);
    assert other.objects == PartnerObjects(notifs, n.name);
    evt := Event(UeiOf(base, n.name), None);
    if n.rel.alarmType.Some? {
      evt := evt.(alarm := Some(Alarm(ReductionKey(tok), n.rel.alarmType.value, "")));
    }
  }

  method BuildEvents(notifs: seq<Notification>, base: string, forcePositional: bool)
      returns (out: seq<Event>, keys: map<string, string>)
    requires DistinctNames(notifs)
    ensures |out| == |notifs|
    ensures forall i :: 0 <= i < |out| ==> out[i] == OpenEvent(notifs, base, notifs[i], forcePositional)
    ensures HasKeys(keys, notifs, notifs, base, forcePositional)
  {
    var byName := IndexByName(notifs);
    var partner := PartnerMap(notifs);
    out, keys := [], map[];
    for i := 0 to |notifs|
      invariant Built(notifs, base, forcePositional, i, out, keys)
    {
      var evt := BuildEvent(notifs[i], byName, partner, notifs, base, forcePositional);
      BuiltOn(notifs, base, forcePositional, i, out, keys, evt);
      if evt.alarm.Some? {
        keys := keys[notifs[i].name := ReplaceFirst(evt.alarm.value.reductionKey, UEI, evt.uei)];
      }
      out := out + [evt];
    }
    assert notifs[..|notifs|] == notifs;
  }

  /** The first `i` events are built and their keys remembered. */
  ghost predicate Built(notifs: seq<Notification>, base: string, forcePositional: bool, i: nat, out: seq<Event>,
      keys: map<string, string>)
  {
    && i <= |notifs| && |out| == i
    && (forall k :: 0 <= k < i ==> out[k] == OpenEvent(notifs, base, notifs[k], forcePositional))
    && HasKeys(keys, notifs, notifs[..i], base, forcePositional)
  }

  lemma {:induction false} BuiltOn(notifs: seq<Notification>, base: string, forcePositional: bool, i: nat,
      out: seq<Event>, keys: map<string, string>, evt: Event)
    requires DistinctNames(notifs) && i < |notifs| && Built(notifs, base, forcePositional, i, out, keys)
    requires evt == OpenEvent(notifs, base, notifs[i], forcePositional)
    ensures Built(notifs, base, forcePositional, i + 1, out + [evt],
                  if evt.alarm.None? then keys
                  else keys[notifs[i].name := ReplaceFirst(evt.alarm.value.reductionKey, UEI, evt.uei)])
  {
    var n := notifs[i];
    var tok := TokenOf(notifs, n, forcePositional);
    KeysSnoc(keys, notifs, i, base, forcePositional);
    if evt.alarm.Some? {
      BoundKey(evt.uei, tok);
      assert evt.alarm.value.reductionKey == ReductionKey(tok);
      assert ReplaceFirst(evt.alarm.value.reductionKey, UEI, evt.uei) == AlarmKey(notifs, base, n, forcePositional);
    }
  }

  lemma {:induction false} KeysSnoc(keys: map<string, string>, notifs: seq<Notification>, i: nat, base: string,
      forcePositional: bool)
    requires DistinctNames(notifs) && i < |notifs| && HasKeys(keys, notifs, notifs[..i], base, forcePositional)
    ensures var n := notifs[i];
            HasKeys(if n.rel.alarmType.Some? then keys[n.name := AlarmKey(notifs, base, n, forcePositional)] else keys,
                    notifs, notifs[..i + 1], base, forcePositional)
  {
    var n := notifs[i];
    assert notifs[..i + 1][..i] == notifs[..i];
    FindFinds(notifs[..i], n.name);
    assert Look(keys, n.name) == KeyFound(notifs, notifs[..i], base, n.name, forcePositional) == None;
    var after := if n.rel.alarmType.Some? then keys[n.name := AlarmKey(notifs, base, n, forcePositional)] else keys;
    forall m ensures Look(after, m) == KeyFound(notifs, notifs[..i + 1], base, m, forcePositional) {
      assert Look(keys, m) == KeyFound(notifs, notifs[..i], base, m, forcePositional);
    }
  }

  method FirstKey(keys: map<string, string>, clears: seq<string>, ghost notifs: seq<Notification>, ghost base: string,
      ghost forcePositional: bool) returns (key: string)
    requires HasKeys(keys, notifs, notifs, base, forcePositional)
    ensures key == ClearKey(notifs, base, clears, forcePositional)
  {
    for j := 0 to |clears|
      invariant ClearKey(notifs, base, clears, forcePositional) == ClearKey(notifs, base, clears[j..], forcePositional)
    {
      assert Look(keys, clears[j]) == KeyFound(notifs, notifs, base, clears[j], forcePositional);
      assert clears[j..][1..] == clears[j + 1..];
      if clears[j] in keys {
        return keys[clears[j]];
      }
    }
    key := "";
  }

  /** Two passes: every event with its own key, then every clear with the key of the raise it resolves. */
  method FromModule(notifs: seq<Notification>, ueiBase: string, forcePositional: bool) returns (out: seq<Event>)
    requires DistinctNames(notifs)
    ensures |out| == |notifs|
    ensures forall i :: 0 <= i < |out| ==> out[i] == EventOf(notifs, TrimRight(ueiBase), notifs[i], forcePositional)
  {
    var base := TrimRight(ueiBase);
    var keys;
    out, keys := BuildEvents(notifs, base, forcePositional);
    for i := 0 to |notifs|
      invariant |out| == |notifs|
      invariant forall k :: 0 <= k < i ==> out[k] == EventOf(notifs, base, notifs[k], forcePositional)
      invariant forall k :: i <= k < |notifs| ==> out[k] == OpenEvent(notifs, base, notifs[k], forcePositional)
    {
      var evt := Resolve(out[i], keys, notifs[i], notifs, base, forcePositional);
      out := out[i := evt];
    }
  }

  /** The second pass on one event. */
  method Resolve(evt: Event, keys: map<string, string>, n: Notification, ghost notifs: seq<Notification>,
      ghost base: string, ghost forcePositional: bool) returns (done: Event)
    requires HasKeys(keys, notifs, notifs, base, forcePositional) && evt == OpenEvent(notifs, base, n, forcePositional)
    ensures done == EventOf(notifs, base, n, forcePositional)
  {
    done := evt;
    if evt.alarm.Some? && evt.alarm.value.alarmType == Resolution {
      var key := FirstKey(keys, n.rel.clears, notifs, base, forcePositional);
      done := evt.(alarm := Some(evt.alarm.value.(clearKey := key)));
    }
  }

  // ---- Distinct names have distinct keys ----

  predicate NoColon(s: string) {
    forall i :: 0 <= i < |s| ==> s[i] != ':'
  }

  lemma {:induction false} ColonEnds(a: string, x: string, b: string, y: string)
    requires NoColon(a) && NoColon(b) && a + (":" + x) == b + (":" + y)
    ensures a == b
  {
    var s, t := a + (":" + x), b + (":" + y);
    assert s[|a|] == ':' && t[|b|] == ':';
    assert forall i | 0 <= i < |a| :: s[i] != ':' by { assert forall i | 0 <= i < |a| :: s[i] == a[i]; }
    assert forall i | 0 <= i < |b| :: t[i] != ':' by { assert forall i | 0 <= i < |b| :: t[i] == b[i]; }
    assert a == s[..|a|] && b == t[..|b|];
  }

  lemma {:induction false} Reassociate(base: string, a: string, x: string)
    ensures UeiOf(base, a) + (":" + x) == (base + "/") + (a + (":" + x))
  {}

  lemma {:induction false} KeysDiffer(base: string, a: string, t: string, b: string, u: string)
    requires NoColon(a) && NoColon(b) && Bound(UeiOf(base, a), t) == Bound(UeiOf(base, b), u)
    ensures a == b
  {
    var x, y, p := Scope(t), Scope(u), base + "/";
    Reassociate(base, a, x);
    Reassociate(base, b, y);
    assert (p + (a + (":" + x)))[|p|..] == a + (":" + x);
    assert (p + (b + (":" + y)))[|p|..] == b + (":" + y);
    ColonEnds(a, x, b, y);
  }
}
