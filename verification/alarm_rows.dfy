/** The exported events, read off the relationships and the OBJECTS lists. */
module AlarmRows {
  import opened Model
  import opened Decimal
  import opened Eventconf
  import opened AlarmMatching
  import opened InstanceScope
  import C = Correlate

  // ---- The gate ----

  /** What the handler exports for a notification with this relationship, `high` telling which others are High. */
  ghost predicate IsExportedAs(rel: C.Relationship, high: string -> bool, out: Relation) {
    if rel.confidence != C.High then out == Relation(None, [])
    else
      match rel.role
      case Orphan => out == Relation(Some(Standalone), [])
      case Raise => out == Relation(Some(Problem), [])
      case Clear =>
        if exists r :: r in rel.clears && high(r) then out.alarmType == Some(Resolution) && Keeps(rel.clears, high, out.clears)
        else out == Relation(None, [])
  }

  /** `kept` is what of `names` is High, in order. */
  ghost predicate Keeps(names: seq<string>, high: string -> bool, kept: seq<string>) {
    && (forall n :: n in kept <==> n in names && high(n))
    && (|names| == 1 && high(names[0]) ==> kept == names)
  }

  lemma {:induction false} OnlyHighKeeps(high: map<string, C.Relationship>, names: seq<string>)
    ensures Keeps(names, n => n in high, OnlyHigh(high, names))
  {
    if names != [] {
      var rest, last := names[..|names| - 1], names[|names| - 1];
      OnlyHighKeeps(high, rest);
      assert names == rest + [last];
      assert |names| == 1 ==> rest == [] && OnlyHigh(high, rest) == [];
    }
  }

  /** The relation the handler attaches follows from the relationships. */
  lemma {:induction false} GateDecides(facts: map<string, C.Facts>, n: string)
    ensures n !in facts ==> Gated(HighOf(C.Verdicts(facts)), n) == Relation(None, [])
    ensures n in facts ==>
      IsExportedAs(C.Verdict(facts, n), r => IsHigh(facts, r), Gated(HighOf(C.Verdicts(facts)), n))
  {
    var high := HighOf(C.Verdicts(facts));
    HighOfVerdicts(facts, n);
    if n in facts && n in high {
      forall r ensures r in high <==> IsHigh(facts, r) {
        HighOfVerdicts(facts, r);
      }
      OnlyHighKeeps(high, high[n].clears);
      GateExports(high, n, r => IsHigh(facts, r));
    }
  }

  lemma {:induction false} GateExports(high: map<string, C.Relationship>, n: string, isHigh: string -> bool)
    requires n in high && high[n].confidence == C.High && forall r :: r in high <==> isHigh(r)
    requires Keeps(high[n].clears, r => r in high, OnlyHigh(high, high[n].clears))
    ensures IsExportedAs(high[n], isHigh, Gated(high, n))
  {
    var kept := OnlyHigh(high, high[n].clears);
    assert kept != [] ==> kept[0] in kept;
  }

  // ---- The events ----

  /** The two lists have object `k` of the first in common. */
  predicate InBoth(objects: seq<Object>, others: seq<Object>, k: nat) {
    k < |objects| && objects[k].oid != "" && exists o | o in others :: o.oid == objects[k].oid
  }

  function DotLess(oid: string): string {
    if oid != "" && oid[0] == '.' then oid[1..] else oid
  }

  /** The parameter of the first object the two lists have in common: by OID where its instance is fixed. */
  ghost predicate IsParm(tok: string, objects: seq<Object>, others: seq<Object>, forcePositional: bool) {
    && ((forall k: nat :: !InBoth(objects, others, k)) ==> tok == "")
    && forall k: nat :: InBoth(objects, others, k) && (forall j: nat :: j < k ==> !InBoth(objects, others, j)) ==>
         tok == if !forcePositional && (objects[k].kind == Scalar || objects[k].accessibleNotify)
                then "%" + ("parm[" + DotLess(objects[k].oid) + ".0]") + "%"
                else "%" + ("parm[#" + Dec(k + 1) + "]") + "%"
  }

  lemma {:induction false} TokenIsParm(objects: seq<Object>, others: seq<Object>, forcePositional: bool)
    ensures IsParm(TokenFrom(objects, others, 0, forcePositional), objects, others, forcePositional)
  {
    forall k: nat ensures InBoth(objects, others, k) <==> k < |objects| && SharedAt(objects, others, k) {}
    if forall k: nat :: !InBoth(objects, others, k) {
      NoToken(objects, others, 0, forcePositional);
    }
    forall k: nat | InBoth(objects, others, k) && forall j: nat :: j < k ==> !InBoth(objects, others, j)
      ensures TokenFrom(objects, others, 0, forcePositional) == "%" + ParmName(objects[k], k + 1, forcePositional) + "%"
    {
      assert FirstSharedAt(objects, others, k);
      TokenAt(objects, others, 0, k, forcePositional);
    }
  }

  /** The tail of a key: the node, and the parameter if there is one. */
  function KeyTail(tok: string): string {
    if tok == "" then ":%dpname%:%nodeid%" else ":%dpname%:%nodeid%:" + tok
  }

  lemma {:induction false} ScopeIsTail(tok: string)
    ensures ":" + Scope(tok) == KeyTail(tok)
  {
    if tok == "" {
      assert "%dpname%:%nodeid%" + "" == "%dpname%:%nodeid%";
    }
  }

  ghost predicate EventReads(evt: Event, base: string, name: string, t: AlarmType, tok: string, clearKey: string) {
    && evt.uei == base + ("/" + name)
    && evt.alarm == Some(Alarm("%uei%" + KeyTail(tok), t, clearKey))
  }

  /** The two events of an exported pair: each with its own parameter, and the clear with the key of its problem. */
  lemma {:induction false} PairReads(evs: seq<Event>, notifs: seq<Notification>, base: string, forcePositional: bool,
      i: nat, j: nat) returns (tok: string, own: string)
    requires Matched(notifs) && ExportOf(evs, notifs, base, forcePositional) && Resolves(notifs, i, j)
    ensures IsParm(tok, notifs[j].objects, notifs[i].objects, forcePositional)
    ensures IsParm(own, notifs[i].objects, notifs[j].objects, forcePositional)
    ensures EventReads(evs[j], base, notifs[j].name, Problem, tok, "")
    ensures EventReads(evs[i], base, notifs[i].name, Resolution, own, base + ("/" + notifs[j].name) + KeyTail(tok))
  {
    PartnersOfPair(notifs, i, j);
    ClearKeyOfPair(evs, notifs, base, forcePositional, i, j);
    tok, own := TokenOf(notifs, notifs[j], forcePositional), TokenOf(notifs, notifs[i], forcePositional);
    TokenIsParm(notifs[j].objects, notifs[i].objects, forcePositional);
    TokenIsParm(notifs[i].objects, notifs[j].objects, forcePositional);
    ScopeIsTail(tok);
    ScopeIsTail(own);
    assert evs[i] == EventOf(notifs, base, notifs[i], forcePositional);
    assert evs[j] == EventOf(notifs, base, notifs[j], forcePositional);
  }

  /** The event of a notification outside all pairs: an alarm for the whole node, or none. */
  lemma {:induction false} LoneReads(evs: seq<Event>, notifs: seq<Notification>, base: string, forcePositional: bool,
      i: nat)
    requires Matched(notifs) && ExportOf(evs, notifs, base, forcePositional) && i < |notifs|
    requires (forall k: nat :: !Resolves(notifs, i, k) && !Resolves(notifs, k, i))
    requires forall n :: n in notifs ==> n.name != ""
    ensures match notifs[i].rel.alarmType
            case None => evs[i] == Event(base + ("/" + notifs[i].name), None)
            case Some(t) => EventReads(evs[i], base, notifs[i].name, t, "", "")
  {
    NoPartner(notifs, i);
    FindFinds(notifs, "");
    assert PartnerObjects(notifs, notifs[i].name) == [];
    assert forall k :: 0 <= k < |notifs[i].objects| ==> !SharedAt(notifs[i].objects, [], k);
    NoToken(notifs[i].objects, [], 0, forcePositional);
    ScopeIsTail("");
    assert evs[i] == EventOf(notifs, base, notifs[i], forcePositional);
  }

  lemma {:induction false} NoPartner(notifs: seq<Notification>, i: nat)
    requires Matched(notifs) && i < |notifs|
    requires forall k: nat :: !Resolves(notifs, i, k) && !Resolves(notifs, k, i)
    ensures PartnerIn(Links(notifs), notifs[i].name) == None && notifs[i].rel.alarmType != Some(Resolution)
  {
    var links, n := Links(notifs), notifs[i].name;
    assert notifs[..|notifs|] == notifs;
    LinksAreThePairs(notifs, |notifs|);
    forall l | l in links ensures l.0 != n && l.1 != n {
      var k: nat, h: nat :| LinkOf(notifs, l, k, h);
      assert notifs[k].name == n ==> k == i;
      assert notifs[h].name == n ==> h == i;
    }
    OnlyPartner(links, n, n);
  }

  function Slashes(k: nat): string {
    seq(k, _ => '/')
  }

  lemma {:induction false} OneMoreSlash(base: string, k: nat)
    ensures (base + Slashes(k)) + "/" == base + Slashes(k + 1)
  {}

  /** The base the events are named under: the given one without its trailing slashes. */
  lemma {:induction false} BaseIs(s: string)
    ensures TrimRight(s) == "" || TrimRight(s)[|TrimRight(s)| - 1] != '/'
    ensures exists k: nat :: s == TrimRight(s) + Slashes(k)
  {
    if s != "" && s[|s| - 1] == '/' {
      var rest := s[..|s| - 1];
      BaseIs(rest);
      var k: nat :| rest == TrimRight(rest) + Slashes(k);
      OneMoreSlash(TrimRight(rest), k);
      assert s == rest + "/";
    } else {
      assert s == s + Slashes(0);
    }
  }
}
