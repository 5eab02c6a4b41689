/** Whole runs of the import engine: arrivals and plain batches, and files that are gone when their turn comes. */
module ImportRuns {
  import opened Model
  import opened Decimal
  import opened Corpus
  import opened ImportEngine

  ghost predicate OnlyPlain(calls: seq<Call>) {
    forall c :: c in calls ==> c.Arrive? || c.PlainBatch?
  }

  /** What is stored and fingerprinted stays as it is. */
  ghost predicate KeepsStored(s: State, t: State) {
    && (forall m :: m in s.modules ==> m in t.modules && t.modules[m] == s.modules[m])
    && (forall x :: x in s.prints ==> x in t.prints && t.prints[x] == s.prints[x])
    && (forall x :: x in s.disk && x.dir != Intake ==> x in t.disk && t.disk[x] == s.disk[x])
  }

  /** Nothing stored is touched, and what is imported is new and imported once. */
  ghost predicate OnlyAdds(s: State, t: State, outs: seq<Outcome>) {
    Tidy(t) && KeepsStored(s, t) && OnlyNew(s, outs) && t.modules.Keys == s.modules.Keys + NamesOf(outs)
  }

  lemma {:induction false} PlainStepAdds(tools: Tools, s: State, t: State, c: Call, outs: seq<Outcome>)
    requires CallStep(tools, s, t, c, outs) && (c.Arrive? || c.PlainBatch?) && Tidy(s)
    ensures OnlyAdds(s, t, outs)
  {
    if c.Arrive? {
      assert NamesOf([]) == {};
    } else {
      ModulesAfterKeys(s, outs);
      ReportedFromIntake(tools, s, t, c.paths, outs);
    }
  }

  lemma {:induction false} PlainStepConserves(tools: Tools, s: State, t: State, c: Call, outs: seq<Outcome>)
    requires CallStep(tools, s, t, c, outs) && (c.Arrive? || c.PlainBatch?) && Tidy(s)
    ensures Bag(t.disk) + Overwritten(s, c) == Bag(s.disk) + Arrived(c)
  {
    if c.Arrive? {
      PutBag(s.disk, Path(Intake, c.base), c.content);
    }
  }

  lemma {:induction false} ReportedFromIntake(tools: Tools, s: State, t: State, paths: seq<Path>, outs: seq<Outcome>)
    requires BatchStep(tools, s, t, paths, outs, false)
    ensures forall p :: p in PathsOf(outs) ==> p.dir == Intake
  {
    var mid :| Decided(tools, s, mid, paths, outs, false);
    forall p | p in PathsOf(outs) ensures p.dir == Intake {
      ReportedAre(tools, s, mid, paths, outs, false, p);
    }
  }

  /** The content an arrival brings. */
  ghost function Arrived(c: Call): multiset<Content> {
    if c.Arrive? then multiset{c.content} else multiset{}
  }

  /** The content an arrival replaces: that of a file of the same name still waiting in intake. */
  ghost function Overwritten(s: State, c: Call): multiset<Content> {
    if c.Arrive? && Path(Intake, c.base) in s.disk then multiset{s.disk[Path(Intake, c.base)]} else multiset{}
  }

  lemma {:induction false} PutBag(disk: map<Path, Content>, p: Path, content: Content)
    ensures Bag(disk[p := content]) + (if p in disk then multiset{disk[p]} else multiset{})
         == Bag(disk) + multiset{content}
  {
    var after := disk[p := content];
    var rest := disk - {p};
    BagOf(after, p);
    assert after - {p} == rest;
    if p in disk {
      BagOf(disk, p);
      EitherFirst(Bag(rest), multiset{content}, multiset{disk[p]});
    } else {
      assert rest == disk;
      NothingMore(Bag(after));
    }
  }

  lemma {:induction false} EitherFirst(m: multiset<Content>, a: multiset<Content>, b: multiset<Content>)
    ensures m + a + b == m + b + a
  {}

  lemma {:induction false} NothingMore(m: multiset<Content>)
    ensures m + multiset{} == m
  {}

  ghost function ArrivedBy(calls: seq<Call>, n: nat): multiset<Content>
    requires n <= |calls|
  {
    if n == 0 then multiset{} else ArrivedBy(calls, n - 1) + Arrived(calls[n - 1])
  }

  ghost function OverwrittenBy(states: seq<State>, calls: seq<Call>, n: nat): multiset<Content>
    requires n <= |calls| <= |states|
  {
    if n == 0 then multiset{} else OverwrittenBy(states, calls, n - 1) + Overwritten(states[n - 1], calls[n - 1])
  }

  lemma {:induction false} NamesJoin(a: seq<Outcome>, b: seq<Outcome>)
    requires EachNameOnce(a) && EachNameOnce(b) && NamesOf(a) !! NamesOf(b)
    ensures NamesOf(a + b) == NamesOf(a) + NamesOf(b) && EachNameOnce(a + b)
  {
    var all := a + b;
    assert forall i :: 0 <= i < |a| && a[i].Imported? ==> a[i].mod in NamesOf(a);
    assert forall i :: 0 <= i < |b| && b[i].Imported? ==> b[i].mod in NamesOf(b);
    forall i, j | 0 <= i < j < |all| && all[i].Imported? && all[j].Imported? ensures all[i].mod != all[j].mod {
      assert i < |a| <= j ==> all[i].mod in NamesOf(a) && all[j].mod in NamesOf(b);
    }
  }

  lemma {:induction false} PlainStepOf(tools: Tools, states: seq<State>, calls: seq<Call>,
      reports: seq<seq<Outcome>>, k: nat)
    requires Trace(tools, states, calls, reports) && OnlyPlain(calls) && k < |calls| && Tidy(states[k])
    ensures Balanced(Bag(states[k + 1].disk), Overwritten(states[k], calls[k]), Bag(states[k].disk), Arrived(calls[k]))
  {
    var s, t, c, outs := states[k], states[k + 1], calls[k], reports[k];
    StepOf(tools, states, calls, reports, k);
    PlainStepConserves(tools, s, t, c, outs);
  }

  lemma {:induction false} TidyAfter(s: State, t: State, outs: seq<Outcome>)
    requires OnlyAdds(s, t, outs)
    ensures Tidy(t)
  {}

  /** What is there and what was lost is what was there and what came. */
  ghost predicate Balanced(end: multiset<Content>, lost: multiset<Content>, start: multiset<Content>,
      came: multiset<Content>)
  {
    end + lost == start + came
  }

  lemma {:induction false} BalancesJoin(start: multiset<Content>, middle: multiset<Content>, end: multiset<Content>,
      lost: multiset<Content>, came: multiset<Content>, loses: multiset<Content>, comes: multiset<Content>)
    requires Balanced(middle, lost, start, came) && Balanced(end, loses, middle, comes)
    ensures Balanced(end, lost + loses, start, came + comes)
  {
    forall x ensures (end + (lost + loses))[x] == (start + (came + comes))[x] {
      assert (middle + lost)[x] == (start + came)[x] && (end + loses)[x] == (middle + comes)[x];
    }
  }

  lemma {:induction false} AddsJoin(s: State, t: State, u: State, a: seq<Outcome>, b: seq<Outcome>)
    requires OnlyAdds(s, t, a) && OnlyAdds(t, u, b)
    ensures OnlyAdds(s, u, a + b)
  {
    NamesJoin(a, b);
  }

  ghost function AddsWhenTidy(): (State, State, seq<Outcome>) -> bool {
    (s, t, outs) => Tidy(s) ==> OnlyAdds(s, t, outs)
  }

  lemma {:induction false} AddingComposes()
    ensures forall s :: AddsWhenTidy()(s, s, [])
    ensures forall s, t, u, a, b :: AddsWhenTidy()(s, t, a) && AddsWhenTidy()(t, u, b) ==> AddsWhenTidy()(s, u, a + b)
  {
    forall s ensures AddsWhenTidy()(s, s, []) {
      assert NamesOf([]) == {};
    }
    forall s, t, u, a, b | AddsWhenTidy()(s, t, a) && AddsWhenTidy()(t, u, b) ensures AddsWhenTidy()(s, u, a + b) {
      if Tidy(s) {
        AddsJoin(s, t, u, a, b);
      }
    }
  }

  /**
   * Over any run of arrivals and plain batches that starts tidy, from any point to any later one: the corpus stays
   * tidy, everything stored and everything outside intake stays as it is, the stored modules are the former ones and
   * those imported since, and no module is imported twice.
   */
  lemma {:induction false} PlainRunOnlyAdds(tools: Tools, states: seq<State>, calls: seq<Call>,
      reports: seq<seq<Outcome>>, i: nat, n: nat)
    requires Trace(tools, states, calls, reports) && OnlyPlain(calls) && i <= n <= |calls| && Tidy(states[i])
    ensures OnlyAdds(states[i], states[n], Reports(reports, i, n))
  {
    forall s, t, c, outs | c in calls && Calling(tools)(s, t, c, outs) ensures AddsWhenTidy()(s, t, outs) {
      if Tidy(s) {
        PlainStepAdds(tools, s, t, c, outs);
      }
    }
    AddingComposes();
    StepsCompose(Calling(tools), states, calls, reports, AddsWhenTidy(), i, n);
  }

  lemma {:induction false} PlainRunBalances(tools: Tools, states: seq<State>, calls: seq<Call>,
      reports: seq<seq<Outcome>>, n: nat)
    requires Trace(tools, states, calls, reports) && OnlyPlain(calls) && n <= |calls| && Tidy(states[0])
    ensures Balanced(Bag(states[n].disk), OverwrittenBy(states, calls, n), Bag(states[0].disk), ArrivedBy(calls, n))
  {
    if n > 0 {
      var k := n - 1;
      PlainRunBalances(tools, states, calls, reports, k);
      TidyAt(tools, states, calls, reports, k);
      PlainStepOf(tools, states, calls, reports, k);
      BalancesJoin(Bag(states[0].disk), Bag(states[k].disk), Bag(states[n].disk), OverwrittenBy(states, calls, k),
                   ArrivedBy(calls, k), Overwritten(states[k], calls[k]), Arrived(calls[k]));
    }
  }

  lemma {:induction false} TidyAt(tools: Tools, states: seq<State>, calls: seq<Call>, reports: seq<seq<Outcome>>,
      k: nat)
    requires Trace(tools, states, calls, reports) && OnlyPlain(calls) && k <= |calls| && Tidy(states[0])
    ensures Tidy(states[k])
  {
    PlainRunOnlyAdds(tools, states, calls, reports, 0, k);
    TidyAfter(states[0], states[k], Reports(reports, 0, k));
  }

  /** All contents are conserved: those at the start and those that arrived, but for what an arrival overwrote. */
  lemma {:induction false} PlainRunConserves(tools: Tools, states: seq<State>, calls: seq<Call>,
      reports: seq<seq<Outcome>>, n: nat)
    requires Trace(tools, states, calls, reports) && OnlyPlain(calls) && n <= |calls| && Tidy(states[0])
    ensures Bag(states[n].disk) + OverwrittenBy(states, calls, n) == Bag(states[0].disk) + ArrivedBy(calls, n)
  {
    PlainRunBalances(tools, states, calls, reports, n);
  }

  // ---- A file that is gone when its result is taken up ----

  /** Exactly when that keeps modules and fingerprints in bijection: no other file holds the module. */
  lemma {:induction false} DroppedKeepsIff(sha: Content -> string, s: State, name: string, dest: Path)
    requires Consistent(sha, s)
    ensures Consistent(sha, Dropped(s, name, dest)) <==> name !in s.modules || s.modules[name].source == dest
  {
    var t := Dropped(s, name, dest);
    if name in s.modules && s.modules[name].source != dest {
      assert s.modules[name].source !in t.prints;
      assert !Backed(t, name);
    } else {
      assert s.disk - {} == s.disk && s.prints - {} == s.prints;
      assert t == s;
    }
  }

  /** Without replacement nothing happens to the corpus. */
  lemma {:induction false} VanishedIsHarmless(tools: Tools, s: State, t: State, path: Path, c: Compiled)
    requires VanishedStep(tools, s, t, path, c, false)
    ensures t == s
  {
    assert s.disk - {} == s.disk && s.prints - {} == s.prints;
  }

  /**
   * A replacing batch that lists a path twice: the first visit files the module, and the second finds the file gone.
   * A module with a directory of its own stays; one that went to unsorted/ loses its file and its fingerprint.
   */
  lemma {:induction false} ListedTwice(tools: Tools, s: State, p: Path, c: Compiled, dest: Path, t: State)
    requires Consistent(tools.sha, s) && p in s.disk && p.dir == Intake && Identified(tools, c)
    requires GoodDest(s, dest, c.name) && GoesTo(tools, s.disk, p.base, c, dest)
    requires VanishedStep(tools, Filed(tools.sha, s, p, dest, c.name), t, p, c, true)
    ensures p !in Filed(tools.sha, s, p, dest, c.name).disk
    ensures tools.place(c.oid, c.name).Some? <==> t == Filed(tools.sha, s, p, dest, c.name)
    ensures tools.place(c.oid, c.name).Some? <==> Consistent(tools.sha, t)
    ensures tools.place(c.oid, c.name).None? ==>
              c.name in t.modules && t.modules[c.name].source == dest && dest !in t.disk && dest !in t.prints
  {
    var filed := Filed(tools.sha, s, p, dest, c.name);
    FilingKeepsConsistent(tools.sha, s, p, dest, c.name);
    var next :| GoesTo(tools, filed.disk, p.base, c, next) && t == Dropped(filed, c.name, next);
    assert filed.modules[c.name].source == dest && dest in filed.disk;
    TwoDestinations(tools, s.disk, filed.disk, p.base, c, dest, next);
    DroppedKeepsIff(tools.sha, filed, c.name, next);
    DroppedIs(filed, c.name, next);
  }

  lemma {:induction false} TwoDestinations(tools: Tools, disk: map<Path, Content>, after: map<Path, Content>,
      base: string, c: Compiled, dest: Path, next: Path)
    requires c.Compiled? && GoesTo(tools, disk, base, c, dest) && GoesTo(tools, after, base, c, next) && dest in after
    ensures tools.place(c.oid, c.name).Some? <==> next == dest
  {}

  lemma {:induction false} DroppedIs(s: State, name: string, dest: Path)
    requires name in s.modules && s.modules[name].source in s.disk
    ensures s.modules[name].source == dest ==> Dropped(s, name, dest) == s
    ensures s.modules[name].source != dest ==>
              Dropped(s, name, dest) != s && Dropped(s, name, dest).modules == s.modules
              && s.modules[name].source !in Dropped(s, name, dest).disk
              && s.modules[name].source !in Dropped(s, name, dest).prints
  {
    assert s.disk - {} == s.disk && s.prints - {} == s.prints;
    if s.modules[name].source != dest {
      assert s.modules[name].source !in Dropped(s, name, dest).disk;
    }
  }

  // ---- The outcomes of a batch, read off the files ----

  /** A file flat in import/ that is neither hidden nor a quarantine note. */
  ghost predicate IsIntakeFile(s: State, p: Path) {
    && p in s.disk && p.dir == Intake && !(p.base != "" && p.base[0] == '.')
    && forall stem :: p.base != stem + ".reason.json"
  }

  lemma {:induction false} EligibleIs(s: State, p: Path)
    ensures Eligible(s, p) <==> IsIntakeFile(s, p)
  {
    if IsSidecar(p.base) {
      var stem := p.base[..|p.base| - |SIDECAR|];
      assert p.base == stem + ".reason.json";
    }
    forall stem | p.base == stem + ".reason.json" ensures IsSidecar(p.base) {
      assert p.base[|stem|..] == ".reason.json";
    }
  }

  /** Some fingerprint has the hash of the file. */
  ghost predicate IsKnownContent(tools: Tools, s: State, p: Path)
    requires p in s.disk
  {
    exists x :: x in s.prints && s.prints[x].sha == tools.sha(s.disk[p])
  }

  /** The content of the file lies in this directory, under its name or a numbered one. */
  ghost predicate LiesIn(s: State, t: State, p: Path, dir: Dir)
    requires p in s.disk
  {
    exists q :: q in t.disk && q.dir == dir && t.disk[q] == s.disk[p]
                && (q.base == p.base || exists k: nat :: q.base == p.base + ("-" + Dec(k)))
  }

  /** The outcome of one file of a batch, `stored` being the modules stored by then and `mid` the disk of the compile. */
  ghost predicate IsOutcome(tools: Tools, s: State, t: State, mid: map<Path, Content>, stored: map<string, Row>,
      replace: bool, o: Outcome)
  {
    && IsIntakeFile(s, o.path)
    && (o.Rejected? ==> LiesIn(s, t, o.path, FailedDir)) && (o.Known? ==> LiesIn(s, t, o.path, DuplicateDir))
    && if !tools.opener(s.disk[o.path]) then o.Rejected?
       else if !replace && IsKnownContent(tools, s, o.path) then
         o.Known? && o.existing in s.prints && s.prints[o.existing].sha == tools.sha(s.disk[o.path])
       else
         match tools.compile(mid, o.path)
         case OutOfBudget => false
         case Broken => o.Rejected?
         case NoIdentity => o.Rejected?
         case Compiled(name, oid) =>
           if name == "" || !tools.validName(name) then o.Rejected?
           else if name in stored && !replace then o == Known(o.path, stored[name].source)
           else
             && o.Imported? && o.mod == name
             && match tools.place(oid, name)
                case Some(d) => o.dest == Path(Curated(d), name)
                case None => o.dest.dir == Curated("unsorted")
  }

  lemma {:induction false} ShelvedLies(s: State, t: State, o: Outcome)
    requires !o.Imported? && Shelved(s, t, o)
    ensures LiesIn(s, t, o.path, if o.Rejected? then FailedDir else DuplicateDir)
  {
    var p := Path(OutcomeDir(o), o.path.base);
    var q :| q in t.disk && NamedAfter(p, q) && q.dir == OutcomeDir(o) && t.disk[q] == s.disk[o.path];
    if q != p {
      var k: nat :| q == Numbered(p, k);
      assert q.base == o.path.base + ("-" + Dec(k));
    }
  }

  /** Every reported file has the outcome its content, its compile and the modules stored by then call for. */
  lemma {:induction false} OutcomesReadOff(tools: Tools, s: State, t: State, mid: map<Path, Content>, paths: seq<Path>,
      outs: seq<Outcome>, replace: bool, strict: bool, k: nat)
    requires Advanced(tools.sha, s, t, PathsOf(outs), outs, strict) && Decided(tools, s, mid, paths, outs, replace)
    requires k < |outs|
    ensures IsOutcome(tools, s, t, mid, Former(s, outs, k), replace, outs[k])
  {
    var o := outs[k];
    assert o in outs && o.path in PathsOf(outs);
    ReportedAre(tools, s, mid, paths, outs, replace, o.path);
    EligibleIs(s, o.path);
    assert Deserved(tools, s, mid, Former(s, outs, k), replace, o);
    if !o.Imported? {
      ShelvedLies(s, t, o);
    }
  }

  /** All files of the batch are reported but those whose compile runs out of budget. */
  lemma {:induction false} ReportedReadOff(tools: Tools, s: State, mid: map<Path, Content>, paths: seq<Path>,
      outs: seq<Outcome>, replace: bool, p: Path)
    requires Decided(tools, s, mid, paths, outs, replace)
    ensures p in PathsOf(outs) <==>
      && p in paths && IsIntakeFile(s, p)
      && (tools.opener(s.disk[p]) && (replace || !IsKnownContent(tools, s, p)) ==> tools.compile(mid, p) != OutOfBudget)
  {
    ReportedAre(tools, s, mid, paths, outs, replace, p);
    EligibleIs(s, p);
  }
}
