/** The boot mirror of the standard corpus from the image copy (internal/mibimport/standard.go). */
module StandardMirror {
  import opened Model

  type Files = map<string, string>

  /**
   * What goes wrong with one file: the image's copy cannot be read, nothing can be written beside the target, the
   * write of the temporary file breaks off and leaves a part of it, or the rename fails and the temporary file is
   * removed again. Only the first happens to a file that is up to date.
   */
  datatype Fault = Unreadable | Blocked | Torn(part: string) | Unrenamed

  /**
   * One boot: the image's standard files, the order the walk visits them in, and what goes wrong. A walk that stops
   * early visits only some of them.
   */
  datatype Image = Image(files: Files, visit: seq<string>, faults: map<string, Fault>)

  ghost predicate Distinct(q: seq<string>) {
    forall i, j :: 0 <= i < j < |q| ==> q[i] != q[j]
  }

  /** A file comes before the longer names that extend it. */
  ghost predicate Lexical(visit: seq<string>) {
    forall i, j :: 0 <= i < j < |visit| ==> visit[i] != Temp(visit[j])
  }

  /** The walk visits files of the image, in lexical order. */
  ghost predicate ValidImage(image: Image) {
    Distinct(image.visit) && Lexical(image.visit) && forall p :: p in image.visit ==> p in image.files
  }

  const SYNCING := ".syncing"

  /** Where a copy is written before it is renamed into place. */
  function Temp(p: string): (t: string)
    ensures t != p
  {
    p + SYNCING
  }

  /** Whether the visit of a file fails, when `before` is what lies at its path. */
  predicate Fails(image: Image, p: string, before: Option<string>)
    requires p in image.files
  {
    p in image.faults && (image.faults[p] == Unreadable || before != Some(image.files[p]))
  }

  /** Whether the visit uses the temporary name. */
  predicate UsesTemp(image: Image, p: string, before: Option<string>)
    requires p in image.files
  {
    before != Some(image.files[p]) && (p in image.faults ==> image.faults[p].Torn? || image.faults[p].Unrenamed?)
  }

  /** What a visit that uses the temporary name leaves there. */
  function TempAfter(image: Image, p: string): Option<string> {
    if p in image.faults && image.faults[p].Torn? then Some(image.faults[p].part) else None
  }

  function Put(disk: Files, p: string, content: Option<string>): Files {
    if content.Some? then disk[p := content.value] else disk - {p}
  }

  /** One visit. A copy happens only when the content differs. */
  function Visited(disk: Files, image: Image, p: string): Files
    requires p in image.files
  {
    var used := if UsesTemp(image, p, Look(disk, p)) then Put(disk, Temp(p), TempAfter(image, p)) else disk;
    if Fails(image, p, Look(disk, p)) then used else used[p := image.files[p]]
  }

  /** The disk after the first visits. */
  function AfterCopies(disk: Files, image: Image, visit: seq<string>): Files
    requires forall p :: p in visit ==> p in image.files
  {
    if visit == [] then disk
    else Visited(AfterCopies(disk, image, visit[..|visit| - 1]), image, visit[|visit| - 1])
  }

  /** How many of the visits copy. */
  function CopyCount(disk: Files, image: Image, visit: seq<string>): nat
    requires forall p :: p in visit ==> p in image.files
  {
    if visit == [] then 0
    else
      var rest, p := visit[..|visit| - 1], visit[|visit| - 1];
      var before := Look(AfterCopies(disk, image, rest), p);
      CopyCount(disk, image, rest) + if Fails(image, p, before) || before == Some(image.files[p]) then 0 else 1
  }

  /** The paths the sync owns after the visits: the files whose visit did not fail. */
  function Owned(disk: Files, image: Image, visit: seq<string>): seq<string>
    requires forall p :: p in visit ==> p in image.files
  {
    if visit == [] then []
    else
      var rest, p := visit[..|visit| - 1], visit[|visit| - 1];
      Owned(disk, image, rest)
      + if Fails(image, p, Look(AfterCopies(disk, image, rest), p)) then [] else [p]
  }

  predicate SomeFails(disk: Files, image: Image, visit: seq<string>)
    requires forall p :: p in visit ==> p in image.files
  {
    visit != []
    && (var rest, p := visit[..|visit| - 1], visit[|visit| - 1];
        SomeFails(disk, image, rest) || Fails(image, p, Look(AfterCopies(disk, image, rest), p)))
  }

  /** What only the previous manifest lists; paths outside the root are passed over. */
  function Pruned(previous: seq<string>, current: seq<string>, local: string -> bool): set<string> {
    if previous == [] then {}
    else
      var p := previous[|previous| - 1];
      Pruned(previous[..|previous| - 1], current, local) + if p !in current && local(p) then {p} else {}
  }

  lemma {:induction false} PrunedAre(previous: seq<string>, current: seq<string>, local: string -> bool, p: string)
    ensures p in Pruned(previous, current, local) <==> p in previous && p !in current && local(p)
  {
    if previous != [] {
      PrunedAre(previous[..|previous| - 1], current, local, p);
      assert previous == previous[..|previous| - 1] + [previous[|previous| - 1]];
    }
  }

  datatype State = State(disk: Files, manifest: seq<string>)

  function Synced(s: State, image: Image, local: string -> bool): State
    requires forall p :: p in image.visit ==> p in image.files
  {
    var current := Owned(s.disk, image, image.visit);
    State(AfterCopies(s.disk, image, image.visit) - Pruned(s.manifest, current, local), current)
  }

  class Mirror {
    const local: string -> bool
    var disk: Files
    var manifest: seq<string>

    ghost function View(): State
      reads this
    {
      State(disk, manifest)
    }

    constructor (local: string -> bool, disk: Files)
      ensures this.local == local && View() == State(disk, [])
    {
      this.local, this.disk, this.manifest := local, disk, [];
    }

    /** Read, compare, write the temporary file, rename it. */
    method SyncFile(image: Image, p: string) returns (copied: nat, failed: bool)
      requires p in image.files
      modifies this`disk
      ensures disk == Visited(old(disk), image, p)
      ensures failed <==> Fails(image, p, Look(old(disk), p))
      ensures copied == if failed || Look(old(disk), p) == Some(image.files[p]) then 0 else 1
    {
      var fault := Look(image.faults, p);
      if fault == Some(Unreadable) {
        return 0, true;
      }
      if p in disk && disk[p] == image.files[p] {
        assert disk[p := image.files[p]] == disk;
        return 0, false;
      }
      if fault == Some(Blocked) {
        return 0, true;
      }
      if fault.Some? && fault.value.Torn? {
        disk := disk[Temp(p) := fault.value.part];
        return 0, true;
      }
      ghost var before := disk;
      disk := disk[Temp(p) := image.files[p]];
      assert disk - {Temp(p)} == before - {Temp(p)};
      disk := disk - {Temp(p)};
      if fault == Some(Unrenamed) {
        return 0, true;
      }
      disk := disk[p := image.files[p]];
      return 1, false;
    }

    /** One visit: a failing file is passed over, any other is owned. */
    method Visit(image: Image, i: nat, current: seq<string>, copied: nat, failed: bool, ghost start: Files)
        returns (current': seq<string>, copied': nat, failed': bool)
      requires ValidImage(image) && i < |image.visit|
      requires Walked(start, image, image.visit[..i], disk, current, copied, failed)
      modifies this`disk
      ensures Walked(start, image, image.visit[..i + 1], disk, current', copied', failed')
    {
      var p := image.visit[i];
      WalkOn(start, image, i, disk, current, copied, failed);
      var c, bad := SyncFile(image, p);
      if bad {
        return current, copied, true;
      }
      return current + [p], copied + c, failed;
    }

    /** The walk over the image. */
    method CopyAll(image: Image) returns (copied: nat, current: seq<string>, failed: bool)
      requires ValidImage(image)
      modifies this`disk
      ensures disk == AfterCopies(old(disk), image, image.visit) && current == Owned(old(disk), image, image.visit)
      ensures copied == CopyCount(old(disk), image, image.visit)
      ensures failed <==> SomeFails(old(disk), image, image.visit)
    {
      copied, current, failed := 0, [], false;
      ghost var start := disk;
      for i := 0 to |image.visit|
        invariant Walked(start, image, image.visit[..i], disk, current, copied, failed)
      {
        current, copied, failed := Visit(image, i, current, copied, failed, start);
      }
      assert image.visit[..|image.visit|] == image.visit;
    }

    /** Removes a file of the previous manifest that is no longer owned, if it is there. */
    method PruneOne(p: string, current: seq<string>, ghost copies: Files, ghost removed: nat, ghost gone: set<string>)
        returns (n: nat)
      requires GoneFrom(copies, disk, removed, gone)
      modifies this`disk
      ensures GoneFrom(copies, disk, removed + n, gone + if p !in current && local(p) then {p} else {})
    {
      n := 0;
      assert gone + {} == gone;
      if p !in current && local(p) {
        OneMoreGone(copies, gone, p);
        OneMoreCounted(copies.Keys, gone, p);
        if p in disk {
          disk := disk - {p};
          n := 1;
        }
      }
    }

    /** Removes what only the previous manifest lists. */
    method Prune(previous: seq<string>, current: seq<string>) returns (removed: nat)
      modifies this`disk
      ensures disk == old(disk) - Pruned(previous, current, local)
      ensures removed == |old(disk).Keys * Pruned(previous, current, local)|
    {
      removed := 0;
      ghost var copies := disk;
      NothingGone(copies);
      for j := 0 to |previous|
        invariant GoneFrom(copies, disk, removed, Pruned(previous[..j], current, local))
      {
        PrunedSnoc(previous, j, current, local);
        var n := PruneOne(previous[j], current, copies, removed, Pruned(previous[..j], current, local));
        removed := removed + n;
      }
      assert previous[..|previous|] == previous;
    }

    /** Without an image copy nothing happens. */
    method SyncStandard(source: Option<Image>) returns (copied: nat, removed: nat, failed: bool)
      requires source.Some? ==> ValidImage(source.value)
      modifies this`disk, this`manifest
      ensures View() == if source.None? then old(View()) else Synced(old(View()), source.value, local)
      ensures copied == if source.None? then 0 else CopyCount(old(disk), source.value, source.value.visit)
      ensures removed == if source.None? then 0
                         else |AfterCopies(old(disk), source.value, source.value.visit).Keys
                               * Pruned(old(manifest), Owned(old(disk), source.value, source.value.visit), local)|
      ensures failed <==> source.Some? && SomeFails(old(disk), source.value, source.value.visit)
    {
      if source.None? {
        return 0, 0, false;
      }
      var previous := manifest;
      var current;
      copied, current, failed := CopyAll(source.value);
      removed := Prune(previous, current);
      manifest := current;
    }
  }

  /** The state of the walk after the visits. */
  ghost predicate Walked(start: Files, image: Image, visit: seq<string>, disk: Files, current: seq<string>, copied: nat,
      failed: bool)
  {
    && (forall p :: p in visit ==> p in image.files)
    && disk == AfterCopies(start, image, visit) && current == Owned(start, image, visit)
    && copied == CopyCount(start, image, visit)
    && (failed <==> SomeFails(start, image, visit))
  }

  lemma {:induction false} WalkOn(start: Files, image: Image, i: nat, disk: Files, current: seq<string>, copied: nat,
      failed: bool)
    requires ValidImage(image) && i < |image.visit|
    requires Walked(start, image, image.visit[..i], disk, current, copied, failed)
    ensures var p, next := image.visit[i], image.visit[..i + 1];
            && p in image.files
            && (Fails(image, p, Look(disk, p)) ==>
                  Walked(start, image, next, Visited(disk, image, p), current, copied, true))
            && (!Fails(image, p, Look(disk, p)) ==>
                  Walked(start, image, next, Visited(disk, image, p), current + [p],
                         copied + (if Look(disk, p) == Some(image.files[p]) then 0 else 1), failed))
  {
    var p, next := image.visit[i], image.visit[..i + 1];
    assert next == image.visit[..i] + [p];
    assert next[..|next| - 1] == image.visit[..i] && next[|next| - 1] == p;
    assert image.visit[i] in image.files;
  }

  lemma {:induction false} PrunedSnoc(previous: seq<string>, j: nat, current: seq<string>, local: string -> bool)
    requires j < |previous|
    ensures Pruned(previous[..j + 1], current, local)
         == Pruned(previous[..j], current, local)
            + (if previous[j] !in current && local(previous[j]) then {previous[j]} else {})
  {
    assert previous[..j + 1][..j] == previous[..j] && previous[..j + 1][j] == previous[j];
  }

  /** `disk` is `copies` without `gone`, which took `removed` files. */
  ghost predicate GoneFrom(copies: Files, disk: Files, removed: nat, gone: set<string>) {
    disk == copies - gone && removed == |copies.Keys * gone|
  }

  lemma {:induction false} NothingGone(copies: Files)
    ensures GoneFrom(copies, copies, 0, {})
  {
    assert copies - {} == copies && copies.Keys * {} == {};
  }

  lemma {:induction false} OneMoreGone(copies: Files, gone: set<string>, p: string)
    ensures copies - (gone + {p}) == copies - gone - {p}
    ensures p !in copies - gone ==> copies - gone - {p} == copies - gone
  {}

  lemma {:induction false} OneMoreCounted(keys: set<string>, gone: set<string>, p: string)
    ensures |keys * (gone + {p})| == |keys * gone| + if p in keys && p !in gone then 1 else 0
  {
    assert keys * (gone + {p}) == keys * gone + if p in keys && p !in gone then {p} else {};
  }

  // ---- What the visits make of every path ----

  /** The path of which `p` is the temporary name. */
  function Stem(p: string): (x: Option<string>)
    ensures x.Some? ==> Temp(x.value) == p && |x.value| < |p|
  {
    if |p| >= |SYNCING| && p[|p| - |SYNCING|..] == SYNCING then
      assert p == p[..|p| - |SYNCING|] + SYNCING;
      Some(p[..|p| - |SYNCING|])
    else None
  }

  lemma {:induction false} StemOfTemp(x: string)
    ensures Stem(Temp(x)) == Some(x)
  {
    assert Temp(x)[|x|..] == SYNCING && Temp(x)[..|x|] == x;
  }

  /** What lies at `p` when its own turn comes, or in the end if it has none: the visit of its stem may have used it. */
  ghost function Found(disk: Files, image: Image, visit: seq<string>, p: string): Option<string>
    requires forall x :: x in visit ==> x in image.files
    decreases |p|, 1
  {
    if IsTaken(disk, image, visit, p) then TempAfter(image, Stem(p).value) else Look(disk, p)
  }

  /** Whether one of the visits uses `p` as its temporary name. */
  ghost predicate IsTaken(disk: Files, image: Image, visit: seq<string>, p: string)
    requires forall x :: x in visit ==> x in image.files
    decreases |p|, 0
  {
    Stem(p).Some? && Stem(p).value in visit && UsesTemp(image, Stem(p).value, Found(disk, image, visit, Stem(p).value))
  }

  lemma {:induction false} OneMoreVisit(disk: Files, image: Image, rest: seq<string>, p: string, q: string)
    requires (forall x :: x in rest + [p] ==> x in image.files) && Lexical(rest + [p])
    requires q in rest + [p] || q != Temp(p)
    requires forall x :: x in rest ==> x in image.files
    ensures q != Temp(p) && Found(disk, image, rest + [p], q) == Found(disk, image, rest, q)
    ensures IsTaken(disk, image, rest + [p], q) <==> IsTaken(disk, image, rest, q)
    decreases |q|
  {
    var visit := rest + [p];
    if q in visit {
      var k :| 0 <= k < |visit| && visit[k] == q;
      assert k < |rest| ==> visit[k] != Temp(visit[|rest|]);
      assert q != Temp(p);
    }
    if Stem(q).Some? && Stem(q).value in rest {
      assert Stem(q).value in visit;
      OneMoreVisit(disk, image, rest, p, Stem(q).value);
    }
  }

  lemma {:induction false} VisitMakes(before: Files, image: Image, p: string, q: string)
    requires p in image.files
    ensures Look(Visited(before, image, p), q)
         == if q == p && !Fails(image, p, Look(before, p)) then Some(image.files[p])
            else if q == Temp(p) && UsesTemp(image, p, Look(before, p)) then TempAfter(image, p)
            else Look(before, q)
  {}

  /** What the visits make of every path: the image's content where the copy succeeds, and what is found elsewhere. */
  lemma {:induction false} CopiesMake(disk: Files, image: Image, visit: seq<string>, q: string)
    requires (forall x :: x in visit ==> x in image.files) && Distinct(visit) && Lexical(visit)
    ensures Look(AfterCopies(disk, image, visit), q)
         == if q in visit && !Fails(image, q, Found(disk, image, visit, q)) then Some(image.files[q])
            else Found(disk, image, visit, q)
  {
    if visit != [] {
      var rest, p := visit[..|visit| - 1], visit[|visit| - 1];
      assert visit == rest + [p] && p !in rest;
      assert forall x :: x in rest ==> x in visit;
      CopiesMake(disk, image, rest, q);
      CopiesMake(disk, image, rest, p);
      LastVisitMakes(disk, image, rest, p, q);
    }
  }

  lemma {:induction false} LastVisitMakes(disk: Files, image: Image, rest: seq<string>, p: string, q: string)
    requires (forall x :: x in rest + [p] ==> x in image.files) && Lexical(rest + [p]) && p !in rest
    requires p in image.files && forall x :: x in rest ==> x in image.files
    requires var before := AfterCopies(disk, image, rest);
             && Look(before, p) == Found(disk, image, rest, p)
             && Look(before, q) == if q in rest && !Fails(image, q, Found(disk, image, rest, q))
                                   then Some(image.files[q]) else Found(disk, image, rest, q)
    ensures Look(Visited(AfterCopies(disk, image, rest), image, p), q)
         == if q in rest + [p] && !Fails(image, q, Found(disk, image, rest + [p], q)) then Some(image.files[q])
            else Found(disk, image, rest + [p], q)
  {
    OneMoreVisit(disk, image, rest, p, p);
    VisitMakes(AfterCopies(disk, image, rest), image, p, q);
    if q == Temp(p) {
      LastTemp(disk, image, rest, p);
    } else {
      OneMoreVisit(disk, image, rest, p, q);
    }
  }

  /** The last visit is the first to use its temporary name, which is not visited before. */
  lemma {:induction false} LastTemp(disk: Files, image: Image, rest: seq<string>, p: string)
    requires (forall x :: x in rest + [p] ==> x in image.files) && Lexical(rest + [p]) && p !in rest
    requires p in image.files && forall x :: x in rest ==> x in image.files
    ensures Temp(p) !in rest + [p]
    ensures !IsTaken(disk, image, rest, Temp(p))
    ensures IsTaken(disk, image, rest + [p], Temp(p)) <==> UsesTemp(image, p, Found(disk, image, rest, p))
    ensures Stem(Temp(p)) == Some(p)
  {
    var visit := rest + [p];
    StemOfTemp(p);
    OneMoreVisit(disk, image, rest, p, p);
    assert visit[|rest|] == p && forall k :: 0 <= k < |rest| ==> visit[k] == rest[k] && visit[k] != Temp(p);
  }

  // ---- One sync ----

  lemma {:induction false} OwnedAre(disk: Files, image: Image, visit: seq<string>, p: string)
    requires (forall x :: x in visit ==> x in image.files) && Distinct(visit) && Lexical(visit)
    ensures p in Owned(disk, image, visit) <==> p in visit && !Fails(image, p, Found(disk, image, visit, p))
  {
    if visit != [] {
      var rest, q := visit[..|visit| - 1], visit[|visit| - 1];
      assert visit == rest + [q] && q !in rest;
      assert forall x :: x in rest ==> x in visit;
      OwnedAre(disk, image, rest, p);
      if p in visit {
        OneMoreVisit(disk, image, rest, q, p);
      }
      CopiesMake(disk, image, rest, q);
    }
  }

  ghost predicate HasFailing(disk: Files, image: Image, visit: seq<string>)
    requires forall x :: x in visit ==> x in image.files
  {
    exists p :: p in visit && Fails(image, p, Found(disk, image, visit, p))
  }

  lemma {:induction false} FailuresAre(disk: Files, image: Image, visit: seq<string>)
    requires (forall x :: x in visit ==> x in image.files) && Distinct(visit) && Lexical(visit)
    ensures SomeFails(disk, image, visit) <==> HasFailing(disk, image, visit)
  {
    if visit != [] {
      var rest, q := visit[..|visit| - 1], visit[|visit| - 1];
      assert visit == rest + [q] && q !in rest;
      assert forall x :: x in rest ==> x in visit;
      FailuresAre(disk, image, rest);
      CopiesMake(disk, image, rest, q);
      FailingSnoc(disk, image, rest, q);
    }
  }

  lemma {:induction false} FailingSnoc(disk: Files, image: Image, rest: seq<string>, q: string)
    requires (forall x :: x in rest + [q] ==> x in image.files) && Lexical(rest + [q])
    requires q in image.files && forall x :: x in rest ==> x in image.files
    ensures HasFailing(disk, image, rest + [q])
       <==> HasFailing(disk, image, rest) || Fails(image, q, Found(disk, image, rest, q))
  {
    var visit := rest + [q];
    forall p | p in visit ensures Found(disk, image, visit, p) == Found(disk, image, rest, p) {
      OneMoreVisit(disk, image, rest, q, p);
    }
    assert q in visit && forall p :: p in visit <==> p in rest || p == q;
  }

  /**
   * After a run without per-file error that visits the whole image, every image file matches its copy, the manifest is
   * exactly the image's file set, and files only the previous manifest lists are gone.
   */
  lemma {:induction false} CleanRunMirrors(s: State, image: Image, local: string -> bool)
    requires ValidImage(image) && !SomeFails(s.disk, image, image.visit)
    requires forall p :: p in image.files ==> p in image.visit
    ensures var t := Synced(s, image, local);
            && (forall p :: p in image.files ==> Look(t.disk, p) == Some(image.files[p]))
            && (forall p :: p in t.manifest <==> p in image.files)
            && (forall p :: p in s.manifest && p !in image.files && local(p) ==> p !in t.disk)
  {
    var t := Synced(s, image, local);
    FailuresAre(s.disk, image, image.visit);
    forall p ensures p in t.manifest <==> p in image.files {
      OwnedAre(s.disk, image, image.visit, p);
    }
    forall p ensures p in Pruned(s.manifest, t.manifest, local) <==> p in s.manifest && p !in t.manifest && local(p) {
      PrunedAre(s.manifest, t.manifest, local, p);
    }
    forall p | p in image.files ensures Look(t.disk, p) == Some(image.files[p]) {
      CopiesMake(s.disk, image, image.visit, p);
    }
  }

  /** A path that is neither shipped nor in the previous manifest is left alone, unless a visit uses its name. */
  lemma {:induction false} SyncElsewhere(s: State, image: Image, local: string -> bool, p: string)
    requires ValidImage(image) && p !in image.files && p !in s.manifest
    ensures Look(Synced(s, image, local).disk, p) == Found(s.disk, image, image.visit, p)
    ensures p !in Synced(s, image, local).manifest
  {
    CopiesMake(s.disk, image, image.visit, p);
    OwnedAre(s.disk, image, image.visit, p);
    PrunedAre(s.manifest, Owned(s.disk, image, image.visit), local, p);
  }

  /**
   * When no shipped name is another's temporary name, a visit uses `p` exactly when `p` is the temporary name of a
   * visited file whose content differs, and whose temporary file can be written to.
   */
  lemma {:induction false} TakenIff(disk: Files, image: Image, p: string)
    requires ValidImage(image) && forall x, y :: x in image.visit && y in image.visit ==> x != Temp(y)
    ensures IsTaken(disk, image, image.visit, p)
       <==> exists x :: x in image.visit && p == x + ".syncing" && Look(disk, x) != Some(image.files[x])
                        && (x in image.faults ==> image.faults[x].Torn? || image.faults[x].Unrenamed?)
  {
    if Stem(p).Some? {
      var x := Stem(p).value;
      assert x in image.visit ==> !IsTaken(disk, image, image.visit, x);
      assert x in image.visit ==> Found(disk, image, image.visit, x) == Look(disk, x);
    }
    forall x | p == x + ".syncing" ensures Stem(p) == Some(x) {
      StemOfTemp(x);
    }
  }

  /**
   * A shipped file whose visit fails drops out of the manifest, and the copy an earlier run placed is removed by the
   * same run.
   */
  lemma {:induction false} FailedFileIsPruned(s: State, image: Image, local: string -> bool, p: string)
    requires ValidImage(image) && p in image.visit && Fails(image, p, Found(s.disk, image, image.visit, p))
    requires p in s.manifest && local(p)
    ensures p !in Synced(s, image, local).disk && p !in Synced(s, image, local).manifest
  {
    OwnedAre(s.disk, image, image.visit, p);
    PrunedAre(s.manifest, Owned(s.disk, image, image.visit), local, p);
  }

  // ---- Any sequence of boots and operator changes ----

  datatype Event = Boot(image: Image) | Write(path: string, content: string) | Delete(path: string)

  ghost predicate ValidEvent(e: Event) {
    e.Boot? ==> ValidImage(e.image)
  }

  ghost function After(s: State, events: seq<Event>, local: string -> bool): State
    requires forall e :: e in events ==> ValidEvent(e)
  {
    if events == [] then s
    else
      var t, e := After(s, events[..|events| - 1], local), events[|events| - 1];
      assert ValidEvent(e);
      match e
      case Boot(image) => assert ValidImage(image); Synced(t, image, local)
      case Write(path, content) => t.(disk := t.disk[path := content])
      case Delete(path) => t.(disk := t.disk - {path})
  }

  /** What the operator alone would have made of a path. */
  ghost function OperatorOnly(content: Option<string>, events: seq<Event>, p: string): Option<string> {
    if events == [] then content
    else
      var c := OperatorOnly(content, events[..|events| - 1], p);
      match events[|events| - 1]
      case Boot(_) => c
      case Write(path, content) => if path == p then Some(content) else c
      case Delete(path) => if path == p then None else c
  }

  ghost predicate NeverShipped(events: seq<Event>, p: string) {
    forall e :: e in events && e.Boot? ==> p !in e.image.files
  }

  /** At every point of the run the path is as the operator left it. */
  ghost predicate AlwaysTheirs(s: State, events: seq<Event>, local: string -> bool, p: string)
    requires forall e :: e in events ==> ValidEvent(e)
  {
    && Look(After(s, events, local).disk, p) == OperatorOnly(Look(s.disk, p), events, p)
    && (events != [] ==> AlwaysTheirs(s, events[..|events| - 1], local, p))
  }

  /** The boot uses `p` as a temporary name, and leaves there something else than the operator did. */
  ghost predicate Disturbs(disk: Files, image: Image, p: string, operator: Option<string>)
    requires ValidImage(image)
  {
    IsTaken(disk, image, image.visit, p) && TempAfter(image, Stem(p).value) != operator
  }

  ghost predicate NeverDisturbed(s: State, events: seq<Event>, local: string -> bool, p: string)
    requires forall e :: e in events ==> ValidEvent(e)
  {
    events == []
    || (var rest, e := events[..|events| - 1], events[|events| - 1];
        assert ValidEvent(e);
        && NeverDisturbed(s, rest, local, p)
        && (e.Boot? ==> !Disturbs(After(s, rest, local).disk, e.image, p, OperatorOnly(Look(s.disk, p), rest, p))))
  }

  /**
   * Over any run, a path no image ever ships stays exactly as the operator left it, if and only if no boot uses it as
   * a temporary name while something is there, or leaves a broken-off temporary file under it.
   */
  lemma {:induction false} OperatorPathsAreTheirs(s: State, events: seq<Event>, local: string -> bool, p: string)
    requires (forall e :: e in events ==> ValidEvent(e)) && NeverShipped(events, p) && p !in s.manifest
    ensures AlwaysTheirs(s, events, local, p) <==> NeverDisturbed(s, events, local, p)
    ensures p !in After(s, events, local).manifest
  {
    if events != [] {
      var rest, e := events[..|events| - 1], events[|events| - 1];
      assert events == rest + [e] && e in events;
      OperatorPathsAreTheirs(s, rest, local, p);
      if e.Boot? {
        assert ValidEvent(e) && p !in e.image.files;
        SyncElsewhere(After(s, rest, local), e.image, local, p);
      }
    }
  }

  /** In particular when it is the temporary name of no shipped file. */
  lemma {:induction false} OrdinaryPathsAreTheirs(s: State, events: seq<Event>, local: string -> bool, p: string)
    requires (forall e :: e in events ==> ValidEvent(e)) && NeverShipped(events, p) && p !in s.manifest
    requires forall e, x :: e in events && e.Boot? && x in e.image.files ==> p != Temp(x)
    ensures Look(After(s, events, local).disk, p) == OperatorOnly(Look(s.disk, p), events, p)
  {
    OperatorPathsAreTheirs(s, events, local, p);
    NoTemporaryIsTaken(s, events, local, p);
  }

  lemma {:induction false} NoTemporaryIsTaken(s: State, events: seq<Event>, local: string -> bool, p: string)
    requires forall e :: e in events ==> ValidEvent(e)
    requires forall e, x :: e in events && e.Boot? && x in e.image.files ==> p != Temp(x)
    ensures NeverDisturbed(s, events, local, p)
  {
    if events != [] {
      var rest, e := events[..|events| - 1], events[|events| - 1];
      assert events == rest + [e] && e in events;
      NoTemporaryIsTaken(s, rest, local, p);
      assert ValidEvent(e);
      assert e.Boot? && Stem(p).Some? ==> Stem(p).value !in e.image.visit;
    }
  }

  /** The temporary name is not spared: copying a file removes whatever sits under it, and so does a failing rename. */
  lemma {:induction false} TemporaryNameIsLost(s: State, p: string, content: string, faults: map<string, Fault>,
      local: string -> bool)
    requires Look(s.disk, p) != Some(content) && (faults == map[] || faults == map[p := Unrenamed])
    ensures var image := Image(map[p := content], [p], faults);
            ValidImage(image) && p + ".syncing" !in image.files && p + ".syncing" !in Synced(s, image, local).disk
  {
    var image := Image(map[p := content], [p], faults);
    assert image.visit[..0] == [] && AfterCopies(s.disk, image, []) == s.disk;
    assert AfterCopies(s.disk, image, [p]) == Visited(s.disk, image, p);
  }
}
