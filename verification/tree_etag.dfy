/** The validator protocol of the tree endpoints under concurrent rebuilds (internal/server/handlers.go). */
module TreeEtag {
  import opened OidTrie
  import opened PathFolding
  import opened TreePaging
  import opened Spine
  import opened Model
  import Decimal

  // ---- Requests and rendered bodies ----

  datatype Request =
    | TreeRequest(parent: Oid, backward: bool, bound: int, mode: Mode, limit: nat)
    | SpineRequest(focus: Oid, mode: Mode, limit: nat)

  /** The IANA canonical names compiled into one build of the server. */
  type Canon = map<Oid, string>

  datatype TreeItem = TreeItem(oid: Oid, directOid: Oid, name: string, namePath: seq<string>, moduleName: string,
                               kind: Kind, hasSymbol: bool, hasChildren: bool, childCount: nat, position: seq<string>)

  datatype BodyLevel = BodyLevel(parent: Oid, children: seq<TreeItem>, nextAfter: Option<Oid>, anchored: bool)

  datatype Body =
    | TreeBody(children: seq<TreeItem>, nextAfter: Option<Oid>, prevBefore: Option<Oid>)
    | SpineBody(levels: seq<BodyLevel>)

  function Label(seg: FoldSeg): string {
    if seg.oid == [] then "" else Decimal.Dec(Last(seg.oid))
  }

  function SegDisplayName(canon: Canon, seg: FoldSeg): string {
    if seg.hasSymbol && seg.name != "" then seg.name
    else if seg.oid in canon then canon[seg.oid]
    else Label(seg)
  }

  predicate Chained(rows: seq<FoldedRow>) {
    forall r :: r in rows ==> r.chain != []
  }

  function ProjectRow(canon: Canon, r: FoldedRow): TreeItem
    requires r.chain != []
  {
    var a := r.Anchor();
    TreeItem(a.oid, r.DirectOid(), a.name, seq(|r.chain|, i requires 0 <= i < |r.chain| => SegDisplayName(canon, r.chain[i])),
             r.moduleName, r.kind, a.hasSymbol, r.expandable, r.childCount,
             seq(|r.chain|, i requires 0 <= i < |r.chain| => Label(r.chain[i])))
  }

  function ProjectFoldedRows(canon: Canon, rows: seq<FoldedRow>): seq<TreeItem>
    requires Chained(rows)
  {
    seq(|rows|, i requires 0 <= i < |rows| => ProjectRow(canon, rows[i]))
  }

  /** A full page implies more rows in its direction; the cursor is the boundary row's direct child. */
  function NextCursor(rows: seq<FoldedRow>, limit: nat): Option<Oid>
    requires Chained(rows)
  {
    if |rows| == limit && rows != [] then Some(rows[|rows| - 1].DirectOid()) else None
  }

  function PrevCursor(rows: seq<FoldedRow>, limit: nat): Option<Oid>
    requires Chained(rows)
  {
    if |rows| == limit && rows != [] then Some(rows[0].DirectOid()) else None
  }

  function RenderTree(canon: Canon, req: Request, rows: seq<FoldedRow>): Body
    requires req.TreeRequest? && Chained(rows)
  {
    TreeBody(ProjectFoldedRows(canon, rows),
             if req.backward then None else NextCursor(rows, req.limit),
             if req.backward then PrevCursor(rows, req.limit) else None)
  }

  predicate ChainedLevels(levels: seq<SpineLevel>) {
    forall level :: level in levels ==> Chained(level.rows)
  }

  function RenderSpine(canon: Canon, req: Request, levels: seq<SpineLevel>): Body
    requires req.SpineRequest? && ChainedLevels(levels)
  {
    SpineBody(seq(|levels|, i requires 0 <= i < |levels| =>
      BodyLevel(levels[i].parent, ProjectFoldedRows(canon, levels[i].rows), NextCursor(levels[i].rows, req.limit),
                levels[i].anchored)))
  }

  lemma {:induction false} PageIsProper(t: Trie, m: Mode, p: Oid, forward: bool, bound: int, limit: nat)
    requires WellFormed(t)
    ensures RowsUnder(p, FoldedPage(t, m, p, forward, bound, limit))
  {
    var rows, segs := FoldedPage(t, m, p, forward, bound, limit), PageSegs(t, m, p, forward, bound, limit);
    RowsCarryCursors(t, m, p, forward, bound, limit);
    forall r | r in rows ensures RowUnder(p, r) {
      var i :| 0 <= i < |rows| && rows[i] == r;
      assert Shown(t, m, p + [segs[i]]);
    }
  }

  lemma {:induction false} WalkIsChained(pages: Pages, parent: Oid, focus: Oid, limit: nat)
    requires ProperPages(pages)
    ensures ChainedLevels(SpineWalk(pages, parent, focus, limit))
    decreases if parent < focus then |focus| - |parent| else 0
  {
    if parent < focus {
      WalkStep(pages, parent, focus, limit);
      var level := LevelAt(pages, parent, focus, limit);
      NextIsDeeper(level, focus);
      var next := NextParent(level, focus);
      if next.Some? { WalkIsChained(pages, next.value, focus, limit); }
    }
  }

  lemma {:induction false} SpineIsChained(t: Trie, m: Mode, focus: Oid, limit: nat)
    requires WellFormed(t)
    ensures ChainedLevels(SpineOf(t, m, focus, limit))
  {
    PagesAreProper(t, m, limit);
    WalkIsChained(PagesOf(t, m, limit), [], focus, limit);
  }

  /** The body a request would get from one unchanging snapshot of the trie. */
  ghost function Render(t: Trie, canon: Canon, req: Request): Body
    requires WellFormed(t)
  {
    match req
    case TreeRequest(p, backward, bound, m, limit) =>
      PageIsProper(t, m, p, !backward, bound, limit);
      RenderTree(canon, req, FoldedPage(t, m, p, !backward, bound, limit))
    case SpineRequest(focus, m, limit) =>
      SpineIsChained(t, m, focus, limit);
      RenderSpine(canon, req, SpineOf(t, m, focus, limit))
  }

  // ---- A handler reads one page at a time, each from whatever trie is current ----

  datatype Query = Query(parent: Oid, forward: bool, bound: int)

  datatype Reader =
    | OnePage
    | FirstPage(parent: Oid, levels: seq<SpineLevel>)
    | SecondPage(parent: Oid, first: seq<FoldedRow>, levels: seq<SpineLevel>)
    | Finished(body: Body)

  function StartRead(canon: Canon, req: Request): Reader {
    if req.TreeRequest? then OnePage
    else if [] < req.focus then FirstPage([], [])
    else Finished(RenderSpine(canon, req, []))
  }

  /** What every reader keeps, whatever mixture of tries its pages came from. */
  ghost predicate ReaderOk(req: Request, r: Reader) {
    match r
    case OnePage => req.TreeRequest?
    case FirstPage(p, levels) => req.SpineRequest? && p < req.focus && ChainedLevels(levels) && |levels| < SPINE_MAX_DEPTH
    case SecondPage(p, first, levels) =>
      req.SpineRequest? && p < req.focus && ChainedLevels(levels) && |levels| < SPINE_MAX_DEPTH
      && RowsUnder(p, first)
    case Finished(_) => true
  }

  function Ask(req: Request, r: Reader): Query
    requires ReaderOk(req, r) && !r.Finished?
  {
    match r
    case OnePage => Query(req.parent, !req.backward, req.bound)
    case FirstPage(p, _) => Query(p, true, -1)
    case SecondPage(p, _, _) => Query(p, true, Prev(req.focus[|p|]))
  }

  function Answer(t: Trie, req: Request, q: Query): seq<FoldedRow>
    requires WellFormed(t)
  {
    FoldedPage(t, req.mode, q.parent, q.forward, q.bound, req.limit)
  }

  function LevelDone(canon: Canon, req: Request, levels: seq<SpineLevel>, level: SpineLevel): Reader
    requires req.SpineRequest? && level.parent < req.focus && ChainedLevels(levels)
    requires RowsUnder(level.parent, level.rows)
  {
    var next := NextParent(level, req.focus);
    if next.None? || |levels| + 1 >= SPINE_MAX_DEPTH || !(next.value < req.focus)
    then Finished(RenderSpine(canon, req, levels + [level]))
    else FirstPage(next.value, levels + [level])
  }

  function Feed(canon: Canon, req: Request, r: Reader, rows: seq<FoldedRow>): (next: Reader)
    requires ReaderOk(req, r) && !r.Finished?
    requires RowsUnder(Ask(req, r).parent, rows)
    ensures ReaderOk(req, next)
  {
    match r
    case OnePage =>
      assert forall x :: x in rows ==> RowUnder(Ask(req, r).parent, x);
      Finished(RenderTree(canon, req, rows))
    case FirstPage(p, levels) =>
      if Overfull(rows, req.focus[|p|], req.limit) then SecondPage(p, rows, levels)
      else LevelDone(canon, req, levels, SpineLevel(p, rows, false))
    case SecondPage(p, first, levels) =>
      if FindRowBySeg(rows, req.focus[|p|]).Some? then LevelDone(canon, req, levels, SpineLevel(p, rows, true))
      else LevelDone(canon, req, levels, SpineLevel(p, first, false))
  }

  /** One page read against the current trie. */
  function ReadOnce(t: Trie, canon: Canon, req: Request, r: Reader): (next: Reader)
    requires WellFormed(t) && ReaderOk(req, r) && !r.Finished?
    ensures ReaderOk(req, next)
  {
    var q := Ask(req, r);
    PageIsProper(t, req.mode, q.parent, q.forward, q.bound, req.limit);
    Feed(canon, req, r, Answer(t, req, q))
  }

  /** A spine reader is where a reader that only ever saw the answers `pages` would be. */
  ghost predicate SpineTrack(pages: Pages, canon: Canon, req: Request, r: Reader)
    requires ProperPages(pages) && req.SpineRequest?
  {
    && ReaderOk(req, r) && ChainedLevels(SpineCut(pages, req.focus, req.limit))
    && match r
       case OnePage => false
       case FirstPage(p, levels) =>
         SpineWalk(pages, [], req.focus, req.limit) == levels + SpineWalk(pages, p, req.focus, req.limit)
       case SecondPage(p, first, levels) =>
         && SpineWalk(pages, [], req.focus, req.limit) == levels + SpineWalk(pages, p, req.focus, req.limit)
         && first == pages(p, -1) && Overfull(first, req.focus[|p|], req.limit)
       case Finished(body) => body == RenderSpine(canon, req, SpineCut(pages, req.focus, req.limit))
  }

  lemma {:induction false} StartTracks(pages: Pages, canon: Canon, req: Request)
    requires ProperPages(pages) && req.SpineRequest?
    ensures SpineTrack(pages, canon, req, StartRead(canon, req))
  {
    WalkIsChained(pages, [], req.focus, req.limit);
    NothingBefore(SpineWalk(pages, [], req.focus, req.limit));
  }

  lemma {:induction false} LevelDoneTracks(pages: Pages, canon: Canon, req: Request, levels: seq<SpineLevel>,
                                           level: SpineLevel)
    requires ProperPages(pages) && req.SpineRequest? && level.parent < req.focus && |levels| < SPINE_MAX_DEPTH
    requires SpineWalk(pages, [], req.focus, req.limit) == levels + SpineWalk(pages, level.parent, req.focus, req.limit)
    requires level == LevelAt(pages, level.parent, req.focus, req.limit)
    requires ChainedLevels(levels) && RowsUnder(level.parent, level.rows)
    ensures SpineTrack(pages, canon, req, LevelDone(canon, req, levels, level))
  {
    var walk, all := SpineWalk(pages, [], req.focus, req.limit), levels + [level];
    WalkIsChained(pages, [], req.focus, req.limit);
    Advances(pages, walk, levels, level.parent, req.focus, req.limit);
    assert walk == all ==> Take(walk, SPINE_MAX_DEPTH) == all;
    assert |all| == SPINE_MAX_DEPTH && all <= walk ==> Take(walk, SPINE_MAX_DEPTH) == all;
  }

  lemma {:induction false} FeedTracks(pages: Pages, canon: Canon, req: Request, r: Reader, rows: seq<FoldedRow>)
    requires ProperPages(pages) && req.SpineRequest? && SpineTrack(pages, canon, req, r) && !r.Finished?
    requires rows == pages(Ask(req, r).parent, Ask(req, r).bound)
    ensures RowsUnder(Ask(req, r).parent, rows)
    ensures SpineTrack(pages, canon, req, Feed(canon, req, r, rows))
  {
    assert RowsUnder(Ask(req, r).parent, rows);
    match r {
      case OnePage =>
      case FirstPage(p, levels) =>
        if !Overfull(rows, req.focus[|p|], req.limit) {
          LevelDoneTracks(pages, canon, req, levels, SpineLevel(p, rows, false));
        }
      case SecondPage(p, first, levels) =>
        if FindRowBySeg(rows, req.focus[|p|]).Some? {
          LevelDoneTracks(pages, canon, req, levels, SpineLevel(p, rows, true));
        } else {
          LevelDoneTracks(pages, canon, req, levels, SpineLevel(p, first, false));
        }
    }
  }

  /** The reader is where a reader that only ever saw `t` would be. */
  ghost predicate OnTrack(t: Trie, canon: Canon, req: Request, r: Reader)
    requires WellFormed(t)
  {
    if req.TreeRequest? then ReaderOk(req, r) && (r.Finished? ==> r.body == Render(t, canon, req))
    else
      PagesAreProper(t, req.mode, req.limit);
      SpineTrack(PagesOf(t, req.mode, req.limit), canon, req, r)
  }

  lemma {:induction false} StartOnTrack(t: Trie, canon: Canon, req: Request)
    requires WellFormed(t)
    ensures OnTrack(t, canon, req, StartRead(canon, req))
  {
    if req.SpineRequest? {
      PagesAreProper(t, req.mode, req.limit);
      StartTracks(PagesOf(t, req.mode, req.limit), canon, req);
    }
  }

  lemma {:induction false} ReadStaysOnTrack(t: Trie, canon: Canon, req: Request, r: Reader)
    requires WellFormed(t) && !r.Finished? && OnTrack(t, canon, req, r)
    ensures OnTrack(t, canon, req, ReadOnce(t, canon, req, r))
  {
    var q := Ask(req, r);
    PageIsProper(t, req.mode, q.parent, q.forward, q.bound, req.limit);
    if req.SpineRequest? {
      PagesAreProper(t, req.mode, req.limit);
      var pages := PagesOf(t, req.mode, req.limit);
      assert Answer(t, req, q) == pages(q.parent, q.bound);
      FeedTracks(pages, canon, req, r, Answer(t, req, q));
    }
  }

  /** A reader on track that has finished has rendered the snapshot. */
  lemma {:induction false} FinishedRenders(t: Trie, canon: Canon, req: Request, r: Reader)
    requires WellFormed(t) && OnTrack(t, canon, req, r) && r.Finished?
    ensures r.body == Render(t, canon, req)
  {}

  // ---- Tags ----

  /** The strong validator text: the trie generation and the build version. */
  function TagText(generation: int, version: string): string {
    "\"oidtree-g" + (Decimal.DecInt(generation) + ("-" + (version + "\"")))
  }

  /** Equal tags name the same generation and the same build. */
  lemma {:induction false} TagIdentifies(g: int, v: string, h: int, w: string)
    requires TagText(g, v) == TagText(h, w)
    ensures g == h && v == w
  {
    var p := "\"oidtree-g";
    var s, t := Decimal.DecInt(g) + ("-" + (v + "\"")), Decimal.DecInt(h) + ("-" + (w + "\""));
    assert s == TagText(g, v)[|p|..] && t == TagText(h, w)[|p|..];
    Decimal.DecIntThenDash(g, v + "\"", h, w + "\"");
    assert v == (v + "\"")[..|v|] && w == (w + "\"")[..|w|];
  }

  function TrimWeak(c: string): string {
    if "W/" <= c then c[2..] else c
  }

  /** Whether a list of If-None-Match candidates names the tag (weak comparison; `*` names every tag). */
  ghost predicate ListsTag(candidates: seq<string>, tag: string) {
    exists c :: c in candidates && (c == "*" || c == tag || TrimWeak(c) == tag)
  }

  /** The tag itself, its weak form, or the asterisk. */
  lemma {:induction false} ListsTagIs(candidates: seq<string>, tag: string)
    ensures ListsTag(candidates, tag) <==> "*" in candidates || tag in candidates || ("W/" + tag) in candidates
  {
    forall c ensures TrimWeak(c) == tag ==> c == tag || c == "W/" + tag {
      if "W/" <= c {
        assert c == "W/" + c[2..];
      }
    }
    assert TrimWeak("W/" + tag) == tag;
  }

  method EtagMatches(candidates: seq<string>, tag: string) returns (b: bool)
    ensures b <==> ListsTag(candidates, tag)
    ensures b <==> "*" in candidates || tag in candidates || ("W/" + tag) in candidates
  {
    ListsTagIs(candidates, tag);
    for i := 0 to |candidates|
      invariant !ListsTag(candidates[..i], tag)
    {
      var c := candidates[i];
      assert candidates[..i + 1] == candidates[..i] + [c];
      if c == "*" || c == tag || TrimWeak(c) == tag {
        return true;
      }
    }
    assert candidates[..|candidates|] == candidates;
    return false;
  }

  // ---- The system: one database, concurrent handlers, any number of caches ----

  datatype Response = NotModified(tag: string) | Success(body: Body, validator: Option<string>)

  datatype Phase = Arrived | Reading(tag: Option<string>, reader: Reader) | Answered(response: Response)

  datatype Handler = Handler(req: Request, candidates: seq<string>, phase: Phase)

  /** A response some cache may hold: only stamped ones may be stored. */
  datatype Stored = Stored(req: Request, tag: string, body: Body)

  datatype System = System(trie: Trie, generation: Option<int>, version: string, handlers: map<nat, Handler>,
                           stored: set<Stored>, history: map<int, Trie>)

  datatype Step =
    | Rebuild(symbols: seq<Symbol>, now: int)
    | Restart(version: string)
    | Arrive(id: nat, req: Request, candidates: seq<string>)
    | ReadTag(id: nat, fails: bool)
    | ReadPage(id: nat)
    | Stamp(id: nat, fails: bool)

  /** The names compiled into each build. */
  type Builds = string -> Canon

  /** treeETag: no tag when the generation cannot be read or was never stamped. */
  function CurrentTag(s: System, fails: bool): Option<string> {
    if fails || s.generation.None? || s.generation.value == 0 then None
    else Some(TagText(s.generation.value, s.version))
  }

  /** A generation has been stamped, and is not the zero that every new database shares. */
  predicate HasGeneration(s: System) {
    s.generation.Some? && s.generation.value != 0
  }

  lemma {:induction false} CurrentTagIs(s: System)
    ensures CurrentTag(s, true) == None
    ensures if HasGeneration(s) then CurrentTag(s, false) == Some(TagText(s.generation.value, s.version))
            else CurrentTag(s, false) == None
  {}

  ghost predicate Enabled(s: System, step: Step) {
    match step
    case Rebuild(_, _) => true
    case Restart(_) => true
    case Arrive(id, _, _) => id !in s.handlers
    case ReadTag(id, _) => id in s.handlers && s.handlers[id].phase.Arrived?
    case ReadPage(id) => id in s.handlers && s.handlers[id].phase.Reading? && !s.handlers[id].phase.reader.Finished?
    case Stamp(id, _) => id in s.handlers && s.handlers[id].phase.Reading? && s.handlers[id].phase.reader.Finished?
  }

  ghost function SetPhase(s: System, id: nat, phase: Phase): System
    requires id in s.handlers
  {
    s.(handlers := s.handlers[id := s.handlers[id].(phase := phase)])
  }

  ghost predicate HandlersOk(s: System) {
    WellFormed(s.trie)
    && forall id :: id in s.handlers && s.handlers[id].phase.Reading? ==>
         ReaderOk(s.handlers[id].req, s.handlers[id].phase.reader)
  }

  ghost function Apply(builds: Builds, s: System, step: Step): System
    requires HandlersOk(s) && Enabled(s, step)
  {
    match step
    case Rebuild(symbols, now) =>
      var g := NextGeneration(s.generation, now);
      s.(trie := TrieOf(symbols), generation := g, history := s.history[g.value := TrieOf(symbols)])
    case Restart(version) => s.(version := version, handlers := map[])
    case Arrive(id, req, candidates) => s.(handlers := s.handlers[id := Handler(req, candidates, Arrived)])
    case ReadTag(id, fails) =>
      var h, tag := s.handlers[id], CurrentTag(s, fails);
      if tag.Some? && ListsTag(h.candidates, tag.value) then SetPhase(s, id, Answered(NotModified(tag.value)))
      else SetPhase(s, id, Reading(tag, StartRead(builds(s.version), h.req)))
    case ReadPage(id) =>
      var h := s.handlers[id];
      SetPhase(s, id, Reading(h.phase.tag, ReadOnce(s.trie, builds(s.version), h.req, h.phase.reader)))
    case Stamp(id, fails) =>
      var h := s.handlers[id];
      var body := h.phase.reader.body;
      if h.phase.tag.Some? && h.phase.tag == CurrentTag(s, fails) then
        SetPhase(s, id, Answered(Success(body, h.phase.tag)))
          .(stored := s.stored + {Stored(h.req, h.phase.tag.value, body)})
      else SetPhase(s, id, Answered(Success(body, None)))
  }

  /** A stored body is, whole, the rendering of the one generation and build its tag names. */
  ghost predicate StoredOk(builds: Builds, s: System, e: Stored) {
    exists g, v :: e.tag == TagText(g, v) && g != 0 && g in s.history && WellFormed(s.history[g])
                   && e.body == Render(s.history[g], builds(v), e.req)
  }

  /** A tagged reader is on track for the current trie, unless a rebuild has moved the generation past its tag. */
  ghost predicate HandlerOk(builds: Builds, s: System, h: Handler)
    requires WellFormed(s.trie)
  {
    h.phase.Reading? ==>
      && ReaderOk(h.req, h.phase.reader)
      && (h.phase.tag.Some? ==>
            exists g :: h.phase.tag.value == TagText(g, s.version) && s.generation.Some? && g <= s.generation.value
                        && (g == s.generation.value ==> OnTrack(s.trie, builds(s.version), h.req, h.phase.reader)))
  }

  ghost predicate HistoryOk(s: System) {
    && WellFormed(s.trie)
    && (s.generation.None? ==> s.history == map[])
    && (s.generation.Some? ==> s.generation.value in s.history && s.history[s.generation.value] == s.trie)
    && (forall g :: g in s.history ==> WellFormed(s.history[g]) && g <= s.generation.value)
  }

  ghost predicate Invariant(builds: Builds, s: System) {
    && HistoryOk(s)
    && (forall id :: id in s.handlers ==> HandlerOk(builds, s, s.handlers[id]))
    && (forall e :: e in s.stored ==> StoredOk(builds, s, e))
  }

  /** A server opened on a database holding some well-formed trie, or none yet. */
  ghost predicate Initial(s: System) {
    HistoryOk(s) && s.handlers == map[] && s.stored == {}
  }

  lemma {:induction false} InvariantImpliesHandlersOk(builds: Builds, s: System)
    requires Invariant(builds, s)
    ensures HandlersOk(s)
  {
    forall id | id in s.handlers && s.handlers[id].phase.Reading?
      ensures ReaderOk(s.handlers[id].req, s.handlers[id].phase.reader)
    {
      assert HandlerOk(builds, s, s.handlers[id]);
    }
  }

  lemma {:induction false} RebuildKeeps(builds: Builds, s: System, symbols: seq<Symbol>, now: int)
    requires Invariant(builds, s)
    ensures HandlersOk(s) && Invariant(builds, Apply(builds, s, Rebuild(symbols, now)))
  {
    InvariantImpliesHandlersOk(builds, s);
    TrieNodes(symbols);
    var u := Apply(builds, s, Rebuild(symbols, now));
    assert u.generation.value !in s.history;
    forall id | id in u.handlers ensures HandlerOk(builds, u, u.handlers[id]) {
      assert HandlerOk(builds, s, s.handlers[id]);
    }
    forall e | e in u.stored ensures StoredOk(builds, u, e) {
      assert StoredOk(builds, s, e);
    }
  }

  /** Changing one handler keeps the invariant if its own new phase is in order. */
  lemma {:induction false} PhaseKeeps(builds: Builds, s: System, id: nat, phase: Phase)
    requires Invariant(builds, s) && id in s.handlers
    requires HandlerOk(builds, s, s.handlers[id].(phase := phase))
    ensures Invariant(builds, SetPhase(s, id, phase))
  {
    var u := SetPhase(s, id, phase);
    forall i | i in u.handlers ensures HandlerOk(builds, u, u.handlers[i]) {
      if i != id { assert HandlerOk(builds, s, s.handlers[i]); }
    }
    forall e | e in u.stored ensures StoredOk(builds, u, e) {
      assert StoredOk(builds, s, e);
    }
  }

  lemma {:induction false} ReadTagKeeps(builds: Builds, s: System, id: nat, fails: bool)
    requires Invariant(builds, s) && Enabled(s, ReadTag(id, fails))
    ensures HandlersOk(s) && Invariant(builds, Apply(builds, s, ReadTag(id, fails)))
  {
    InvariantImpliesHandlersOk(builds, s);
    var h, tag, canon := s.handlers[id], CurrentTag(s, fails), builds(s.version);
    if tag.Some? && ListsTag(h.candidates, tag.value) {
      PhaseKeeps(builds, s, id, Answered(NotModified(tag.value)));
    } else {
      StartOnTrack(s.trie, canon, h.req);
      assert tag.Some? ==> tag.value == TagText(s.generation.value, s.version);
      PhaseKeeps(builds, s, id, Reading(tag, StartRead(canon, h.req)));
    }
  }

  lemma {:induction false} ReadPageKeeps(builds: Builds, s: System, id: nat)
    requires Invariant(builds, s) && Enabled(s, ReadPage(id))
    ensures HandlersOk(s) && Invariant(builds, Apply(builds, s, ReadPage(id)))
  {
    InvariantImpliesHandlersOk(builds, s);
    var h, canon := s.handlers[id], builds(s.version);
    assert HandlerOk(builds, s, h);
    var next := ReadOnce(s.trie, canon, h.req, h.phase.reader);
    if h.phase.tag.Some? {
      var g :| h.phase.tag.value == TagText(g, s.version) && g <= s.generation.value
               && (g == s.generation.value ==> OnTrack(s.trie, canon, h.req, h.phase.reader));
      if g == s.generation.value {
        ReadStaysOnTrack(s.trie, canon, h.req, h.phase.reader);
      }
      assert h.phase.tag.value == TagText(g, s.version);
    }
    PhaseKeeps(builds, s, id, Reading(h.phase.tag, next));
  }

  lemma {:induction false} StampKeeps(builds: Builds, s: System, id: nat, fails: bool)
    requires Invariant(builds, s) && Enabled(s, Stamp(id, fails))
    ensures HandlersOk(s) && Invariant(builds, Apply(builds, s, Stamp(id, fails)))
  {
    InvariantImpliesHandlersOk(builds, s);
    var h, canon := s.handlers[id], builds(s.version);
    var body := h.phase.reader.body;
    assert HandlerOk(builds, s, h);
    if h.phase.tag.Some? && h.phase.tag == CurrentTag(s, fails) {
      StampedIsWhole(builds, s, h);
      PhaseKeeps(builds, s, id, Answered(Success(body, h.phase.tag)));
      var u, e := SetPhase(s, id, Answered(Success(body, h.phase.tag))), Stored(h.req, h.phase.tag.value, body);
      StoreKeeps(builds, u, e);
    } else {
      PhaseKeeps(builds, s, id, Answered(Success(body, None)));
    }
  }

  /** The second read of the tag decides: if it still names the first one's tag, no rebuild came between. */
  lemma {:induction false} StampedIsWhole(builds: Builds, s: System, h: Handler)
    requires HistoryOk(s) && HandlerOk(builds, s, h)
    requires h.phase.Reading? && h.phase.reader.Finished? && h.phase.tag.Some? && h.phase.tag == CurrentTag(s, false)
    ensures h.phase.reader.body == Render(s.trie, builds(s.version), h.req)
    ensures StoredOk(builds, s, Stored(h.req, h.phase.tag.value, h.phase.reader.body))
  {
    var g :| h.phase.tag.value == TagText(g, s.version) && g <= s.generation.value
             && (g == s.generation.value ==> OnTrack(s.trie, builds(s.version), h.req, h.phase.reader));
    TagIdentifies(g, s.version, s.generation.value, s.version);
    FinishedRenders(s.trie, builds(s.version), h.req, h.phase.reader);
  }

  lemma {:induction false} StoreKeeps(builds: Builds, s: System, e: Stored)
    requires Invariant(builds, s) && StoredOk(builds, s, e)
    ensures Invariant(builds, s.(stored := s.stored + {e}))
  {
    var u := s.(stored := s.stored + {e});
    forall i | i in u.handlers ensures HandlerOk(builds, u, u.handlers[i]) {
      assert HandlerOk(builds, s, s.handlers[i]);
    }
    forall x | x in u.stored ensures StoredOk(builds, u, x) {
      assert x == e || x in s.stored;
      assert StoredOk(builds, s, x);
    }
  }

  lemma {:induction false} OtherStepsKeep(builds: Builds, s: System, step: Step)
    requires Invariant(builds, s) && Enabled(s, step) && (step.Restart? || step.Arrive?)
    ensures HandlersOk(s) && Invariant(builds, Apply(builds, s, step))
  {
    InvariantImpliesHandlersOk(builds, s);
    var u := Apply(builds, s, step);
    forall i | i in u.handlers ensures HandlerOk(builds, u, u.handlers[i]) {
      if i in s.handlers { assert HandlerOk(builds, s, s.handlers[i]); }
    }
    forall e | e in u.stored ensures StoredOk(builds, u, e) {
      assert StoredOk(builds, s, e);
    }
  }

  /** Every step of every interleaving keeps the invariant. */
  lemma StepKeepsInvariant(builds: Builds, s: System, step: Step)
    requires Invariant(builds, s) && Enabled(s, step)
    ensures HandlersOk(s) && Invariant(builds, Apply(builds, s, step))
  {
    match step
    case Rebuild(symbols, now) => RebuildKeeps(builds, s, symbols, now);
    case ReadTag(id, fails) => ReadTagKeeps(builds, s, id, fails);
    case ReadPage(id) => ReadPageKeeps(builds, s, id);
    case Stamp(id, fails) => StampKeeps(builds, s, id, fails);
    case _ => OtherStepsKeep(builds, s, step);
  }

  /** `run` is a run of the system: it starts in an initial state and each state follows by an enabled step. */
  ghost predicate IsRun(builds: Builds, run: seq<System>, steps: seq<Step>) {
    && |run| == |steps| + 1 && Initial(run[0])
    && forall i :: 0 <= i < |steps| ==>
         HandlersOk(run[i]) && Enabled(run[i], steps[i]) && run[i + 1] == Apply(builds, run[i], steps[i])
  }

  lemma {:induction false} RunKeepsInvariant(builds: Builds, run: seq<System>, steps: seq<Step>, i: nat)
    requires IsRun(builds, run, steps) && i < |run|
    ensures Invariant(builds, run[i])
  {
    if i > 0 {
      RunKeepsInvariant(builds, run, steps, i - 1);
      StepKeepsInvariant(builds, run[i - 1], steps[i - 1]);
    }
  }

  /** In every run, a stored response was rendered wholly from the generation and build its tag names. */
  lemma StampedBodiesAreWhole(builds: Builds, run: seq<System>, steps: seq<Step>, i: nat, e: Stored)
    requires IsRun(builds, run, steps) && i < |run| && e in run[i].stored
    ensures StoredOk(builds, run[i], e)
  {
    RunKeepsInvariant(builds, run, steps, i);
  }

  lemma {:induction false} StoredUnderCurrentTag(builds: Builds, s: System, e: Stored)
    requires HistoryOk(s) && StoredOk(builds, s, e) && CurrentTag(s, false) == Some(e.tag)
    ensures e.body == Render(s.trie, builds(s.version), e.req)
  {
    var g, v :| e.tag == TagText(g, v) && g in s.history && WellFormed(s.history[g])
                && e.body == Render(s.history[g], builds(v), e.req);
    TagIdentifies(g, v, s.generation.value, s.version);
  }

  lemma {:induction false} NotModifiedMeans(builds: Builds, s: System, id: nat, fails: bool, tag: string)
    requires HandlersOk(s) && Enabled(s, ReadTag(id, fails))
    requires Apply(builds, s, ReadTag(id, fails)).handlers[id].phase == Answered(NotModified(tag))
    ensures CurrentTag(s, false) == Some(tag) && ListsTag(s.handlers[id].candidates, tag)
  {}

  /**
   * In every run, a 304 is given only for a tag the client listed, which is the tag of that moment; any cached
   * body of the request under that tag equals a fresh rendering at that moment.
   */
  lemma NotModifiedConfirmsFreshBody(builds: Builds, run: seq<System>, steps: seq<Step>, i: nat, id: nat, fails: bool,
                                     tag: string, e: Stored)
    requires IsRun(builds, run, steps) && i < |steps| && steps[i] == ReadTag(id, fails)
    requires run[i + 1].handlers[id].phase == Answered(NotModified(tag))
    requires e in run[i].stored && e.req == run[i].handlers[id].req && e.tag == tag
    ensures ListsTag(run[i].handlers[id].candidates, tag)
    ensures WellFormed(run[i].trie) && e.body == Render(run[i].trie, builds(run[i].version), e.req)
  {
    RunKeepsInvariant(builds, run, steps, i);
    NotModifiedMeans(builds, run[i], id, fails, tag);
    StoredUnderCurrentTag(builds, run[i], e);
  }

  /** A client that lists the current tag, its weak form or an asterisk is answered without a body. */
  lemma {:induction false} ListedTagIsConfirmed(builds: Builds, s: System, id: nat)
    requires HandlersOk(s) && Enabled(s, ReadTag(id, false)) && HasGeneration(s)
    requires var tag, c := TagText(s.generation.value, s.version), s.handlers[id].candidates;
             "*" in c || tag in c || ("W/" + tag) in c
    ensures Apply(builds, s, ReadTag(id, false)).handlers[id].phase
         == Answered(NotModified(TagText(s.generation.value, s.version)))
  {
    CurrentTagIs(s);
    ListsTagIs(s.handlers[id].candidates, TagText(s.generation.value, s.version));
  }

  // ---- A request no rebuild disturbs is stamped ----

  function ReadsLeft(r: Reader): nat {
    match r
    case OnePage => 1
    case FirstPage(_, levels) => if |levels| < SPINE_MAX_DEPTH then 2 * (SPINE_MAX_DEPTH - |levels|) else 0
    case SecondPage(_, _, levels) => if |levels| < SPINE_MAX_DEPTH then 2 * (SPINE_MAX_DEPTH - |levels|) - 1 else 0
    case Finished(_) => 0
  }

  lemma {:induction false} ReadShrinks(t: Trie, canon: Canon, req: Request, r: Reader)
    requires WellFormed(t) && ReaderOk(req, r) && !r.Finished?
    ensures ReadsLeft(ReadOnce(t, canon, req, r)) < ReadsLeft(r)
  {
    var q := Ask(req, r);
    PageIsProper(t, req.mode, q.parent, q.forward, q.bound, req.limit);
    FeedShrinks(canon, req, r, Answer(t, req, q));
  }

  lemma {:induction false} FeedShrinks(canon: Canon, req: Request, r: Reader, rows: seq<FoldedRow>)
    requires ReaderOk(req, r) && !r.Finished? && RowsUnder(Ask(req, r).parent, rows)
    ensures ReadsLeft(Feed(canon, req, r, rows)) < ReadsLeft(r)
  {
    if r.FirstPage? {
      LevelDoneShrinks(canon, req, r.levels, SpineLevel(r.parent, rows, false));
    } else if r.SecondPage? {
      LevelDoneShrinks(canon, req, r.levels, SpineLevel(r.parent, rows, true));
      LevelDoneShrinks(canon, req, r.levels, SpineLevel(r.parent, r.first, false));
    }
  }

  lemma {:induction false} LevelDoneShrinks(canon: Canon, req: Request, levels: seq<SpineLevel>, level: SpineLevel)
    requires req.SpineRequest? && level.parent < req.focus && ChainedLevels(levels)
    requires RowsUnder(level.parent, level.rows) && |levels| < SPINE_MAX_DEPTH
    ensures ReadsLeft(LevelDone(canon, req, levels, level)) + 1 < 2 * (SPINE_MAX_DEPTH - |levels|)
  {}

  /** `run` is a stretch of a run. */
  ghost predicate IsStretch(builds: Builds, run: seq<System>, steps: seq<Step>) {
    && |run| == |steps| + 1 && Invariant(builds, run[0])
    && forall i :: 0 <= i < |steps| ==>
         HandlersOk(run[i]) && Enabled(run[i], steps[i]) && run[i + 1] == Apply(builds, run[i], steps[i])
  }

  /** A step of some handler. */
  predicate IsQuiet(step: Step) {
    !step.Rebuild? && !step.Restart?
  }

  predicate IsOwn(step: Step, id: nat) {
    (step.ReadTag? || step.ReadPage? || step.Stamp?) && step.id == id
  }

  function OwnSteps(steps: seq<Step>, id: nat, k: nat): nat
    requires k <= |steps|
  {
    if k == 0 then 0 else OwnSteps(steps, id, k - 1) + if IsOwn(steps[k - 1], id) then 1 else 0
  }

  /** How many steps of its own a handler still needs. */
  function StepsLeft(h: Handler): nat {
    match h.phase
    case Arrived => 2 + 2 * SPINE_MAX_DEPTH
    case Reading(_, r) => 1 + ReadsLeft(r)
    case Answered(_) => 0
  }

  /** The request is still being read under the tag, or answered with the rendering of `start` under it. */
  ghost predicate IsServed(builds: Builds, start: System, s: System, id: nat, req: Request, tag: string)
    requires WellFormed(start.trie)
  {
    && (s.trie, s.generation, s.version) == (start.trie, start.generation, start.version)
    && id in s.handlers && s.handlers[id].req == req
    && (|| (s.handlers[id].phase.Reading? && s.handlers[id].phase.tag == Some(tag))
        || s.handlers[id].phase == Answered(Success(Render(start.trie, builds(start.version), req), Some(tag))))
  }

  /** Another handler's step, or an arrival, leaves the handler as it is. */
  lemma {:induction false} OthersPass(builds: Builds, s: System, step: Step, id: nat)
    requires HandlersOk(s) && Enabled(s, step) && IsQuiet(step) && !IsOwn(step, id) && id in s.handlers
    ensures var t := Apply(builds, s, step);
            && (t.trie, t.generation, t.version) == (s.trie, s.generation, s.version)
            && id in t.handlers && t.handlers[id] == s.handlers[id]
  {}

  lemma {:induction false} ReadServes(builds: Builds, start: System, s: System, id: nat, req: Request, tag: string)
    requires HandlersOk(s) && Enabled(s, ReadPage(id)) && WellFormed(start.trie)
    requires IsServed(builds, start, s, id, req, tag)
    ensures IsServed(builds, start, Apply(builds, s, ReadPage(id)), id, req, tag)
    ensures StepsLeft(Apply(builds, s, ReadPage(id)).handlers[id]) + 1 <= StepsLeft(s.handlers[id])
  {
    ReadShrinks(s.trie, builds(s.version), s.handlers[id].req, s.handlers[id].phase.reader);
  }

  lemma {:induction false} StampServes(builds: Builds, start: System, s: System, id: nat, req: Request, tag: string)
    requires Invariant(builds, s) && HandlersOk(s) && Enabled(s, Stamp(id, false)) && WellFormed(start.trie)
    requires CurrentTag(start, false) == Some(tag) && IsServed(builds, start, s, id, req, tag)
    ensures IsServed(builds, start, Apply(builds, s, Stamp(id, false)), id, req, tag)
    ensures StepsLeft(Apply(builds, s, Stamp(id, false)).handlers[id]) + 1 <= StepsLeft(s.handlers[id])
  {
    StampedIsWhole(builds, s, s.handlers[id]);
  }

  /** Its own steps bring it nearer to its answer. */
  lemma {:induction false} QuietStepServes(builds: Builds, start: System, s: System, step: Step, id: nat, req: Request,
      tag: string)
    requires Invariant(builds, s) && HandlersOk(s) && Enabled(s, step) && IsQuiet(step) && step != Stamp(id, true)
    requires WellFormed(start.trie) && CurrentTag(start, false) == Some(tag)
    requires IsServed(builds, start, s, id, req, tag)
    ensures IsServed(builds, start, Apply(builds, s, step), id, req, tag)
    ensures StepsLeft(Apply(builds, s, step).handlers[id]) + (if IsOwn(step, id) then 1 else 0)
         <= StepsLeft(s.handlers[id])
  {
    if !IsOwn(step, id) {
      OthersPass(builds, s, step, id);
    } else if step.ReadPage? {
      ReadServes(builds, start, s, id, req, tag);
    } else {
      assert step == Stamp(id, false);
      StampServes(builds, start, s, id, req, tag);
    }
  }

  lemma {:induction false} ReadTagServes(builds: Builds, s: System, id: nat)
    requires Invariant(builds, s) && HandlersOk(s) && Enabled(s, ReadTag(id, false))
    requires CurrentTag(s, false).Some? && !ListsTag(s.handlers[id].candidates, CurrentTag(s, false).value)
    ensures var t := Apply(builds, s, ReadTag(id, false));
            IsServed(builds, s, t, id, s.handlers[id].req, CurrentTag(s, false).value)
            && StepsLeft(t.handlers[id]) + 1 <= StepsLeft(s.handlers[id])
  {}

  /**
   * A request that starts with a readable, stamped generation the client does not list, over any stretch without
   * rebuild or restart, whatever other handlers do in between: it is read or answered under that tag, its answer is
   * the whole rendering of the trie, and every step of its own brings it nearer to that answer.
   */
  lemma {:induction false} UndisturbedRequestIsStamped(builds: Builds, run: seq<System>, steps: seq<Step>, id: nat,
      k: nat)
    requires IsStretch(builds, run, steps) && 1 <= k <= |steps| && steps[0] == ReadTag(id, false)
    requires forall i :: 0 <= i < |steps| ==> IsQuiet(steps[i]) && steps[i] != Stamp(id, true)
    requires HasGeneration(run[0])
    requires !ListsTag(run[0].handlers[id].candidates, TagText(run[0].generation.value, run[0].version))
    ensures Invariant(builds, run[k])
    ensures IsServed(builds, run[0], run[k], id, run[0].handlers[id].req,
                     TagText(run[0].generation.value, run[0].version))
    ensures OwnSteps(steps, id, k) + StepsLeft(run[k].handlers[id]) <= 2 + 2 * SPINE_MAX_DEPTH
    ensures run[k].handlers[id].phase.Reading? ==> Enabled(run[k], ReadPage(id)) || Enabled(run[k], Stamp(id, false))
  {
    var before := k - 1;
    var s, t, step := run[before], run[k], steps[before];
    StretchAt(builds, run, steps, before);
    if before == 0 {
      StepKeepsInvariant(builds, s, step);
      ReadTagServes(builds, s, id);
      assert OwnSteps(steps, id, 1) == OwnSteps(steps, id, 0) + 1 == 1;
    } else {
      UndisturbedRequestIsStamped(builds, run, steps, id, before);
      StepKeepsInvariant(builds, s, step);
      QuietStepServes(builds, run[0], s, step, id, run[0].handlers[id].req,
                      TagText(run[0].generation.value, run[0].version));
    }
    if t.handlers[id].phase.Reading? {
      ServedGoesOn(t, id);
    }
  }

  lemma {:induction false} StretchAt(builds: Builds, run: seq<System>, steps: seq<Step>, i: nat)
    requires IsStretch(builds, run, steps) && i < |steps|
    ensures HandlersOk(run[i]) && Enabled(run[i], steps[i]) && run[i + 1] == Apply(builds, run[i], steps[i])
  {}

  lemma {:induction false} ServedGoesOn(s: System, id: nat)
    requires id in s.handlers && s.handlers[id].phase.Reading?
    ensures Enabled(s, ReadPage(id)) || Enabled(s, Stamp(id, false))
  {}
}
