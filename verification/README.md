# Verified model of blittermib's core

This project models, in Dafny 4.11, the parts of blittermib whose correctness does not show from one function body, and
proves what they promise: the materialised OID trie and the tree API reading it, the validators of that API under
concurrent rebuilds, the inference of raise/clear pairs and its export as alarms, the import pipeline with its boot
validation, the mirror of the standard corpus, and the graph and text algorithms around them. Tables and directories are
maps, sets and sequences; SQL queries are replaced by their meaning; every critical section of a concurrent protocol is
one atomic step. `dafny verify dfyconfig.toml` checks the whole project.

| file | models |
|---|---|
| `oid_trie.dfy` | the rebuild of the trie from the symbol table |
| `path_folding.dfy`, `tree_paging.dfy` | path compression, the page queries and the cursors of the tree API |
| `spine.dfy` | the walk that opens every level down to a focus |
| `tree_etag.dfy` | the tree handlers, rebuilds, restarts and caches as interleaved steps |
| `tree_answers.dfy` | what a client of the tree endpoints is shown, item by item, and where the cursors lead it |
| `signals.dfy`, `correlate.dfy`, `pairing_laws.dfy` | notification pairing and what it promises |
| `pairing_rows.dfy` | the relationships read off the symbols and reference rows |
| `backfill_laws.dfy` | the boot backfill of the relationships against the pairing at ingest |
| `eventconf.dfy`, `alarm_matching.dfy`, `alarm_rows.dfy` | the High gate, the two-pass export, the matching they produce, and the events read off it |
| `instance_scope.dfy`, `link_traps.dfy` | the parameter that scopes the alarms of a pair, and pairs for which it fails |
| `corpus.dfy`, `import_engine.dfy` | the import pipeline over disk, fingerprints and modules |
| `import_runs.dfy` | whole runs of arrivals and imports, and files that are gone when their turn comes |
| `corpus_sync.dfy` | the boot walk over the curated tree |
| `corpus_handover.dfy` | what the walk makes of a corpus as the import pipeline left it |
| `standard_mirror.dfy` | the mirror of the image's standard corpus |
| `import_closure.dfy` | the IMPORTS closure of several roots |
| `edit_distance.dfy` | Levenshtein distance and did-you-mean |
| `sanitize.dfy` | repair of mixed-encoding text |
| `vendor_path.dfy`, `decimal.dfy` | vendor directories written and read back |
| `watcher.dfy` | the debounce of the file watcher |
| `model.dfy`, `ordering.dfy` | shared values, total orders and sorted listings |

Inputs the code takes from outside are parameters: the clock of a rebuild, the generation read that may fail, the
vocabulary of directional words, the compiler (a function from disk and file to a module or a failure), the hash, the
opener sniff, the classifier's groups and registry, and in a mirror run the files whose copy fails and where it fails.

## Where code and documentation differ

The model follows the code.

- The flag loop of the rebuild stops after 64 passes (`internal/store/oidtree.go:181`), while section 3.5 of RFC 2578
  allows 128 sub-identifiers. The flags are exact for every table over a set of OIDs, and family browsing shows every
  container that holds the family, if and only if no OID has more than 65 arcs (`OidTrie.PassCapIsExactIff`,
  `PathFolding.FamilyRowsCoverIff`).
- The spine walk stops after 64 levels (`internal/store/oidtree.go:489,514`). In every mode it shows a listed focus if and
  only if runs end at fewer than 64 of its ancestors (`Spine.SpineShowsFocusIff`), which in the default mode are those
  where the tree branches (`Spine.SpineShowsByDefaultIff`); `Spine.DeepSpineIsCut` is a family of tries it cuts.
- The comment at `internal/mibimport/sync.go:179-181` says that a file that stops compiling keeps its stored module data.
  It does so if and only if another file's fingerprint names the module after the walk and none such was compiled in it;
  on its own the module goes with its fingerprint (`CorpusSync.BrokenFileLosesModule`). A changed file that lost its
  opener, on the other hand, keeps its old fingerprint (`CorpusSync.FileWithoutOpenerStays`).
- An unchanged tree should cost the boot walk nothing (`internal/mibimport/sync.go:24-30`). Over a corpus nobody touched
  since the import pipeline left it, the walk changes and reports nothing if and only if it sees every file the pipeline
  filed, and no other file it sees declares a module (`CorpusHandover.HandoverIsQuietIff`). It passes over other
  extensions than `.mib`, `.txt`, `.my` and none (`internal/mibimport/sync.go:65-69`), which the import does not look at.
  A second `x.mib` filed in `unsorted/` gets the name `x.mib-1`, and the next boot removes its module
  (`CorpusHandover.NumberedModuleIsRemoved`).
- `ImportReplacing` is documented for quarantined or pending files, but a pending file is looked for under a free name,
  where no file is, so the call always fails on it. It imports if and only if the file lies in a quarantine directory
  under a name that import/ does not reserve, has an opener and compiles to a valid name
  (`ImportEngine.Engine.ImportReplacing`).
- A file that vanishes during the compile should be skipped (`internal/mibimport/engine.go:401-419`), but in a replacing
  batch the former source and its fingerprint are removed before the move (`internal/mibimport/engine.go:384-391`). That
  keeps the corpus consistent if and only if the module is new or lies where it would go
  (`ImportRuns.DroppedKeepsIff`). A batch that lists a path twice does this to itself: nothing is lost if the module has a
  directory of its own, and one that went to `unsorted/` loses its file and fingerprint (`ImportRuns.ListedTwice`). A
  multipart upload with `?replace=true` and two parts of one name is such a batch (`internal/server/upload.go:125-153`).
- A shipped file whose copy fails drops out of the manifest, and the same run removes the copy an earlier run placed
  (`StandardMirror.FailedFileIsPruned`).
- Operator-owned paths are said never to be modified or deleted (`internal/mibimport/standard.go:42`). A path no image
  ships stays as the operator left it throughout a run of boots if and only if no boot uses it as a temporary name and
  leaves something else there (`StandardMirror.OperatorPathsAreTheirs`). The name is used for every visited file whose
  content differs, unless the temporary file cannot be written at all (`StandardMirror.TakenIff`); a copy that succeeds
  and one that fails at the rename remove what the operator had there (`StandardMirror.TemporaryNameIsLost`).
- A resolution is said to clear its own instance (`internal/eventconf/convert.go:58-63,116-123`). Its clear key is the one
  the problem is kept under, but the token in it stands for the same object in both traps if and only if the two OBJECTS
  lists share nothing, or what the problem shares first is named by its OID or sits at the same position in both
  (`InstanceScope.PairSharesInstance`). High confidence does not imply that: with `linkDown` binding two columns and
  `linkUp` the second of them the clear key asks for a second parameter that the clear does not bind
  (`LinkTraps.ClearAsksForAnotherParameter`), and with the two in opposite order it asks for the other column
  (`LinkTraps.SwappedObjectsMissInstance`), although both ends then use one token (`InstanceScope.PairSharesToken`).
- Group sizes are counted per reference row, repeats included (`internal/correlate/correlate.go:138-143`), while the store
  keeps each row once. For the vocabulary of the code and for any other in which one can speak of a problem and of its end
  (`BackfillLaws.CodeSpeaks`), ingest and backfill give the same relationships whatever the notifications say if and only
  if, for any two whose names do not forbid opposite directions, both row lists show the same first group of just these
  two, or neither shows one (`BackfillLaws.BackfillIff`); `BackfillLaws.BackfillDisagrees` is a module where they differ.
- The sanitizer takes a genuine U+FFFD for an invalid byte sequence (`internal/compile/sanitize.go:65`), so it is the
  identity exactly on valid UTF-8 without forbidden control bytes and without U+FFFD (`Sanitize.IdentityIffClean`).

## Model

| member | source | states |
|---|---|---|
| OidTrie.TreeStore.RebuildOIDTree | internal/store/oidtree.go:102-237 | whatever the trie held before, a rebuild leaves exactly the declarative trie of the symbol rows, stamps the version and moves the generation forward |
| OidTrie.PrefixClosure | internal/store/oidtree.go:118-129 | the recursive union computes exactly the nonempty prefixes of the seeds and ends |
| OidTrie.TrieNodes | internal/store/oidtree.go:118-166 | the nodes are exactly the nonempty prefixes of symbol OIDs other than the null identifier, and every child count is the number of nodes with that parent |
| OidTrie.TrieWinners | internal/store/oidtree.go:130-153 | a node names a symbol exactly when some row has its OID, the null identifier apart, and then the first row by module and name in byte order |
| OidTrie.Winner | internal/store/oidtree.go:130-146 | one row per OID, least by module and name, and none exactly when no row has the OID |
| OidTrie.FirstRowWins | internal/store/oidtree.go:130-146 | the winner of an OID is its first row by module and then name in byte order |
| OidTrie.KeyLeIs | internal/store/oidtree.go:130-146 | the ranking of rows, spelled out on the texts |
| OidTrie.PassStep | internal/store/oidtree.go:168-204 | k flag passes make a flag true exactly when a node of that family lies within k levels |
| OidTrie.PassesStop | internal/store/oidtree.go:181-204 | once a pass changes nothing, stopping early gives the result of all passes |
| OidTrie.FlagsExactWithin65 | internal/store/oidtree.go:160-204 | with at most 65 arcs a flag is set exactly when the first row of some OID at or below the node is a scalar or column, a table or table entry, or a notification type |
| OidTrie.OwnFlags | internal/store/oidtree.go:160-167 | before the passes a node has the flag its own first row calls for |
| OidTrie.LoneScalarIsMissed | internal/store/oidtree.go:181 | one scalar deeper than 65 arcs leaves some ancestor without its flag |
| OidTrie.PassCapIsExactIff | internal/store/oidtree.go:181 | the 64-pass loop is exact for all tables over a set of OIDs if and only if no OID exceeds 65 arcs |
| OidTrie.TrieIgnoresRowOrder | internal/store/oidtree.go:102-204 | the trie depends on the symbol rows as a set |
| OidTrie.NextGeneration | internal/store/oidtree.go:226-231 | the generation never repeats: it is the clock, or one more than the previous one where that has not passed the clock |
| PathFolding.RunSteps | internal/store/oidtree.go:373-435 | a row follows the join of its mode step by step and ends where nothing more is absorbed |
| PathFolding.RunGoesOn | internal/store/oidtree.go:373-435 | a row goes on to a child exactly while it is the only child that counts in the mode and the mode lists it |
| PathFolding.FoldIsLinear | internal/store/oidtree.go:381-405 | a run never branches in any of the three modes |
| PathFolding.ExpandableOpensRows | internal/store/oidtree.go:406-425 | a row offers expansion exactly when the level behind it is not empty |
| PathFolding.ExpandCovers | internal/store/oidtree.go:373-435 | expanding every expandable row below a node shows each listed node of its subtree exactly once, in every mode |
| PathFolding.ExpandListsAll | internal/store/oidtree.go:373-435 | expanding everything below a node shows exactly the nodes there, the nodes with a child, or those of them that carry the family, each once |
| PathFolding.BrowsingShowsAll | internal/store/oidtree.go:373-435 | from the apex the default mode shows every node once and branches-only mode every node with a child once |
| PathFolding.ExpandableIff | internal/store/oidtree.go:406-425 | a row can be expanded exactly when some child of its last node is listed |
| PathFolding.FamilyRowsCover | internal/store/oidtree.go:373-435 | over a rebuilt trie of at most 65 arcs the family mode shows exactly the nodes with rows below them and a first row of the family at or below them, each once |
| PathFolding.FamilyRowsCoverIff | internal/store/oidtree.go:181 | it does so for every table over a set of OIDs if and only if no OID exceeds 65 arcs |
| TreePaging.ScanFolded | internal/store/oidtree.go:326-355 | the scan groups adjacent rows of one direct child into one row described by the deepest |
| TreePaging.GroupedQuery | internal/store/oidtree.go:326-435 | scanning the query's rows gives one row per listed child, its whole run and the attributes of the anchor |
| TreePaging.FoldChildren | internal/store/oidtree.go:373-473 | a page lists, in order, the nearest listed children beyond the cursor up to the limit, 200 for a non-positive one; each row runs on as the nodes say and carries the name, module, kind, child count and chevron of its last node |
| TreePaging.RowsCarryCursors | internal/store/oidtree.go:326-355 | every row carries its cursor and starts at the direct child at its place of the page |
| TreePaging.PagesRebuildLevel | internal/store/oidtree.go:463-465 | reading on from the last row of each full page visits every listed child exactly once in ascending order for any page size |
| TreePaging.AnchoredPagesRebuildLevel | internal/store/oidtree.go:463-473 | from a page opened anywhere, earlier and later pages together rebuild the level |
| Spine.ReadLevel | internal/store/oidtree.go:521-543 | a level is the first page, or the page anchored at the spine child when a full first page misses it |
| Spine.SpinePages | internal/store/oidtree.go:508-560 | the loop returns the walk of the snapshot cut at 64 levels |
| Spine.LevelsAreLazyPages | internal/store/oidtree.go:508-560 | each level equals a page lazy expansion would read, and parents are strictly deepening prefixes of the focus |
| Spine.FindRowBySeg | internal/store/oidtree.go:608-615 | finds a row of the segment whenever there is one |
| Spine.SpineRowFound | internal/store/oidtree.go:521-543 | for any page size the level read contains the row of a listed spine child |
| Spine.ShownAncestorsAreRendered | internal/store/oidtree.go:508-560 | every listed ancestor on the way to the focus, and a listed focus, appears in some level of the walk |
| Spine.WalkEndsAtFocus | internal/store/oidtree.go:508-560 | the walk toward a listed focus covers it in its last level and in no earlier one |
| Spine.WalkLength | internal/store/oidtree.go:508-560 | in every mode the walk has one level more than there are ancestors of the focus at which a run ends |
| Spine.SpineReachesShownFocus | internal/store/oidtree.go:508-560 | in every mode a listed focus of at most 64 arcs is covered by the last level returned and by no other, a corollary of the exact condition below |
| Spine.SpineShowsFocusIff | internal/store/oidtree.go:508-560 | in every mode the answer shows a listed focus, in its last level only, if and only if runs end at fewer than 64 of its ancestors |
| Spine.SpineShowsByDefaultIff | internal/store/oidtree.go:508-560 | in the default mode these are the ancestors at which the tree branches |
| Spine.DeepSpineIsCut | internal/store/oidtree.go:487-514 | a family of tries whose focus the 64-level stop cuts off |
| TreeEtag.TagIdentifies | internal/server/handlers.go:1790-1796 | equal tags name the same generation and the same build |
| TreeEtag.EtagMatches | internal/server/handlers.go:1836-1847 | a candidate list matches exactly when it holds the tag, the tag with W/ in front, or an asterisk |
| TreeEtag.StampedIsWhole | internal/server/handlers.go:1807-1813 | when both reads of the generation agree the body is the rendering of the current trie |
| TreeEtag.StepKeepsInvariant | internal/server/handlers.go:1683-1923 | every step of every interleaving of handlers, rebuilds and restarts keeps the protocol invariant |
| TreeEtag.RunKeepsInvariant | internal/server/handlers.go:1683-1923 | every reachable state satisfies the invariant |
| TreeEtag.StampedBodiesAreWhole | internal/server/handlers.go:1683-1923 | every stored stamped body is rendered wholly from the generation, never zero, and the build its tag names, spine answers of many reads included |
| TreeEtag.NotModifiedConfirmsFreshBody | internal/server/handlers.go:1820-1830 | a 304 is given only for a listed tag, and the cached body under it equals a fresh rendering at that moment |
| TreeEtag.UndisturbedRequestIsStamped | internal/server/handlers.go:1683-1771 | over any stretch without rebuild or restart, whatever other handlers do meanwhile, a request is read or answered under the tag it started with, its answer is the whole rendering of the trie, and a bounded number of its own steps, one of which is always possible, brings it there |
| TreeEtag.ListedTagIsConfirmed | internal/server/handlers.go:1820-1847 | a client that lists the current tag, its weak form or an asterisk gets a 304 |
| TreeEtag.CurrentTagIs | internal/server/handlers.go:1790-1796 | there is a tag exactly when a generation other than zero can be read, and it names generation and build |
| TreeAnswers.FollowingNextShowsLevel | internal/server/handlers.go:1743-1749 | for any page size, following the answered `nextAfter` until there is none shows every listed child exactly once, ascending, each item with its run, names, numbers and chevron as the nodes have them |
| TreeAnswers.FollowingPrevShowsEarlier | internal/server/handlers.go:1743-1749 | following the answered `prevBefore` shows every listed child in front of the bound |
| TreeAnswers.SpineLevelsOpenWholeLevels | internal/server/handlers.go:1887-1905 | every level of a spine answer with what its `nextAfter` leads to is the whole level; an anchored one begins at the child on the way to the focus, and `prevBefore` from there gives the rest |
| TreeAnswers.SpineGoesOnIff | internal/store/oidtree.go:508-560 | a spine answer starts at the apex and goes on from a level exactly when an item on the way to the focus can be expanded and ends above it, to 64 levels at most |
| Signals.Tokenize | internal/correlate/signals.go:66-95 | the loop splits at separators, camelCase boundaries and the end of acronym runs |
| Signals.TokensLoseNothing | internal/correlate/signals.go:66-95 | the tokens in a row are the lower-cased name without separators |
| Signals.TokensAreCutAtStarts | internal/correlate/signals.go:53-95 | the k-th token is the lower-cased text from the k-th start up to the next start or separator, one token per start and none empty |
| Signals.TokensAreWords | internal/correlate/signals.go:53-95 | the tokens are the words of the name in order and lower case, a word beginning after a separator, at a capital after a small letter, and at the capital that ends a run of capitals before a small letter |
| Signals.ShortIs | internal/correlate/signals.go:260-267 | a key is shown by what follows its last pair of colons |
| Signals.LastDirectional | internal/correlate/signals.go:101-113 | the last directional token decides, and none is found exactly when there is none |
| Signals.SplitDirection | internal/correlate/signals.go:101-118 | root and direction are those of the last directional token taken out of the name |
| Signals.VarbindSets | internal/correlate/signals.go:122-136 | each notification maps to exactly the keys of its object references |
| Signals.GroupSets | internal/correlate/signals.go:227-241 | each notification maps to exactly the groups that list it |
| Signals.GroupCounts | internal/correlate/correlate.go:138-143 | a group counts the rows that put notifications of the module into it, repeats included |
| Signals.FirstShared | internal/correlate/signals.go:159-174 | the least common key, and the empty text exactly when the sets share none |
| Signals.SignatureIdentifies | internal/correlate/signals.go:144-154 | equal signatures of keys free of the joining bar are equal varbind sets |
| Correlate.ScoreConfidence | internal/correlate/confidence.go:60-81 | the successive caps leave High exactly for strong signals with a grouping one, one partner and no conflict |
| Correlate.BuildFacts | internal/correlate/correlate.go:126-180 | the working map holds for each notification its root, directions, varbinds, small groups, status and signature |
| Correlate.CountSignatures | internal/correlate/correlate.go:182-195 | a signature counts the notifications that carry it |
| Correlate.VisitPair | internal/correlate/correlate.go:197-279 | visiting a pair records each with the other exactly when they form an edge, in whichever order they come |
| Correlate.PairUp | internal/correlate/correlate.go:197-279 | after the nested loop every notification has met every other one once, in name order |
| Correlate.CollectedAll | internal/correlate/correlate.go:197-279 | what a notification has collected is its set of partners in name order, the signals of its pairs and the first example of each |
| Correlate.Classify | internal/correlate/correlate.go:113-347 | the output is one verdict per notification in name order, each determined by the facts of the module |
| PairingLaws.OnePerNotification | internal/correlate/correlate.go:281-346 | exactly one relationship per notification, in name order |
| PairingLaws.RolesAreEdges | internal/correlate/correlate.go:223-346 | orphans are exactly the notifications without an edge, and a clear lists exactly the raises it has an edge from |
| PairingLaws.EdgesAreSymmetric | internal/correlate/correlate.go:223-263 | both ends agree on an edge and their status is compatible |
| PairingLaws.EdgesAreJustified | internal/correlate/correlate.go:234-254 | each edge has an equal name root, a group of which the two are all the members, or a varbind set the two alone bind |
| PairingLaws.SharedGroupIsThePair | internal/correlate/correlate.go:128-174 | a small group that two notifications share has no third member |
| PairingLaws.SharedSignatureIsThePair | internal/correlate/correlate.go:182-195 | a signature held by exactly two notifications is a nonempty varbind set of these two alone |
| PairingLaws.HighMeans | internal/correlate/confidence.go:60-81 | a paired notification is High only with one partner, no conflict, strong signals and a grouping one among them |
| PairingLaws.OrderIsIrrelevant | internal/correlate/correlate.go:69-73 | any permutation of symbols and references gives the same relationships, evidence text included |
| PairingRows.EdgesAreRows | internal/correlate/correlate.go:209-254 | two notifications pair if and only if, by the rows, one speaks of a problem and the other of its end, both are legacy or neither, and they share a name root, a group with exactly two rows, or a varbind set of theirs alone |
| PairingRows.RelationshipsAreRows | internal/correlate/correlate.go:281-346 | role, clears, confidence, kinds of evidence and summary of every relationship, read off the rows |
| PairingRows.VerdictsAreAnswer | internal/correlate/correlate.go:113-347 | the answer has one such relationship for every notification or trap type, in the byte order of the names |
| PairingRows.PhraseIs | internal/correlate/signals.go:205-222 | the phrase shown is the first clear phrase of the list in the prose, or else the first raise phrase |
| BackfillLaws.BackfillAgrees | internal/store/store.go:676-727 | without repeated references the boot backfill gives the relationships of the ingest |
| BackfillLaws.BackfillIff | internal/store/store.go:676-727 | for each vocabulary with a raise and a clear phrase, every module with the given notification names gets the same relationships from both row lists, evidence included, if and only if any two whose name directions can oppose share the same first pair group in both lists or in neither |
| BackfillLaws.CodeSpeaks | internal/correlate/signals.go:182-203 | the phrases of the code are such a vocabulary |
| BackfillLaws.BackfillFactsIff | internal/correlate/correlate.go:126-180 | the facts both pair from are the same if and only if the groups with two rows are |
| BackfillLaws.BackfillDisagrees | internal/correlate/correlate.go:138-174 | a concrete module whose repeated group row makes "up" an orphan at ingest and a clear of "down" after the backfill |
| BackfillLaws.RepeatedRowHidesPair | internal/correlate/correlate.go:138-174 | the repeated row hides the pair at ingest for every two notifications that only the group links |
| BackfillLaws.StoredRowsShowPair | internal/store/store.go:676-727 | the rows of that module as stored make the backfill pair them |
| Eventconf.Attach | internal/server/handlers.go:413-452 | every notification gets its High relation, a clear only with a High raise left, and the others none |
| Eventconf.InstanceToken | internal/eventconf/convert.go:124-140 | the token names the first object the partner binds too, and is empty exactly when there is none |
| Eventconf.PartnerMap | internal/eventconf/convert.go:67-84 | the first recorded link of a notification decides its partner |
| Eventconf.BoundKey | internal/eventconf/convert.go:91-95 | filling in the UEI replaces exactly the leading token of the reduction key |
| Eventconf.BuildEvents | internal/eventconf/convert.go:86-97 | the first pass gives every event its own key and remembers the bound keys of the alarms |
| Eventconf.FromModule | internal/eventconf/convert.go:64-114 | every event has its reduction key and type, and every clear the bound key of the first listed raise with an alarm |
| Eventconf.KeysDiffer | internal/eventconf/convert.go:170-182 | names free of a colon have different bound keys |
| AlarmMatching.GatedIs | internal/server/handlers.go:413-452 | what passes the gate as a clear names exactly the other end of a pair in which both are High and each other's only partner |
| AlarmMatching.InferredAlarmsMatch | internal/server/handlers.go:413-452 | after inference and gate every clear has its own raise, exported as a problem, and no two share one |
| AlarmMatching.ExportIsMatching | internal/eventconf/convert.go:64-114 | each exported clear carries the bound key of its own raise and of no other event, and no two clears carry the same key |
| AlarmRows.GateDecides | internal/server/handlers.go:413-452 | an orphan is exported as standalone, a High raise as a problem, a High clear as the resolution of its High raises, and nothing else is classified |
| AlarmRows.PairReads | internal/eventconf/convert.go:64-140 | the texts of both events of an exported pair: UEI, reduction key with the parameter of the first shared object, and the clear key made of the other's |
| AlarmRows.LoneReads | internal/eventconf/convert.go:64-140 | an event outside all pairs has an alarm for the whole node, or none |
| AlarmRows.BaseIs | internal/eventconf/convert.go:65 | the base of the UEIs loses its trailing slashes |
| InstanceScope.PartnersOfPair | internal/eventconf/convert.go:67-89 | each end of an exported pair takes its token from the objects of the other end |
| InstanceScope.PairSharesInstance | internal/eventconf/convert.go:116-140 | for every exported pair the clear key is the text the raise is kept under, and the token in it stands for one object in both traps if and only if the OBJECTS lists share nothing, or what the raise shares first is named by its OID or sits at the same position in both |
| InstanceScope.PairSharesToken | internal/eventconf/convert.go:116-140 | the two ends are scoped by one text if and only if the lists share nothing or the references to what each shares first agree as text, which does not make the clear find its instance |
| InstanceScope.ParmNamesAgree | internal/eventconf/convert.go:253-266 | two parameter references are the same text exactly for one OID on both sides or one position on both sides |
| LinkTraps.ClearAsksForAnotherParameter | internal/eventconf/convert.go:91-140 | a pair inferred as High and exported whose clear key asks for a parameter the clear does not bind |
| LinkTraps.SwappedObjectsMissInstance | internal/eventconf/convert.go:116-140 | another one, scoped by one token at both ends, whose clear key reads a different column in the clear |
| Corpus.UniquePath | internal/mibimport/engine.go:591-601 | the path is free: the wanted one, or the first free numbered one, and the search ends |
| Corpus.FilingKeepsConsistent | internal/mibimport/engine.go:367-443 | filing a module over or beside its former source keeps fingerprints and modules in bijection |
| Corpus.OnePrintEach | internal/store/importstate.go:28-43 | in a consistent corpus a fingerprint names a module exactly when that module's source is its path, with the hash of the file there |
| Corpus.MoveConserves | internal/mibimport/engine.go:606-663 | a move to a free place conserves the contents of all files with multiplicity |
| ImportEngine.QuarantineSettles | internal/mibimport/engine.go:502-529 | quarantining touches nothing but the file it moves |
| ImportEngine.FilingSettles | internal/mibimport/engine.go:367-443 | filing a new module overwrites nothing and keeps all stored modules |
| ImportEngine.Continues | internal/mibimport/engine.go:330-452 | one more file settled keeps everything a batch has guaranteed so far |
| ImportEngine.ModulesAfterKeys | internal/mibimport/engine.go:429-433 | the stored modules are the former ones and those the outcomes report as imported |
| ImportEngine.Engine.Quarantine | internal/mibimport/engine.go:502-529 | the file moves to a free name in the directory of its outcome, nothing else changes |
| ImportEngine.Engine.File | internal/mibimport/engine.go:367-452 | the module is filed at the classified place or a free name in unsorted, its former source and fingerprint gone |
| ImportEngine.Engine.Process | internal/mibimport/engine.go:330-365 | which files are rejected, which are duplicates of a stored module, and which are imported, branch by branch |
| ImportEngine.Engine.Sniff | internal/mibimport/engine.go:275-292 | before the compile exactly the files without opener and, unless replacing, those of known content leave intake, in order and each with its verdict; all others go to the compile, at each mention; a further mention of a file that left is rejected |
| ImportEngine.Engine.Route | internal/mibimport/engine.go:330-452 | the compile results are taken up in order, each file at its first mention with the outcome its result deserves given the modules stored by then; further mentions change nothing |
| ImportEngine.Engine.Run | internal/mibimport/engine.go:209-466 | the files reported are those the sniff turns away and then those whose compile ends, in order of first mention, each with the deserved outcome; all others stay, modules are the former ones with the imports written over them, and a path listed again gets outcomes but imports nothing |
| ImportEngine.ReportedAre | internal/mibimport/engine.go:330-338 | a file stays in intake exactly when it passes the sniff and its compile runs out of budget |
| ImportEngine.OutcomesAre | internal/mibimport/engine.go:275-365 | which reported file is rejected, known or imported, by opener, known content, compile result and the modules stored before it |
| ImportEngine.FirstOfEachNameIsImported | internal/mibimport/engine.go:352-365 | of the files of a plain batch that hold one module, exactly the first is imported if the module is new, and all others are duplicates of what is stored |
| ImportEngine.Engine.Import | internal/mibimport/engine.go:169-171 | the outcomes of any batch without replacement; on a tidy corpus stored modules and files keep their data, each imported module is new and of one file, and all contents are conserved |
| ImportEngine.Engine.ImportReplace | internal/mibimport/engine.go:177-179 | the outcomes of a batch with replacement that repeats a path at most where the module has a directory of its own: every file with opener and a valid module is imported, later ones winning, and the bijection is kept |
| ImportEngine.Engine.ImportReplacing | internal/mibimport/engine.go:185-201 | a quarantined file is picked up exactly when import/ does not reserve its name, and replaces its module if and only if it also has an opener and compiles to a valid name; a pending file is never processed and nothing changes |
| ImportEngine.Engine.TakeUpVanished | internal/mibimport/engine.go:330-427 | a result whose file is gone: reported as failed or duplicate without a move, skipped if it was to be filed, and then the module's former source and fingerprint are removed all the same |
| ImportEngine.Engine.Serve | internal/mibimport/engine.go:169-201 | any sequence of arrivals and batches is, call by call, a run of the steps these calls promise |
| ImportEngine.TraceIsConsistent | internal/mibimport/engine.go:169-201 | at every point of such a run modules and fingerprints are in bijection |
| ImportRuns.PlainRunOnlyAdds | internal/mibimport/engine.go:352-425 | over any run of arrivals and plain batches from a tidy corpus, from any point to any later one: the corpus stays tidy, stored modules, fingerprints and all files outside intake stay as they are, the modules are the former ones and the imported ones, and no name is imported twice |
| ImportRuns.PlainRunConserves | internal/mibimport/engine.go:502-529 | over such a run all contents are those at the start and those that arrived, less what an arrival overwrote in intake |
| ImportRuns.DroppedKeepsIff | internal/mibimport/engine.go:382-419 | removing the former source for a file that is gone keeps the bijection if and only if the module is new or lies where it would go |
| ImportRuns.ListedTwice | internal/mibimport/engine.go:367-419 | the second mention of a file in a replacing batch changes nothing if and only if its module has a directory of its own; from unsorted/ the module's file and fingerprint are lost |
| ImportRuns.OutcomesReadOff | internal/mibimport/engine.go:209-466 | the outcome of every reported file and where its content lies, read off its content, the fingerprints, its compile result and the modules stored by then |
| ImportRuns.ReportedReadOff | internal/mibimport/engine.go:233-338 | exactly the files flat in import/ that are neither hidden nor quarantine notes are reported, but those whose compile runs out of budget |
| CorpusSync.Cache.Diff | internal/mibimport/sync.go:85-113 | exactly the changed files need compiling, and exactly the merely touched ones get a refreshed fingerprint |
| CorpusSync.Cache.DropVanished | internal/mibimport/sync.go:115-136 | fingerprints of vanished files go, and a module goes exactly when no fingerprint on disk backs it |
| CorpusSync.Cache.CompileAll | internal/mibimport/sync.go:173-200 | changed files store what they declare or lose their fingerprint, and each success is counted |
| CorpusSync.Cache.PruneGhosts | internal/store/importstate.go:125-152 | exactly the modules without fingerprint are removed and counted |
| CorpusSync.Cache.SyncCorpus | internal/mibimport/sync.go:31-210 | file by file: size or time differing means a look at the opener and the hash, a new hash a compile, and the fingerprint then has size, time, hash and module or is gone; modules are exactly the named ones, with compiled or former rows, and both counts are exact |
| CorpusSync.WalkEnds | internal/mibimport/sync.go:31-226 | the passes together leave the state described path by path and module by module |
| CorpusSync.SyncedIsWalk | internal/mibimport/sync.go:85-200 | the outcome of the walk in terms of sizes, times, hashes and compile results |
| CorpusSync.SecondWalkIsQuiet | internal/mibimport/sync.go:24-30 | a second walk over the unchanged tree changes no module and no fingerprint and counts nothing |
| CorpusSync.Cache.SyncTwice | internal/mibimport/sync.go:24-30 | run twice, the second walk reports zero compiled and zero removed |
| CorpusSync.BrokenFileLosesModule | internal/mibimport/sync.go:178-186 | a changed file that no longer compiles loses its fingerprint; its module stays if and only if another file's fingerprint will name it, with its former row unless such a file was compiled |
| CorpusSync.FileWithoutOpenerStays | internal/mibimport/sync.go:94-96 | a changed file without opener keeps its old, no longer matching fingerprint and its module |
| CorpusSync.TouchKeepsModule | internal/mibimport/sync.go:102-110 | a touched file gets a fresh fingerprint and keeps its stored module |
| CorpusHandover.HandoverIsQuietIff | internal/mibimport/sync.go:24-30 | over a corpus as the engine left it the walk changes and reports nothing if and only if it sees every filed file and no other seen file declares a module |
| CorpusHandover.UnseenModuleIsRemoved | internal/mibimport/sync.go:62-136 | a stored module whose file the walk passes over is removed |
| CorpusHandover.UnenteredModuleIsRemoved | internal/mibimport/sync.go:40-70 | so is one whose directory the walk does not enter |
| CorpusHandover.WalkedIff | internal/mibimport/sync.go:62-69 | the walk looks at names that do not begin with a dot and have no extension or .mib, .txt or .my in any case |
| CorpusHandover.NumberedIsWalkedIff | internal/mibimport/engine.go:591-601 | a file that got a number is walked exactly when its name has no extension and is not hidden |
| CorpusHandover.NumberedModuleIsRemoved | internal/mibimport/sync.go:62-136 | a consistent corpus with x.mib and x.mib-1 in unsorted/, where the next boot removes the module of the second |
| StandardMirror.Mirror.SyncFile | internal/mibimport/standard.go:175-195 | a file is copied, through its temporary name, exactly when the content differs; each way of failing leaves what it leaves, the temporary file included |
| StandardMirror.Mirror.CopyAll | internal/mibimport/standard.go:68-131 | the walk passes over the files whose visit fails, copies and owns the others, counts the real copies and reports any failure |
| StandardMirror.Mirror.Prune | internal/mibimport/standard.go:133-156 | exactly the files only the previous manifest lists are removed, and those that were there are counted |
| StandardMirror.Mirror.SyncStandard | internal/mibimport/standard.go:46-169 | the run visits the image, failing files included, prunes what only the previous manifest lists, owns what did not fail, and its counts are exact |
| StandardMirror.CleanRunMirrors | internal/mibimport/standard.go:46-169 | without per-file error every image file matches its copy, the manifest is the image's file set, and former files are gone |
| StandardMirror.CopiesMake | internal/mibimport/standard.go:175-195 | what the visits make of every path: the image's content where the visit does not fail, and elsewhere what was there or what the use of the name as a temporary one left |
| StandardMirror.SyncElsewhere | internal/mibimport/standard.go:33-35 | a path neither shipped nor in the manifest is left alone unless a copy, failing or not, uses its name, and then holds what that copy leaves |
| StandardMirror.TakenIff | internal/mibimport/standard.go:175-195 | when no shipped name is another's temporary name, a name is used exactly when it is the temporary name of a visited file whose content differs and whose temporary file can be written to |
| StandardMirror.OperatorPathsAreTheirs | internal/mibimport/standard.go:26-42 | over any sequence of images, with any failures, and operator changes a path no image ships is always as the operator left it if and only if no boot uses it as a temporary name and leaves something else there |
| StandardMirror.FailedFileIsPruned | internal/mibimport/standard.go:113-148 | a failing copy drops its file from the manifest and removes the earlier copy |
| StandardMirror.TemporaryNameIsLost | internal/mibimport/standard.go:186-193 | copying a file removes whatever sits under its temporary name, and so does a copy that fails at the rename |
| ImportClosure.SeedRoots | internal/store/queries.go:113-145 | roots are taken in order without empty names and repeats, and an unknown one fails the call |
| ImportClosure.Aggregate | internal/store/queries.go:147-199 | each module imported by the importer gets its symbols without repeats |
| ImportClosure.Visit | internal/store/queries.go:201-239 | the imports of one module are appended at their first mention, below their first importer |
| ImportClosure.ListImportClosureUnion | internal/store/queries.go:112-243 | the work-list ends, on cycles too, with a complete breadth-first forest, or fails exactly when a root is unknown |
| ImportClosure.ClosureIsReachable | internal/store/queries.go:97-107 | the result holds exactly the modules reachable from the roots through loaded modules, each once |
| ImportClosure.ClosureIsBreadthFirst | internal/store/queries.go:97-107 | entries come in nondecreasing distance from the roots |
| ImportClosure.ImporterIsNearer | internal/store/queries.go:66-82 | the importer named is the first loaded entry that imports the module, one step nearer, with the symbols of that edge |
| ImportClosure.SymbolsAre | internal/store/queries.go:186-198 | the symbols of an edge are exactly the imported ones, each once |
| ImportClosure.EntriesAre | internal/store/queries.go:66-82 | an entry tells whether its module is stored and its source if so, and exactly the roots come first, without importer or symbols |
| ImportClosure.SeedsAre | internal/store/queries.go:113-145 | the seeds are the roots that are not empty, each once |
| EditDistance.Levenshtein | internal/store/search.go:175-212 | the two-row loop computes the recursive edit distance |
| EditDistance.DistIsLeastEdits | internal/store/search.go:172-174 | the distance is the least number of characters inserted, deleted or replaced that turn one string into the other |
| EditDistance.ZeroOnlyOnEqual | internal/store/search.go:172-174 | the distance is zero exactly on equal strings |
| EditDistance.Symmetric | internal/store/search.go:172-174 | the distance is symmetric |
| EditDistance.Triangle | internal/store/search.go:172-174 | the triangle inequality |
| EditDistance.LengthBound | internal/store/search.go:118-130 | the length difference bounds the distance from below |
| EditDistance.WindowKeepsMatches | internal/store/search.go:118-134 | the length window drops no name within distance three |
| EditDistance.MatchesAre | internal/store/search.go:145-149 | the candidates are exactly the non-empty names within distance three |
| EditDistance.WindowIs | internal/store/search.go:118-134 | the rows of similar length are those at most three characters longer or shorter, and not empty |
| EditDistance.DidYouMean | internal/store/search.go:109-170 | from the first 5000 rows of similar length, and below that cap from all names: at most the limit, 5 by default, all within three edits regardless of case, the nearest first and ties by name, and no row within three edits passed over but for nearer ones |
| Sanitize.SanitizeXmlBytes | internal/compile/sanitize.go:48-76 | the single pass gives clean UTF-8 of at most twice the length |
| Sanitize.RepairIsClean | internal/compile/sanitize.go:30-43 | the output is valid UTF-8 without forbidden control bytes and without U+FFFD for every input |
| Sanitize.IdentityIffClean | internal/compile/sanitize.go:33-37 | the output equals the input exactly when the input is clean already |
| Sanitize.RepairIsIdempotent | internal/compile/sanitize.go:48-76 | repairing twice changes nothing more |
| Sanitize.RepairKeepsMeaning | internal/compile/sanitize.go:30-43 | the output decodes to the valid sequences of the input, its other high bytes read as Latin-1, and its allowed ASCII |
| Sanitize.CleanIs | internal/compile/sanitize.go:30-76 | clean text is a sequence of printable ASCII, tab, line feed, carriage return and well-formed sequences other than U+FFFD |
| Sanitize.WidthIs | internal/compile/sanitize.go:56-66 | the sequences accepted are the rows of the syntax in section 4 of RFC 3629 |
| VendorPath.PenFromPathIff | cmd/mib-index/parse.go:88-112 | a path is read with a number and slug exactly when it has the canonical vendor form with these |
| VendorPath.Slug | internal/iana/pen.go:133-187 | the loops compute the slug: table first, then words outside parentheses without trailing company suffixes, cut at 20 |
| VendorPath.StripParens | internal/iana/pen.go:233-252 | keeps what no parenthesis encloses |
| VendorPath.OutsideKeeps | internal/iana/pen.go:228-232 | no parenthesis is kept, and text without any is kept whole |
| VendorPath.ParenthesesGo | internal/iana/pen.go:233-252 | a pair of parentheses goes with what it encloses, and what stands around it stays |
| VendorPath.KeptIs | internal/iana/pen.go:165-177 | trailing suffix words go unless nothing else would be left |
| VendorPath.CutIs | internal/iana/pen.go:179-186 | only a slug of more than 20 characters is cut, and then loses its trailing dashes |
| VendorPath.SlugIsPortable | internal/iana/pen.go:109-131 | a slug by the rules is within lower-case letters, digits and dashes and at most 20 long |
| VendorPath.VendorPathsReadBack | internal/mibcorpus/classify.go:93-116 | the index tool reads number and slug back from every vendor path the classifier builds, the number being the OID's seventh arc |
| VendorPath.OtherPathsAreNotVendors | internal/mibcorpus/classify.go:76-136 | no other placement reads as a vendor path |
| VendorPath.ClassifyReads | internal/mibcorpus/classify.go:76-136 | which directory a module goes to, by the arcs its dotted OID begins with |
| VendorPath.ArcsBegin | internal/mibcorpus/classify.go:76-100 | the arcs of an OID begin with given ones exactly when it is their OID or lies below it |
| Decimal.ValueOfDec | cmd/mib-index/parse.go:107-110 | a printed number parses back to itself |
| Watcher.DebouncedWatcher.EnqueuePath | internal/watch/watcher.go:297-305 | one critical section: the path is pending and the newest timer armed |
| Watcher.DebouncedWatcher.FlushPending | internal/watch/watcher.go:307-325 | one critical section: the flush takes all pending paths and forgets the timer |
| Watcher.StepHoldsWakeUp | internal/watch/watcher.go:297-325 | every step keeps pending paths on their way to a flush |
| Watcher.NoWakeUpIsLost | internal/watch/watcher.go:297-342 | in every interleaving a nonempty pending set has an armed timer or a flush in flight |
| Watcher.EnqueueIsKeptOrTaken | internal/watch/watcher.go:297-325 | every enqueued path is still pending or was taken by a later flush |
| Watcher.PendingIsWhatWasEnqueued | internal/watch/watcher.go:297-325 | the pending set is exactly what was enqueued since the last flush |
| Watcher.EnqueuedIsOnItsWayOrDelivered | internal/watch/watcher.go:297-325 | every enqueued path is pending, in a batch a callback holds, or delivered since |
| Watcher.OnItsWayWasEnqueued | internal/watch/watcher.go:297-325 | pending paths and running batches hold only paths enqueued before |
| Watcher.RestHasDeliveredAll | internal/watch/watcher.go:115-120 | at rest nothing is pending and every enqueued path has been delivered |
| Watcher.ShutdownFlushes | internal/watch/watcher.go:115-119 | a watcher that is not closed takes paths; closing ends that and sends one last flush on its way, which takes all that is pending |
| Watcher.QuietRunsEnd | internal/watch/watcher.go:307-342 | without new paths the watcher comes to rest within a bounded number of steps |

## Left out

- SQL text, pragmas, full-text search, HTTP routing, authentication, templates and the MCP server: input and output.
- The unfolded page reads `ListNodeChildren` and `ListNodeChildrenBefore`: the same key order and cursors as the folded ones, without runs.
- The row-level deletes and inserts of `ReplaceModule` and `DeleteModule`: a stored module is one row with its source and the content it was compiled from, replaced and removed whole.
- The trie refresh after imports and walks: a rebuild as modelled, with no further effect.
- smidump, smilint and XML decoding: the compiler is a deterministic function of the disk and the file.
- ImportEngine.Engine.Run: moves and store writes succeed, a file vanishes only by an earlier mention of its path, and poisoned paths, the settle wait and quarantine sidecars are not modelled; a batch of a run of calls (`Serve`) lists a path once, because a second mention poisons it.
- ImportEngine.Engine.ImportReplace: nothing is promised for a batch that repeats a path whose module goes to unsorted/ or to another directory than a second file of that module; `ImportRuns.ListedTwice` shows what it does then.
- ImportEngine.Engine.FindBySha: any fingerprint of the content may be reported, where the query takes the least path.
- ImportEngine.Engine.File: module names "." and "..", which the name pattern allows, are not treated as directory names.
- Corpus.MoveConserves: the cross-device fallback of a move and its temporary file are not modelled.
- StandardMirror.Mirror.SyncStandard: removals of files that are there succeed, also that of the temporary file after a failing rename, and empty directories are not tracked.
- CorpusSync.Cache.SyncCorpus: which files the walk sees is given (`corpus_handover.dfy` gives it by name, with the directories entered as a parameter), and reads do not fail.
- TreeEtag.StampedBodiesAreWhole: tags of different databases are not compared; their difference rests on distinct clock readings.
- EditDistance.DidYouMean: lower-casing covers ASCII and keeps lengths, query trimming is done before, and above the cap of 5000 rows the rows read are the first ones, where the query names no order.
- Eventconf.FromModule: labels, descriptions, log messages, masks and varbind decodings of an event carry no alarm state and are not modelled.
- PairingRows.RelationshipsAreRows: for modules whose object names hold no bar, the joiner of signatures; of an evidence it tells the kind, while the examples named in it are in `Correlate.CollectedAll` and `Signals.ShortIs`.
- Signals.Tokenize: lower-casing covers ASCII.
- VendorPath.Slug: Go's text folding and trimming are parameters, and the registry is a given table whose built-in slugs are file names.
- Watcher.QuietRunsEnd: time is not modelled, so nothing is said about the length of the quiet window; a callback that panics counts as returned.
- ImportClosure.ListImportClosureUnion: request cancellation between rounds is not modelled, and importer and module are kept as a pair where the code joins them with a NUL byte.
- The mib-ingest report, mib-migrate, index emission and page view models: they would only add easy members.
