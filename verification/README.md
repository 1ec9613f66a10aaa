# Snapshots, their delta and their storage

A Dafny model of how enola compares two architecture snapshots, how it takes snapshots without repeating
work, and how it keeps them on disk and hands them to readers.

**The delta and its streaming twin.** `Compute` groups the facts of two snapshots by identity, pairs the
members of each identity by position and lists what is left over. `CountFacts` gives the numbers of that
delta without building it: it reduces every fact to a hashed record, sorts, finds the keys held more
than once, revisits only those, filters them out of the sorted run in place and joins the two runs.
`Diff` and `DiffLaws` model the first and prove what a delta is: applying it to the baseline gives the
current snapshot, it reverses, it is empty against any reordering, and it does not depend on map
iteration or on how sorts leave ties. `LineLaws` proves that lines order the members of an identity and
alone change nothing. `Sides`, `Counts`, `HashSets` and `Counting` model the second step by step, and
`SideLaws`, `CountLaws`, `NameLaws` and `Count` prove that it gives the numbers of every delta the first
may list. The documentation of `counts.go` calls the numbers exact. They are, except that the changed
count compares all props while the delta ignores five of them, and that kinds beyond the 65536th are
tallied under earlier ones: `Count` states the surplus for all inputs, shows one input that has it, says
when there is none, and says what is tallied under which kind.

**Findings.** `Findings`, `FindingDelta` and `FindingLaws` model how a delta files the findings that
appeared and cleared, why a constraint's finding may stop being reported, and the counter that keeps no
finding. `FindingIdentity` says which findings are one and what each test means. Every unpaired finding
is in exactly one collection, and the counter's totals are sums of the delta's collections wherever the
sorts decide none of the numbers. `TiesDecide` shows that they can, and `FindingTies` and
`FindingNumbers` say for all pairs of lists exactly when: for each identity and order in the changed
count, for each identity in the counts of what appeared and cleared. `Summary` joins the two halves: the
counters find findings with touched names of their own, which without NULs are more than the delta's by
the names of cosmetic pairs.

**The drift memo.** `Drift` is a state machine of files, names, a clock and walks that may interleave.
The memo's answers are right exactly when the clock's granularity and the delay from reading a file to
remembering its hash fit the two-second window together, and either no directory is ever moved or what a
path names does not change, by a move, a link, a rename or a removal, between a stat of it and the read
after it. Each part of the condition has a run that fails without it. `DriftWalk` is the walk itself,
which reads no file it knows, and the report made from it.

**The extractor cache.** `Spool` and `SpoolLaws` are the cache file token by token: what the spool
writes and how the streaming decoder reads it, whole or cut off. `Cache` is the cache object. `Keys`,
`Extraction`, `Transparency`, `RunLaws`, `CachedRuns` and `Histories` prove that reuse is invisible:
over any history of edits, rebuilt binaries, failed writes and failed runs, snapshots extract what they
would extract without a cache, including extractors that probe the disk as they go, whatever external
providers keep in the same file, and a run whose writes succeed leaves a file from which the same run
would take every keyed extractor's facts.

**Artifacts on disk.** `Disk` is a filesystem in which names stand for inodes, any operation may fail,
and every step and failure is recorded. `Artifacts` and `Writing` prove that no write reaches another
name of a shared file, that a baseline is replaced whole under a crash at any step, and that recorded
digests are those of the bytes under their names; an operation fails only when the system fails it.

**Publication.** `Publication` interleaves generates, restores, file extractions, artifact writes and
readers over one pointer: what is published never changes, no older bundle comes back, and an artifact
write's republish takes effect exactly when nothing was published since it loaded its bundle.

**Two smaller cores.** `Ignore` proves the pruning walk and the per-path ignore test equivalent, and
`Endpoint` proves the depth-bounded walk from a route's handlers to its models exact.

`Text`, `Bags`, `Slices` and `Wrappers` hold strings and keys, order-free accumulation, sorting and
grouping, and optional values.

## Assumptions

- Hashes do not collide on the values that occur: 64-bit keys, props and edges in `Counting.Countable`
  and `CountLaws.EdgesHashApart`, file contents and cache keys in `CollisionFree`.
- The JSON encoder is injective and writes no raw NUL (`Facts.Printer.Valid`); facts survive being
  stored, and a fact's JSON text is one token of the cache file.
- `sort.Slice` returns some sorted permutation, and maps are visited in any order.
- Identity keys determine kinds, which holds whenever kinds have no NUL
  (`SideLaws.NulFreeKindsFollowKeys`).
- An extractor with a cache key is a function of its key files, the shared files, its configuration and
  the existence of the paths it probes; a binary's version and identity determine its extractors;
  extractor names are distinct; a version is not itself a hash; paths, names and hashes have no NUL.
- Every change of a file's content or metadata, and every link, rename or removal of a name, stamps the
  inode with a change time no older than the clock's granularity. The clock does not go back.
- Renderers write under names that are none of the engine's own, a store is identified by its pointer
  and never changes once published, and this engine is the only writer of the directories it writes.

## Model

| member | source | states |
|---|---|---|
| `Slices.GroupBy` | internal/diff/diff.go:936-948 | every element is in the bucket of its key and in no other, with its multiplicity, and each bucket is ordered by the order string; nothing is said about ties |
| `Slices.RowOrders` | internal/diff/diff.go:936-960 | two groupings of permutations of one list have the same order strings at the same positions of every bucket, so positional pairing does not depend on the sort |
| `Slices.GroupingConserves` | internal/diff/diff.go:936-948 | a list is exactly the sum of its buckets |
| `Facts.ChangedMeansArchitectural` | internal/diff/diff.go:1144-1181 | two facts count as changed if and only if their props differ outside the five non-architectural keys, through all four early exits |
| `Facts.OrderFixesProps` | internal/diff/diff.go:958-960 | equal order strings imply equal props |
| `Facts.KeyFixesFields` | internal/diff/diff.go:917-919 | with no NUL in a field, the identity key determines kind, repo, file and name |
| `Facts.EdgeKeyFixesEdge` | internal/diff/diff.go:1013-1015 | with no NUL in a field, the edge key determines the edge |
| `DiffLaws.KeyTells` | internal/diff/diff.go:908-960 | without NULs two facts are one identity if and only if kind, repository, file and name agree, for a route the printed method, and for a storage reference the printed operation and kind |
| `DiffLaws.ChangedMeans` | internal/diff/diff.go:1144-1181 | a pair counts as changed if and only if some prop other than doc, body_hash, decl_hash, inner_hash and span_start differs |
| `DiffLaws.SortKeyTells` | internal/diff/diff.go:994-998 | equal sort keys are equal identities in equal places |
| `LineLaws.OrderedByLine` | internal/diff/diff.go:950-960 | within an identity facts are ordered by line, for lines below a thousand million |
| `LineLaws.OrderFixesRest` | internal/diff/diff.go:958-973 | equal order strings are equal lines, props and relations |
| `LineLaws.RowsByLine` | internal/diff/diff.go:936-960 | every row of every grouping is in the order of its lines |
| `LineLaws.MovingIsNoChange` | internal/diff/diff.go:950-960 | a fact list has no fact delta against itself moved by any number of lines, in whatever order it then comes and however ties fall |
| `LineLaws.ListedByLine` | internal/diff/diff.go:1227-1241 | a delta lists the facts of an identity in the order of their lines, and its changes by where they are now |
| `Diff.SnapshotDiff.PairCurrent` | internal/diff/diff.go:355-369 | the loop over current groups produces, per identity, the members beyond the paired ones as added and the positional pairs that changed |
| `Diff.SnapshotDiff.CollectRemoved` | internal/diff/diff.go:370-375 | the loop over baseline groups produces the baseline members beyond the paired ones |
| `Diff.SnapshotDiff.DiffFacts` | internal/diff/diff.go:349-375 | the three fact collections are the delta of two groupings of the inputs, ties broken somehow |
| `Diff.EdgeSet` | internal/diff/diff.go:1130-1142 | one edge under every edge key of the non-document facts, and nothing else |
| `Diff.SnapshotDiff.DiffEdges` | internal/diff/diff.go:377-388 | the edge lists are the two key differences, each edge once |
| `Diff.SnapshotDiff.SortFacts` | internal/diff/diff.go:1227-1241 | sorting keeps what the fact collections hold and orders them by the sort key (changes by the sort key of their new side) |
| `Diff.SnapshotDiff.SortEdges` | internal/diff/diff.go:1227-1241 | sorting keeps what the edge lists hold and orders them by edge key |
| `Diff.SnapshotDiff.TouchedNames` | internal/diff/diff.go:725-750 | exactly the non-empty names of added, removed and changed facts and of both ends of moved edges |
| `Diff.ComputeStructure` | internal/diff/diff.go:324-388 | the structural half of Compute yields a fact delta and an edge delta of its inputs, each collection sorted; `DiffLaws` and `LineLaws` say what that is in the fields of the facts |
| `DiffLaws.DeltaAccounts` | internal/diff/diff.go:349-375 | baseline and current are both the unchanged facts plus their own side of the delta, as multisets of (identity, architectural props) |
| `DiffLaws.DiffThenApply` | internal/diff/diff.go:349-375 | current is baseline minus removed facts and old sides plus added facts and new sides, and what is taken away was there |
| `DiffLaws.Reversal` | internal/diff/diff.go:349-375 | an independent run the other way, with groups and ties of its own, has the added and removed sort keys exchanged and every change flipped, as multisets of (identity, old props, new props) |
| `DiffLaws.EdgeReversal` | internal/diff/diff.go:377-388 | and the added and removed edge keys exchanged |
| `DiffLaws.NoSelfDelta` | internal/diff/diff.go:803-810 | a fact list has no fact delta against any permutation of itself |
| `DiffLaws.NoSelfEdgeDelta` | internal/diff/diff.go:803-810 | nor an edge delta |
| `DiffLaws.FactOrderIndependence` | internal/diff/diff.go:936-960 | permuting either fact list leaves the sequences of sort keys of the added and of the removed facts unchanged |
| `DiffLaws.ChangedOrderIndependence` | internal/diff/diff.go:936-960 | and leaves the multiset of (identity, old props, new props) of the changes unchanged |
| `DiffLaws.EdgeOrderIndependence` | internal/diff/diff.go:1227-1241 | and leaves both sequences of sorted edge keys unchanged |
| `DiffLaws.EdgesExact` | internal/diff/diff.go:377-388 | with no NUL in a field, an edge is listed as added if and only if only current has it, and as removed if and only if only baseline has it |
| `DiffLaws.EdgesDeclared` | internal/diff/diff.go:1130-1142 | that is, exactly when one side alone has a fact, neither document nor section, with that name, repository and relation |
| `DiffLaws.KeyDeterminesEdge` | internal/diff/diff.go:1013-1015 | with no NUL in a field, one edge key belongs to one edge of the two snapshots |
| `Sides.KindTable.Id` | internal/diff/counts.go:94-109 | an id names the kind that kinds of this number are counted under, which is the kind itself exactly when fewer than 65536 others came before it; ids follow the order of first occurrence and wrap at 16 bits |
| `Sides.Side.Pass1` | internal/diff/counts.go:127-144 | every fact becomes its hashed record in order, and the edge hashes are exactly those of the non-document relations |
| `Sides.Side.DupKeys` | internal/diff/counts.go:184-192 | comparing neighbours of the sorted run finds exactly the keys held by more than one fact |
| `Sides.Side.GatherGroups` | internal/diff/counts.go:149-181 | the second pass collects, per shared key, the members of that key |
| `Sides.Side.DropShared` | internal/diff/counts.go:149-181 | the in-place filter leaves exactly the records of keys not shared, in order |
| `Sides.Side.Pass2` | internal/diff/counts.go:149-181 | after it every fact is in exactly one of the flat run and the groups: the run has lost the shared keys and the groups hold their members, ordered |
| `SideLaws.FlatRow` | internal/diff/counts.go:149-181 | under a key that is not shared the flat run holds exactly what the grouping of diff.go has there, hashed |
| `SideLaws.GroupRow` | internal/diff/counts.go:149-181 | under a shared key the ordered group shows the same props and kinds as the grouping of diff.go, however either sort left ties |
| `SideLaws.SideShows` | internal/diff/counts.go:127-192 | after both passes the flat run is strictly increasing, free of shared keys, one record a key, and flat run and groups together have exactly the hashed identities |
| `SideLaws.NulFreeKindsFollowKeys` | internal/diff/diff.go:917-919 | kinds without NUL are determined by the identity key |
| `Counts.MergeFlat` | internal/diff/counts.go:262-323 | the two-index merge-join settles every key of either run once: added, removed and changed tallies and the moved keys |
| `Counts.PairShared` | internal/diff/counts.go:297-311 | the loop over current groups settles the surplus of current and the paired differences of every shared key |
| `Counts.DropShared` | internal/diff/counts.go:312-317 | the loop over baseline groups settles the surplus of the baseline |
| `Counting.CountSides` | internal/diff/counts.go:262-323 | the join settles exactly the keys of both sides |
| `HashSets.SortDedup` | internal/diff/counts.go:200-209 | in place in the array, the front becomes the strictly increasing run of the values that were there |
| `HashSets.CountSetDelta` | internal/diff/counts.go:399-415 | the two counts are the sizes of the two set differences |
| `HashSets.CollectSetDelta` | internal/diff/counts.go:327-348 | what is recorded is exactly the symmetric difference, the same sets CountSetDelta counts |
| `Counting.CountEdges` | internal/diff/counts.go:319-322 | edge counts are the sizes of the hash differences and the marked edges their union |
| `Counting.ResolveNames` | internal/diff/counts.go:353-385 | the names are exactly those of facts under a moved key and of both ends of moved edges, in both sources |
| `CountLaws.KindsTranslate` | internal/diff/counts.go:262-323 | per-kind tallies counted under hashes are those of the list of added facts |
| `CountLaws.ChangedTranslate` | internal/diff/counts.go:262-317 | differences counted under hashes are the listed changes plus the pairs that differ only in non-architectural props |
| `CountLaws.EdgesTranslate` | internal/diff/counts.go:399-415 | edges counted by hash are the edges listed by key |
| `NameLaws.MovedTranslate` | internal/diff/counts.go:255-323 | the keys the counters mark are the hashes of exactly the identities that moved |
| `NameLaws.FactNamesTranslate` | internal/diff/counts.go:353-385 | the names of marked identities are the touched fact names of the delta and the names of cosmetic pairs |
| `NameLaws.EdgeNamesTranslate` | internal/diff/counts.go:353-385 | the ends of marked edges are the ends of the listed edges |
| `Count.CountFacts` | internal/diff/counts.go:213-250 | against every delta Compute may list: FactsAdded, FactsRemoved, EdgesAdded and EdgesRemoved are its sizes, both per-kind tallies are its tallies (beyond 65536 kinds, with every kind read as the one it is counted under), FactsChanged exceeds its list by the cosmetic pairs, and TouchedNames is exactly the names of all facts of moved identities and the ends of all edges of moved keys, which never misses a touched name and with no NUL in a field is its touched names plus those of cosmetic pairs |
| `Count.TalliedTogether` | internal/diff/counts.go:94-109 | the kinds whose numbers agree in 16 bits are tallied together under the one numbered first, and none under a kind numbered later |
| `Count.CosmeticMeans` | internal/diff/counts.go:262-317 | a cosmetic pair is exactly a positional pair with different props and equal architectural props |
| `Count.ChangedCountExact` | internal/diff/counts.go:262-317 | the changed count is the length of the list if and only if every positional pair with different props differs in the architectural ones |
| `Count.NoCosmeticPairs` | internal/diff/counts.go:262-317 | it is whenever no fact carries a non-architectural prop |
| `Count.RewordedCommentCounts` | internal/diff/counts.go:262-317 | two snapshots that differ in one doc comment: every delta Compute may list is empty, and the counter's surplus is one changed fact |
| `Findings.FindStructuralCause` | internal/diff/diff.go:760-795 | the early-return loop answers whether the finding has no evidence, is a constraint's or an intent's, or cites a touched name |
| `Findings.FindWitness` | internal/diff/diff.go:1282-1313 | names the first piece of evidence that was touched, by changed files where they are known (with or without the label segment) and else by touched names outside declarations, exactly when there is one |
| `Findings.Silencing.Indexes` | internal/diff/silencing.go:32-39 | the lazily built indexes are those of the two snapshots, whenever they are asked for |
| `Findings.Silencing.DeclarationChanged` | internal/diff/silencing.go:62-81 | true exactly when the baseline's rule is gone or altered, or this witness is newly exempt |
| `Findings.Silencing.NewlyDeclared` | internal/diff/silencing.go:90-109 | true exactly when the rule is new or altered, or this witness's exemption is gone |
| `Findings.Silencing.MembershipChanged` | internal/diff/silencing.go:115-137 | true exactly when some cited subject still measured left a component of the rule |
| `Findings.Silencing.Unattributable` | internal/diff/silencing.go:156-184 | true exactly when the baseline declares no such rule or a cited subject's repository is gone |
| `FindingDelta.FindingsDelta.Appear` | internal/diff/diff.go:411-425 | an unpaired current finding goes to exactly the collection the code's order of tests gives it |
| `FindingDelta.FindingsDelta.Clear` | internal/diff/diff.go:438-451 | an unpaired baseline finding goes to exactly the collection the code's order of tests gives it |
| `FindingDelta.FindingsDelta.FileCurrent` | internal/diff/diff.go:408-434 | the loop over current groups files every unpaired finding and lists every positional pair that changed |
| `FindingDelta.FindingsDelta.FileBaseline` | internal/diff/diff.go:435-452 | the loop over baseline groups files every unpaired finding |
| `FindingDelta.ComputeFindings` | internal/diff/diff.go:390-456 | the nine collections are those of two groupings of the findings, each sorted |
| `FindingDelta.ClassifyFindings` | internal/diff/counts.go:433-461 | the counters are sizes over groupings of its own, keeping no finding |
| `FindingLaws.CurrentAccounted` | internal/diff/diff.go:408-434 | every unpaired current finding is in exactly one of New, NewIncidental and Declared |
| `FindingLaws.BaselineAccounted` | internal/diff/diff.go:435-452 | every unpaired baseline finding is in exactly one of Undeclared, Silenced, Unattributed, Resolved and ResolvedIncidental |
| `FindingLaws.IncidentalHasNoCause` | internal/diff/diff.go:760-795 | nothing filed as incidental is a constraint's or an intent's finding, lacks evidence, or cites a touched name |
| `FindingLaws.ClearedCollections` | internal/diff/diff.go:435-452 | a cleared finding is resolved only when no change of the law, of a membership or of what is measured explains it; undeclared, silenced and unattributed hold only what theirs explains, in that order of precedence; resolved has a cause and resolved incidentally has none |
| `FindingLaws.AppearedCollections` | internal/diff/diff.go:408-434 | an appeared finding is declared only when its rule is new and its witness untouched, new only when its rule is new and its witness touched or its rule is not new and it has a cause, incidental only otherwise; those the rule decides carry one more piece of evidence saying so |
| `FindingIdentity.SameFinding` | internal/diff/diff.go:1091-1109 | cycles are one finding when they are about the same members in whatever order, others when source and normalized title agree, and a cycle is never another kind of finding |
| `FindingIdentity.SamePlace` | internal/diff/diff.go:1032-1055 | findings take the same place within an identity when they are about the same names under one title |
| `FindingIdentity.CauseMeans` | internal/diff/diff.go:760-795 | a cause is the want of evidence, a declared rule's finding, or a touched name that is cited as fact, symbol or file |
| `FindingIdentity.WitnessTouchedMeans` | internal/diff/diff.go:1282-1313 | a witness is touched by a changed file under its own path or behind a label, or else by a touched name cited outside declarations |
| `FindingIdentity.ClearedByTheLaw` | internal/diff/silencing.go:62-109 | a breach is excused by the law when its rule is gone or altered, or has come to exempt its subject, and by nothing else of the law; appearing is the mirror image |
| `FindingIdentity.ClearedByMembership` | internal/diff/silencing.go:115-137 | or when a cited subject still measured was in a component of its rule and is no more |
| `FindingIdentity.ClearedUnattributed` | internal/diff/silencing.go:156-184 | or when its rule was not declared, or a cited subject is measured no more and its known repository is gone |
| `FindingIdentity.SelfExcusesNothing` | internal/diff/silencing.go:62-184 | where nothing differs nothing is excused |
| `FindingTies.GroupingUnique` | internal/diff/diff.go:1032-1055 | the groups are the same in every run and for every order of the list if and only if findings of equal identity and order are equal in every field |
| `FindingTies.ChangesExactly` | internal/diff/diff.go:1032-1066 | for two lists the number of changed findings is the same however the sorts leave ties if and only if, under every identity and order, no two findings that could meet say the same, or one side says one thing and any side that does not is paired to the last with findings of that order |
| `FindingNumbers.CausesExactly` | internal/diff/diff.go:408-452 | the number of unpaired findings with a cause is the same however the sorts leave ties if and only if, wherever ties choose which findings of an order stay unpaired, all of that order have a cause or none has |
| `FindingNumbers.SelfExactly` | internal/diff/diff.go:803-810 | a list compared with itself shows no change in any run if and only if findings of equal identity and order say the same |
| `FindingNumbers.NumbersExactly` | internal/diff/counts.go:419-461 | any two independent runs have the same three numbers if and only if both of these conditions hold |
| `FindingNumbers.AgreementSettles` | internal/diff/counts.go:419-461 | they do when findings of equal identity and order say the same on both sides |
| `FindingLaws.ClassifyCounts` | internal/diff/counts.go:433-461 | with the same touched names New counts New and Declared together, Resolved counts Resolved, Undeclared, Silenced and Unattributed together, and Changed counts Changed |
| `FindingLaws.CountFindings` | internal/diff/counts.go:419-461 | run independently and each with touched names of its own: where the sorts decide none of the numbers, the counter exceeds the delta's sums by the unpaired findings that only its own names give a cause, and agrees when the names are the same |
| `FindingLaws.OnlyCountedMeans` | internal/diff/diff.go:760-795 | those are exactly the findings with evidence, of neither a constraint nor an intent, that cite a name the counter alone holds touched and none the delta does |
| `Summary.Summarize` | internal/history/recorder.go:366-389 | a revision summarized by the delta and by the counters, each with its own touched names: the counters' fact, edge and finding numbers against the delta's, with every surplus named, and equal when no fact carries a NUL or a non-architectural prop |
| `FindingLaws.TiesDecide` | internal/diff/diff.go:1053-1066 | a list compared with itself shows no change or two, as the sorts leave two findings of equal order |
| `Drift.MemoSound` | internal/engine/drift.go:184-282 | over every interleaving of walks, edits, renames and clock ticks every answer is the hash of something the path held since the walk's stat, if and only if the platform gives no change times, or granularity plus read-to-remember delay is within the 2 s window and either no directory ever moves or no change of what a path names, stamped or not, falls between a walk's stat of it and the read |
| `Drift.StepKeeps` | internal/engine/drift.go:220-249 | every step keeps: remembered hashes are right for every file showing their change time |
| `Drift.FitsKept` | internal/engine/drift.go:184-211 | a change stamped from now on cannot carry a change time older than the granularity |
| `Drift.HitHeld` | internal/engine/drift.go:220-232 | a hit is the hash of something the path has held since the stat |
| `Drift.RememberedFits` | internal/engine/drift.go:234-249 | what is remembered outside the racy window is right for as long as its change time shows |
| `Drift.RememberedAnswers` | internal/engine/drift.go:220-249 | what is remembered answers for exactly the path and the metadata it was remembered under, and only a file unmodified for two seconds is remembered |
| `Drift.SlowRemember` | internal/engine/drift.go:184-249 | a run in which an edit within the granule of the read is remembered too late and served stale |
| `Drift.MovedAway` | internal/engine/drift.go:256-282 | a run in which a directory moved away and back around the read leaves a stale hash, whatever the window |
| `Drift.RenamedUnder` | internal/engine/drift.go:256-282 | a run in which a file renamed over the path before a slow read, and a directory moved long after it, leave a stale hash, though no directory moves between a stat and its read |
| `DriftWalk.DriftMemo.Known` | internal/engine/drift.go:220-232 | answers exactly when size, both times, inode and device match |
| `DriftWalk.DriftMemo.Remember` | internal/engine/drift.go:234-249 | stores exactly when both times are out of the racy window and the platform gives a change time |
| `DriftWalk.DriftMemo.HashOne` | internal/engine/drift.go:256-282 | remembered or read, the answer is what hashing the file gives, and the steps taken are steps of the machine; a file is read exactly when the memo has no entry showing its metadata, and one whose times are out of the racy window is not read again |
| `DriftWalk.DriftMemo.DriftHashes` | internal/engine/drift.go:256-282 | over a tree that holds still the walk gives exactly the hashes of hashing everything and leaves a memo that stays right; it then knows every settled file, and a walk that knows every file reads none |
| `DriftWalk.Compare` | internal/engine/drift.go:161-181 | added, modified and removed are exactly the paths so related, sorted, each once |
| `DriftWalk.RecordedMeans` | internal/engine/drift.go:136-140 | the recorded hash of a path is the last listed for it |
| `DriftWalk.DriftFromMeta` | internal/engine/drift.go:136-182 | unknown exactly without recorded hashes or under another ignore list, an error exactly when the walk fails, and otherwise the exact report |
| `DriftWalk.ReportIsExact` | internal/engine/drift.go:22-54 | with collision-free hashes the report names exactly the files whose bytes appeared, disappeared or changed, and is empty if and only if nothing did |
| `Cache.DecodeEntriesObject` | internal/engine/cache.go:3689-3717 | the entries loop over More and Token computes the entries of the object, or a cold cache |
| `Cache.DecodeFile` | internal/engine/cache.go:3631-3685 | the streaming loop computes the specified decoding: stamps before entries, unknown fields skipped, anything else cold |
| `Cache.ExtractorCache.constructor` | internal/engine/cache.go:3591-3619 | a cache starts with what its file serves to this version and build, and with an empty spool |
| `Cache.ExtractorCache.Get` | internal/engine/cache.go:3721-3744 | serves the decoded entry, drops it from memory and carries its bytes into the spool once; a miss changes nothing |
| `Cache.ExtractorCache.Peek` | internal/engine/cache.go:3761-3773 | decodes an entry and changes nothing |
| `Cache.ExtractorCache.Put` | internal/engine/cache.go:3844-3866 | one more entry with the array of the facts, or a spool that some failed write or encoding has failed |
| `Cache.ExtractorCache.BeginEntry` | internal/engine/cache.go:3917-3933 | a separator after the first entry, the key and the colon; nothing once the spool failed or closed |
| `Cache.ExtractorCache.WriteEntry` | internal/engine/cache.go:3939-3944 | a carried entry is appended whole |
| `Cache.ExtractorCache.Save` | internal/engine/cache.go:3968-4000 | publishes header, every entry in order and footer, or leaves the published file as it was; never after a failure, and without one always |
| `Cache.ExtractorCache.Discard` | internal/engine/cache.go:4005-4013 | closes without publishing |
| `SpoolLaws.FileReadBack` | internal/engine/cache.go:3631-3717 | a saved file serves exactly what was written in the run that saved it, to a reader of the same version and build, and nothing to any other |
| `SpoolLaws.SavedEntries` | internal/engine/cache.go:3954-4000 | with each key written once, the next run is served exactly the entries of this one, each with its bytes |
| `SpoolLaws.CutFileServesNoPart` | internal/engine/cache.go:3611-3617 | wherever a saved file is cut off, it serves all it holds or nothing |
| `SpoolLaws.ServedOnlyStamped` | internal/engine/cache.go:3625-3675 | whatever a file says, it serves nothing unless both stamps of this version and build stand in it before its entries |
| `SpoolLaws.ForeignFieldSkipped` | internal/engine/cache.go:3676-3685 | a field the decoder does not know is passed over, whatever its value |
| `SpoolLaws.FactsReadBack` | internal/engine/cache.go:3844-3866 | the facts a put streamed out come back, in order |
| `Keys.HashFileSet` | internal/engine/cache.go:4088-4099 | the hash of the sorted paths with their content hashes |
| `Keys.Partition` | internal/engine/cache.go:4039-4065 | each owner's key files are those it owns or is affected by, the shared files those nobody owns, in whatever order the owners come |
| `Keys.ComputeKeys` | internal/engine/cache.go:4028-4084 | each key is computed from exactly its owner's view |
| `Keys.KeyCoversInputs` | internal/engine/cache.go:4015-4080 | equal keys are keys of one extractor, with the same files that it owns or reads or that no extractor owns, the same recorded contents of them, and the same configuration |
| `Keys.KeySpared` | internal/engine/cache.go:4022-4026 | a change of contents elsewhere leaves the key alone |
| `Keys.KeyIgnoresOthers` | internal/engine/cache.go:4022-4026 | so does another extractor's file |
| `Keys.KeyOrderFree` | internal/engine/cache.go:4084-4099 | and the order in which files were walked |
| `Keys.SetTextUnique` | internal/engine/cache.go:4088-4099 | the text hashed for a file set determines its paths and hashes |
| `Keys.KeyFixesView` | internal/engine/cache.go:4066-4084 | without collisions a key determines the extractor and its whole view, configured or not |
| `Keys.ProbedKeyUnique` | internal/engine/cache.go:3784-3795 | a probed key determines the key it extends, the paths and what was found at each |
| `Keys.PlainIsNotProbed` | internal/engine/cache.go:3775-3795 | no plain key is a probed key |
| `Extraction.DiskProbes.Paths` | pkg/plugin/diskprobes.go:46-55 | the recorded paths, sorted, each once |
| `Extraction.Extract` | internal/engine/engine.go:755-758 | the outcome of the decision tree, and exactly the paths it probed on the way |
| `Extraction.SameAnswersSameFacts` | pkg/plugin/diskprobes.go:9-18 | an extractor's outcome depends on the disk only through the probes it made |
| `Transparency.GetProbed` | internal/engine/cache.go:3799-3813 | the lookup re-checks the stored probes and carries facts and probe list together, or misses and carries nothing |
| `Transparency.PutProbed` | internal/engine/cache.go:3816-3827 | without probes one entry under the plain key, else the probe list and the facts under the probed key |
| `Transparency.StoringJustifies` | internal/engine/cache.go:3775-3827 | what is stored is right for every later lookup, by any extractor on any disk, that finds it |
| `Transparency.LookupIsRight` | internal/engine/cache.go:3799-3813 | a hit is what re-extraction would give |
| `Transparency.ProbedHitsExactly` | internal/engine/cache.go:3775-3813 | with the stored answers a hit, with any other answer a miss |
| `Transparency.PutIsFound` | internal/engine/cache.go:3816-3827 | what is put is found again while the probed paths answer the same |
| `Transparency.CarriedIsFound` | internal/engine/cache.go:3799-3813 | what a hit carries over is found again by the next run |
| `CachedRuns.ExtractCached` | internal/engine/engine.go:740-778 | an extractor with a key gives the same outcome from the cache as without it, and leaves entries under which the next run finds it |
| `CachedRuns.RunExtractors` | internal/engine/engine.go:706-787 | with or without a cache: the same facts in the same order, the same names, shadowed names and errors, the same abort; no key is written twice, and a lookup of every keyed extractor that gave facts hits among what was written |
| `RunLaws.RunMeans` | internal/engine/engine.go:706-787 | a run fails if and only if an enabled extractor that applies fails it, with the first such; otherwise facts, names, errors and shadowed names are those of each extractor in the order they are registered, from its being enabled, its detection and its outcome alone |
| `Histories.ProviderKeyApart` | internal/engine/cache.go:3829-3836 | a provider's key is no extractor's key and no probe list's |
| `Histories.ProviderKeyUnique` | internal/engine/cache.go:3834-3836 | and no two of a provider's keys are one |
| `Histories.RunProviders` | internal/engine/cache.go:3834-3842 | whatever external providers get, peek and put, in any order and however often, the cache serves the extractors as before, and only provider entries are added |
| `Histories.SavedFileServes` | internal/engine/cache.go:3591-3619 | a saved file is right for every binary of the history that would read it |
| `Histories.TakeSnapshot` | internal/engine/pipeline.go:263-325 | the file changes only when the snapshot publishes it; unless a write fails, it then serves every keyed extractor of that snapshot, whatever providers wrote beside it, and holds no entry but theirs |
| `Histories.TakeSnapshots` | internal/engine/pipeline.go:263-325 | over any history of edits, rebuilt binaries, provider traffic, failed writes and failed runs every snapshot extracts exactly what it would without the cache, and unless a write fails the file is what the last publishing snapshot left |
| `Disk.FileSystem.WriteInPlace` | internal/engine/engine.go:988-996 | truncates and fills a file that has no other name, and may stop anywhere |
| `Disk.FileSystem.Link` | internal/engine/baseline.go:213-221 | a second name for a facts file; only facts files ever have two |
| `Disk.FileSystem.Rename` | internal/engine/baseline.go:186-209 | replaces a name; the file it named before keeps its bytes under its other names |
| `Artifacts.CopyFile` | internal/engine/baseline.go:186-209 | a copy beside and over the destination, missing sources told apart from failures, the destination untouched on failure, and failing only if the system fails a call |
| `Artifacts.LinkOrCopyFile` | internal/engine/baseline.go:213-221 | afterwards the destination has the source's bytes, linked or copied, and nothing else changed but the temporary name |
| `Artifacts.Stage` | internal/engine/baseline.go:158-176 | the staging directory holds exactly the artifacts the source has, with their bytes, unless the system fails a call |
| `Artifacts.RemoveAll` | internal/engine/baseline.go:178-180 | file by file: at every step a subset of what was there |
| `Artifacts.CopyArtifacts` | internal/engine/baseline.go:146-184 | after every single step the destination holds part of its old set or exactly the complete new one, a failure before the swap leaves it intact, nothing outside destination and staging changes, and unless the system fails a call the swap happens |
| `Writing.RotatePrevious` | internal/engine/baseline.go:114-119 | no snapshot, no change; otherwise previous is replaced whole or as a failure leaves it |
| `Writing.WriteMark` | internal/engine/global_receipt.go:543-562 | on success the mark holds the bytes and nothing else changed; on failure nothing but it and its temporary file can have |
| `Writing.Engine.WriteFactsJSONL` | internal/engine/engine.go:1150-1175 | the digest is that of the bytes then at the path; on failure the path is untouched |
| `Writing.Engine.WriteFacts` | internal/engine/engine.go:1009-1030 | linked to the last write of the same store or serialized, the path then holds the serialization of the store and the digest, reused or new, is of those bytes |
| `Writing.Engine.WriteContents` | internal/engine/engine.go:983-1084 | every recorded digest is of the bytes under its name, and the documents carry those digests |
| `Writing.Engine.WriteArtifacts` | internal/engine/engine.go:958-1130 | the same for the whole write, which changes nothing outside the output directory, previous and staging, keeps the remembered facts file right, and never mixes previous; unless the system fails a call it succeeds, previous is exactly the snapshot that was there, and the session mark is written |
| `Writing.Engine.SetBaseline` | internal/engine/baseline.go:96-107 | the pinned baseline has exactly the artifacts of the snapshot on disk with their bytes, and a pin that fails in staging leaves the old one |
| `Writing.Engine.PinHoldsSnapshot` | internal/engine/baseline.go:29-107 | a pin of a written snapshot holds its facts, insights, meta and receipt, and its session mark |
| `Writing.Engine.RotationHoldsSnapshot` | internal/engine/baseline.go:111-119 | previous holds them after the next write, and nothing else |
| `Writing.Engine.Run` | internal/engine/baseline.go:84-221 | over any run of writes and pins a pinned baseline and every other repository's files keep their bytes unless named; every repository's directory holds the last bundle written to it if that write succeeded, and every baseline the snapshot last written before its pin, whatever was linked to it or written elsewhere since |
| `Publication.StepKeeps` | internal/engine/engine.go:40-77 | every step keeps: the store being built is published nowhere and shares no fact with any other store, and only the lock's holder works on the scratch store |
| `Publication.GenerateStarts` | internal/engine/pipeline.go:147-238 | a generate starts from nothing or from copies of the published facts |
| `Publication.PublishedKept` | internal/engine/engine.go:40-59 | no step changes a published bundle or what its store says |
| `Publication.BuilderUndisturbed` | internal/engine/extractfiles.go:29-77 | what a builder has built changes only by its own steps |
| `Publication.WorkSays` | internal/engine/pipeline.go:147-238 | what each of a builder's own steps does to what its store says; sharing equal facts says nothing new |
| `Publication.StartsEmpty` | internal/engine/extractfiles.go:29-77 | a restore and a file extraction start from an empty store |
| `Publication.ExtractionRestores` | internal/engine/extractfiles.go:29-77 | a file extraction gives back the scratch store and the lock it took, whatever it and everything else did in between, and publishes nothing |
| `Publication.GenerateEnds` | internal/engine/pipeline.go:541-556 | a generate that ends frees the lock, and one that fails publishes nothing |
| `Publication.OnlyPublishing` | internal/engine/pipeline.go:541-556 | only publishing changes which store readers get |
| `Publication.RepublishIsGuarded` | internal/engine/engine.go:1086-1096 | after any interleaving between an artifact write's load and its republish: the republish takes effect if and only if nothing was published or republished in between, and then readers get the loaded bundle with another meta; else nothing changes for them |
| `Publication.ReadersUndisturbed` | internal/engine/engine.go:40-59 | what a reader loaded stays as it was through every interleaving |
| `Publication.LatestStaysCurrent` | internal/engine/engine.go:1086-1096 | in every run the current bundle is of the latest publication: no artifact write puts an older one back |
| `Publication.Published` | internal/engine/engine.go:40-77 | from the start of the engine: after any run readers get the latest publication, and what they got never changes |
| `Ignore.PackageExemption.Pkg` | internal/engine/pkgexempt.go:67-80 | memoised or not, whether the directory directly holds a Python file |
| `Ignore.PackageExemption.Exempts` | internal/engine/pkgexempt.go:47-65 | the early-return loop answers the exemption, whatever the memo holds |
| `Ignore.HitExactly` | internal/engine/pkgexempt.go:36-65 | the order of the ignore list does not matter: a path is hit by a glob that is never lifted, or by a lifted one when some directory named like build output is no package |
| `Ignore.IgnoredPath` | internal/engine/extractfiles.go:81-96 | the per-path test asks every proper prefix and then the file |
| `Ignore.Walk` | internal/engine/engine.go:601-681 | the pruning walk lists the files no pruned directory hides |
| `Ignore.WalkIsIgnoredPaths` | internal/engine/extractfiles.go:79-96 | a file is in the walk if and only if it exists, the root is not hit, no directory above it is another worktree, and the per-path test does not ignore it |
| `Ignore.WalkMeans` | internal/engine/engine.go:616-681 | a file is listed if and only if it exists, no other worktree is above it, and neither it nor a directory above it is matched by a glob other than the three for build, tmp and dist, or by one of these with a so named directory on the path that directly holds no .py file |
| `Ignore.KeptUnderBuild` | internal/engine/pkgexempt.go:11-65 | a file kept although a glob matches it is matched by lifted globs only and every directory so named above it holds Python source |
| `Endpoint.OwnerOfHashed` | internal/endpoint/endpoint.go:533-543 | the owner of Class#method is the class |
| `Endpoint.OwnerOfScoped` | internal/endpoint/endpoint.go:533-543 | the owner of Class::method is the class |
| `Endpoint.OwnerOfNeither` | internal/endpoint/endpoint.go:533-543 | the owner is empty exactly when nothing comes before the first # or, without one, before any :: |
| `Endpoint.Expand` | internal/endpoint/endpoint.go:298-325 | one level adds exactly the targets of the frontier, with the models they reach, and the next frontier is what is new and reaches none |
| `Endpoint.WalkModels` | internal/endpoint/endpoint.go:279-329 | a model is reported if and only if a path of one to three edges leads from a start, through nodes that reach no model, to a target that is the model or a member of it that is no class or constant |

## Left out

- FindingLaws.ClassifyCounts: takes the same touched names and the same groupings on both sides; `FindingLaws.CountFindings` and `Summary.Summarize` do without either.
- Histories.TakeSnapshot: the facts external providers add, which rest on what their tools answer; their traffic with the cache is there.
- Read and parse errors of the fact sources; the sources are lists here. The documentation says a source is read twice, the code reads it up to three times.
- The rest of a revision's summary, and the recorder's shortcut past facts whose recorded digests are equal.
- The comparability warnings, `Focused`, `KindCounts`, and the rendering of a delta.
- What titles, selectors and declarations mean: the number pattern of titles, rule ids, witnesses and the membership index are functions the model is given.
- Cancellation of a drift walk or of a directory walk, and the summary line of a drift report.
- Clocks that are set back, and change times a filesystem does not keep.
- The JSON grammar inside a fact and numbers that change their Go type when facts are read back; whitespace and escapes in the cache file.
- The lock around the cache, and the log lines.
- The extractors themselves, test-reference extraction, linking, binders, explainers and renderers.
- Directories reached under two names, other processes writing the same output directory, file modes, and durability across power loss.
- The architecture history recorded after a write, and global and session receipts.
- `SetSnapshot` and `SetRepoPaths`, which republish without a guard and are used at start-up and in tests; repository labels, their collisions and the carrying of declarations.
- Skip counts, test files and the names collected for detection in the directory walk; how a single glob matches a path.
- Which methods an endpoint's walk starts from, and the associated models, tables, callers and screens of an endpoint.
