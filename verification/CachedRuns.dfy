/** runExtractors over the cache (internal/engine/engine.go): the same facts as without it, each key
    written once, and what the next run will find. */
module CachedRuns {
  import opened Wrappers
  import opened Text
  import opened Bags
  import opened Slices
  import opened Spool
  import opened SpoolLaws
  import opened Cache
  import opened Keys
  import opened Extraction
  import opened Transparency

  // ---- Views ----

  lemma {:induction false} OwnersLookup(es: seq<Extractor>, i: nat)
    requires i < |es|
    requires forall m, n :: 0 <= m < n < |es| ==> es[m].name != es[n].name
    ensures es[i].owner.Some? <==> es[i].name in OwnersOf(es)
    ensures es[i].owner.Some? ==> OwnersOf(es)[es[i].name] == es[i].owner.value
    decreases |es|
  {
    var init := es[..|es| - 1];
    if i < |es| - 1 {
      OwnersLookup(init, i);
      assert init[i] == es[i];
    } else {
      NoOwner(init, es[i].name);
    }
  }

  lemma {:induction false} NoOwner(es: seq<Extractor>, name: string)
    requires forall m :: 0 <= m < |es| ==> es[m].name != name
    ensures name !in OwnersOf(es)
    decreases |es|
  {
    if es != [] {
      NoOwner(es[..|es| - 1], name);
    }
  }

  lemma {:induction false} FiltersWithin(owners: Owners, o: Owner, files: seq<string>)
    ensures forall f :: f in KeyFiles(o, files) ==> f in files
    ensures forall f :: f in SharedFiles(owners, files) ==> f in files
    decreases |files|
  {
    hide InKey, OwnedByAny;
    if files != [] {
      FiltersWithin(owners, o, files[..|files| - 1]);
    }
  }

  lemma CleanHashes(r: Repo, files: seq<string>)
    requires CleanRepo(r) && forall f :: f in files ==> f in r.files
    ensures Clean(WithHashes(Sorted(files), r.hashes))
  {
    SortedIsSorted(files);
    var s := Sorted(files);
    forall i | 0 <= i < |s| ensures NulFree(s[i]) && NulFree(HashOf(r.hashes, s[i])) {
      assert s[i] in multiset(s);
      assert s[i] in files;
      var n :| 0 <= n < |r.files| && r.files[n] == s[i];
    }
  }

  lemma ViewClean(b: Build, r: Repo, e: Extractor)
    requires CleanRepo(r) && e.owner.Some?
    ensures CleanView(ViewIn(b, r, e))
  {
    var owners := OwnersOf(b.extractors);
    FiltersWithin(owners, e.owner.value, r.files);
    CleanHashes(r, KeyFiles(e.owner.value, r.files));
    CleanHashes(r, SharedFiles(owners, r.files));
  }

  // ---- One run ----

  ghost predicate Serves(b: Build, c: ExtractorCache)
    reads c
  {
    c.Valid() && AllJustified(b, c.prev) && LogJustified(b, c.log)
  }

  lemma CarriedJustified(b: Build, prev: Entries, key: string, disk: Disk)
    requires AllJustified(b, prev)
    ensures LogJustified(b, Carried(prev, b.sha, key, disk))
  {
    hide EntryJustified, ProbedKey, ProbesKey, Unmarshal;
  }

  lemma PutJustified(b: Build, i: nat, v: View, disk: Disk, paths: seq<string>, ff: seq<StoredFact>)
    requires WellBuilt(b) && i < |b.extractors| && CleanView(v)
    requires RunTree(b.extractors[i].extract(v), disk) == Facts(ff)
    requires forall p :: p in paths <==> p in Probed(b.extractors[i].extract(v), disk)
    ensures LogJustified(b, Put(b.sha, Key(b.sha, b.stamps.version, b.extractors[i].name, v), disk, paths, ff))
  {
    var e := b.extractors[i];
    var key := Key(b.sha, b.stamps.version, e.name, v);
    PathsClean(b, i, v, disk, paths);
    StoringJustifies(b, i, v, paths, disk, ff);
    KeyOfBuild(b, e, v, paths, disk);
    FactsReadBack(ff);
    FactsReadBack(NamedFacts(paths));
    hide Justified, FactsText, Unmarshal, KeyText, WellBuilt, RunTree, Probed, CleanView;
    assert Names(NamedFacts(paths)) == paths;
    assert ProbesKey(key)[|key|] == NUL;
    assert !NulFree(ProbesKey(key));
  }

  // ---- Each key is written once ----

  /** An entry of the extractor `i` of this run. */
  ghost predicate EntryOf(b: Build, r: Repo, i: nat, key: string)
    requires i < |b.extractors| && b.extractors[i].owner.Some?
  {
    || key == ProbesKey(Key(b.sha, b.stamps.version, b.extractors[i].name, ViewIn(b, r, b.extractors[i])))
    || exists paths :: AllClean(paths) && key == LookupKey(b, b.extractors[i], ViewIn(b, r, b.extractors[i]), paths, r.disk)
  }

  lemma EntriesApart(b: Build, r: Repo, i: nat, j: nat, k: string, l: string)
    requires WellBuilt(b) && CleanRepo(r) && i < |b.extractors| && j < |b.extractors| && i != j
    requires b.extractors[i].owner.Some? && b.extractors[j].owner.Some?
    requires EntryOf(b, r, i, k) && EntryOf(b, r, j, l)
    ensures k != l
  {
    var d, e := b.extractors[i], b.extractors[j];
    var v, w := ViewIn(b, r, d), ViewIn(b, r, e);
    var kd, ke := Key(b.sha, b.stamps.version, d.name, v), Key(b.sha, b.stamps.version, e.name, w);
    ViewClean(b, r, d);
    ViewClean(b, r, e);
    hide WellBuilt, CleanRepo, ViewIn, CleanView, Key, LookupKey, AllClean, ProbesKey;
    if k == l {
      if k == ProbesKey(kd) && l == ProbesKey(ke) {
        ProbesKeyUnique(kd, ke);
        KeyIsLookup(b, d, v, r.disk);
        KeyIsLookup(b, e, w, r.disk);
        LookupKeyUnique(b, i, v, [], r.disk, j, w, [], r.disk);
      } else if k == ProbesKey(kd) {
        var qs :| AllClean(qs) && l == LookupKey(b, e, w, qs, r.disk);
        LookupIsNotProbes(b, e, w, qs, r.disk, kd);
      } else if l == ProbesKey(ke) {
        var ps :| AllClean(ps) && k == LookupKey(b, d, v, ps, r.disk);
        LookupIsNotProbes(b, d, v, ps, r.disk, ke);
      } else {
        var ps :| AllClean(ps) && k == LookupKey(b, d, v, ps, r.disk);
        var qs :| AllClean(qs) && l == LookupKey(b, e, w, qs, r.disk);
        LookupKeyUnique(b, i, v, ps, r.disk, j, w, qs, r.disk);
      }
    }
  }

  lemma KeyIsLookup(b: Build, e: Extractor, v: View, disk: Disk)
    ensures LookupKey(b, e, v, [], disk) == Key(b.sha, b.stamps.version, e.name, v) && AllClean([])
  {
  }

  lemma LookupIsNotProbes(b: Build, e: Extractor, v: View, paths: seq<string>, disk: Disk, key: string)
    requires WellBuilt(b)
    ensures LookupKey(b, e, v, paths, disk) != ProbesKey(key)
  {
    KeyOfBuild(b, e, v, paths, disk);
    assert ProbesKey(key)[|key|] == NUL;
  }

  /** Distinct entries of the extractor `i`. */
  ghost predicate AddsFor(b: Build, r: Repo, i: nat, more: seq<Entry>)
    requires i < |b.extractors| && b.extractors[i].owner.Some?
  {
    WrittenOnce(more) && forall n :: 0 <= n < |more| ==> EntryOf(b, r, i, more[n].key)
  }

  lemma TwoEntries(b: Build, r: Repo, i: nat, paths: seq<string>, more: seq<Entry>)
    requires WellBuilt(b) && i < |b.extractors| && b.extractors[i].owner.Some? && AllClean(paths) && |more| <= 2
    requires |more| > 0 ==> more[0].key == LookupKey(b, b.extractors[i], ViewIn(b, r, b.extractors[i]), paths, r.disk)
    requires |more| > 1 ==>
      more[1].key == ProbesKey(Key(b.sha, b.stamps.version, b.extractors[i].name, ViewIn(b, r, b.extractors[i])))
    ensures AddsFor(b, r, i, more)
  {
    hide WellBuilt, AllClean, Key, ViewIn, LookupKey, ProbesKey, EntryOf;
    var e := b.extractors[i];
    LookupIsNotProbes(b, e, ViewIn(b, r, e), paths, r.disk, Key(b.sha, b.stamps.version, e.name, ViewIn(b, r, e)));
    EntryByKey(b, r, i, paths);
  }

  lemma EntryByKey(b: Build, r: Repo, i: nat, paths: seq<string>)
    requires i < |b.extractors| && b.extractors[i].owner.Some? && AllClean(paths)
    ensures EntryOf(b, r, i, LookupKey(b, b.extractors[i], ViewIn(b, r, b.extractors[i]), paths, r.disk))
    ensures EntryOf(b, r, i, ProbesKey(Key(b.sha, b.stamps.version, b.extractors[i].name, ViewIn(b, r, b.extractors[i]))))
  {
    hide AllClean, Key, ViewIn, LookupKey, ProbesKey;
  }

  lemma PutAdds(b: Build, r: Repo, i: nat, paths: seq<string>, ff: seq<StoredFact>)
    requires WellBuilt(b) && i < |b.extractors| && b.extractors[i].owner.Some? && AllClean(paths)
    ensures
      var e := b.extractors[i];
      AddsFor(b, r, i, Put(b.sha, Key(b.sha, b.stamps.version, e.name, ViewIn(b, r, e)), r.disk, paths, ff))
  {
    var e := b.extractors[i];
    var more := Put(b.sha, Key(b.sha, b.stamps.version, e.name, ViewIn(b, r, e)), r.disk, paths, ff);
    KeyIsLookup(b, e, ViewIn(b, r, e), r.disk);
    hide WellBuilt, AllClean, Key, ViewIn, ProbesKey, AddsFor, FactsText, ProbedKey;
    if paths == [] {
      TwoEntries(b, r, i, paths, more);
    } else {
      TwoEntries(b, r, i, paths, [more[1], more[0]]);
      Swapped(b, r, i, more);
    }
  }

  lemma Swapped(b: Build, r: Repo, i: nat, more: seq<Entry>)
    requires i < |b.extractors| && b.extractors[i].owner.Some? && |more| == 2 && AddsFor(b, r, i, [more[1], more[0]])
    ensures AddsFor(b, r, i, more)
  {
    hide EntryOf;
    assert [more[1], more[0]][0] == more[1] && [more[1], more[0]][1] == more[0];
  }

  lemma CarriedShape(prev: Entries, sha: Sha, key: string, disk: Disk)
    ensures
      var l := Carried(prev, sha, key, disk);
      && |l| <= 2
      && (|l| > 0 ==> l[0].key == ProbedKey(sha, key, ProbePaths(prev, key), disk))
      && (|l| > 1 ==> l[1].key == ProbesKey(key))
  {
    hide Unmarshal, ProbesKey, Names;
  }

  lemma CarriedAdds(b: Build, r: Repo, i: nat, prev: Entries)
    requires WellBuilt(b) && i < |b.extractors| && b.extractors[i].owner.Some? && AllJustified(b, prev)
    ensures
      var e := b.extractors[i];
      AddsFor(b, r, i, Carried(prev, b.sha, Key(b.sha, b.stamps.version, e.name, ViewIn(b, r, e)), r.disk))
  {
    hide WellBuilt, AllClean, Key, ViewIn, AllJustified, AddsFor, ProbedKey, ProbesKey, ProbePaths, Carried;
    var e := b.extractors[i];
    var key := Key(b.sha, b.stamps.version, e.name, ViewIn(b, r, e));
    KeyOfBuild(b, e, ViewIn(b, r, e), [], r.disk);
    ProbePathsClean(b, prev, key);
    CarriedShape(prev, b.sha, key, r.disk);
    TwoEntries(b, r, i, ProbePaths(prev, key), Carried(prev, b.sha, key, r.disk));
  }

  /** What the extractors before `n` have written. */
  ghost predicate WrittenBefore(b: Build, r: Repo, n: nat, log: seq<Entry>)
    requires n <= |b.extractors|
  {
    && WrittenOnce(log)
    && forall m :: 0 <= m < |log| ==> OneWrote(b, r, n, log[m].key)
  }

  ghost predicate OneWrote(b: Build, r: Repo, n: nat, key: string)
    requires n <= |b.extractors|
  {
    exists i :: 0 <= i < n && b.extractors[i].owner.Some? && EntryOf(b, r, i, key)
  }

  lemma WrittenNext(b: Build, r: Repo, i: nat, log: seq<Entry>, more: seq<Entry>)
    requires WellBuilt(b) && CleanRepo(r) && i < |b.extractors| && b.extractors[i].owner.Some?
    requires WrittenBefore(b, r, i, log) && AddsFor(b, r, i, more)
    ensures WrittenBefore(b, r, i + 1, log + more)
  {
    hide EntryOf, WellBuilt, CleanRepo;
    forall m, n | 0 <= m < |log| && 0 <= n < |more| ensures log[m].key != more[n].key {
      assert OneWrote(b, r, i, log[m].key);
      var j :| 0 <= j < i && b.extractors[j].owner.Some? && EntryOf(b, r, j, log[m].key);
      EntriesApart(b, r, j, i, log[m].key, more[n].key);
    }
    forall m | 0 <= m < |log + more| ensures OneWrote(b, r, i + 1, (log + more)[m].key) {
      if m < |log| {
        assert OneWrote(b, r, i, log[m].key);
      } else {
        assert EntryOf(b, r, i, more[m - |log|].key);
      }
    }
  }

  lemma WrittenStill(b: Build, r: Repo, i: nat, log: seq<Entry>)
    requires i < |b.extractors| && WrittenBefore(b, r, i, log)
    ensures WrittenBefore(b, r, i + 1, log)
  {
    hide EntryOf;
    forall m | 0 <= m < |log| ensures OneWrote(b, r, i + 1, log[m].key) {
      assert OneWrote(b, r, i, log[m].key);
    }
  }

  lemma LogGrows(b: Build, log: seq<Entry>, more: seq<Entry>)
    requires LogJustified(b, log) && LogJustified(b, more)
    ensures LogJustified(b, log + more)
  {
    hide EntryJustified;
  }

  lemma StillJustified(b: Build, prev: Entries, gone: set<string>)
    requires AllJustified(b, prev)
    ensures AllJustified(b, prev - gone)
  {
    hide EntryJustified;
  }

  lemma {:induction false} StoredJustified(b: Build, log: seq<Entry>, before: Entries)
    requires LogJustified(b, log) && AllJustified(b, before)
    ensures AllJustified(b, Stored(log, before))
    decreases |log|
  {
    hide EntryJustified;
    if log != [] {
      StoredJustified(b, log[1..], before[log[0].key := log[0].raw]);
    }
  }

  // ---- The next run hits ----

  function KeyIn(b: Build, r: Repo, i: nat): string
    requires i < |b.extractors| && b.extractors[i].owner.Some?
  {
    Key(b.sha, b.stamps.version, b.extractors[i].name, ViewIn(b, r, b.extractors[i]))
  }

  /** The extractor `i` is keyed, and the run takes facts from it. */
  predicate Yields(b: Build, r: Repo, i: nat)
    requires i < |b.extractors|
  {
    var e := b.extractors[i];
    e.owner.Some? && r.enabled(e.name) && r.detect(e.name).Yes? && OutcomeIn(b, r, e).Facts?
  }

  /** A lookup of the extractor `i` among these entries hits. */
  ghost predicate HitsFor(b: Build, r: Repo, i: nat, entries: Entries)
    requires i < |b.extractors|
  {
    Yields(b, r, i) ==> Lookup(entries, b.sha, KeyIn(b, r, i), r.disk) == Some(OutcomeIn(b, r, b.extractors[i]).facts)
  }

  ghost predicate HitsBefore(b: Build, r: Repo, n: nat, log: seq<Entry>)
    requires n <= |b.extractors|
  {
    forall i :: 0 <= i < n ==> HitsFor(b, r, i, Stored(log, map[]))
  }

  /** A lookup reads only the entries of its extractor. */
  lemma LookupSame(b: Build, r: Repo, i: nat, s: Entries, t: Entries)
    requires WellBuilt(b) && i < |b.extractors| && b.extractors[i].owner.Some? && AllJustified(b, s)
    requires forall k :: EntryOf(b, r, i, k) ==> Peeked(t, k) == Peeked(s, k)
    ensures Lookup(t, b.sha, KeyIn(b, r, i), r.disk) == Lookup(s, b.sha, KeyIn(b, r, i), r.disk)
  {
    var e, v, key := b.extractors[i], ViewIn(b, r, b.extractors[i]), KeyIn(b, r, i);
    hide WellBuilt, AllJustified, EntryOf, Peeked, Key, ViewIn, AllClean, ProbesKey, Names, ProbedKey;
    KeyOfBuild(b, e, v, [], r.disk);
    ProbePathsClean(b, s, key);
    KeyIsLookup(b, e, v, r.disk);
    EntryByKey(b, r, i, []);
    EntryByKey(b, r, i, ProbePaths(s, key));
  }

  lemma HitsStill(b: Build, r: Repo, i: nat, j: nat, log: seq<Entry>, more: seq<Entry>)
    requires WellBuilt(b) && CleanRepo(r) && j < i < |b.extractors| && b.extractors[i].owner.Some?
    requires WrittenOnce(log + more) && LogJustified(b, log) && AddsFor(b, r, i, more)
    requires HitsFor(b, r, j, Stored(log, map[]))
    ensures HitsFor(b, r, j, Stored(log + more, map[]))
  {
    hide WellBuilt, CleanRepo, EntryOf, Lookup, KeyIn, WrittenOnce, LogJustified, OutcomeIn, Peeked, Stored, AllJustified;
    if Yields(b, r, j) {
      NothingJustified(b);
      StoredJustified(b, log, map[]);
      forall k | EntryOf(b, r, j, k) ensures Peeked(Stored(log + more, map[]), k) == Peeked(Stored(log, map[]), k) {
        forall n | 0 <= n < |more| ensures more[n].key != k {
          EntriesApart(b, r, j, i, k, more[n].key);
        }
        KeysOfEntries(log, more, k);
      }
      LookupSame(b, r, j, Stored(log, map[]), Stored(log + more, map[]));
    }
  }

  lemma HitsNow(b: Build, r: Repo, i: nat, log: seq<Entry>, more: seq<Entry>)
    requires WellBuilt(b) && CleanRepo(r) && i < |b.extractors| && b.extractors[i].owner.Some?
    requires WrittenOnce(log + more) && WrittenBefore(b, r, i, log) && LogJustified(b, more)
    requires HitsFor(b, r, i, Stored(more, map[]))
    ensures HitsFor(b, r, i, Stored(log + more, map[]))
  {
    hide WellBuilt, CleanRepo, EntryOf, Lookup, KeyIn, WrittenOnce, LogJustified, OutcomeIn, Peeked, Stored, AllJustified;
    if Yields(b, r, i) {
      NothingJustified(b);
      StoredJustified(b, more, map[]);
      forall k | EntryOf(b, r, i, k) ensures Peeked(Stored(log + more, map[]), k) == Peeked(Stored(more, map[]), k) {
        forall n | 0 <= n < |log| ensures log[n].key != k {
          assert OneWrote(b, r, i, log[n].key);
          var j :| 0 <= j < i && b.extractors[j].owner.Some? && EntryOf(b, r, j, log[n].key);
          EntriesApart(b, r, j, i, log[n].key, k);
        }
        KeysOfEntries(log, more, k);
      }
      LookupSame(b, r, i, Stored(more, map[]), Stored(log + more, map[]));
    }
  }

  lemma NothingJustified(b: Build)
    ensures AllJustified(b, map[])
  {
  }

  lemma OnceIn(b: Build, r: Repo, n: nat, log: seq<Entry>)
    requires n <= |b.extractors| && WrittenBefore(b, r, n, log)
    ensures WrittenOnce(log)
  {
  }

  lemma HitsNext(b: Build, r: Repo, i: nat, log: seq<Entry>, more: seq<Entry>)
    requires WellBuilt(b) && CleanRepo(r) && i < |b.extractors| && b.extractors[i].owner.Some?
    requires WrittenBefore(b, r, i, log) && AddsFor(b, r, i, more) && LogJustified(b, log) && LogJustified(b, more)
    requires HitsBefore(b, r, i, log) && HitsFor(b, r, i, Stored(more, map[]))
    ensures HitsBefore(b, r, i + 1, log + more)
  {
    hide WellBuilt, CleanRepo, WrittenOnce, WrittenBefore, LogJustified, AddsFor, HitsFor, Stored;
    WrittenNext(b, r, i, log, more);
    OnceIn(b, r, i + 1, log + more);
    HitsNow(b, r, i, log, more);
    forall j | 0 <= j < i ensures HitsFor(b, r, j, Stored(log + more, map[])) {
      HitsStill(b, r, i, j, log, more);
    }
  }

  lemma HitsSkip(b: Build, r: Repo, i: nat, log: seq<Entry>)
    requires i < |b.extractors| && HitsBefore(b, r, i, log) && !Yields(b, r, i)
    ensures HitsBefore(b, r, i + 1, log)
  {
    hide Yields, Lookup;
  }

  lemma CarriedHits(b: Build, r: Repo, i: nat, prev: Entries)
    requires WellBuilt(b) && CleanRepo(r) && i < |b.extractors| && b.extractors[i].owner.Some? && AllJustified(b, prev)
    requires Lookup(prev, b.sha, KeyIn(b, r, i), r.disk).Some?
    ensures HitsFor(b, r, i, Stored(Carried(prev, b.sha, KeyIn(b, r, i), r.disk), map[]))
  {
    var v := ViewIn(b, r, b.extractors[i]);
    ViewClean(b, r, b.extractors[i]);
    BuildHash(b);
    KeyOfBuild(b, b.extractors[i], v, [], r.disk);
    hide WellBuilt, CleanRepo, AllJustified, Lookup, Carried, CleanView, CollisionFree, NulFree, Key, ViewIn, Stored, RunTree;
    LookupIsRight(b, prev, i, v, r.disk);
    CarriedIsFound(prev, b.sha, KeyIn(b, r, i), r.disk);
  }

  lemma PutHits(b: Build, r: Repo, i: nat, paths: seq<string>, ff: seq<StoredFact>)
    requires WellBuilt(b) && i < |b.extractors| && b.extractors[i].owner.Some?
    requires OutcomeIn(b, r, b.extractors[i]) == Facts(ff)
    ensures HitsFor(b, r, i, Stored(Put(b.sha, KeyIn(b, r, i), r.disk, paths, ff), map[]))
  {
    BuildHash(b);
    KeyOfBuild(b, b.extractors[i], ViewIn(b, r, b.extractors[i]), [], r.disk);
    hide WellBuilt, Lookup, Put, CollisionFree, NulFree, Key, ViewIn, Stored, OutcomeIn;
    PutIsFound(b.sha, KeyIn(b, r, i), r.disk, paths, ff);
  }

  /** The cache serves this run, the extractors before `i` have written to it, and the next run
      will find what they wrote. */
  ghost predicate Filled(b: Build, r: Repo, i: nat, c: ExtractorCache)
    requires i <= |b.extractors|
    reads c
  {
    Serves(b, c) && WrittenBefore(b, r, i, c.log) && (c.Writes() ==> HitsBefore(b, r, i, c.log))
  }

  twostate predicate KeptOpen(c: ExtractorCache)
    reads c
  {
    c.noPersist == old(c.noPersist) && c.closed == old(c.closed) && c.faults >= old(c.faults)
  }

  /** A keyed extractor that applies: its facts come from the cache if the cache has them. */
  method ExtractCached(b: Build, r: Repo, i: nat, key: string, c: ExtractorCache) returns (o: Outcome)
    requires WellBuilt(b) && CleanRepo(r) && i < |b.extractors| && b.extractors[i].owner.Some?
    requires key == KeyIn(b, r, i) && Filled(b, r, i, c)
    modifies c
    ensures Filled(b, r, i + 1, c) && KeptOpen(c)
    ensures o == OutcomeIn(b, r, b.extractors[i])
  {
    hide WrittenBefore, AddsFor, AllClean, ExtractorCache.Valid, WellBuilt, CleanRepo, CleanView, AllJustified, LogJustified,
         CollisionFree, NulFree, Key, Lookup, Carried, ViewIn, Put, HitsBefore, HitsFor, Stored, Yields;
    var e := b.extractors[i];
    var v := ViewIn(b, r, e);
    ViewClean(b, r, e);
    KeyOfBuild(b, e, v, [], r.disk);
    BuildHash(b);
    ghost var before, carried := c.prev, Carried(c.prev, b.sha, key, r.disk);
    LookupIsRight(b, before, i, v, r.disk);
    CarriedNext(b, r, i, c);
    var cached := GetProbed(c, b.sha, key, r.disk);
    if cached.Some? {
      return Facts(cached.value);
    }
    MissCarriesNothing(before, b.sha, key, r.disk, old(c.log));
    var probes := new DiskProbes();
    o := Extract(e.extract(v), r.disk, probes);
    if o.Facts? {
      var paths := probes.Paths();
      PutNext(b, r, i, c, paths, o.facts);
      PutProbed(c, b.sha, key, r.disk, paths, o.facts);
    } else {
      NotYielded(b, r, i, c.log, o);
    }
  }

  lemma NotYielded(b: Build, r: Repo, i: nat, log: seq<Entry>, o: Outcome)
    requires i < |b.extractors| && OutcomeIn(b, r, b.extractors[i]) == o && !o.Facts?
    ensures HitsBefore(b, r, i, log) ==> HitsBefore(b, r, i + 1, log)
  {
    hide HitsBefore, OutcomeIn;
    if HitsBefore(b, r, i, log) {
      HitsSkip(b, r, i, log);
    }
  }

  /** After a lookup, hit or miss. */
  lemma CarriedNext(b: Build, r: Repo, i: nat, c: ExtractorCache)
    requires WellBuilt(b) && CleanRepo(r) && i < |b.extractors| && b.extractors[i].owner.Some? && Filled(b, r, i, c)
    ensures
      var more := Carried(c.prev, b.sha, KeyIn(b, r, i), r.disk);
      && AllJustified(b, c.prev - CarriedKeys(more))
      && LogJustified(b, c.log + more) && LogJustified(b, c.log)
      && WrittenBefore(b, r, i + 1, c.log + more) && WrittenBefore(b, r, i + 1, c.log)
      && (Lookup(c.prev, b.sha, KeyIn(b, r, i), r.disk).Some? && c.Writes() ==> HitsBefore(b, r, i + 1, c.log + more))
  {
    hide WrittenBefore, AddsFor, ExtractorCache.Valid, WellBuilt, CleanRepo, AllJustified, LogJustified,
         Key, Lookup, Carried, ViewIn, HitsBefore, HitsFor, Stored;
    var key := KeyIn(b, r, i);
    var more := Carried(c.prev, b.sha, key, r.disk);
    CarriedJustified(b, c.prev, key, r.disk);
    LogGrows(b, c.log, more);
    StillJustified(b, c.prev, CarriedKeys(more));
    CarriedAdds(b, r, i, c.prev);
    WrittenStill(b, r, i, c.log);
    WrittenNext(b, r, i, c.log, more);
    if Lookup(c.prev, b.sha, key, r.disk).Some? && c.Writes() {
      CarriedHits(b, r, i, c.prev);
      HitsNext(b, r, i, c.log, more);
    }
  }

  /** After a put. */
  lemma PutNext(b: Build, r: Repo, i: nat, c: ExtractorCache, paths: seq<string>, ff: seq<StoredFact>)
    requires WellBuilt(b) && CleanRepo(r) && i < |b.extractors| && b.extractors[i].owner.Some?
    requires LogJustified(b, c.log) && WrittenBefore(b, r, i, c.log) && (c.Writes() ==> HitsBefore(b, r, i, c.log))
    requires OutcomeIn(b, r, b.extractors[i]) == Facts(ff)
    requires forall p :: p in paths <==> p in Probed(b.extractors[i].extract(ViewIn(b, r, b.extractors[i])), r.disk)
    ensures
      var more := Put(b.sha, KeyIn(b, r, i), r.disk, paths, ff);
      && LogJustified(b, c.log + more)
      && WrittenBefore(b, r, i + 1, c.log + more)
      && (c.Writes() ==> HitsBefore(b, r, i + 1, c.log + more))
  {
    ViewClean(b, r, b.extractors[i]);
    hide WrittenBefore, AddsFor, AllClean, WellBuilt, CleanRepo, CleanView, LogJustified, Key, ViewIn, Put, HitsBefore, HitsFor,
         Stored, RunTree, Probed;
    var v := ViewIn(b, r, b.extractors[i]);
    var more := Put(b.sha, KeyIn(b, r, i), r.disk, paths, ff);
    PathsClean(b, i, v, r.disk, paths);
    PutAdds(b, r, i, paths, ff);
    WrittenNext(b, r, i, c.log, more);
    PutJustified(b, i, v, r.disk, paths, ff);
    LogGrows(b, c.log, more);
    if c.Writes() {
      PutHits(b, r, i, paths, ff);
      HitsNext(b, r, i, c.log, more);
    }
  }

  lemma PathsClean(b: Build, i: nat, v: View, disk: Disk, paths: seq<string>)
    requires WellBuilt(b) && i < |b.extractors|
    requires forall p :: p in paths <==> p in Probed(b.extractors[i].extract(v), disk)
    ensures AllClean(paths)
  {
    ProbesClean(b.extractors[i].extract(v), disk);
  }

  lemma BuildHash(b: Build)
    requires WellBuilt(b)
    ensures CollisionFree(b.sha)
  {
  }

  lemma KeyHere(b: Build, r: Repo, i: nat, keys: map<string, string>)
    requires WellBuilt(b) && i < |b.extractors|
    requires KeysOfRun(b, r, keys)
    ensures b.extractors[i].name in keys <==> b.extractors[i].owner.Some?
    ensures b.extractors[i].name in keys ==>
      keys[b.extractors[i].name] == Key(b.sha, b.stamps.version, b.extractors[i].name, ViewIn(b, r, b.extractors[i]))
  {
    hide Key, ViewOf, CleanTree;
    OwnersLookup(b.extractors, i);
  }

  method FindOwners(es: seq<Extractor>) returns (owners: Owners)
    ensures owners == OwnersOf(es)
  {
    owners := map[];
    for i := 0 to |es|
      invariant owners == OwnersOf(es[..i])
    {
      TakeSnoc(es, i + 1);
      if es[i].owner.Some? {
        owners := owners[es[i].name := es[i].owner.value];
      }
    }
    TakeAll(es);
  }

  method ExtractPlainly(b: Build, r: Repo, e: Extractor) returns (o: Outcome)
    ensures o == OutcomeIn(b, r, e)
  {
    if e.owner.Some? {
      var probes := new DiskProbes();
      o := Extract(e.extract(ViewIn(b, r, e)), r.disk, probes);
    } else {
      o := r.unkeyed(e.name);
    }
  }

  ghost predicate KeysOfRun(b: Build, r: Repo, keys: map<string, string>) {
    && keys.Keys == OwnersOf(b.extractors).Keys
    && forall name :: name in OwnersOf(b.extractors) ==>
      keys[name] == Key(b.sha, b.stamps.version, name, ViewOf(OwnersOf(b.extractors), OwnersOf(b.extractors)[name], r.files, r.hashes))
  }

  /** The cache, if there is one, serves this run and has been written to by the extractors
      before `i` only. */
  ghost predicate Ready(b: Build, r: Repo, i: nat, keys: map<string, string>, c: ExtractorCache?)
    requires i <= |b.extractors|
    reads if c == null then {} else {c}
  {
    c != null ==> Filled(b, r, i, c) && KeysOfRun(b, r, keys)
  }

  lemma ReadyNext(b: Build, r: Repo, i: nat, keys: map<string, string>, c: ExtractorCache?)
    requires i < |b.extractors| && Ready(b, r, i, keys, c) && (c != null ==> !Yields(b, r, i))
    ensures Ready(b, r, i + 1, keys, c)
  {
    hide Serves, WrittenBefore, KeysOfRun, HitsBefore, Yields;
    if c != null {
      WrittenStill(b, r, i, c.log);
      if c.Writes() {
        HitsSkip(b, r, i, c.log);
      }
    }
  }

  /** An extractor that applies, with whatever cache there is. */
  method ExtractOne(b: Build, r: Repo, i: nat, keys: map<string, string>, c: ExtractorCache?) returns (o: Outcome)
    requires WellBuilt(b) && CleanRepo(r) && i < |b.extractors| && Ready(b, r, i, keys, c)
    modifies if c == null then {} else {c}
    ensures Ready(b, r, i + 1, keys, c) && (c != null ==> KeptOpen(c))
    ensures o == OutcomeIn(b, r, b.extractors[i])
  {
    hide Filled, WellBuilt, CleanRepo, OutcomeIn, ViewIn, Key, KeysOfRun;
    var e := b.extractors[i];
    if c != null {
      KeyHere(b, r, i, keys);
    }
    if c != null && e.name in keys {
      o := ExtractCached(b, r, i, keys[e.name], c);
    } else {
      ReadyNext(b, r, i, keys, c);
      o := ExtractPlainly(b, r, e);
    }
  }

  method RunOneOf(b: Build, r: Repo, i: nat, keys: map<string, string>, c: ExtractorCache?, before: Extracted) returns (p: Extracted)
    requires WellBuilt(b) && CleanRepo(r) && i < |b.extractors| && before.Ran? && Ready(b, r, i, keys, c)
    modifies if c == null then {} else {c}
    ensures Ready(b, r, i + 1, keys, c) && (c != null ==> KeptOpen(c))
    ensures p == RunOne(b, r, b.extractors[i], before)
  {
    hide Ready, WellBuilt, CleanRepo, OutcomeIn;
    p := before;
    var e := b.extractors[i];
    if !Yields(b, r, i) {
      ReadyNext(b, r, i, keys, c);
    }
    if !r.enabled(e.name) {
      if r.explicit && r.detect(e.name).Yes? {
        p := p.(shadowed := p.shadowed + [e.name]);
      }
      return;
    }
    var detected := r.detect(e.name);
    if detected.Broken? {
      return p.(errors := p.errors + [(e.name, "detect: " + detected.msg)]);
    }
    if detected.No? {
      return;
    }
    var o := ExtractOne(b, r, i, keys, c);
    if o.Fatal? {
      p := Aborted(e.name, o.msg);
    } else if o.Failed? {
      p := p.(errors := p.errors + [(e.name, o.msg)]);
    } else {
      p := p.(facts := p.facts + o.facts, used := p.used + [e.name]);
    }
  }

  /** With a cache that serves this build, and without one, the run extracts the same. */
  method RunExtractors(b: Build, r: Repo, c: ExtractorCache?) returns (p: Extracted)
    requires WellBuilt(b) && CleanRepo(r)
    requires c != null ==> Serves(b, c) && c.log == []
    modifies if c == null then {} else {c}
    ensures c != null ==> Serves(b, c) && WrittenOnce(c.log) && KeptOpen(c)
    ensures c != null && p.Ran? ==> Filled(b, r, |b.extractors|, c)
    ensures p == RunAll(b, r)
  {
    hide EntryOf, OneWrote, Serves, WellBuilt, CleanRepo, RunOne, HitsFor;
    var keys: map<string, string> := map[];
    if c != null {
      var owners := FindOwners(b.extractors);
      keys := ComputeKeys(b.sha, b.stamps.version, owners, r.files, r.hashes);
    }
    p := Ran([], [], [], []);
    for i := 0 to |b.extractors|
      invariant Ready(b, r, i, keys, c) && (c != null ==> KeptOpen(c))
      invariant p == RunFirst(b, r, i) && p.Ran?
    {
      p := RunOneOf(b, r, i, keys, c, p);
      if p.Aborted? {
        AbortedStays(b, r, i + 1, |b.extractors|);
        return;
      }
    }
  }

  lemma {:induction false} AbortedStays(b: Build, r: Repo, m: nat, n: nat)
    requires m <= n <= |b.extractors| && RunFirst(b, r, m).Aborted?
    ensures RunFirst(b, r, n) == RunFirst(b, r, m)
    decreases n
  {
    hide RunOne;
    if m < n {
      AbortedStays(b, r, m, n - 1);
    }
  }
}
