/** Whole histories of snapshots over one cache file, which extractors share with external providers
    (internal/engine/pipeline.go, internal/engine/cache.go). */
module Histories {
  import opened Wrappers
  import opened Text
  import opened Bags
  import opened Spool
  import opened SpoolLaws
  import opened Cache
  import opened Keys
  import opened Extraction
  import opened Transparency
  import opened CachedRuns

  // ---- Providers share the spool ----

  /** What an external provider asks of the cache. */
  datatype ProviderOp = ProviderGet(key: string) | ProviderPeek(key: string) | ProviderPut(key: string, facts: seq<StoredFact>)

  function ProviderKey(version: string, key: string): string {
    version + [NUL] + "provider" + [NUL] + key
  }

  ghost predicate IsProviderKey(b: Build, key: string) {
    exists k :: key == ProviderKey(b.stamps.version, k)
  }

  /** A provider's key is never one that an extractor looks up. */
  lemma ProviderKeyApart(b: Build, key: string, k: string)
    requires WellBuilt(b) && NulFree(k)
    ensures !NulFree(ProviderKey(b.stamps.version, key)) && ProviderKey(b.stamps.version, key) != ProbesKey(k)
  {
    var v, rest := b.stamps.version, "provider" + [NUL] + key;
    assert NulFree(v);
    hide WellBuilt;
    assert ProviderKey(v, key) == v + [NUL] + rest;
    assert ProviderKey(v, key)[|v|] == NUL;
    assert rest[3] == 'v' && "probes"[3] == 'b';
    if ProviderKey(v, key) == ProbesKey(k) {
      assert ProbesKey(k) == k + [NUL] + "probes";
      FieldUnique(v, rest, k, "probes");
    }
  }

  /** No two keys of a provider are stored under one. */
  lemma ProviderKeyUnique(version: string, k: string, l: string)
    requires ProviderKey(version, k) == ProviderKey(version, l)
    ensures k == l
  {
    var front := version + [NUL] + "provider" + [NUL];
    assert ProviderKey(version, k)[|front|..] == k && ProviderKey(version, l)[|front|..] == l;
  }

  lemma ProviderEntryFits(b: Build, key: string, raw: Tokens)
    requires WellBuilt(b)
    ensures EntryJustified(b, ProviderKey(b.stamps.version, key), raw)
  {
    ProviderKeyApart(b, key, "");
    forall k | NulFree(k) ensures ProviderKey(b.stamps.version, key) != ProbesKey(k) {
      ProviderKeyApart(b, key, k);
    }
    hide WellBuilt, ProviderKey, ProbesKey, Unmarshal, Justified;
  }

  /** Whatever the providers ask, the cache still serves the extractors, and only keys of the
      providers' own are added to its log. */
  method RunProviders(b: Build, c: ExtractorCache, ops: seq<ProviderOp>) returns (ghost more: seq<Entry>)
    requires WellBuilt(b) && Serves(b, c)
    modifies c
    ensures Serves(b, c) && KeptOpen(c) && c.log == old(c.log) + more
    ensures forall n :: 0 <= n < |more| ==> IsProviderKey(b, more[n].key)
  {
    hide ExtractorCache.Valid, WellBuilt, AllJustified, LogJustified, ProviderKey, Unmarshal, FactsText;
    more := [];
    for i := 0 to |ops|
      invariant Serves(b, c) && KeptOpen(c) && c.log == old(c.log) + more
      invariant forall n :: 0 <= n < |more| ==> IsProviderKey(b, more[n].key)
    {
      ghost var log, prev := c.log, c.prev;
      var key := ProviderKey(b.stamps.version, ops[i].key);
      match ops[i] {
        case ProviderGet(_) =>
          var _ := c.Get(key);
          StillJustified(b, prev, {key});
        case ProviderPeek(_) =>
          var _ := c.Peek(key);
        case ProviderPut(_, ff) =>
          c.Put(key, ff);
      }
      if c.log != log {
        var e := c.log[|log|];
        ProviderEntryFits(b, ops[i].key, e.raw);
        OneJustified(b, e);
        LogGrows(b, log, [e]);
        more := more + [e];
      }
    }
  }

  lemma OneJustified(b: Build, e: Entry)
    requires EntryJustified(b, e.key, e.raw)
    ensures LogJustified(b, [e])
  {
    hide EntryJustified;
  }

  lemma {:induction false} StoredOutside(log: seq<Entry>, more: seq<Entry>, k: string)
    requires forall n :: 0 <= n < |more| ==> more[n].key != k
    ensures Peeked(Stored(log + more, map[]), k) == Peeked(Stored(log, map[]), k)
    decreases |more|
  {
    hide Stored, Unmarshal;
    if more == [] {
      assert log + more == log;
    } else {
      var init, e := more[..|more| - 1], more[|more| - 1];
      assert log + more == (log + init) + [e];
      StoredSnoc(log + init, e, map[]);
      StoredOutside(log, init, k);
    }
  }

  /** An extractor finds what it would find without the providers' entries. */
  lemma HitsDespite(b: Build, r: Repo, i: nat, log: seq<Entry>, more: seq<Entry>)
    requires WellBuilt(b) && CleanRepo(r) && i < |b.extractors| && LogJustified(b, log)
    requires forall n :: 0 <= n < |more| ==> IsProviderKey(b, more[n].key)
    requires HitsFor(b, r, i, Stored(log, map[]))
    ensures HitsFor(b, r, i, Stored(log + more, map[]))
  {
    hide WellBuilt, CleanRepo, EntryOf, Lookup, KeyIn, LogJustified, OutcomeIn, Peeked, Stored, AllJustified, ProviderKey;
    if Yields(b, r, i) {
      NothingJustified(b);
      StoredJustified(b, log, map[]);
      forall k | EntryOf(b, r, i, k) ensures Peeked(Stored(log + more, map[]), k) == Peeked(Stored(log, map[]), k) {
        forall n | 0 <= n < |more| ensures more[n].key != k {
          NotProviders(b, r, i, k, more[n].key);
        }
        StoredOutside(log, more, k);
      }
      LookupSame(b, r, i, Stored(log, map[]), Stored(log + more, map[]));
    }
  }

  lemma NotProviders(b: Build, r: Repo, i: nat, k: string, l: string)
    requires WellBuilt(b) && i < |b.extractors| && b.extractors[i].owner.Some? && EntryOf(b, r, i, k) && IsProviderKey(b, l)
    ensures k != l
  {
    var e, v := b.extractors[i], ViewIn(b, r, b.extractors[i]);
    hide WellBuilt, Key, ViewIn, LookupKey, AllClean, ProviderKey, ProbesKey;
    var key :| l == ProviderKey(b.stamps.version, key);
    KeyOfBuild(b, e, v, [], r.disk);
    ProviderKeyApart(b, key, Key(b.sha, b.stamps.version, e.name, v));
    if paths :| AllClean(paths) && k == LookupKey(b, e, v, paths, r.disk) {
      KeyOfBuild(b, e, v, paths, r.disk);
    }
  }

  // ---- Histories ----

  /** One snapshot: the binary that takes it, the repository it finds, what the external providers
      ask of the cache, whether the snapshot uses the cache and may write it, and whether it fails
      after extraction. */
  datatype Snapshot = Snapshot(build: Build, repo: Repo, providers: seq<ProviderOp>, incremental: bool, persist: bool, fails: bool)

  ghost predicate WellFormed(h: seq<Snapshot>) {
    && (forall i :: 0 <= i < |h| ==> WellBuilt(h[i].build) && CleanRepo(h[i].repo))
    && (forall i, j :: 0 <= i < |h| && 0 <= j < |h| && h[i].build.stamps == h[j].build.stamps ==> h[i].build == h[j].build)
  }

  /** No binary of the history would be served a wrong entry by this file. */
  ghost predicate FileServes(h: seq<Snapshot>, file: Option<Tokens>) {
    forall i :: 0 <= i < |h| ==> AllJustified(h[i].build, Loaded(file, h[i].build.stamps))
  }

  /** A history may start without a file. */
  lemma NoFileServes(h: seq<Snapshot>)
    ensures FileServes(h, None)
  {
    hide EntryJustified;
  }

  lemma SavedFileServes(h: seq<Snapshot>, n: nat, log: seq<Entry>)
    requires WellFormed(h) && n < |h| && AllComplete(log) && LogJustified(h[n].build, log)
    ensures FileServes(h, Some(File(h[n].build.stamps, log)))
  {
    hide AllComplete, LogJustified, Loaded, File, Stored, WellBuilt, EntryJustified;
    forall i | 0 <= i < |h| ensures AllJustified(h[i].build, Loaded(Some(File(h[n].build.stamps, log)), h[i].build.stamps)) {
      FileReadBack(h[n].build.stamps, h[i].build.stamps, log);
      if h[i].build.stamps == h[n].build.stamps {
        StoredJustified(h[i].build, log, map[]);
      }
    }
  }

  /** The snapshot writes its cache, unless the system fails it. */
  predicate Publishes(s: Snapshot) {
    s.incremental && s.persist && !s.fails && RunAll(s.build, s.repo).Ran?
  }

  /** With this file the same snapshot would parse nothing it can key, and the file has entries
      of this snapshot's extractors and of providers only. */
  ghost predicate LeftBy(s: Snapshot, file: Option<Tokens>) {
    var entries := Loaded(file, s.build.stamps);
    && (forall i :: 0 <= i < |s.build.extractors| ==> HitsFor(s.build, s.repo, i, entries))
    && (forall k :: k in entries ==> OneWrote(s.build, s.repo, |s.build.extractors|, k) || IsProviderKey(s.build, k))
  }

  lemma FilledIsLeft(s: Snapshot, log: seq<Entry>, more: seq<Entry>)
    requires WellBuilt(s.build) && CleanRepo(s.repo) && LogJustified(s.build, log) && AllComplete(log + more)
    requires WrittenBefore(s.build, s.repo, |s.build.extractors|, log) && HitsBefore(s.build, s.repo, |s.build.extractors|, log)
    requires forall n :: 0 <= n < |more| ==> IsProviderKey(s.build, more[n].key)
    ensures LeftBy(s, Some(File(s.build.stamps, log + more)))
  {
    hide HitsFor, Stored, OneWrote, Loaded, File, AllJustified, LogJustified, AllComplete, WellBuilt, CleanRepo, IsProviderKey;
    var n, all := |s.build.extractors|, log + more;
    var entries := Loaded(Some(File(s.build.stamps, all)), s.build.stamps);
    FileReadBack(s.build.stamps, s.build.stamps, all);
    assert entries == Stored(all, map[]);
    forall i | 0 <= i < n ensures HitsFor(s.build, s.repo, i, entries) {
      HitsDespite(s.build, s.repo, i, log, more);
    }
    forall k | k in entries ensures OneWrote(s.build, s.repo, n, k) || IsProviderKey(s.build, k) {
      StoredKeys(all, k);
      var i :| 0 <= i < |all| && all[i].key == k;
      assert i >= |log| ==> all[i] == more[i - |log|];
    }
  }

  /** `faults`: how many writes, encodings and file operations of the cache failed. */
  method TakeSnapshot(ghost h: seq<Snapshot>, ghost n: nat, s: Snapshot, file: CacheFile) returns (p: Extracted, ghost faults: nat)
    requires WellFormed(h) && n < |h| && h[n] == s && FileServes(h, file.content)
    modifies file
    ensures FileServes(h, file.content)
    ensures p == RunAll(s.build, s.repo)
    ensures !Publishes(s) ==> file.content == old(file.content)
    ensures Publishes(s) && faults == 0 ==> LeftBy(s, file.content)
  {
    hide FileServes, WellBuilt, CleanRepo, AllJustified, LogJustified, AllComplete, Loaded, File, RunAll, LeftBy, WrittenBefore, HitsBefore;
    ServedTo(h, n, file.content);
    faults := 0;
    if !s.incremental {
      p := RunExtractors(s.build, s.repo, null);
      return;
    }
    var c := new ExtractorCache(file, s.persist, s.build.stamps);
    NothingLogged(s.build);
    p := RunExtractors(s.build, s.repo, c);
    if p.Ran? && !s.fails {
      ghost var log := c.log;
      ghost var more := RunProviders(s.build, c, s.providers);
      LogComplete(c);
      SavedFileServes(h, n, c.log);
      if c.Writes() {
        FilledIsLeft(s, log, more);
      }
      var saved := c.Save();
    }
    c.Discard();
    faults := c.faults;
  }

  lemma ServedTo(h: seq<Snapshot>, n: nat, file: Option<Tokens>)
    requires FileServes(h, file) && n < |h|
    ensures AllJustified(h[n].build, Loaded(file, h[n].build.stamps))
  {
  }

  lemma NothingLogged(b: Build)
    ensures LogJustified(b, [])
  {
  }

  lemma LogComplete(c: ExtractorCache)
    requires c.Valid()
    ensures AllComplete(c.log)
  {
  }

  /** Over any history of edits, rebuilt binaries, failed writes and failed runs, every snapshot
      extracts exactly what it would extract without the cache. If the system failed no write,
      the file is the one the last publishing snapshot left. */
  method TakeSnapshots(h: seq<Snapshot>, file: CacheFile) returns (results: seq<Extracted>, ghost faults: nat)
    requires WellFormed(h) && FileServes(h, file.content)
    modifies file
    ensures |results| == |h|
    ensures forall i :: 0 <= i < |h| ==> results[i] == RunAll(h[i].build, h[i].repo)
    ensures faults == 0 ==> forall i :: LastPublished(h, i, |h|) ==> LeftBy(h[i], file.content)
    ensures (forall i :: 0 <= i < |h| ==> !Publishes(h[i])) ==> file.content == old(file.content)
  {
    hide WellFormed, FileServes, RunAll, LeftBy, Publishes;
    results, faults := [], 0;
    for i := 0 to |h|
      invariant FileServes(h, file.content) && |results| == i
      invariant forall j :: 0 <= j < i ==> results[j] == RunAll(h[j].build, h[j].repo)
      invariant faults == 0 ==> forall j :: LastPublished(h, j, i) ==> LeftBy(h[j], file.content)
      invariant (forall j :: 0 <= j < i ==> !Publishes(h[j])) ==> file.content == old(file.content)
    {
      ghost var before := file.content;
      var p, failed := TakeSnapshot(h, i, h[i], file);
      LastPublishedNext(h, i);
      results := results + [p];
      faults := faults + failed;
    }
  }

  /** Of the first `n` snapshots, the last that writes its cache. */
  ghost predicate LastPublished(h: seq<Snapshot>, i: int, n: nat)
    requires n <= |h|
  {
    0 <= i < n && Publishes(h[i]) && forall j :: i < j < n ==> !Publishes(h[j])
  }

  lemma LastPublishedNext(h: seq<Snapshot>, n: nat)
    requires n < |h|
    ensures forall i :: LastPublished(h, i, n + 1) ==> if Publishes(h[n]) then i == n else LastPublished(h, i, n)
  {
    hide Publishes;
    forall i | LastPublished(h, i, n + 1) ensures if Publishes(h[n]) then i == n else LastPublished(h, i, n) {
      if i < n {
        assert !Publishes(h[n]);
      }
    }
  }
}
