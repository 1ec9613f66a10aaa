/** Reusing cached facts changes nothing a snapshot extracts, over any history of runs. */
module Transparency {
  import opened Wrappers
  import opened Text
  import opened Bags
  import opened Slices
  import opened Spool
  import opened SpoolLaws
  import opened Cache
  import opened Keys
  import opened Extraction

  // ---- What makes an entry right ----

  function LookupKey(b: Build, e: Extractor, v: View, paths: seq<string>, disk: Disk): string {
    ProbedKey(b.sha, Key(b.sha, b.stamps.version, e.name, v), paths, disk)
  }

  /** Whoever looks this key up would extract these facts. */
  ghost predicate Justified(b: Build, key: string, ff: seq<StoredFact>) {
    forall i, v: View, paths: seq<string>, disk: Disk ::
      0 <= i < |b.extractors| && CleanView(v) && AllClean(paths) && LookupKey(b, b.extractors[i], v, paths, disk) == key ==>
        RunTree(b.extractors[i].extract(v), disk) == Facts(ff)
  }

  function Names(ff: seq<StoredFact>): seq<string> {
    seq(|ff|, i requires 0 <= i < |ff| => ff[i].name)
  }

  function NamedFacts(paths: seq<string>): seq<StoredFact> {
    seq(|paths|, i requires 0 <= i < |paths| => StoredFact(paths[i], ""))
  }

  ghost predicate EntryJustified(b: Build, key: string, raw: Tokens) {
    Unmarshal(raw).Some? ==>
      if NulFree(key) then Justified(b, key, Unmarshal(raw).value)
      else forall k :: NulFree(k) && key == ProbesKey(k) ==> AllClean(Names(Unmarshal(raw).value))
  }

  ghost predicate AllJustified(b: Build, prev: Entries) {
    forall k :: k in prev ==> EntryJustified(b, k, prev[k])
  }

  ghost predicate LogJustified(b: Build, log: seq<Entry>) {
    forall i :: 0 <= i < |log| ==> EntryJustified(b, log[i].key, log[i].raw)
  }

  lemma NulFreeKey(b: Build, e: Extractor, v: View, paths: seq<string>, disk: Disk)
    requires CollisionFree(b.sha)
    ensures NulFree(LookupKey(b, e, v, paths, disk))
  {
    hide KeyText, ProbedText;
  }

  /** A lookup key determines the extractor, its view, the paths and what was found there. */
  lemma LookupKeyUnique(b: Build, i: nat, v: View, ps: seq<string>, d: Disk, j: nat, w: View, qs: seq<string>, e: Disk)
    requires WellBuilt(b) && i < |b.extractors| && j < |b.extractors|
    requires CleanView(v) && CleanView(w) && AllClean(ps) && AllClean(qs)
    requires LookupKey(b, b.extractors[i], v, ps, d) == LookupKey(b, b.extractors[j], w, qs, e)
    ensures i == j && v == w && ps == qs && Agree(ps, d, e)
  {
    var sha, version, m, n := b.sha, b.stamps.version, b.extractors[i].name, b.extractors[j].name;
    var k, l := Key(sha, version, m, v), Key(sha, version, n, w);
    NulFreeKey(b, b.extractors[i], v, [], d);
    NulFreeKey(b, b.extractors[j], w, [], e);
    hide CollisionFree, KeyText, ProbedText, CleanTree, CleanView, AllClean, NulFree;
    if ps == [] && qs != [] {
      PlainIsNotProbed(sha, version, m, v, l, qs, e);
    } else if ps != [] && qs == [] {
      PlainIsNotProbed(sha, version, n, w, k, ps, d);
    } else {
      if ps != [] {
        ProbedKeyUnique(sha, k, ps, d, l, qs, e);
      }
      KeyFixesView(sha, version, m, v, n, w);
    }
  }

  /** What an extraction stores is right for every later lookup that finds it. */
  lemma StoringJustifies(b: Build, i: nat, v: View, ps: seq<string>, d: Disk, ff: seq<StoredFact>)
    requires WellBuilt(b) && i < |b.extractors| && CleanView(v) && AllClean(ps)
    requires RunTree(b.extractors[i].extract(v), d) == Facts(ff)
    requires forall p :: p in ps <==> p in Probed(b.extractors[i].extract(v), d)
    ensures Justified(b, LookupKey(b, b.extractors[i], v, ps, d), ff)
  {
    hide WellBuilt, CleanView, AllClean, RunTree, Probed, LookupKey;
    var key := LookupKey(b, b.extractors[i], v, ps, d);
    forall j, w: View, qs: seq<string>, e: Disk |
      0 <= j < |b.extractors| && CleanView(w) && AllClean(qs) && LookupKey(b, b.extractors[j], w, qs, e) == key
      ensures RunTree(b.extractors[j].extract(w), e) == Facts(ff)
    {
      LookupKeyUnique(b, i, v, ps, d, j, w, qs, e);
      SameAnswersSameFacts(b.extractors[i].extract(v), d, e);
    }
  }

  // ---- Adaptive lookups ----

  function Lookup(prev: Entries, sha: Sha, key: string, disk: Disk): Option<seq<StoredFact>> {
    var probes := Peeked(prev, ProbesKey(key));
    if probes.None? then Peeked(prev, key) else Peeked(prev, ProbedKey(sha, key, Names(probes.value), disk))
  }

  /** The entries a hit carries into the next file. */
  function Carried(prev: Entries, sha: Sha, key: string, disk: Disk): seq<Entry> {
    var probes := Peeked(prev, ProbesKey(key));
    if Lookup(prev, sha, key, disk).None? then []
    else if probes.None? then [Entry(key, prev[key])]
    else
      var found := ProbedKey(sha, key, Names(probes.value), disk);
      [Entry(found, prev[found]), Entry(ProbesKey(key), prev[ProbesKey(key)])]
  }

  lemma MissCarriesNothing(prev: Entries, sha: Sha, key: string, disk: Disk, log: seq<Entry>)
    requires Lookup(prev, sha, key, disk).None?
    ensures log + Carried(prev, sha, key, disk) == log
  {
  }

  function CarriedKeys(log: seq<Entry>): set<string> {
    set i | 0 <= i < |log| :: log[i].key
  }

  lemma ProbesKeyApart(sha: Sha, key: string, paths: seq<string>, disk: Disk)
    requires CollisionFree(sha) && NulFree(key)
    ensures ProbedKey(sha, key, paths, disk) != ProbesKey(key)
  {
    hide ProbedText;
    assert ProbesKey(key)[|key|] == NUL;
  }

  method GetProbed(c: ExtractorCache, sha: Sha, key: string, disk: Disk) returns (ff: Option<seq<StoredFact>>)
    requires c.Valid() && CollisionFree(sha) && NulFree(key)
    modifies c
    ensures c.Valid() && c.noPersist == old(c.noPersist) && c.closed == old(c.closed) && c.faults >= old(c.faults)
    ensures ff == Lookup(old(c.prev), sha, key, disk)
    ensures c.log == if c.Writes() then old(c.log) + Carried(old(c.prev), sha, key, disk) else old(c.log)
    ensures c.prev == old(c.prev) - CarriedKeys(Carried(old(c.prev), sha, key, disk))
  {
    hide CollisionFree, NulFree, ExtractorCache.Valid, Peeked, ProbesKey, ProbedKey;
    var probes := c.Peek(ProbesKey(key));
    if probes.None? {
      ff := c.Get(key);
      OneKey(Carried(old(c.prev), sha, key, disk));
      return;
    }
    var found := ProbedKey(sha, key, Names(probes.value), disk);
    ff := c.Get(found);
    if ff.Some? {
      ProbesKeyApart(sha, key, Names(probes.value), disk);
      StillPeeked(old(c.prev), found, ProbesKey(key));
      PeekedIn(old(c.prev), found);
      PeekedIn(old(c.prev), ProbesKey(key));
      var _ := c.Get(ProbesKey(key));
      OneKey(Carried(old(c.prev), sha, key, disk));
      assert old(c.log) + [Entry(found, old(c.prev)[found])] + [Entry(ProbesKey(key), old(c.prev)[ProbesKey(key)])]
          == old(c.log) + Carried(old(c.prev), sha, key, disk);
    }
  }

  lemma PeekedIn(prev: Entries, k: string)
    requires Peeked(prev, k).Some?
    ensures k in prev
  {
  }

  lemma StillPeeked(prev: Entries, gone: string, k: string)
    requires k != gone
    ensures Peeked(prev - {gone}, k) == Peeked(prev, k)
  {
  }

  lemma OneKey(log: seq<Entry>)
    ensures log == [] ==> CarriedKeys(log) == {}
    ensures |log| == 1 ==> CarriedKeys(log) == {log[0].key}
    ensures |log| == 2 ==> CarriedKeys(log) == {log[0].key} + {log[1].key}
  {
    if |log| == 2 {
      assert log[1].key in CarriedKeys(log);
    }
  }

  function Put(sha: Sha, key: string, disk: Disk, paths: seq<string>, ff: seq<StoredFact>): seq<Entry> {
    if paths == [] then [Entry(key, FactsText(ff))]
    else [Entry(ProbesKey(key), FactsText(NamedFacts(paths))), Entry(ProbedKey(sha, key, paths, disk), FactsText(ff))]
  }

  method PutProbed(c: ExtractorCache, sha: Sha, key: string, disk: Disk, paths: seq<string>, ff: seq<StoredFact>)
    requires c.Valid()
    modifies c`spool, c`failed, c`entries, c`log, c`faults
    ensures c.Valid() && c.faults >= old(c.faults)
    ensures c.log == if c.Writes() then old(c.log) + Put(sha, key, disk, paths, ff) else old(c.log)
  {
    hide ExtractorCache.Valid, FactsText, ProbesKey, ProbedKey;
    if |paths| == 0 {
      c.Put(key, ff);
      return;
    }
    c.Put(ProbesKey(key), NamedFacts(paths));
    c.Put(ProbedKey(sha, key, paths, disk), ff);
    assert old(c.log) + [Entry(ProbesKey(key), FactsText(NamedFacts(paths)))] + [Entry(ProbedKey(sha, key, paths, disk), FactsText(ff))]
        == old(c.log) + Put(sha, key, disk, paths, ff);
  }

  // ---- What a run leaves for the next one ----

  lemma KeysOfEntries(log: seq<Entry>, more: seq<Entry>, k: string)
    requires WrittenOnce(log + more)
    ensures (forall n :: 0 <= n < |more| ==> more[n].key != k) ==> Peeked(Stored(log + more, map[]), k) == Peeked(Stored(log, map[]), k)
    ensures (forall n :: 0 <= n < |log| ==> log[n].key != k) ==> Peeked(Stored(log + more, map[]), k) == Peeked(Stored(more, map[]), k)
  {
    hide Unmarshal, Stored;
    var all := log + more;
    StoredKeys(all, k);
    StoredKeys(log, k);
    StoredKeys(more, k);
    forall m, n | 0 <= m < n < |log| ensures log[m].key != log[n].key {
      assert all[m] == log[m] && all[n] == log[n];
    }
    forall m, n | 0 <= m < n < |more| ensures more[m].key != more[n].key {
      assert all[|log| + m] == more[m] && all[|log| + n] == more[n];
    }
    StoredEach(all);
    StoredEach(log);
    StoredEach(more);
    if n :| 0 <= n < |log| && log[n].key == k {
      assert all[n] == log[n];
    }
    if n :| 0 <= n < |more| && more[n].key == k {
      assert all[|log| + n] == more[n];
    }
  }

  /** What `put` writes is found again, when the same paths exist. */
  lemma PutIsFound(sha: Sha, key: string, disk: Disk, paths: seq<string>, ff: seq<StoredFact>)
    requires CollisionFree(sha) && NulFree(key)
    ensures Lookup(Stored(Put(sha, key, disk, paths, ff), map[]), sha, key, disk) == Some(ff)
  {
    hide FactsText, Unmarshal, CollisionFree, NulFree, ProbedKey;
    FactsReadBack(ff);
    FactsReadBack(NamedFacts(paths));
    assert Names(NamedFacts(paths)) == paths;
    var more := Put(sha, key, disk, paths, ff);
    if paths == [] {
      TwoStored(more);
      assert ProbesKey(key) != key;
    } else {
      TwoStored(more);
      ProbesKeyApart(sha, key, paths, disk);
    }
  }

  lemma TwoStored(log: seq<Entry>)
    ensures log == [] ==> Stored(log, map[]) == map[]
    ensures |log| == 1 ==> Stored(log, map[]) == map[log[0].key := log[0].raw]
    ensures |log| == 2 ==> Stored(log, map[]) == map[log[0].key := log[0].raw][log[1].key := log[1].raw]
  {
    if |log| == 1 {
      assert log[1..] == [];
    } else if |log| == 2 {
      var rest := log[1..];
      assert rest[0] == log[1] && rest[1..] == [];
      assert Stored(rest[1..], map[log[0].key := log[0].raw][log[1].key := log[1].raw])
          == Stored(rest, map[][log[0].key := log[0].raw]);
    }
  }

  /** What a hit carries over is found again. */
  lemma CarriedIsFound(prev: Entries, sha: Sha, key: string, disk: Disk)
    requires CollisionFree(sha) && NulFree(key) && Lookup(prev, sha, key, disk).Some?
    ensures Lookup(Stored(Carried(prev, sha, key, disk), map[]), sha, key, disk) == Lookup(prev, sha, key, disk)
  {
    hide Unmarshal, CollisionFree, NulFree, ProbedKey, Names, Stored;
    var more := Carried(prev, sha, key, disk);
    TwoStored(more);
    var probes := Peeked(prev, ProbesKey(key));
    if probes.None? {
      assert ProbesKey(key) != key;
    } else {
      ProbesKeyApart(sha, key, Names(probes.value), disk);
    }
  }

  /** Re-extraction would give what a lookup gives. */
  lemma LookupIsRight(b: Build, prev: Entries, i: nat, v: View, disk: Disk)
    requires WellBuilt(b) && AllJustified(b, prev) && i < |b.extractors| && CleanView(v)
    ensures
      var ff := Lookup(prev, b.sha, Key(b.sha, b.stamps.version, b.extractors[i].name, v), disk);
      ff.Some? ==> RunTree(b.extractors[i].extract(v), disk) == Facts(ff.value)
  {
    var e, key := b.extractors[i], Key(b.sha, b.stamps.version, b.extractors[i].name, v);
    var probes := Peeked(prev, ProbesKey(key));
    var paths := ProbePaths(prev, key);
    hide WellBuilt, CleanView, RunTree, Unmarshal, Names, Key;
    if Lookup(prev, b.sha, key, disk).Some? {
      KeyOfBuild(b, e, v, [], disk);
      ProbePathsClean(b, prev, key);
      var found := LookupKey(b, e, v, paths, disk);
      KeyOfBuild(b, e, v, paths, disk);
      assert Justified(b, found, Unmarshal(prev[found]).value);
    }
  }

  /** The paths re-checked by a lookup: those stored beside the key, or none. */
  function ProbePaths(prev: Entries, key: string): seq<string> {
    if Peeked(prev, ProbesKey(key)).None? then [] else Names(Peeked(prev, ProbesKey(key)).value)
  }

  lemma ProbePathsClean(b: Build, prev: Entries, key: string)
    requires AllJustified(b, prev) && NulFree(key)
    ensures AllClean(ProbePaths(prev, key))
  {
    hide Unmarshal, Names, Justified;
    if Peeked(prev, ProbesKey(key)).Some? {
      assert ProbesKey(key)[|key|] == NUL;
      assert !NulFree(ProbesKey(key));
    }
  }

  lemma ProbesKeyUnique(k: string, l: string)
    requires ProbesKey(k) == ProbesKey(l)
    ensures k == l
  {
    assert ProbesKey(k)[..|ProbesKey(k)| - 7] == k && ProbesKey(l)[..|ProbesKey(l)| - 7] == l;
  }

  lemma KeyOfBuild(b: Build, e: Extractor, v: View, paths: seq<string>, disk: Disk)
    requires WellBuilt(b)
    ensures NulFree(LookupKey(b, e, v, paths, disk)) && NulFree(Key(b.sha, b.stamps.version, e.name, v))
  {
    NulFreeKey(b, e, v, paths, disk);
    NulFreeKey(b, e, v, [], disk);
  }

  /** Probes made the same as stored, with the same answers: a hit. Any other answer: a miss. */
  lemma ProbedHitsExactly(prev: Entries, sha: Sha, key: string, paths: seq<string>, stored: Disk, ff: seq<StoredFact>, disk: Disk)
    requires CollisionFree(sha) && NulFree(key) && AllClean(paths) && paths != []
    requires Peeked(prev, ProbesKey(key)) == Some(NamedFacts(paths))
    requires Peeked(prev, ProbedKey(sha, key, paths, stored)) == Some(ff)
    requires forall d: Disk :: ProbedKey(sha, key, paths, d) in prev ==> ProbedKey(sha, key, paths, d) == ProbedKey(sha, key, paths, stored)
    ensures Agree(paths, stored, disk) ==> Lookup(prev, sha, key, disk) == Some(ff)
    ensures !Agree(paths, stored, disk) ==> Lookup(prev, sha, key, disk) == None
  {
    assert Names(NamedFacts(paths)) == paths;
    if Agree(paths, stored, disk) {
      SameProbes(paths, stored, disk);
    } else if ProbedKey(sha, key, paths, disk) in prev {
      ProbedKeyUnique(sha, key, paths, stored, key, paths, disk);
    }
  }
}
