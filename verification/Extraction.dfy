/** Extraction with and without the cache (runExtractors in internal/engine/engine.go, and the
    adaptive probes of internal/engine/cache.go). An extractor is a function of the view its key
    is computed from and of whether the paths it probes exist. */
module Extraction {
  import opened Wrappers
  import opened Text
  import opened Bags
  import opened Slices
  import opened Spool
  import opened SpoolLaws
  import opened Cache
  import opened Keys

  datatype Outcome = Facts(facts: seq<StoredFact>) | Failed(msg: string) | Fatal(msg: string)

  /** What an extractor does once its view is fixed: which path it looks for next depends on
      what it found so far. */
  datatype Tree = Leaf(outcome: Outcome) | Probe(path: string, present: Tree, absent: Tree)

  function RunTree(t: Tree, disk: Disk): Outcome {
    match t
    case Leaf(o) => o
    case Probe(p, yes, no) => RunTree(if disk(p) then yes else no, disk)
  }

  function Probed(t: Tree, disk: Disk): set<string> {
    match t
    case Leaf(_) => {}
    case Probe(p, yes, no) => {p} + Probed(if disk(p) then yes else no, disk)
  }

  predicate CleanTree(t: Tree) {
    match t
    case Leaf(_) => true
    case Probe(p, yes, no) => NulFree(p) && CleanTree(yes) && CleanTree(no)
  }

  /** The facts depend on the disk only through the probes that were made. */
  lemma {:induction false} SameAnswersSameFacts(t: Tree, d: Disk, e: Disk)
    requires forall p :: p in Probed(t, d) ==> d(p) == e(p)
    ensures RunTree(t, e) == RunTree(t, d) && Probed(t, e) == Probed(t, d)
  {
    if t.Probe? {
      assert t.path in Probed(t, d);
      SameAnswersSameFacts(if d(t.path) then t.present else t.absent, d, e);
    }
  }

  lemma {:induction false} ProbesClean(t: Tree, d: Disk)
    requires CleanTree(t)
    ensures forall p :: p in Probed(t, d) ==> NulFree(p)
  {
    if t.Probe? {
      ProbesClean(if d(t.path) then t.present else t.absent, d);
    }
  }

  /** The paths an extractor looked for (pkg/plugin/diskprobes.go). */
  class DiskProbes {
    var paths: set<string>

    constructor ()
      ensures paths == {}
    {
      paths := {};
    }

    method Record(p: string)
      modifies this
      ensures paths == old(paths) + {p}
    {
      paths := paths + {p};
    }

    method Paths() returns (r: seq<string>)
      ensures forall p :: p in r <==> p in paths
      ensures SortedStrings(r) && |r| == |paths|
    {
      r := [];
      var todo := paths;
      while todo != {}
        invariant todo <= paths && |r| == |paths| - |todo|
        invariant forall p :: p in r <==> p in paths && p !in todo
        decreases todo
      {
        var p :| p in todo;
        todo := todo - {p};
        r := r + [p];
      }
      var sorted := SortSlice(r, (x: string) => x);
      SameLength(sorted, r);
      forall p ensures p in sorted <==> p in r {
        assert p in multiset(sorted) <==> p in multiset(r);
      }
      r := sorted;
    }
  }

  method Extract(tree: Tree, disk: Disk, probes: DiskProbes) returns (o: Outcome)
    modifies probes
    ensures o == RunTree(tree, disk)
    ensures probes.paths == old(probes.paths) + Probed(tree, disk)
  {
    var t := tree;
    while t.Probe?
      invariant RunTree(t, disk) == RunTree(tree, disk)
      invariant probes.paths + Probed(t, disk) == old(probes.paths) + Probed(tree, disk)
      decreases t
    {
      probes.Record(t.path);
      t := if disk(t.path) then t.present else t.absent;
    }
    o := t.outcome;
  }

  // ---- Builds and repositories ----

  datatype Extractor = Extractor(name: string, owner: Option<Owner>, extract: View -> Tree)

  /** A binary: its version, its identity, and the extractors it registers. */
  datatype Build = Build(sha: Sha, stamps: Stamps, extractors: seq<Extractor>)

  ghost predicate WellBuilt(b: Build) {
    && CollisionFree(b.sha) && NulFree(b.stamps.version) && (forall s: string :: b.sha(s) != b.stamps.version)
    && (forall i, j :: 0 <= i < j < |b.extractors| ==> b.extractors[i].name != b.extractors[j].name)
    && (forall i :: 0 <= i < |b.extractors| ==> NulFree(b.extractors[i].name))
    && (forall i, v: View :: 0 <= i < |b.extractors| ==> CleanTree(b.extractors[i].extract(v)))
  }

  datatype Detection = Yes | No | Broken(msg: string)

  /** A repository and its configuration when a snapshot is taken. `unkeyed`: what the extractors
      without a key do there. */
  datatype Repo = Repo(
    files: seq<string>, hashes: map<string, string>, disk: Disk,
    enabled: string -> bool, explicit: bool, detect: string -> Detection, unkeyed: string -> Outcome)

  predicate CleanRepo(r: Repo) {
    && (forall i :: 0 <= i < |r.files| ==> NulFree(r.files[i]))
    && (forall p :: p in r.hashes ==> NulFree(r.hashes[p]))
  }

  function OwnersOf(es: seq<Extractor>): Owners {
    if es == [] then map[]
    else
      var e := es[|es| - 1];
      if e.owner.Some? then OwnersOf(es[..|es| - 1])[e.name := e.owner.value] else OwnersOf(es[..|es| - 1])
  }

  function ViewIn(b: Build, r: Repo, e: Extractor): View
    requires e.owner.Some?
  {
    ViewOf(OwnersOf(b.extractors), e.owner.value, r.files, r.hashes)
  }

  /** What running an extractor gives, cache or no cache. */
  function OutcomeIn(b: Build, r: Repo, e: Extractor): Outcome {
    if e.owner.Some? then RunTree(e.extract(ViewIn(b, r, e)), r.disk) else r.unkeyed(e.name)
  }

  datatype Extracted = Ran(facts: seq<StoredFact>, used: seq<string>, shadowed: seq<string>, errors: seq<(string, string)>)
                     | Aborted(name: string, msg: string)

  /** One extractor, run for itself. */
  function RunOne(b: Build, r: Repo, e: Extractor, p: Extracted): Extracted
    requires p.Ran?
  {
    if !r.enabled(e.name) then
      if r.explicit && r.detect(e.name).Yes? then p.(shadowed := p.shadowed + [e.name]) else p
    else
      match r.detect(e.name)
      case Broken(msg) => p.(errors := p.errors + [(e.name, "detect: " + msg)])
      case No => p
      case Yes =>
        match OutcomeIn(b, r, e)
        case Facts(ff) => p.(facts := p.facts + ff, used := p.used + [e.name])
        case Failed(msg) => p.(errors := p.errors + [(e.name, msg)])
        case Fatal(msg) => Aborted(e.name, msg)
  }

  /** The first `n` extractors, each run for itself. */
  function RunFirst(b: Build, r: Repo, n: nat): Extracted
    requires n <= |b.extractors|
  {
    if n == 0 then Ran([], [], [], [])
    else
      var p := RunFirst(b, r, n - 1);
      if p.Aborted? then p else RunOne(b, r, b.extractors[n - 1], p)
  }

  /** A snapshot's extraction without a cache. */
  function RunAll(b: Build, r: Repo): Extracted {
    RunFirst(b, r, |b.extractors|)
  }
}
