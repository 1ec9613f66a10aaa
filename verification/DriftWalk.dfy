/** The drift walk and the report made from it (internal/engine/drift.go), alone and over a
    tree that holds still. Each step it takes is an event of the machine in `Drift`. */
module DriftWalk {
  import opened Wrappers
  import opened Text
  import opened Bags
  import opened Slices
  import opened Drift

  function Join(repo: string, rel: string): string {
    repo + "/" + rel
  }

  /** The hash of every listed file that can be read. */
  function TreeHashes(env: Env, w: World, repo: string, files: seq<string>): map<string, string> {
    map rel | rel in files && HashAt(env, w, Join(repo, rel)).Some? :: HashAt(env, w, Join(repo, rel)).value
  }

  /** `v` comes after `w` with nothing changed on disk. */
  ghost predicate Quiet(w: World, v: World) {
    v.names == w.names && v.inodes == w.inodes && v.walks == map[] && w.now <= v.now
  }

  /** The walk answers for this path without reading it. */
  ghost predicate Trusted(env: Env, w: World, memo: Memo, path: string) {
    HashAt(env, w, path).Some? ==> KnownIn(memo, path, InfoOf(env, w.names[path], w.inodes[w.names[path]])).Some?
  }

  ghost predicate SettledAt(env: Env, w: World, path: string) {
    HashAt(env, w, path).Some? ==> Settled(w.now, InfoOf(env, w.names[path], w.inodes[w.names[path]]))
  }

  lemma ReadIsTrusted(env: Env, w: World, memo: Memo, path: string, hash: string, v: World)
    requires Quiet(w, v) && HashAt(env, w, path).Some?
    ensures
      var after := Remembered(memo, path, InfoOf(env, w.names[path], w.inodes[w.names[path]]), hash, v.now);
      && (SettledAt(env, w, path) ==> Trusted(env, v, after, path))
      && forall p :: Trusted(env, w, memo, p) ==> Trusted(env, v, after, p)
  {
  }

  lemma TrustedStill(env: Env, w: World, v: World, memo: Memo)
    requires Quiet(w, v)
    ensures forall p :: Trusted(env, w, memo, p) <==> Trusted(env, v, memo, p)
    ensures forall p :: SettledAt(env, w, p) ==> SettledAt(env, v, p)
  {
  }

  class Clock {
    var now: int

    constructor (t: int)
      ensures now == t
    {
      now := t;
    }

    /** Time passes, but no more than `most`. */
    method Wait(most: int)
      requires most >= 0
      modifies this
      ensures old(now) <= now <= old(now) + most
    {
      var step: nat :| step <= most;
      now := now + step;
    }
  }

  class DriftMemo {
    var files: Memo

    /** How many files have been read. */
    var readCount: nat

    constructor ()
      ensures files == map[] && readCount == 0
    {
      files, readCount := map[], 0;
    }

    method Known(path: string, info: Info) returns (hash: Option<string>)
      ensures hash == KnownIn(files, path, info)
    {
      if info.stamp.None? || path !in files {
        return None;
      }
      var h := files[path];
      if h.size != info.size || h.mtime != info.mtime || h.stamp != info.stamp.value {
        return None;
      }
      return Some(h.hash);
    }

    method Remember(path: string, info: Info, hash: string, now: int)
      modifies this`files
      ensures files == Remembered(old(files), path, info, hash, now)
    {
      if info.stamp.None? {
        return;
      }
      if now - info.mtime < RACY_WINDOW || now - info.stamp.value.ctime < RACY_WINDOW {
        return;
      }
      files := files[path := HashedFile(info.size, info.mtime, info.stamp.value, hash)];
    }

    /** The rest of the walk of one file, once its hash turned out not to be known. */
    method HashUnknown(env: Env, clock: Clock, ghost w: World, path: string, info: Info, file: Inode)
      returns (hash: Option<string>, ghost v: World)
      requires Inv(env, w) && Timely(env) && env.delay >= 0
      requires w.walks.Keys == {0} && w.walks[0].Missed? && w.walks[0].path == path && w.walks[0].info == info
      requires HashAt(env, w, path) == if file.readable then Some(env.hash(file.bytes)) else None
      requires w.memo == files && w.now == clock.now
      modifies this, clock
      ensures hash == HashAt(env, w, path)
      ensures Inv(env, v) && Quiet(w, v) && v.memo == files && v.now == clock.now
      ensures readCount == if hash.Some? then old(readCount) + 1 else old(readCount)
      ensures files == if hash.Some? then Remembered(old(files), path, info, hash.value, v.now) else old(files)
    {
      hide Inv, Fits, KnownIn, Remembered, Timely, Watch, InWindow, HashAt;
      hash, v := None, w;
      if !file.readable {
        v := Step(env, v, GiveUp(0));
        assert v.walks == map[];
        return;
      }
      hash := Some(env.hash(file.bytes));
      v := Step(env, v, Read(0));
      clock.Wait(env.delay);
      assert v.walks == map[0 := v.walks[0]];
      WatchOne(env, v.(now := clock.now), v.walks[0], HashAt(env, v.(now := clock.now), path));
      v := Step(env, v, Tick(clock.now));
      readCount := readCount + 1;
      Remember(path, info, hash.value, clock.now);
      v := Step(env, v, Event.Remember(0));
      v := Step(env, v, Done(0));
      assert v.walks == map[];
    }

    /** One file of the walk. The answer is what hashing the file would give, whether it was
        read or remembered. */
    method HashOne(env: Env, clock: Clock, ghost w: World, path: string, names: map<string, Id>, inodes: map<Id, Inode>)
      returns (hash: Option<string>, ghost v: World)
      requires Inv(env, w) && Timely(env) && env.delay >= 0 && w.walks == map[]
      requires w.names == names && w.inodes == inodes && w.memo == files && w.now == clock.now
      modifies this, clock
      ensures hash == HashAt(env, w, path)
      ensures Inv(env, v) && Quiet(w, v) && v.memo == files && v.now == clock.now
      ensures readCount == if Trusted(env, w, old(files), path) then old(readCount) else old(readCount) + 1
      ensures Trusted(env, w, old(files), path) ==> files == old(files)
      ensures SettledAt(env, w, path) ==> Trusted(env, v, files, path)
      ensures forall p :: Trusted(env, w, old(files), p) ==> Trusted(env, v, files, p)
    {
      hide Inv, Fits, KnownIn, Remembered, Timely, Watch, InWindow;
      v := w;
      if path !in names || names[path] !in inodes {
        return None, v;
      }
      var file := inodes[names[path]];
      var info := InfoOf(env, names[path], file);
      v := Step(env, v, Stat(0, path));
      hash := Known(path, info);
      v := Step(env, v, Look(0));
      if hash.Some? {
        AnswerHeld(env, v, 0);
        v := Step(env, v, Done(0));
        assert v.walks == map[];
        return;
      }
      hash, v := HashUnknown(env, clock, v, path, info, file);
      if hash.Some? {
        ReadIsTrusted(env, w, old(files), path, hash.value, v);
      }
    }

    /** The walk gives the hashes it would give by reading every file, and leaves a memo that
        will still be right however the files change afterwards. */
    method DriftHashes(env: Env, clock: Clock, ghost w: World, repo: string, walked: seq<string>,
                       names: map<string, Id>, inodes: map<Id, Inode>)
      returns (hashes: map<string, string>, ghost v: World)
      requires Inv(env, w) && Timely(env) && env.delay >= 0 && w.walks == map[]
      requires w.names == names && w.inodes == inodes && w.memo == files && w.now == clock.now
      modifies this, clock
      ensures hashes == TreeHashes(env, w, repo, walked)
      ensures Inv(env, v) && Quiet(w, v) && v.memo == files && v.now == clock.now
      ensures old(readCount) <= readCount <= old(readCount) + |walked|
      ensures (forall rel :: rel in walked ==> Trusted(env, w, old(files), Join(repo, rel))) ==>
        readCount == old(readCount) && files == old(files)
      ensures forall rel :: rel in walked && SettledAt(env, w, Join(repo, rel)) ==> Trusted(env, v, files, Join(repo, rel))
      ensures forall p :: Trusted(env, w, old(files), p) ==> Trusted(env, v, files, p)
    {
      hide Inv, Timely, HashAt, Join, Trusted, SettledAt;
      hashes, v := map[], w;
      for i := 0 to |walked|
        invariant hashes == TreeHashes(env, w, repo, walked[..i])
        invariant Inv(env, v) && Quiet(w, v) && v.memo == files && v.now == clock.now
        invariant old(readCount) <= readCount <= old(readCount) + i
        invariant (forall rel :: rel in walked ==> Trusted(env, w, old(files), Join(repo, rel))) ==>
          readCount == old(readCount) && files == old(files)
        invariant forall j :: 0 <= j < i && SettledAt(env, w, Join(repo, walked[j])) ==> Trusted(env, v, files, Join(repo, walked[j]))
        invariant forall p :: Trusted(env, w, old(files), p) ==> Trusted(env, v, files, p)
      {
        var hash;
        TrustedStill(env, w, v, old(files));
        TrustedStill(env, w, v, files);
        SameTree(env, w, v, Join(repo, walked[i]));
        hash, v := HashOne(env, clock, v, Join(repo, walked[i]), names, inodes);
        TreeSnoc(env, w, repo, walked[..i], walked[i]);
        TakeSnoc(walked, i + 1);
        if hash.Some? {
          hashes := hashes[walked[i] := hash.value];
        }
      }
      TakeAll(walked);
    }
  }

  lemma SameTree(env: Env, w: World, v: World, path: string)
    requires Quiet(w, v)
    ensures HashAt(env, v, path) == HashAt(env, w, path)
  {
  }

  lemma TreeSnoc(env: Env, w: World, repo: string, files: seq<string>, rel: string)
    ensures
      var h := HashAt(env, w, Join(repo, rel));
      TreeHashes(env, w, repo, files + [rel]) ==
        if h.Some? then TreeHashes(env, w, repo, files)[rel := h.value] else TreeHashes(env, w, repo, files)
  {
    hide HashAt, Join;
  }

  lemma Step(env: Env, w: World, e: Event) returns (v: World)
    requires Inv(env, w) && Timely(env) && Enabled(env, w, e)
    ensures v == Next(env, w, e) && Inv(env, v)
  {
    hide Inv, Next, Enabled, Timely;
    StepKeeps(env, w, e);
    v := Next(env, w, e);
  }

  lemma AnswerHeld(env: Env, w: World, k: nat)
    requires Inv(env, w) && k in w.walks && w.walks[k].Answered?
    ensures w.walks[k].hash in w.walks[k].held
  {
    assert WalkFits(env, w, w.walks[k]);
  }

  // ---- The report ----

  datatype FileHash = FileHash(path: string, hash: string)

  datatype Meta = Meta(fileHashes: seq<FileHash>, ignoreGlobHash: string)

  datatype Report =
    | Unknown
    | WalkFailed
    | Moved(added: seq<string>, removed: seq<string>, modified: seq<string>)

  function Recorded(fhs: seq<FileHash>): map<string, string> {
    if fhs == [] then map[]
    else Recorded(fhs[..|fhs| - 1])[fhs[|fhs| - 1].path := fhs[|fhs| - 1].hash]
  }

  /** The recorded hash of a path is the last one listed for it. */
  lemma {:induction false} RecordedMeans(fhs: seq<FileHash>, p: string, h: string)
    ensures p in Recorded(fhs) && Recorded(fhs)[p] == h <==>
      exists i :: 0 <= i < |fhs| && fhs[i] == FileHash(p, h) && forall j :: i < j < |fhs| ==> fhs[j].path != p
    decreases |fhs|
  {
    if fhs != [] {
      var n := |fhs| - 1;
      RecordedMeans(fhs[..n], p, h);
      if fhs[n].path != p {
        if i :| 0 <= i < n && fhs[..n][i] == FileHash(p, h) && forall j :: i < j < n ==> fhs[..n][j].path != p {
          assert fhs[i] == FileHash(p, h) && forall j :: i < j < |fhs| ==> fhs[j].path != p;
        }
        if i :| 0 <= i < |fhs| && fhs[i] == FileHash(p, h) && forall j :: i < j < |fhs| ==> fhs[j].path != p {
          assert fhs[..n][i] == FileHash(p, h) && forall j :: i < j < n ==> fhs[..n][j].path != p;
        }
      } else {
        assert fhs[n] == FileHash(p, fhs[n].hash);
      }
    }
  }

  /** Listed in order, each path once. */
  ghost predicate Lists(paths: seq<string>, s: set<string>) {
    && SortedStrings(paths)
    && (forall p :: p in paths <==> p in s)
    && multiset(paths) == multiset(s)
  }

  function AddedPaths(before: map<string, string>, now: map<string, string>): set<string> {
    now.Keys - before.Keys
  }

  function ModifiedPaths(before: map<string, string>, now: map<string, string>): set<string> {
    set p | p in now && p in before && before[p] != now[p]
  }

  ghost predicate Reports(r: Report, before: map<string, string>, now: map<string, string>) {
    && r.Moved?
    && Lists(r.added, AddedPaths(before, now))
    && Lists(r.removed, AddedPaths(now, before))
    && Lists(r.modified, ModifiedPaths(before, now))
  }

  method SortPaths(paths: seq<string>, ghost s: set<string>) returns (sorted: seq<string>)
    requires multiset(paths) == multiset(s)
    ensures Lists(sorted, s)
  {
    sorted := SortSlice(paths, (x: string) => x);
    forall p ensures p in sorted <==> p in s {
      assert p in multiset(sorted) <==> p in multiset(s);
    }
  }

  /** What the loop over the current hashes has to have sorted into its lists so far. */
  ghost predicate Split(before: map<string, string>, now: map<string, string>, todo: set<string>,
                        added: seq<string>, modified: seq<string>) {
    && multiset(added) == multiset(AddedPaths(before, now) - todo)
    && multiset(modified) == multiset(ModifiedPaths(before, now) - todo)
  }

  lemma VisitStep<T>(all: set<T>, todo: set<T>, xs: seq<T>, x: T)
    requires multiset(xs) == multiset(all - todo) && x in todo
    ensures multiset(if x in all then xs + [x] else xs) == multiset(all - (todo - {x}))
  {
    if x in all {
      assert all - (todo - {x}) == all - todo + {x};
    } else {
      assert all - (todo - {x}) == all - todo;
    }
  }

  lemma SplitStep(before: map<string, string>, now: map<string, string>, todo: set<string>,
                  added: seq<string>, modified: seq<string>, p: string)
    requires Split(before, now, todo, added, modified) && p in todo && p in now
    ensures Split(before, now, todo - {p},
                  if p !in before then added + [p] else added,
                  if p in before && before[p] != now[p] then modified + [p] else modified)
  {
    assert p in AddedPaths(before, now) <==> p !in before;
    assert p in ModifiedPaths(before, now) <==> p in before && before[p] != now[p];
    hide AddedPaths, ModifiedPaths;
    VisitStep(AddedPaths(before, now), todo, added, p);
    VisitStep(ModifiedPaths(before, now), todo, modified, p);
  }

  method Compare(before: map<string, string>, now: map<string, string>) returns (r: Report)
    ensures Reports(r, before, now)
  {
    hide Split, Lists;
    var added, removed, modified := [], [], [];
    var todo := now.Keys;
    SplitAll(before, now);
    while todo != {}
      invariant todo <= now.Keys && Split(before, now, todo, added, modified)
      decreases todo
    {
      var p :| p in todo;
      SplitStep(before, now, todo, added, modified, p);
      todo := todo - {p};
      if p !in before {
        added := added + [p];
      } else if before[p] != now[p] {
        modified := modified + [p];
      }
    }
    todo := before.Keys;
    SplitAll(now, before);
    ghost var both := [];
    while todo != {}
      invariant todo <= before.Keys && Split(now, before, todo, removed, both)
      decreases todo
    {
      var p :| p in todo;
      SplitStep(now, before, todo, removed, both, p);
      todo := todo - {p};
      if p !in now {
        removed := removed + [p];
      } else if before[p] != now[p] {
        both := both + [p];
      }
    }
    SplitDone(before, now, added, modified);
    SplitDone(now, before, removed, both);
    added := SortPaths(added, AddedPaths(before, now));
    removed := SortPaths(removed, AddedPaths(now, before));
    modified := SortPaths(modified, ModifiedPaths(before, now));
    r := Moved(added, removed, modified);
  }

  lemma SplitAll(before: map<string, string>, now: map<string, string>)
    ensures Split(before, now, now.Keys, [], [])
  {
    assert AddedPaths(before, now) - now.Keys == {} && ModifiedPaths(before, now) - now.Keys == {};
  }

  lemma SplitDone(before: map<string, string>, now: map<string, string>, added: seq<string>, modified: seq<string>)
    requires Split(before, now, {}, added, modified)
    ensures multiset(added) == multiset(AddedPaths(before, now))
    ensures multiset(modified) == multiset(ModifiedPaths(before, now))
  {
    assert AddedPaths(before, now) - {} == AddedPaths(before, now);
    assert ModifiedPaths(before, now) - {} == ModifiedPaths(before, now);
  }

  method RecordedHashes(fhs: seq<FileHash>) returns (recorded: map<string, string>)
    ensures recorded == Recorded(fhs)
  {
    recorded := map[];
    for i := 0 to |fhs|
      invariant recorded == Recorded(fhs[..i])
    {
      TakeSnoc(fhs, i + 1);
      recorded := recorded[fhs[i].path := fhs[i].hash];
    }
    TakeAll(fhs);
  }

  /** `walked`: what the walk of the repository lists, if it succeeds. */
  method DriftFromMeta(env: Env, clock: Clock, memo: DriftMemo, ghost w: World, repo: string, meta: Meta, globHash: string,
                       walked: Option<seq<string>>, names: map<string, Id>, inodes: map<Id, Inode>)
    returns (r: Report, ghost v: World)
    requires Inv(env, w) && Timely(env) && env.delay >= 0 && w.walks == map[]
    requires w.names == names && w.inodes == inodes && w.memo == memo.files && w.now == clock.now
    modifies memo, clock
    ensures Inv(env, v) && Quiet(w, v) && v.memo == memo.files && v.now == clock.now
    ensures r.Unknown? <==> Recorded(meta.fileHashes) == map[] || (meta.ignoreGlobHash != "" && meta.ignoreGlobHash != globHash)
    ensures r.WalkFailed? <==> !r.Unknown? && walked.None?
    ensures r.Moved? ==> Reports(r, Recorded(meta.fileHashes), TreeHashes(env, w, repo, walked.value))
  {
    hide Inv, Timely, Reports, TreeHashes, Recorded;
    v := w;
    var recorded := RecordedHashes(meta.fileHashes);
    if |recorded| == 0 {
      return Unknown, v;
    }
    if meta.ignoreGlobHash != "" && meta.ignoreGlobHash != globHash {
      return Unknown, v;
    }
    if walked.None? {
      return WalkFailed, v;
    }
    var current;
    current, v := memo.DriftHashes(env, clock, w, repo, walked.value, names, inodes);
    r := Compare(recorded, current);
    ReportIsMoved(r, recorded, current);
  }

  lemma ReportIsMoved(r: Report, before: map<string, string>, now: map<string, string>)
    requires Reports(r, before, now)
    ensures r.Moved?
  {
  }

  /** The content of a listed file that can be read. */
  function Content(w: World, path: string): Option<Bytes> {
    if path in w.names && w.names[path] in w.inodes && w.inodes[w.names[path]].readable
    then Some(w.inodes[w.names[path]].bytes) else None
  }

  function Held(w: World, repo: string, files: seq<string>, rel: string): Option<Bytes> {
    if rel in files then Content(w, repo + "/" + rel) else None
  }

  ghost predicate CollisionFree(env: Env) {
    forall a: Bytes, b: Bytes :: env.hash(a) == env.hash(b) ==> a == b
  }

  /** Against the hashes recorded from an earlier tree, the report names exactly the files whose
      bytes appeared, disappeared or changed. */
  lemma ReportIsExact(env: Env, r: Report, earlier: World, later: World, repo: string, filesThen: seq<string>, filesNow: seq<string>)
    requires CollisionFree(env)
    requires Reports(r, TreeHashes(env, earlier, repo, filesThen), TreeHashes(env, later, repo, filesNow))
    ensures forall p :: p in r.added <==> Held(earlier, repo, filesThen, p).None? && Held(later, repo, filesNow, p).Some?
    ensures forall p :: p in r.removed <==> Held(earlier, repo, filesThen, p).Some? && Held(later, repo, filesNow, p).None?
    ensures forall p :: p in r.modified <==>
      && Held(earlier, repo, filesThen, p).Some? && Held(later, repo, filesNow, p).Some?
      && Held(earlier, repo, filesThen, p) != Held(later, repo, filesNow, p)
    ensures r.added == r.removed == r.modified == [] <==> forall p :: Held(earlier, repo, filesThen, p) == Held(later, repo, filesNow, p)
  {
    var a, b := TreeHashes(env, earlier, repo, filesThen), TreeHashes(env, later, repo, filesNow);
    hide Held, TreeHashes, Lists;
    forall p
      ensures p in r.added <==> Held(earlier, repo, filesThen, p).None? && Held(later, repo, filesNow, p).Some?
      ensures p in r.removed <==> Held(earlier, repo, filesThen, p).Some? && Held(later, repo, filesNow, p).None?
      ensures p in r.modified <==>
        && Held(earlier, repo, filesThen, p).Some? && Held(later, repo, filesNow, p).Some?
        && Held(earlier, repo, filesThen, p) != Held(later, repo, filesNow, p)
    {
      TreeHolds(env, earlier, repo, filesThen, p);
      TreeHolds(env, later, repo, filesNow, p);
      Listed(r.added, AddedPaths(a, b), p);
      Listed(r.removed, AddedPaths(b, a), p);
      Listed(r.modified, ModifiedPaths(a, b), p);
    }
    hide *;
    if r.added == r.removed == r.modified == [] {
      forall p ensures Held(earlier, repo, filesThen, p) == Held(later, repo, filesNow, p) {
        assert p !in r.added && p !in r.removed && p !in r.modified;
      }
    } else {
      var all := r.added + r.removed + r.modified;
      assert all[0] in r.added || all[0] in r.removed || all[0] in r.modified;
    }
  }

  lemma TreeHolds(env: Env, w: World, repo: string, files: seq<string>, p: string)
    ensures p in TreeHashes(env, w, repo, files) <==> Held(w, repo, files, p).Some?
    ensures p in TreeHashes(env, w, repo, files) ==>
      TreeHashes(env, w, repo, files)[p] == env.hash(Held(w, repo, files, p).value)
  {
  }

  lemma Listed(paths: seq<string>, s: set<string>, p: string)
    requires Lists(paths, s)
    ensures p in paths <==> p in s
  {
  }
}
