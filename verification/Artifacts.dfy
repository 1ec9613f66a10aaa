/** Publishing artifacts (internal/engine/baseline.go): copies that never write through a shared
    file, and baselines that are replaced whole. */
module Artifacts {
  import opened Wrappers
  import opened Disk

  const ARTIFACT_FILES: seq<File> := [Facts, Insights, Meta, Receipt, RunMark]

  datatype Placed = Done | Missing | Failed

  function Tmp(p: Path): Path {
    Path(p.dir, TmpOf(p.file))
  }

  /** Into a new file renamed over `dst`, never through `dst`. */
  method CopyFile(fs: FileSystem, src: Path, dst: Path) returns (r: Placed)
    requires fs.Valid() && src != dst && src != Tmp(dst) && Handed(dst, fs.nextTemp)
    modifies fs`names, fs`data, fs`nextIno, fs`trace, fs`faults
    ensures fs.Valid()
    ensures fs.faults >= old(fs.faults) && (r.Failed? ==> fs.faults > old(fs.faults))
    ensures r.Done? ==> src in old(fs.Files()) && fs.Files() == (old(fs.Files()) - {Tmp(dst)})[dst := old(fs.Files())[src]]
    ensures r.Missing? ==> src !in old(fs.Files()) && fs.Files() == old(fs.Files())
    ensures r.Failed? ==> SameBut(old(fs.Files()), fs.Files(), {Tmp(dst)})
    ensures Ran(old(fs.trace), old(fs.Files()), fs.trace, fs.Files(), {dst.dir})
  {
    hide Sound, ViewOf, Ran;
    StayedPut(fs.trace, fs.Files(), {dst.dir});
    fs.Knows(src);
    if !fs.Exists(src) {
      return Missing;
    }
    var bytes := fs.Read(src);
    if bytes.None? {
      return Failed;
    }
    var copied := fs.WriteInPlace(Tmp(dst), bytes.value);
    if !copied {
      label before:
      var _ := fs.Remove(Tmp(dst));
      RanAgain(old(fs.trace), old(fs.Files()), old@before(fs.trace), old@before(fs.Files()), fs.trace, fs.Files(), {dst.dir});
      return Failed;
    }
    label written:
    fs.Knows(Tmp(dst));
    var renamed := fs.Rename(Tmp(dst), dst);
    RanAgain(old(fs.trace), old(fs.Files()), old@written(fs.trace), old@written(fs.Files()), fs.trace, fs.Files(), {dst.dir});
    r := if renamed then Done else Failed;
  }

  /** Makes `dst` the same file as `src` where links are possible, and a copy where not. */
  method LinkOrCopyFile(fs: FileSystem, src: Path, dst: Path) returns (r: Placed)
    requires fs.Valid() && src != dst && src.file == dst.file == Facts && Handed(dst, fs.nextTemp)
    modifies fs`names, fs`data, fs`nextIno, fs`trace, fs`faults
    ensures fs.Valid()
    ensures fs.faults >= old(fs.faults) && (r.Failed? ==> fs.faults > old(fs.faults))
    ensures SameBut(old(fs.Files()), fs.Files(), {dst, Tmp(dst)})
    ensures Tmp(dst) in fs.Files() && !r.Failed? ==> Tmp(dst) in old(fs.Files())
    ensures r.Done? ==> src in old(fs.Files()) && dst in fs.Files() && fs.Files()[dst] == old(fs.Files())[src]
    ensures r.Missing? ==> src !in old(fs.Files()) && (dst in fs.Files() ==> dst in old(fs.Files()))
    ensures Ran(old(fs.trace), old(fs.Files()), fs.trace, fs.Files(), {dst.dir})
    ensures r.Done? && fs.faults == old(fs.faults) ==> src in fs.names && dst in fs.names && fs.names[dst] == fs.names[src]
  {
    hide Sound, ViewOf, Ran;
    StayedPut(fs.trace, fs.Files(), {dst.dir});
    fs.Knows(dst);
    if fs.Exists(dst) {
      var removed := fs.Remove(dst);
      if !removed {
        r := CopyFile(fs, src, dst);
        return;
      }
    }
    label removed:
    var linked := fs.Link(src, dst);
    RanAgain(old(fs.trace), old(fs.Files()), old@removed(fs.trace), old@removed(fs.Files()), fs.trace, fs.Files(), {dst.dir});
    if linked {
      return Done;
    }
    label unlinked:
    r := CopyFile(fs, src, dst);
    RanAgain(old(fs.trace), old(fs.Files()), old@unlinked(fs.trace), old@unlinked(fs.Files()), fs.trace, fs.Files(), {dst.dir});
  }

  // ---- Directories ----

  ghost predicate EmptyIn(v: View, d: Dir) {
    forall f: File :: Path(d, f) !in v
  }

  /** Nothing in `d` that was not there before, and nothing of it changed. */
  ghost predicate SubsetIn(v: View, was: View, d: Dir) {
    forall f: File :: Path(d, f) in v ==> Path(d, f) in was && v[Path(d, f)] == was[Path(d, f)]
  }

  ghost predicate SameIn(v: View, was: View, d: Dir) {
    SubsetIn(v, was, d) && SubsetIn(was, v, d)
  }

  /** `d` holds exactly the first `n` artifacts that `src` had, with the bytes they had. */
  ghost predicate Holds(v: View, d: Dir, was: View, src: Dir, n: nat)
    requires n <= |ARTIFACT_FILES|
  {
    && (forall f: File :: Path(d, f) in v <==> f in ARTIFACT_FILES[..n] && Path(src, f) in was)
    && (forall f: File :: Path(d, f) in v ==> v[Path(d, f)] == was[Path(src, f)])
  }

  ghost predicate Complete(v: View, d: Dir, was: View, src: Dir) {
    Holds(v, d, was, src, |ARTIFACT_FILES|)
  }

  /** At every step `d` holds part of what it held, or all of what `src` held. */
  ghost predicate NeverMixed(t: seq<View>, u: seq<View>, d: Dir, was: View, src: Dir) {
    t <= u && forall i :: |t| <= i < |u| ==> SubsetIn(u[i], was, d) || Complete(u[i], d, was, src)
  }

  lemma NeverMixedThen(t: seq<View>, u: seq<View>, v: seq<View>, d: Dir, was: View, src: Dir)
    requires NeverMixed(t, u, d, was, src) && NeverMixed(u, v, d, was, src)
    ensures NeverMixed(t, v, d, was, src)
  {
    hide SubsetIn, Complete;
    forall i | |t| <= i < |v| ensures SubsetIn(v[i], was, d) || Complete(v[i], d, was, src) {
      if i < |u| {
        assert v[i] == u[i];
      }
    }
  }

  lemma ElsewhereIsSame(a: View, b: View, dirs: set<Dir>, d: Dir)
    requires SameElsewhere(a, b, dirs) && d !in dirs
    ensures SameIn(b, a, d)
  {
  }

  /** Steps in another directory do not mix this one. */
  lemma RanApart(t: seq<View>, a: View, u: seq<View>, b: View, dirs: set<Dir>, d: Dir, was: View, src: Dir)
    requires Ran(t, a, u, b, dirs) && d !in dirs && (SubsetIn(a, was, d) || Complete(a, d, was, src))
    ensures NeverMixed(t, u, d, was, src)
  {
    forall i | |t| <= i < |u| ensures SubsetIn(u[i], was, d) || Complete(u[i], d, was, src) {
      ElsewhereIsSame(a, u[i], dirs, d);
      SameHolds(a, u[i], d, was, src);
    }
  }

  lemma SameHolds(a: View, b: View, d: Dir, was: View, src: Dir)
    requires SameIn(b, a, d)
    ensures SubsetIn(a, was, d) ==> SubsetIn(b, was, d)
    ensures Complete(a, d, was, src) ==> Complete(b, d, was, src)
  {
  }

  lemma MixFree(t: seq<View>, d: Dir, was: View, src: Dir)
    ensures NeverMixed(t, t, d, was, src)
  {
  }

  lemma RemovedOne(v: View, p: Path, was: View, d: Dir)
    requires SubsetIn(v, was, d)
    ensures SubsetIn(v - {p}, was, d)
  {
  }

  lemma NothingStaged(v: View, d: Dir)
    requires forall p :: p in v ==> p.dir != d
    ensures EmptyIn(v, d)
  {
  }

  /** Removes the files of a directory one by one, and can stop anywhere. */
  method RemoveAll(fs: FileSystem, d: Dir) returns (ok: bool)
    requires fs.Valid()
    modifies fs`names, fs`trace, fs`faults
    ensures fs.Valid()
    ensures fs.faults >= old(fs.faults) && (!ok ==> fs.faults > old(fs.faults))
    ensures SubsetIn(fs.Files(), old(fs.Files()), d)
    ensures ok ==> EmptyIn(fs.Files(), d)
    ensures Ran(old(fs.trace), old(fs.Files()), fs.trace, fs.Files(), {d})
    ensures forall i :: |old(fs.trace)| <= i < |fs.trace| ==> SubsetIn(fs.trace[i], old(fs.Files()), d)
  {
    hide Sound, ViewOf, Ran;
    StayedPut(fs.trace, fs.Files(), {d});
    var todo := set p | p in fs.names && p.dir == d;
    fs.KnowsAll();
    ghost var start, was := fs.trace, fs.Files();
    while todo != {}
      invariant fs.Valid() && start <= fs.trace && fs.faults >= old(fs.faults)
      invariant forall p :: p in fs.Files() && p.dir == d ==> p in todo
      invariant forall p :: p in todo ==> p.dir == d
      invariant SubsetIn(fs.Files(), was, d)
      invariant Ran(start, was, fs.trace, fs.Files(), {d})
      invariant forall i :: |start| <= i < |fs.trace| ==> SubsetIn(fs.trace[i], was, d)
      decreases todo
    {
      var p :| p in todo;
      todo := todo - {p};
      ghost var t, v := fs.trace, fs.Files();
      ok := fs.Remove(p);
      RanAgain(start, was, t, v, fs.trace, fs.Files(), {d});
      RemovedOne(v, p, was, d);
      if !ok {
        return;
      }
    }
    NothingStaged(fs.Files(), d);
    ok := true;
  }

  // ---- Publishing a directory ----

  datatype Published = Swapped | StageFailed | ClearFailed | SwapFailed

  lemma HoldsNext(a: View, b: View, d: Dir, was: View, src: Dir, n: nat, r: Placed)
    requires n < |ARTIFACT_FILES| && Holds(a, d, was, src, n) && !r.Failed?
    requires
      var p := Path(d, ARTIFACT_FILES[n]);
      && SameBut(a, b, {p, Tmp(p)}) && (Tmp(p) in b ==> Tmp(p) in a)
      && (r.Done? ==> Path(src, ARTIFACT_FILES[n]) in was && p in b && b[p] == was[Path(src, ARTIFACT_FILES[n])])
      && (r.Missing? ==> Path(src, ARTIFACT_FILES[n]) !in was && (p in b ==> p in a))
    ensures Holds(b, d, was, src, n + 1)
  {
    var p := Path(d, ARTIFACT_FILES[n]);
    assert ARTIFACT_FILES[..n + 1] == ARTIFACT_FILES[..n] + [ARTIFACT_FILES[n]];
    assert p.file !in ARTIFACT_FILES[..n] && Tmp(p).file !in ARTIFACT_FILES;
    forall f: File
      ensures Path(d, f) in b <==> f in ARTIFACT_FILES[..n + 1] && Path(src, f) in was
      ensures Path(d, f) in b ==> b[Path(d, f)] == was[Path(src, f)]
    {
      if f != p.file && f != Tmp(p).file {
        assert Path(d, f) in b <==> Path(d, f) in a;
      }
    }
  }

  /** One artifact into the staging directory: a link for the facts, a copy for the rest. */
  method Place(fs: FileSystem, src: Path, dst: Path) returns (r: Placed)
    requires fs.Valid() && src.dir != dst.dir && src.file == dst.file && !src.file.TmpOf? && Handed(dst, fs.nextTemp)
    modifies fs`names, fs`data, fs`nextIno, fs`trace, fs`faults
    ensures fs.Valid()
    ensures fs.faults >= old(fs.faults) && (r.Failed? ==> fs.faults > old(fs.faults))
    ensures SameBut(old(fs.Files()), fs.Files(), {dst, Tmp(dst)})
    ensures !r.Failed? ==> Tmp(dst) in fs.Files() ==> Tmp(dst) in old(fs.Files())
    ensures r.Done? ==> src in old(fs.Files()) && dst in fs.Files() && fs.Files()[dst] == old(fs.Files())[src]
    ensures r.Missing? ==> src !in old(fs.Files()) && (dst in fs.Files() ==> dst in old(fs.Files()))
    ensures Ran(old(fs.trace), old(fs.Files()), fs.trace, fs.Files(), {dst.dir})
  {
    hide Sound, ViewOf, Ran;
    if src.file == Facts {
      r := LinkOrCopyFile(fs, src, dst);
    } else {
      r := CopyFile(fs, src, dst);
    }
  }

  method Stage(fs: FileSystem, src: Dir, tmp: Dir) returns (ok: bool)
    requires fs.Valid() && src != tmp && Handed(Path(tmp, Facts), fs.nextTemp) && EmptyIn(fs.Files(), tmp)
    modifies fs`names, fs`data, fs`nextIno, fs`trace, fs`faults
    ensures fs.Valid()
    ensures fs.faults >= old(fs.faults) && (!ok ==> fs.faults > old(fs.faults))
    ensures Ran(old(fs.trace), old(fs.Files()), fs.trace, fs.Files(), {tmp})
    ensures ok ==> Complete(fs.Files(), tmp, old(fs.Files()), src)
  {
    hide Sound, ViewOf, Ran, Holds;
    ghost var start, was := fs.trace, fs.Files();
    StayedPut(start, was, {tmp});
    HoldsNothing(was, tmp, src);
    for n := 0 to |ARTIFACT_FILES|
      invariant fs.Valid() && Ran(start, was, fs.trace, fs.Files(), {tmp}) && fs.faults >= old(fs.faults)
      invariant Holds(fs.Files(), tmp, was, src, n)
    {
      var f := ARTIFACT_FILES[n];
      ghost var t, v := fs.trace, fs.Files();
      var r := Place(fs, Path(src, f), Path(tmp, f));
      RanAgain(start, was, t, v, fs.trace, fs.Files(), {tmp});
      if r.Failed? {
        return false;
      }
      SourceKept(start, was, t, v, {tmp}, Path(src, f));
      HoldsNext(v, fs.Files(), tmp, was, src, n, r);
    }
    ok := true;
  }

  lemma HoldsNothing(v: View, d: Dir, src: Dir)
    requires EmptyIn(v, d)
    ensures Holds(v, d, v, src, 0)
  {
  }

  lemma SourceKept(t: seq<View>, a: View, u: seq<View>, b: View, dirs: set<Dir>, p: Path)
    requires Ran(t, a, u, b, dirs) && p.dir !in dirs
    ensures p in a <==> p in b
    ensures p in a ==> a[p] == b[p]
  {
  }

  lemma AllSame(v: View, d: Dir)
    ensures SubsetIn(v, v, d) && SameIn(v, v, d)
  {
  }

  lemma Apart(t: seq<View>, a: View, u: seq<View>, b: View, dirs: set<Dir>, d: Dir)
    requires Ran(t, a, u, b, dirs) && d !in dirs
    ensures SameIn(b, a, d) && SubsetIn(b, a, d)
    ensures forall was: View, src: Dir {:trigger Complete(b, d, was, src)} :: Complete(a, d, was, src) ==> Complete(b, d, was, src)
    ensures EmptyIn(a, d) ==> EmptyIn(b, d)
  {
    ElsewhereIsSame(a, b, dirs, d);
    forall was: View, src: Dir | Complete(a, d, was, src) ensures Complete(b, d, was, src) {
      SameHolds(a, b, d, was, src);
    }
  }

  lemma SubsetChain(c: View, b: View, a: View, d: Dir)
    requires SubsetIn(c, b, d) && SubsetIn(b, a, d)
    ensures SubsetIn(c, a, d)
  {
  }

  lemma MovedComplete(a: View, b: View, tmp: Dir, dst: Dir, was: View, src: Dir)
    requires MovedDir(a, b, tmp, dst) && Complete(a, tmp, was, src)
    ensures Complete(b, dst, was, src)
  {
  }

  lemma MovedRan(t: seq<View>, a: View, b: View, src: Dir, dst: Dir)
    requires MovedDir(a, b, src, dst)
    ensures Ran(t, a, t + [b], b, {dst, src})
  {
  }

  /** Clears `dst` and renames the complete staging directory over it. */
  method Swap(fs: FileSystem, dst: Dir, tmp: Dir, ghost was: View, ghost src: Dir) returns (r: Published)
    requires fs.Valid() && tmp.Staging? && !dst.Staging?
    requires Complete(fs.Files(), tmp, was, src) && SubsetIn(fs.Files(), was, dst)
    modifies fs`names, fs`trace, fs`faults
    ensures fs.Valid() && !r.StageFailed?
    ensures fs.faults >= old(fs.faults) && (!r.Swapped? ==> fs.faults > old(fs.faults))
    ensures Ran(old(fs.trace), old(fs.Files()), fs.trace, fs.Files(), {dst, tmp})
    ensures NeverMixed(old(fs.trace), fs.trace, dst, was, src)
    ensures r.Swapped? ==> Complete(fs.Files(), dst, was, src)
    ensures r.ClearFailed? ==> SubsetIn(fs.Files(), was, dst)
    ensures r.SwapFailed? ==> EmptyIn(fs.Files(), dst)
  {
    hide Sound, ViewOf, Ran, Holds, SubsetIn, EmptyIn, MovedDir;
    ghost var start, v0 := fs.trace, fs.Files();
    var cleared := RemoveAll(fs, dst);
    ghost var t1, v1 := fs.trace, fs.Files();
    RanWider(start, v0, t1, v1, {dst}, {dst, tmp});
    ClearedUnmixed(start, v0, t1, dst, was, src);
    SubsetChain(v1, v0, was, dst);
    Apart(start, v0, t1, v1, {dst}, tmp);
    if !cleared {
      return ClearFailed;
    }
    NothingIn(v1, dst);
    var renamed := fs.RenameDir(tmp, dst);
    if !renamed {
      return SwapFailed;
    }
    MovedComplete(v1, fs.Files(), tmp, dst, was, src);
    MovedRan(t1, v1, fs.Files(), tmp, dst);
    RanAgain(start, v0, t1, v1, fs.trace, fs.Files(), {dst, tmp});
    NeverMixedThen(start, t1, fs.trace, dst, was, src);
    r := Swapped;
  }

  lemma ClearedUnmixed(t: seq<View>, a: View, u: seq<View>, d: Dir, was: View, src: Dir)
    requires t <= u && SubsetIn(a, was, d) && forall i :: |t| <= i < |u| ==> SubsetIn(u[i], a, d)
    ensures NeverMixed(t, u, d, was, src)
  {
    hide SubsetIn, Complete;
    forall i | |t| <= i < |u| ensures SubsetIn(u[i], was, d) {
      SubsetChain(u[i], a, was, d);
    }
  }

  lemma NothingIn(v: View, d: Dir)
    requires EmptyIn(v, d)
    ensures forall p :: p in v ==> p.dir != d
  {
    forall p | p in v ensures p.dir != d {
      assert p == Path(p.dir, p.file);
    }
  }

  ghost predicate OutcomeIs(r: Published, v: View, d: Dir, was: View, src: Dir) {
    && (r.Swapped? ==> Complete(v, d, was, src))
    && (r.StageFailed? ==> SameIn(v, was, d))
    && (r.ClearFailed? ==> SubsetIn(v, was, d))
    && (r.SwapFailed? ==> EmptyIn(v, d))
  }

  lemma OutcomeUnmixed(r: Published, v: View, d: Dir, was: View, src: Dir)
    requires OutcomeIs(r, v, d, was, src)
    ensures SubsetIn(v, was, d) || Complete(v, d, was, src)
  {
  }

  lemma OutcomeKept(r: Published, a: View, b: View, d: Dir, was: View, src: Dir)
    requires OutcomeIs(r, a, d, was, src) && SameIn(b, a, d)
    ensures OutcomeIs(r, b, d, was, src)
  {
    SameHolds(a, b, d, was, src);
  }

  /** Publishes the artifacts of `src` as `dst`: staged beside it, then swapped in whole. */
  method CopyArtifacts(fs: FileSystem, src: Dir, dst: Dir) returns (r: Published)
    requires fs.Valid() && src != dst && !src.Staging? && !dst.Staging?
    modifies fs
    ensures fs.Valid() && fs.nextTemp >= old(fs.nextTemp)
    ensures fs.faults >= old(fs.faults) && (!r.Swapped? ==> fs.faults > old(fs.faults))
    ensures Ran(old(fs.trace), old(fs.Files()), fs.trace, fs.Files(), {dst, Staging(old(fs.nextTemp))})
    ensures NeverMixed(old(fs.trace), fs.trace, dst, old(fs.Files()), src)
    ensures OutcomeIs(r, fs.Files(), dst, old(fs.Files()), src)
  {
    hide Sound, ViewOf, Ran, Holds, NeverMixed, SubsetIn, SameIn, EmptyIn;
    ghost var start, was := fs.trace, fs.Files();
    StayedPut(start, was, {dst, Staging(fs.nextTemp)});
    MixFree(start, dst, was, src);
    AllSame(was, dst);
    var dir := fs.MkdirTemp();
    if dir.None? {
      return StageFailed;
    }
    var tmp := dir.value;
    NothingStaged(was, tmp);
    var staged := Stage(fs, src, tmp);
    ghost var t1, v1 := fs.trace, fs.Files();
    RanApart(start, was, t1, v1, {tmp}, dst, was, src);
    Apart(start, was, t1, v1, {tmp}, dst);
    RanWider(start, was, t1, v1, {tmp}, {dst, tmp});
    if !staged {
      r := StageFailed;
    } else {
      r := Swap(fs, dst, tmp, was, src);
      NeverMixedThen(start, t1, fs.trace, dst, was, src);
      RanAgain(start, was, t1, v1, fs.trace, fs.Files(), {dst, tmp});
    }
    ghost var t2, v2 := fs.trace, fs.Files();
    OutcomeUnmixed(r, v2, dst, was, src);
    var _ := RemoveAll(fs, tmp);
    RanWider(t2, v2, fs.trace, fs.Files(), {tmp}, {dst, tmp});
    RanAgain(start, was, t2, v2, fs.trace, fs.Files(), {dst, tmp});
    RanApart(t2, v2, fs.trace, fs.Files(), {tmp}, dst, was, src);
    NeverMixedThen(start, t2, fs.trace, dst, was, src);
    Apart(t2, v2, fs.trace, fs.Files(), {tmp}, dst);
    OutcomeKept(r, v2, fs.Files(), dst, was, src);
  }
}
