/** Writing a snapshot (WriteArtifacts and writeFactsJSONL in internal/engine/engine.go) and
    pinning a baseline (internal/engine/baseline.go). */
module Writing {
  import opened Wrappers
  import opened Disk
  import opened Artifacts

  /** A published store, by identity: it never changes once it is published. */
  type Store = nat

  datatype Bundle = Bundle(store: Store, artifacts: seq<(string, Bytes)>, insights: Bytes)

  type Digests = map<File, string>

  /** How things are written down. A document that carries the digests is a function of them. */
  datatype Formats = Formats(serialize: Store -> Bytes, digest: Bytes -> string, meta: Digests -> Bytes, receipt: Digests -> Bytes)

  datatype LastFacts = LastFacts(store: Store, path: Path, digest: string)

  /** The remembered write, if its file is still there, is the serialization of its store. */
  ghost predicate LastRight(fm: Formats, last: Option<LastFacts>, v: View) {
    last.Some? ==>
      && last.value.path.dir.Out? && last.value.path.file == Facts
      && last.value.digest == fm.digest(fm.serialize(last.value.store))
      && (last.value.path in v ==> v[last.value.path] == fm.serialize(last.value.store))
  }

  /** Every recorded digest is that of the bytes under its name. */
  ghost predicate Recorded(fm: Formats, hashes: Digests, v: View, out: Dir) {
    forall f :: f in hashes ==> Path(out, f) in v && fm.digest(v[Path(out, f)]) == hashes[f]
  }

  ghost predicate Hashable(hashes: Digests) {
    forall f :: f in hashes ==> f == Facts || f == Insights || f.Rendered?
  }

  lemma RecordedNext(fm: Formats, hashes: Digests, v: View, out: Dir, f: File, bytes: Bytes)
    requires Recorded(fm, hashes, v, out)
    ensures Recorded(fm, hashes[f := fm.digest(bytes)], v[Path(out, f) := bytes], out)
  {
  }

  lemma RecordedStill(fm: Formats, hashes: Digests, a: View, b: View, out: Dir, paths: set<Path>)
    requires Recorded(fm, hashes, a, out) && SameBut(a, b, paths)
    requires forall f :: f in hashes ==> Path(out, f) !in paths
    ensures Recorded(fm, hashes, b, out)
  {
  }

  lemma LastStill(fm: Formats, last: Option<LastFacts>, a: View, b: View, paths: set<Path>)
    requires LastRight(fm, last, a) && SameBut(a, b, paths)
    requires forall p :: p in paths ==> p.file != Facts || !p.dir.Out? || (last.Some? && p != last.value.path)
    ensures LastRight(fm, last, b)
  {
  }

  lemma LastElsewhere(fm: Formats, last: Option<LastFacts>, a: View, b: View, dirs: set<Dir>)
    requires LastRight(fm, last, a) && SameElsewhere(a, b, dirs) && forall d :: d in dirs ==> !d.Out?
    ensures LastRight(fm, last, b)
  {
  }

  lemma RanSame(t: seq<View>, a: View, u: seq<View>, b: View, dirs: set<Dir>)
    requires Ran(t, a, u, b, dirs)
    ensures SameElsewhere(a, b, dirs)
  {
  }

  /** writeFileAtomic: a new temporary file renamed into place. */
  method WriteMark(fs: FileSystem, p: Path, bytes: Bytes) returns (ok: bool)
    requires fs.Valid() && !p.dir.Staging? && !p.file.Unique? && !p.file.TmpOf? && p.file != Facts
    modifies fs
    ensures fs.Valid() && fs.nextTemp >= old(fs.nextTemp)
    ensures fs.faults >= old(fs.faults) && (!ok ==> fs.faults > old(fs.faults))
    ensures exists n :: SameBut(old(fs.Files()), fs.Files(), {p, Path(p.dir, Unique(n))})
    ensures ok ==> fs.Files() == old(fs.Files())[p := bytes]
    ensures Ran(old(fs.trace), old(fs.Files()), fs.trace, fs.Files(), {p.dir})
  {
    hide Sound, ViewOf, Ran;
    StayedPut(fs.trace, fs.Files(), {p.dir});
    ghost var start, was := fs.trace, fs.Files();
    var tmp := fs.CreateTemp(p.dir);
    if tmp.None? {
      assert SameBut(was, fs.Files(), {p, Path(p.dir, Unique(0))});
      return false;
    }
    ok := fs.WriteInPlace(tmp.value, bytes);
    ghost var t1, v1 := fs.trace, fs.Files();
    if ok {
      fs.Knows(tmp.value);
      ok := fs.Rename(tmp.value, p);
      RanAgain(start, was, t1, v1, fs.trace, fs.Files(), {p.dir});
    }
    ghost var t2, v2 := fs.trace, fs.Files();
    if !ok {
      var _ := fs.Remove(tmp.value);
      RanAgain(start, was, t2, v2, fs.trace, fs.Files(), {p.dir});
    }
    assert SameBut(was, fs.Files(), {p, Path(p.dir, Unique(tmp.value.file.n))});
  }

  method RotatePrevious(fs: FileSystem, repo: string) returns (r: Option<Published>)
    requires fs.Valid()
    modifies fs
    ensures fs.Valid() && fs.nextTemp >= old(fs.nextTemp)
    ensures fs.faults >= old(fs.faults) && (r.Some? && r != Some(Swapped) ==> fs.faults > old(fs.faults))
    ensures Ran(old(fs.trace), old(fs.Files()), fs.trace, fs.Files(), {Previous(repo), Staging(old(fs.nextTemp))})
    ensures NeverMixed(old(fs.trace), fs.trace, Previous(repo), old(fs.Files()), Out(repo))
    ensures r.None? <==> Path(Out(repo), Facts) !in old(fs.Files())
    ensures r.None? ==> fs.Files() == old(fs.Files())
    ensures r.Some? ==> OutcomeIs(r.value, fs.Files(), Previous(repo), old(fs.Files()), Out(repo))
  {
    hide Sound, ViewOf, Ran, NeverMixed;
    StayedPut(fs.trace, fs.Files(), {Previous(repo), Staging(fs.nextTemp)});
    MixFree(fs.trace, Previous(repo), fs.Files(), Out(repo));
    fs.Knows(Path(Out(repo), Facts));
    if !fs.Exists(Path(Out(repo), Facts)) {
      return None;
    }
    var published := CopyArtifacts(fs, Out(repo), Previous(repo));
    r := Some(published);
  }

  class Engine {
    const fm: Formats
    var last: Option<LastFacts>

    constructor (formats: Formats)
      ensures fm == formats && last == None
    {
      fm := formats;
      last := None;
    }

    ghost predicate Right(v: View)
      reads this
    {
      LastRight(fm, last, v)
    }

    /** Serializes the store beside the path and renames it over. */
    method WriteFactsJSONL(fs: FileSystem, store: Store, path: Path) returns (digest: Option<string>)
      requires fs.Valid() && path.file == Facts && Handed(path, fs.nextTemp)
      modifies fs`names, fs`data, fs`nextIno, fs`trace, fs`faults
      ensures fs.Valid()
      ensures fs.faults >= old(fs.faults) && (digest.None? ==> fs.faults > old(fs.faults))
      ensures digest.Some? ==>
        && digest.value == fm.digest(fm.serialize(store))
        && fs.Files() == (old(fs.Files()) - {Tmp(path)})[path := fm.serialize(store)]
      ensures digest.None? ==> SameBut(old(fs.Files()), fs.Files(), {Tmp(path)})
      ensures Ran(old(fs.trace), old(fs.Files()), fs.trace, fs.Files(), {path.dir})
    {
      hide Sound, ViewOf, Ran;
      var bytes := fm.serialize(store);
      var ok := fs.WriteInPlace(Tmp(path), bytes);
      if !ok {
        return None;
      }
      ghost var t, v := fs.trace, fs.Files();
      fs.Knows(Tmp(path));
      ok := fs.Rename(Tmp(path), path);
      RanAgain(old(fs.trace), old(fs.Files()), t, v, fs.trace, fs.Files(), {path.dir});
      digest := if ok then Some(fm.digest(bytes)) else None;
    }

    /** facts.jsonl, linked to the last one written if that is the same store's. */
    method WriteFacts(fs: FileSystem, store: Store, path: Path) returns (digest: Option<string>)
      requires fs.Valid() && path.file == Facts && path.dir.Out? && Right(fs.Files())
      modifies this, fs`names, fs`data, fs`nextIno, fs`trace, fs`faults
      ensures fs.Valid() && Right(fs.Files())
      ensures fs.faults >= old(fs.faults) && (digest.None? ==> fs.faults > old(fs.faults))
      ensures SameBut(old(fs.Files()), fs.Files(), {path, Tmp(path)})
      ensures digest.Some? ==>
        && digest.value == fm.digest(fm.serialize(store))
        && path in fs.Files() && fs.Files()[path] == fm.serialize(store)
      ensures
        var l := old(last);
        l.Some? && l.value.store == store && l.value.path != path && l.value.path in old(fs.Files()) && fs.faults == old(fs.faults) ==>
          l.value.path in fs.names && path in fs.names && fs.names[path] == fs.names[l.value.path]
      ensures Ran(old(fs.trace), old(fs.Files()), fs.trace, fs.Files(), {path.dir})
    {
      hide Sound, ViewOf, Ran;
      if last.Some? && last.value.store == store && last.value.path != path {
        fs.Knows(last.value.path);
        if fs.Exists(last.value.path) {
          var r := LinkOrCopyFile(fs, last.value.path, path);
          digest := if r.Done? then Some(last.value.digest) else None;
          return;
        }
      }
      digest := WriteFactsJSONL(fs, store, path);
      if digest.Some? {
        last := Some(LastFacts(store, path, digest.value));
      }
    }

    /** One artifact written in place, and its digest. */
    method WriteHashed(fs: FileSystem, out: Dir, f: File, bytes: Bytes, hashes: Digests) returns (r: Option<Digests>)
      requires fs.Valid() && out.Out? && f != Facts && !f.Unique? && (f == Insights || f.Rendered?)
      requires Right(fs.Files()) && Recorded(fm, hashes, fs.Files(), out) && Hashable(hashes)
      modifies fs`names, fs`data, fs`nextIno, fs`trace, fs`faults
      ensures fs.Valid() && Right(fs.Files())
      ensures fs.faults >= old(fs.faults) && (r.None? ==> fs.faults > old(fs.faults))
      ensures r.Some? ==> Recorded(fm, r.value, fs.Files(), out) && Hashable(r.value) && r.value == hashes[f := fm.digest(bytes)]
      ensures r.Some? ==> fs.Files() == old(fs.Files())[Path(out, f) := bytes]
      ensures SameBut(old(fs.Files()), fs.Files(), {Path(out, f)})
      ensures Ran(old(fs.trace), old(fs.Files()), fs.trace, fs.Files(), {out})
    {
      hide Sound, ViewOf, Ran, LastRight, Recorded;
      ghost var v := fs.Files();
      var ok := fs.WriteInPlace(Path(out, f), bytes);
      LastStill(fm, last, v, fs.Files(), {Path(out, f)});
      if !ok {
        return None;
      }
      RecordedNext(fm, hashes, v, out, f, bytes);
      r := Some(hashes[f := fm.digest(bytes)]);
    }

    method WriteRendered(fs: FileSystem, out: Dir, artifacts: seq<(string, Bytes)>) returns (r: Option<Digests>)
      requires fs.Valid() && out.Out? && Right(fs.Files())
      modifies fs`names, fs`data, fs`nextIno, fs`trace, fs`faults
      ensures fs.Valid() && Right(fs.Files())
      ensures fs.faults >= old(fs.faults) && (r.None? ==> fs.faults > old(fs.faults))
      ensures r.Some? ==>
        && Recorded(fm, r.value, fs.Files(), out)
        && forall f :: f in r.value <==> exists i :: 0 <= i < |artifacts| && f == Rendered(artifacts[i].0)
      ensures Ran(old(fs.trace), old(fs.Files()), fs.trace, fs.Files(), {out})
    {
      hide Sound, ViewOf, Ran, LastRight, Recorded;
      StayedPut(fs.trace, fs.Files(), {out});
      ghost var start, was := fs.trace, fs.Files();
      var hashes: Digests := map[];
      NothingRecorded(fm, was, out);
      for n := 0 to |artifacts|
        invariant fs.Valid() && Right(fs.Files()) && Ran(start, was, fs.trace, fs.Files(), {out}) && fs.faults >= old(fs.faults)
        invariant Recorded(fm, hashes, fs.Files(), out) && Hashable(hashes)
        invariant forall f :: f in hashes <==> exists i :: 0 <= i < n && f == Rendered(artifacts[i].0)
      {
        ghost var t, v := fs.trace, fs.Files();
        var written := WriteHashed(fs, out, Rendered(artifacts[n].0), artifacts[n].1, hashes);
        RanAgain(start, was, t, v, fs.trace, fs.Files(), {out});
        if written.None? {
          return None;
        }
        hashes := written.value;
      }
      r := Some(hashes);
    }

    /** The documents that carry the digests. */
    method WriteDocument(fs: FileSystem, out: Dir, f: File, bytes: Bytes, ghost hashes: Digests) returns (ok: bool)
      requires fs.Valid() && out.Out? && (f == Meta || f == Receipt)
      requires Right(fs.Files()) && Recorded(fm, hashes, fs.Files(), out) && Hashable(hashes)
      modifies fs`names, fs`data, fs`nextIno, fs`trace, fs`faults
      ensures fs.Valid() && Right(fs.Files()) && Recorded(fm, hashes, fs.Files(), out)
      ensures fs.faults >= old(fs.faults) && (!ok ==> fs.faults > old(fs.faults))
      ensures ok ==> Path(out, f) in fs.Files() && fs.Files()[Path(out, f)] == bytes
      ensures SameBut(old(fs.Files()), fs.Files(), {Path(out, f)})
      ensures Ran(old(fs.trace), old(fs.Files()), fs.trace, fs.Files(), {out})
    {
      hide Sound, ViewOf, Ran, LastRight, Recorded;
      ghost var v := fs.Files();
      ok := fs.WriteInPlace(Path(out, f), bytes);
      LastStill(fm, last, v, fs.Files(), {Path(out, f)});
      RecordedStill(fm, hashes, v, fs.Files(), out, {Path(out, f)});
    }

    method WriteDocuments(fs: FileSystem, out: Dir, hashes: Digests) returns (ok: bool)
      requires fs.Valid() && out.Out?
      requires Right(fs.Files()) && Recorded(fm, hashes, fs.Files(), out) && Hashable(hashes)
      modifies fs`names, fs`data, fs`nextIno, fs`trace, fs`faults
      ensures fs.Valid() && Right(fs.Files()) && Recorded(fm, hashes, fs.Files(), out)
      ensures fs.faults >= old(fs.faults) && (!ok ==> fs.faults > old(fs.faults))
      ensures ok ==>
        && Path(out, Meta) in fs.Files() && fs.Files()[Path(out, Meta)] == fm.meta(hashes)
        && Path(out, Receipt) in fs.Files() && fs.Files()[Path(out, Receipt)] == fm.receipt(hashes)
      ensures SameBut(old(fs.Files()), fs.Files(), {Path(out, Meta), Path(out, Receipt)})
      ensures Ran(old(fs.trace), old(fs.Files()), fs.trace, fs.Files(), {out})
    {
      hide Sound, ViewOf, Ran, LastRight, Recorded;
      ghost var start, was := fs.trace, fs.Files();
      ok := WriteDocument(fs, out, Meta, fm.meta(hashes), hashes);
      if !ok {
        return;
      }
      ghost var t, v := fs.trace, fs.Files();
      ok := WriteDocument(fs, out, Receipt, fm.receipt(hashes), hashes);
      RanAgain(start, was, t, v, fs.trace, fs.Files(), {out});
    }

    /** The hashed files are written, and these are their digests. */
    ghost predicate FilesWritten(v: View, out: Dir, b: Bundle, hashes: Digests) {
      && Recorded(fm, hashes, v, out)
      && (forall f :: f in hashes <==> f == Facts || f == Insights || exists i :: 0 <= i < |b.artifacts| && f == Rendered(b.artifacts[i].0))
      && Path(out, Facts) in v && v[Path(out, Facts)] == fm.serialize(b.store)
      && Path(out, Insights) in v && v[Path(out, Insights)] == b.insights
    }

    /** What a finished write leaves in the output directory. */
    ghost predicate Written(v: View, out: Dir, b: Bundle, hashes: Digests) {
      && FilesWritten(v, out, b, hashes)
      && Path(out, Meta) in v && v[Path(out, Meta)] == fm.meta(hashes)
      && Path(out, Receipt) in v && v[Path(out, Receipt)] == fm.receipt(hashes)
    }

    lemma FilesStill(v: View, w: View, out: Dir, b: Bundle, hashes: Digests, paths: set<Path>)
      requires FilesWritten(v, out, b, hashes) && SameBut(v, w, paths)
      requires forall p :: p in paths ==> p.file in {Meta, Receipt, RunMark} || p.file.Unique?
      ensures FilesWritten(w, out, b, hashes)
    {
      RecordedStill(fm, hashes, v, w, out, paths);
      hide Recorded;
    }

    lemma FilesNow(fs: FileSystem, v: View, out: Dir, b: Bundle, rendered: Digests, digest: string)
      requires fs.Valid() && Recorded(fm, rendered[Facts := digest][Insights := fm.digest(b.insights)], fs.Files(), out)
      requires forall f :: f in rendered <==> exists i :: 0 <= i < |b.artifacts| && f == Rendered(b.artifacts[i].0)
      requires Path(out, Facts) in v && v[Path(out, Facts)] == fm.serialize(b.store)
      requires fs.Files() == v[Path(out, Insights) := b.insights]
      ensures FilesWritten(fs.Files(), out, b, rendered[Facts := digest][Insights := fm.digest(b.insights)])
    {
      hide Recorded, ViewOf, Sound;
    }

    method WriteFiles(fs: FileSystem, out: Dir, b: Bundle) returns (r: Option<Digests>)
      requires fs.Valid() && out.Out? && Right(fs.Files())
      modifies this, fs`names, fs`data, fs`nextIno, fs`trace, fs`faults
      ensures fs.Valid() && Right(fs.Files())
      ensures fs.faults >= old(fs.faults) && (r.None? ==> fs.faults > old(fs.faults))
      ensures Ran(old(fs.trace), old(fs.Files()), fs.trace, fs.Files(), {out})
      ensures r.Some? ==> FilesWritten(fs.Files(), out, b, r.value) && Recorded(fm, r.value, fs.Files(), out) && Hashable(r.value)
    {
      hide Sound, ViewOf, Ran, LastRight, Recorded, FilesWritten;
      r := None;
      ghost var start, was := fs.trace, fs.Files();
      var rendered := WriteRendered(fs, out, b.artifacts);
      if rendered.None? {
        return;
      }
      ghost var t, v := fs.trace, fs.Files();
      var digest := WriteFacts(fs, b.store, Path(out, Facts));
      RanAgain(start, was, t, v, fs.trace, fs.Files(), {out});
      if digest.None? {
        return;
      }
      FactsRecorded(fm, rendered.value, v, fs.Files(), out, digest.value);
      t, v := fs.trace, fs.Files();
      r := WriteHashed(fs, out, Insights, b.insights, rendered.value[Facts := digest.value]);
      RanAgain(start, was, t, v, fs.trace, fs.Files(), {out});
      if r.Some? {
        FilesNow(fs, v, out, b, rendered.value, digest.value);
      }
    }

    /** Everything but the rotation and the session mark. */
    method WriteContents(fs: FileSystem, out: Dir, b: Bundle) returns (r: Option<Digests>)
      requires fs.Valid() && out.Out? && Right(fs.Files())
      modifies this, fs`names, fs`data, fs`nextIno, fs`trace, fs`faults
      ensures fs.Valid() && Right(fs.Files())
      ensures fs.faults >= old(fs.faults) && (r.None? ==> fs.faults > old(fs.faults))
      ensures Ran(old(fs.trace), old(fs.Files()), fs.trace, fs.Files(), {out})
      ensures r.Some? ==> Written(fs.Files(), out, b, r.value)
    {
      hide Sound, ViewOf, Ran, LastRight, Recorded, FilesWritten;
      ghost var start, was := fs.trace, fs.Files();
      r := WriteFiles(fs, out, b);
      if r.None? {
        return;
      }
      ghost var t, v := fs.trace, fs.Files();
      var ok := WriteDocuments(fs, out, r.value);
      RanAgain(start, was, t, v, fs.trace, fs.Files(), {out});
      FilesStill(v, fs.Files(), out, b, r.value, {Path(out, Meta), Path(out, Receipt)});
      if !ok {
        r := None;
      }
    }

    lemma WrittenStill(a: View, b: View, out: Dir, bundle: Bundle, hashes: Digests, p: Path, n: nat)
      requires Written(a, out, bundle, hashes) && SameBut(a, b, {p, Path(p.dir, Unique(n))}) && p.file == RunMark
      ensures Written(b, out, bundle, hashes)
    {
      FilesStill(a, b, out, bundle, hashes, {p, Path(p.dir, Unique(n))});
      hide FilesWritten;
    }

    method WriteArtifacts(fs: FileSystem, repo: string, b: Bundle, mark: Bytes) returns (r: Option<Digests>)
      requires fs.Valid() && Right(fs.Files())
      modifies this, fs
      ensures fs.Valid() && Right(fs.Files()) && fs.nextTemp >= old(fs.nextTemp)
      ensures fs.faults >= old(fs.faults) && (r.None? ==> fs.faults > old(fs.faults))
      ensures Ran(old(fs.trace), old(fs.Files()), fs.trace, fs.Files(), {Out(repo), Previous(repo), Staging(old(fs.nextTemp))})
      ensures NeverMixed(old(fs.trace), fs.trace, Previous(repo), old(fs.Files()), Out(repo))
      ensures r.Some? ==> Written(fs.Files(), Out(repo), b, r.value)
      ensures fs.faults == old(fs.faults) ==>
        && (Path(Out(repo), Facts) in old(fs.Files()) ==> Complete(fs.Files(), Previous(repo), old(fs.Files()), Out(repo)))
        && Path(Out(repo), RunMark) in fs.Files() && fs.Files()[Path(Out(repo), RunMark)] == mark
    {
      hide Sound, ViewOf, Ran, LastRight, Written, NeverMixed, OutcomeIs, SubsetIn, Complete;
      ghost var start, was, dirs := fs.trace, fs.Files(), {Out(repo), Previous(repo), Staging(fs.nextTemp)};
      var rotated := RotatePrevious(fs, repo);
      RanSame(start, was, fs.trace, fs.Files(), {Previous(repo), Staging(old(fs.nextTemp))});
      LastElsewhere(fm, last, was, fs.Files(), {Previous(repo), Staging(old(fs.nextTemp))});
      RanWider(start, was, fs.trace, fs.Files(), {Previous(repo), Staging(old(fs.nextTemp))}, dirs);
      RotationUnmixed(rotated, was, fs.Files(), repo);
      RotationDone(rotated, was, fs.Files(), repo);
      ghost var t, v := fs.trace, fs.Files();
      r := WriteContents(fs, Out(repo), b);
      Apart(t, v, fs.trace, fs.Files(), {Out(repo)}, Previous(repo));
      NotMixedBy(start, was, t, v, fs.trace, fs.Files(), repo);
      RanWider(t, v, fs.trace, fs.Files(), {Out(repo)}, dirs);
      RanAgain(start, was, t, v, fs.trace, fs.Files(), dirs);
      if r.None? {
        return;
      }
      t, v := fs.trace, fs.Files();
      var marked := WriteMark(fs, Path(Out(repo), RunMark), mark);
      Apart(t, v, fs.trace, fs.Files(), {Out(repo)}, Previous(repo));
      NotMixedBy(start, was, t, v, fs.trace, fs.Files(), repo);
      RanWider(t, v, fs.trace, fs.Files(), {Out(repo)}, dirs);
      RanAgain(start, was, t, v, fs.trace, fs.Files(), dirs);
      ghost var n :| SameBut(v, fs.Files(), {Path(Out(repo), RunMark), Path(Out(repo), Unique(n))});
      WrittenStill(v, fs.Files(), Out(repo), b, r.value, Path(Out(repo), RunMark), n);
      LastStill(fm, last, v, fs.Files(), {Path(Out(repo), RunMark), Path(Out(repo), Unique(n))});
    }

    /** Pins the snapshot on disk. A pin that fails before the swap leaves the old one. */
    method SetBaseline(fs: FileSystem, repo: string, mark: Bytes) returns (r: Option<Published>)
      requires fs.Valid() && Right(fs.Files())
      modifies fs
      ensures fs.Valid() && Right(fs.Files()) && fs.nextTemp >= old(fs.nextTemp)
      ensures fs.faults >= old(fs.faults) && (r.Some? && r != Some(Swapped) ==> fs.faults > old(fs.faults))
      ensures Ran(old(fs.trace), old(fs.Files()), fs.trace, fs.Files(), {Baseline(repo), Staging(old(fs.nextTemp))})
      ensures r.None? <==> Path(Out(repo), Facts) !in old(fs.Files())
      ensures r == Some(Swapped) ==> PinnedAs(fs.Files(), repo, old(fs.Files()))
      ensures r == Some(Swapped) && fs.faults == old(fs.faults) ==>
        Path(Baseline(repo), PinMark) in fs.Files() && fs.Files()[Path(Baseline(repo), PinMark)] == mark
      ensures r == Some(StageFailed) ==> SameIn(fs.Files(), old(fs.Files()), Baseline(repo))
    {
      hide Sound, ViewOf, Ran, LastRight, NeverMixed, OutcomeIs, SameIn, PinnedAs;
      ghost var start, was, dirs := fs.trace, fs.Files(), {Baseline(repo), Staging(fs.nextTemp)};
      StayedPut(start, was, dirs);
      fs.Knows(Path(Out(repo), Facts));
      if !fs.Exists(Path(Out(repo), Facts)) {
        return None;
      }
      var published := CopyArtifacts(fs, Out(repo), Baseline(repo));
      RanSame(start, was, fs.trace, fs.Files(), dirs);
      LastElsewhere(fm, last, was, fs.Files(), dirs);
      OutcomePins(published, fs.Files(), repo, was);
      if published.Swapped? {
        ghost var t, v := fs.trace, fs.Files();
        var marked := WriteMark(fs, Path(Baseline(repo), PinMark), mark);
        RanWider(t, v, fs.trace, fs.Files(), {Baseline(repo)}, dirs);
        RanAgain(start, was, t, v, fs.trace, fs.Files(), dirs);
        ghost var n :| SameBut(v, fs.Files(), {Path(Baseline(repo), PinMark), Path(Baseline(repo), Unique(n))});
        LastStill(fm, last, v, fs.Files(), {Path(Baseline(repo), PinMark), Path(Baseline(repo), Unique(n))});
        PinnedStill(v, fs.Files(), repo, was, n);
      }
      r := Some(published);
    }

    /** Every successful write that no later write to its repository replaced is still in place. */
    ghost predicate Standing(v: View, ops: seq<Op>, done: seq<Option<Digests>>) {
      |done| <= |ops| && forall i :: 0 <= i < |done| && done[i].Some? && Latest(ops, i, |done|) ==>
        Written(v, Out(ops[i].repo), ops[i].bundle, done[i].value)
    }

    lemma WrittenElsewhere(a: View, b: View, dirs: set<Dir>, out: Dir, bundle: Bundle, hashes: Digests)
      requires Written(a, out, bundle, hashes) && SameElsewhere(a, b, dirs) && out !in dirs
      ensures Written(b, out, bundle, hashes)
    {
    }

    lemma StandingNext(a: View, b: View, ops: seq<Op>, done: seq<Option<Digests>>, r: Option<Digests>, n: nat)
      requires |done| < |ops| && Standing(a, ops, done)
      requires SameElsewhere(a, b, Directories(ops[|done|]) + {Staging(n)})
      requires r.Some? ==> ops[|done|].Write? && Written(b, Out(ops[|done|].repo), ops[|done|].bundle, r.value)
      ensures Standing(b, ops, done + [r])
    {
      hide Written, SameElsewhere;
      var m, next := |done|, done + [r];
      forall i | 0 <= i < |next| && next[i].Some? && Latest(ops, i, |next|)
        ensures Written(b, Out(ops[i].repo), ops[i].bundle, next[i].value)
      {
        if i < m {
          assert Latest(ops, i, m);
          WrittenElsewhere(a, b, Directories(ops[m]) + {Staging(n)}, Out(ops[i].repo), ops[i].bundle, done[i].value);
        }
      }
    }

    /** The five files of a written snapshot but its mark, by name. */
    ghost predicate HoldsSnapshot(v: View, d: Dir, b: Bundle, hashes: Digests) {
      && Path(d, Facts) in v && v[Path(d, Facts)] == fm.serialize(b.store)
      && Path(d, Insights) in v && v[Path(d, Insights)] == b.insights
      && Path(d, Meta) in v && v[Path(d, Meta)] == fm.meta(hashes)
      && Path(d, Receipt) in v && v[Path(d, Receipt)] == fm.receipt(hashes)
    }

    /** A pin holds the snapshot that was written, and its session mark. */
    lemma PinHoldsSnapshot(was: View, v: View, repo: string, b: Bundle, hashes: Digests)
      requires Written(was, Out(repo), b, hashes) && PinnedAs(v, repo, was)
      ensures HoldsSnapshot(v, Baseline(repo), b, hashes)
      ensures Path(Out(repo), RunMark) in was ==>
        Path(Baseline(repo), RunMark) in v && v[Path(Baseline(repo), RunMark)] == was[Path(Out(repo), RunMark)]
    {
      hide Recorded;
      assert Facts in ARTIFACT_FILES && Insights in ARTIFACT_FILES && Meta in ARTIFACT_FILES && Receipt in ARTIFACT_FILES && RunMark in ARTIFACT_FILES;
    }

    /** So does what a later write rotates away, and it holds nothing else. */
    lemma RotationHoldsSnapshot(was: View, v: View, repo: string, b: Bundle, hashes: Digests)
      requires Written(was, Out(repo), b, hashes) && Complete(v, Previous(repo), was, Out(repo))
      ensures HoldsSnapshot(v, Previous(repo), b, hashes)
      ensures Path(Out(repo), RunMark) in was ==>
        Path(Previous(repo), RunMark) in v && v[Path(Previous(repo), RunMark)] == was[Path(Out(repo), RunMark)]
      ensures forall f: File :: Path(Previous(repo), f) in v ==> f in {Facts, Insights, Meta, Receipt, RunMark}
    {
      hide Recorded;
      assert ARTIFACT_FILES[..|ARTIFACT_FILES|] == ARTIFACT_FILES;
      assert Facts in ARTIFACT_FILES && Insights in ARTIFACT_FILES && Meta in ARTIFACT_FILES && Receipt in ARTIFACT_FILES && RunMark in ARTIFACT_FILES;
    }

    /** Every baseline that a pin replaced holds the snapshot last written before the pin. */
    ghost predicate Pinned(v: View, ops: seq<Op>, done: seq<Option<Digests>>, pins: seq<bool>) {
      |done| == |pins| <= |ops| && forall i, j :: PinsWrite(ops, i, j, |done|) && pins[i] && done[j].Some? ==>
        HoldsSnapshot(v, Baseline(ops[i].repo), ops[j].bundle, done[j].value)
    }

    lemma HeldElsewhere(a: View, b: View, dirs: set<Dir>, d: Dir, bundle: Bundle, hashes: Digests)
      requires HoldsSnapshot(a, d, bundle, hashes) && SameElsewhere(a, b, dirs) && d !in dirs
      ensures HoldsSnapshot(b, d, bundle, hashes)
    {
    }

    lemma PinnedNext(a: View, b: View, ops: seq<Op>, done: seq<Option<Digests>>, pins: seq<bool>, r: Option<Digests>, pin: bool, n: nat)
      requires |done| < |ops| && Pinned(a, ops, done, pins) && Standing(a, ops, done)
      requires SameElsewhere(a, b, Directories(ops[|done|]) + {Staging(n)})
      requires pin ==> ops[|done|].Pin? && PinnedAs(b, ops[|done|].repo, a)
      ensures Pinned(b, ops, done + [r], pins + [pin])
    {
      hide HoldsSnapshot, SameElsewhere, Written, PinnedAs;
      var m, next, nextPins := |done|, done + [r], pins + [pin];
      forall i, j | PinsWrite(ops, i, j, |next|) && nextPins[i] && next[j].Some?
        ensures HoldsSnapshot(b, Baseline(ops[i].repo), ops[j].bundle, next[j].value)
      {
        if i < m {
          assert PinsWrite(ops, i, j, m);
          HeldElsewhere(a, b, Directories(ops[m]) + {Staging(n)}, Baseline(ops[i].repo), ops[j].bundle, done[j].value);
        } else {
          PinHoldsSnapshot(a, b, ops[i].repo, ops[j].bundle, done[j].value);
        }
      }
    }

    /** Over any run of writes and pins, in any order and with any failures, no file outside the
        directories they name changes, and the remembered facts file stays right. Every
        repository's directory holds what was last written to it, and every baseline what was written
        last before its pin. */
    method Run(fs: FileSystem, ops: seq<Op>) returns (done: seq<Option<Digests>>, pins: seq<bool>)
      requires fs.Valid() && Right(fs.Files())
      modifies this, fs
      ensures fs.Valid() && Right(fs.Files())
      ensures SameOutside(old(fs.Files()), fs.Files(), ops)
      ensures |done| == |ops| && Standing(fs.Files(), ops, done) && Pinned(fs.Files(), ops, done, pins)
      ensures fs.faults == old(fs.faults) ==> forall i :: 0 <= i < |ops| && ops[i].Write? ==> done[i].Some?
      ensures fs.faults == old(fs.faults) ==> forall i, j :: 0 <= j < i < |ops| && ops[i].Pin? && Latest(ops, j, i) && ops[j].repo == ops[i].repo ==> pins[i]
    {
      hide Sound, ViewOf, Ran, LastRight, Written, Complete, Standing, Pinned, SameOutside, PinnedAs;
      ghost var was := fs.Files();
      done, pins := [], [];
      NothingYet(was, ops);
      for i := 0 to |ops|
        invariant fs.Valid() && Right(fs.Files())
        invariant SameOutside(was, fs.Files(), ops[..i])
        invariant |done| == |pins| == i && Standing(fs.Files(), ops, done) && Pinned(fs.Files(), ops, done, pins) && fs.faults >= old(fs.faults)
        invariant fs.faults == old(fs.faults) ==> forall j :: 0 <= j < i && ops[j].Write? ==> done[j].Some?
        invariant fs.faults == old(fs.faults) ==> forall l, j :: 0 <= j < l < i && ops[l].Pin? && Latest(ops, j, l) && ops[j].repo == ops[l].repo ==> pins[l]
      {
        ghost var t, v, n := fs.trace, fs.Files(), fs.nextTemp;
        ghost var dirs := Directories(ops[i]) + {Staging(n)};
        var r, pin := None, false;
        match ops[i] {
          case Write(repo, b, mark) =>
            r := WriteArtifacts(fs, repo, b, mark);
            assert {Out(repo), Previous(repo), Staging(n)} == dirs;
          case Pin(repo, mark) =>
            var published := SetBaseline(fs, repo, mark);
            pin := published == Some(Swapped);
            assert {Baseline(repo), Staging(n)} == dirs;
            WrittenHasFacts(v, ops, done, repo);
        }
        RanSame(t, v, fs.trace, fs.Files(), dirs);
        OutsideNext(was, v, fs.Files(), ops, i, n);
        PinnedNext(v, fs.Files(), ops, done, pins, r, pin, n);
        StandingNext(v, fs.Files(), ops, done, r, n);
        done, pins := done + [r], pins + [pin];
      }
      assert ops[..|ops|] == ops;
    }

    lemma WrittenHasFacts(v: View, ops: seq<Op>, done: seq<Option<Digests>>, repo: string)
      requires Standing(v, ops, done)
      ensures forall j :: 0 <= j < |done| && Latest(ops, j, |done|) && ops[j].repo == repo && done[j].Some? ==> Path(Out(repo), Facts) in v
    {
      hide Recorded;
    }

    lemma NothingYet(v: View, ops: seq<Op>)
      ensures Standing(v, ops, []) && Pinned(v, ops, [], []) && SameOutside(v, v, ops[..0])
    {
    }
  }

  /** The pin that decides what a repository's baseline holds after `n` operations. */
  predicate LatestPin(ops: seq<Op>, i: nat, n: nat)
    requires i < n <= |ops|
  {
    ops[i].Pin? && forall j :: i < j < n && ops[j].Pin? ==> ops[j].repo != ops[i].repo
  }

  /** The pin `i` decides a baseline after `n` operations, and `j` wrote what it pinned. */
  predicate PinsWrite(ops: seq<Op>, i: int, j: int, n: nat)
    requires n <= |ops|
  {
    0 <= j < i < n && LatestPin(ops, i, n) && Latest(ops, j, i) && ops[j].repo == ops[i].repo
  }

  /** The write that decides what a repository's directory holds after `n` operations. */
  predicate Latest(ops: seq<Op>, i: nat, n: nat)
    requires i < n <= |ops|
  {
    ops[i].Write? && forall j :: i < j < n && ops[j].Write? ==> ops[j].repo != ops[i].repo
  }

  lemma RotationDone(r: Option<Published>, was: View, v: View, repo: string)
    requires r.Some? ==> OutcomeIs(r.value, v, Previous(repo), was, Out(repo))
    ensures r == Some(Swapped) ==> Complete(v, Previous(repo), was, Out(repo))
  {
  }

  lemma RotationUnmixed(r: Option<Published>, was: View, v: View, repo: string)
    requires r.None? ==> v == was
    requires r.Some? ==> OutcomeIs(r.value, v, Previous(repo), was, Out(repo))
    ensures SubsetIn(v, was, Previous(repo)) || Complete(v, Previous(repo), was, Out(repo))
  {
    hide Complete;
  }

  /** Steps in the output directory do not mix what was rotated. */
  lemma NotMixedBy(t: seq<View>, was: View, u: seq<View>, a: View, v: seq<View>, b: View, repo: string)
    requires NeverMixed(t, u, Previous(repo), was, Out(repo)) && Ran(u, a, v, b, {Out(repo)})
    requires SubsetIn(a, was, Previous(repo)) || Complete(a, Previous(repo), was, Out(repo))
    ensures NeverMixed(t, v, Previous(repo), was, Out(repo))
    ensures SubsetIn(b, was, Previous(repo)) || Complete(b, Previous(repo), was, Out(repo))
  {
    hide NeverMixed, Ran, SubsetIn, Complete;
    RanApart(u, a, v, b, {Out(repo)}, Previous(repo), was, Out(repo));
    NeverMixedThen(t, u, v, Previous(repo), was, Out(repo));
    Apart(u, a, v, b, {Out(repo)}, Previous(repo));
    if SubsetIn(a, was, Previous(repo)) {
      SubsetChain(b, a, was, Previous(repo));
    }
  }

  datatype Op = Write(repo: string, bundle: Bundle, mark: Bytes) | Pin(repo: string, mark: Bytes)

  function Directories(op: Op): set<Dir> {
    match op
    case Write(repo, _, _) => {Out(repo), Previous(repo)}
    case Pin(repo, _) => {Baseline(repo)}
  }

  ghost predicate Untouched(d: Dir, ops: seq<Op>) {
    !d.Staging? && forall i :: 0 <= i < |ops| ==> d !in Directories(ops[i])
  }

  /** Only the directories the operations name have changed, staging directories aside. */
  ghost predicate SameOutside(a: View, b: View, ops: seq<Op>) {
    forall p: Path :: Untouched(p.dir, ops) ==> (p in a <==> p in b) && (p in a ==> a[p] == b[p])
  }

  lemma OutsideNext(a: View, b: View, c: View, ops: seq<Op>, i: nat, n: nat)
    requires i < |ops| && SameOutside(a, b, ops[..i]) && SameElsewhere(b, c, Directories(ops[i]) + {Staging(n)})
    ensures SameOutside(a, c, ops[..i + 1])
  {
    hide Directories;
    forall d: Dir | Untouched(d, ops[..i + 1]) ensures Untouched(d, ops[..i]) && d !in Directories(ops[i]) {
      assert ops[..i + 1][i] == ops[i];
      forall j | 0 <= j < |ops[..i]| ensures d !in Directories(ops[..i][j]) {
        assert ops[..i + 1][j] == ops[..i][j];
      }
    }
  }

  /** The baseline has every artifact of the snapshot it pinned, and no other artifact. */
  ghost predicate PinnedAs(v: View, repo: string, was: View) {
    && Path(Out(repo), Facts) in was
    && (forall f :: f in ARTIFACT_FILES ==> (Path(Baseline(repo), f) in v <==> Path(Out(repo), f) in was))
    && (forall f :: f in ARTIFACT_FILES && Path(Out(repo), f) in was ==> v[Path(Baseline(repo), f)] == was[Path(Out(repo), f)])
  }

  lemma PinnedStill(a: View, b: View, repo: string, was: View, n: nat)
    requires PinnedAs(a, repo, was) && SameBut(a, b, {Path(Baseline(repo), PinMark), Path(Baseline(repo), Unique(n))})
    ensures PinnedAs(b, repo, was)
  {
    assert PinMark !in ARTIFACT_FILES && Unique(n) !in ARTIFACT_FILES;
  }

  lemma OutcomePins(r: Published, v: View, repo: string, was: View)
    requires OutcomeIs(r, v, Baseline(repo), was, Out(repo)) && Path(Out(repo), Facts) in was
    ensures r.Swapped? ==> PinnedAs(v, repo, was)
    ensures r.StageFailed? ==> SameIn(v, was, Baseline(repo))
  {
    assert ARTIFACT_FILES[..|ARTIFACT_FILES|] == ARTIFACT_FILES;
  }

  lemma NothingRecorded(fm: Formats, v: View, out: Dir)
    ensures Recorded(fm, map[], v, out)
  {
  }

  lemma FactsRecorded(fm: Formats, hashes: Digests, a: View, b: View, out: Dir, digest: string)
    requires Recorded(fm, hashes, a, out) && Hashable(hashes) && Facts !in hashes
    requires SameBut(a, b, {Path(out, Facts), Tmp(Path(out, Facts))})
    requires Path(out, Facts) in b && fm.digest(b[Path(out, Facts)]) == digest
    ensures Recorded(fm, hashes[Facts := digest], b, out)
  {
  }
}
