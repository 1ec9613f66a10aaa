/** A filesystem with hard links: names stand for inodes, inodes hold bytes. Any operation may
    fail. `trace` records the files after every step that reaches the disk, so that a property
    of every trace entry is a property of every crash. */
module Disk {
  import opened Wrappers

  type Bytes = string

  /** The directories the engine writes: a repository's output directory, the two baselines
      inside it, and staging directories. */
  datatype Dir = Out(repo: string) | Previous(repo: string) | Baseline(repo: string) | Staging(n: nat)

  /** `Rendered` is a renderer's artifact, `TmpOf` the file written beside another one and
      renamed over it, `Unique` a temporary name nothing else uses. */
  datatype File =
    | Facts | Insights | Meta | Receipt | RunMark | PinMark
    | Rendered(name: string) | TmpOf(file: File) | Unique(n: nat)

  datatype Path = Path(dir: Dir, file: File)

  /** The bytes under every name. */
  type View = map<Path, Bytes>

  ghost predicate SameElsewhere(a: View, b: View, dirs: set<Dir>) {
    forall p: Path :: p.dir !in dirs ==> (p in a <==> p in b) && (p in a ==> a[p] == b[p])
  }

  ghost predicate SameBut(a: View, b: View, paths: set<Path>) {
    forall p: Path :: p !in paths ==> (p in a <==> p in b) && (p in a ==> a[p] == b[p])
  }

  /** Steps led from `a` to `b`, and at every one of them everything outside these directories
      was as it had been. */
  ghost predicate Ran(t: seq<View>, a: View, u: seq<View>, b: View, dirs: set<Dir>) {
    t <= u && SameElsewhere(a, b, dirs) && forall i :: |t| <= i < |u| ==> SameElsewhere(a, u[i], dirs)
  }

  lemma RanThen(t: seq<View>, a: View, u: seq<View>, b: View, v: seq<View>, c: View, dirs: set<Dir>, more: set<Dir>)
    requires Ran(t, a, u, b, dirs) && Ran(u, b, v, c, more)
    ensures Ran(t, a, v, c, dirs + more)
  {
    forall i | |t| <= i < |v| ensures SameElsewhere(a, v[i], dirs + more) {
      if i < |u| {
        assert v[i] == u[i];
      }
    }
  }

  lemma RanAgain(t: seq<View>, a: View, u: seq<View>, b: View, v: seq<View>, c: View, dirs: set<Dir>)
    requires Ran(t, a, u, b, dirs) && Ran(u, b, v, c, dirs)
    ensures Ran(t, a, v, c, dirs)
  {
    RanThen(t, a, u, b, v, c, dirs, dirs);
    assert dirs + dirs == dirs;
  }

  lemma RanWider(t: seq<View>, a: View, u: seq<View>, b: View, dirs: set<Dir>, more: set<Dir>)
    requires Ran(t, a, u, b, dirs) && dirs <= more
    ensures Ran(t, a, u, b, more)
  {
  }

  lemma OneStep(t: seq<View>, a: View, b: View, p: Path)
    requires SameBut(a, b, {p})
    ensures Ran(t, a, t + [b], b, {p.dir})
  {
  }

  lemma RenameStep(t: seq<View>, a: View, src: Path, dst: Path)
    requires src in a && src.dir == dst.dir
    ensures var b := (a - {src})[dst := a[src]]; Ran(t, a, t + [b], b, {dst.dir})
  {
  }

  lemma StayedPut(t: seq<View>, a: View, dirs: set<Dir>)
    ensures Ran(t, a, t, a, dirs)
  {
  }

  type Names = map<Path, nat>

  type Data = map<nat, Bytes>

  ghost predicate Grounded(names: Names, data: Data, nextIno: nat) {
    && (forall p :: p in names ==> names[p] in data)
    && (forall i :: i in data ==> i < nextIno)
  }

  /** A file with two names is a facts file under both. */
  ghost predicate OnlyFactsLinked(names: Names) {
    forall p, q :: p in names && q in names && p != q && names[p] == names[q] ==> p.file == q.file == Facts
  }

  predicate Handed(p: Path, nextTemp: nat) {
    (p.dir.Staging? ==> p.dir.n < nextTemp) && (p.file.Unique? ==> p.file.n < nextTemp)
  }

  ghost predicate TempsHanded(names: Names, nextTemp: nat) {
    forall p :: p in names ==> Handed(p, nextTemp)
  }

  ghost function ViewOf(names: Names, data: Data): View
    requires forall p :: p in names ==> names[p] in data
  {
    map p | p in names :: data[names[p]]
  }

  ghost predicate Sound(names: Names, data: Data, nextIno: nat, nextTemp: nat) {
    Grounded(names, data, nextIno) && OnlyFactsLinked(names) && TempsHanded(names, nextTemp)
  }

  lemma InPlace(names: Names, data: Data, nextIno: nat, nextTemp: nat, p: Path, bytes: Bytes)
    requires Sound(names, data, nextIno, nextTemp) && p in names && p.file != Facts
    ensures Sound(names, data[names[p] := bytes], nextIno, nextTemp)
    ensures ViewOf(names, data[names[p] := bytes]) == ViewOf(names, data)[p := bytes]
  {
    hide Handed;
    var after := data[names[p] := bytes];
    forall q | q in names && q != p ensures after[names[q]] == data[names[q]] {
      assert names[q] != names[p];
    }
  }

  lemma FreshInode(names: Names, data: Data, nextIno: nat, nextTemp: nat, p: Path, bytes: Bytes)
    requires Sound(names, data, nextIno, nextTemp) && p !in names && Handed(p, nextTemp)
    ensures Sound(names[p := nextIno], data[nextIno := bytes], nextIno + 1, nextTemp)
    ensures ViewOf(names[p := nextIno], data[nextIno := bytes]) == ViewOf(names, data)[p := bytes]
  {
    hide Handed;
    forall q | q in names ensures names[q] != nextIno {
      assert names[q] in data;
    }
  }

  lemma Unnamed(names: Names, data: Data, nextIno: nat, nextTemp: nat, p: Path)
    requires Sound(names, data, nextIno, nextTemp)
    ensures Sound(names - {p}, data, nextIno, nextTemp)
    ensures ViewOf(names - {p}, data) == ViewOf(names, data) - {p}
  {
    hide Handed;
  }

  lemma Linked(names: Names, data: Data, nextIno: nat, nextTemp: nat, src: Path, dst: Path)
    requires Sound(names, data, nextIno, nextTemp) && src in names && dst !in names
    requires src.file == dst.file == Facts && Handed(dst, nextTemp)
    ensures Sound(names[dst := names[src]], data, nextIno, nextTemp)
    ensures ViewOf(names[dst := names[src]], data) == ViewOf(names, data)[dst := ViewOf(names, data)[src]]
  {
    hide Handed;
    var after := names[dst := names[src]];
    forall p, q | p in after && q in after && p != q && after[p] == after[q] ensures p.file == q.file == Facts {
      if p != dst && q != dst {
        assert names[p] == names[q];
      } else if p == dst && q != src {
        assert names[q] == names[src];
      } else if q == dst && p != src {
        assert names[p] == names[src];
      }
    }
  }

  /** A file with one name gets another in its place. */
  lemma Renamed(names: Names, data: Data, nextIno: nat, nextTemp: nat, src: Path, dst: Path)
    requires Sound(names, data, nextIno, nextTemp) && src in names && src.file != Facts && Handed(dst, nextTemp)
    ensures Sound((names - {src})[dst := names[src]], data, nextIno, nextTemp)
    ensures ViewOf((names - {src})[dst := names[src]], data) == (ViewOf(names, data) - {src})[dst := ViewOf(names, data)[src]]
  {
    hide Handed, ViewOf;
    OnlyName(names, src);
    RenamedView(names, data, src, dst);
  }

  lemma RenamedView(names: Names, data: Data, src: Path, dst: Path)
    requires (forall q :: q in names ==> names[q] in data) && src in names
    ensures ViewOf((names - {src})[dst := names[src]], data) == (ViewOf(names, data) - {src})[dst := ViewOf(names, data)[src]]
  {
  }

  lemma OnlyName(names: Names, p: Path)
    requires OnlyFactsLinked(names) && p in names && p.file != Facts
    ensures forall q :: q in names && q != p ==> names[q] != names[p]
  {
  }

  function Source(p: Path, src: Dir, dst: Dir): Path {
    if p.dir == dst then Path(src, p.file) else p
  }

  function Moved(names: Names, src: Dir, dst: Dir): Names {
    var kept := set p | p in names && p.dir != src && p.dir != dst;
    var moved := set p | p in names && p.dir == src :: Path(dst, p.file);
    map p: Path | p in kept + moved && Source(p, src, dst) in names :: names[Source(p, src, dst)]
  }

  lemma MovedNames(names: Names, src: Dir, dst: Dir, p: Path)
    requires src != dst && forall q :: q in names ==> q.dir != dst
    ensures p in Moved(names, src, dst) <==> p.dir != src && Source(p, src, dst) in names
  {
    if p.dir == dst && Path(src, p.file) in names {
      assert Path(dst, Path(src, p.file).file) == p;
    }
  }

  lemma MovedSound(names: Names, data: Data, nextIno: nat, nextTemp: nat, src: Dir, dst: Dir)
    requires Sound(names, data, nextIno, nextTemp) && src.Staging? && !dst.Staging?
    requires forall q :: q in names ==> q.dir != dst
    ensures Sound(Moved(names, src, dst), data, nextIno, nextTemp)
  {
    hide Moved;
    var after := Moved(names, src, dst);
    forall p | p in after
      ensures p.dir != src && Source(p, src, dst) in names && after[p] == names[Source(p, src, dst)] && Handed(p, nextTemp)
    {
      MovedNames(names, src, dst, p);
      MovedTo(names, src, dst, p);
      assert Handed(Source(p, src, dst), nextTemp);
    }
    hide Handed;
    forall p, q | p in after && q in after && p != q && after[p] == after[q] ensures p.file == q.file == Facts {
      assert Source(p, src, dst) != Source(q, src, dst);
    }
  }

  lemma MovedTo(names: Names, src: Dir, dst: Dir, p: Path)
    requires p in Moved(names, src, dst)
    ensures Source(p, src, dst) in names && Moved(names, src, dst)[p] == names[Source(p, src, dst)]
  {
  }

  lemma MovedView(names: Names, data: Data, nextIno: nat, nextTemp: nat, src: Dir, dst: Dir)
    requires Sound(names, data, nextIno, nextTemp) && Sound(Moved(names, src, dst), data, nextIno, nextTemp)
    requires src != dst && forall q :: q in names ==> q.dir != dst
    ensures MovedDir(ViewOf(names, data), ViewOf(Moved(names, src, dst), data), src, dst)
  {
    hide Moved, OnlyFactsLinked, TempsHanded, ViewOf;
    var a, b := ViewOf(names, data), ViewOf(Moved(names, src, dst), data);
    forall p: Path
      ensures p in b <==> p.dir != src && Source(p, src, dst) in a
      ensures p in b ==> b[p] == a[Source(p, src, dst)]
    {
      MovedNames(names, src, dst, p);
      Viewed(names, data, Source(p, src, dst));
      Viewed(Moved(names, src, dst), data, p);
      if p in Moved(names, src, dst) {
        MovedTo(names, src, dst, p);
      }
    }
    forall q: Path | q.dir == dst ensures q !in a {
      Viewed(names, data, q);
    }
  }

  lemma Viewed(names: Names, data: Data, p: Path)
    requires forall q :: q in names ==> names[q] in data
    ensures p in ViewOf(names, data) <==> p in names
    ensures p in names ==> ViewOf(names, data)[p] == data[names[p]]
  {
  }

  class FileSystem {
    var names: Names
    var data: Data
    var nextIno: nat
    var nextTemp: nat
    ghost var trace: seq<View>

    /** How many calls have failed that could have succeeded. */
    ghost var faults: nat

    ghost predicate Valid()
      reads this
    {
      Sound(names, data, nextIno, nextTemp)
    }

    ghost function Files(): View
      requires Valid()
      reads this
    {
      ViewOf(names, data)
    }

    constructor ()
      ensures Valid() && Files() == map[] && trace == []
    {
      names, data, nextIno, nextTemp, trace, faults := map[], map[], 0, 0, [], 0;
    }

    predicate Exists(p: Path)
      reads this
    {
      p in names
    }

    /** A call may fail whenever the system likes. */
    method Try() returns (ok: bool)
      modifies this`faults
      ensures faults == if ok then old(faults) else old(faults) + 1
    {
      ok := *;
      if !ok {
        faults := faults + 1;
      }
    }

    /** Reading never changes anything, and may fail. */
    method Read(p: Path) returns (bytes: Option<Bytes>)
      requires Valid() && p in names
      modifies this`faults
      ensures bytes.Some? ==> bytes.value == Files()[p]
      ensures faults == if bytes.Some? then old(faults) else old(faults) + 1
    {
      var ok := Try();
      bytes := if ok then Some(data[names[p]]) else None;
    }

    /** Opens for writing: the file is created, or truncated in place. */
    method Truncate(p: Path)
      requires Valid() && p.file != Facts && Handed(p, nextTemp)
      modifies this`names, this`data, this`nextIno, this`trace
      ensures Valid() && Files() == old(Files())[p := ""] && trace == old(trace) + [Files()] && p in names
    {
      hide Sound, ViewOf, Handed;
      if p in names {
        InPlace(names, data, nextIno, nextTemp, p, "");
        data := data[names[p] := ""];
      } else {
        FreshInode(names, data, nextIno, nextTemp, p, "");
        data := data[nextIno := ""];
        names := names[p := nextIno];
        nextIno := nextIno + 1;
      }
      trace := trace + [Files()];
    }

    method Append(p: Path, bytes: Bytes)
      requires Valid() && p.file != Facts && p in names
      modifies this`data, this`trace
      ensures Valid() && Files() == old(Files())[p := bytes] && trace == old(trace) + [Files()]
    {
      hide Sound, ViewOf;
      InPlace(names, data, nextIno, nextTemp, p, bytes);
      data := data[names[p] := bytes];
      trace := trace + [Files()];
    }

    /** A write straight into a file: truncated first, then filled, and it can stop anywhere. */
    method WriteInPlace(p: Path, bytes: Bytes) returns (ok: bool)
      requires Valid() && p.file != Facts && Handed(p, nextTemp)
      modifies this`names, this`data, this`nextIno, this`trace, this`faults
      ensures Valid() && SameBut(old(Files()), Files(), {p}) && (p in old(Files()) ==> p in Files())
      ensures ok ==> Files() == old(Files())[p := bytes]
      ensures faults == if ok then old(faults) else old(faults) + 1
      ensures Ran(old(trace), old(Files()), trace, Files(), {p.dir})
    {
      hide Sound, ViewOf, Handed, Ran;
      StayedPut(trace, Files(), {p.dir});
      var canOpen := Try();
      if !canOpen {
        return false;
      }
      Truncate(p);
      OneStep(old(trace), old(Files()), Files(), p);
      label truncated:
      var n: nat :| n <= |bytes|;
      ok := Try();
      if ok {
        n := |bytes|;
      }
      Append(p, bytes[..n]);
      OneStep(old@truncated(trace), old@truncated(Files()), Files(), p);
      RanAgain(old(trace), old(Files()), old@truncated(trace), old@truncated(Files()), trace, Files(), {p.dir});
      assert bytes[..|bytes|] == bytes;
    }

    method Remove(p: Path) returns (ok: bool)
      requires Valid()
      modifies this`names, this`trace, this`faults
      ensures Valid()
      ensures ok ==> Files() == old(Files()) - {p} && trace == old(trace) + [Files()]
      ensures !ok ==> Files() == old(Files()) && trace == old(trace)
      ensures faults == if ok then old(faults) else old(faults) + 1
      ensures Ran(old(trace), old(Files()), trace, Files(), {p.dir})
    {
      hide Sound, ViewOf, Ran;
      StayedPut(trace, Files(), {p.dir});
      ok := Try();
      if ok {
        Unnamed(names, data, nextIno, nextTemp, p);
        names := names - {p};
        OneStep(trace, old(Files()), Files(), p);
        trace := trace + [Files()];
      }
    }

    /** A second name for a facts file. */
    method Link(src: Path, dst: Path) returns (ok: bool)
      requires Valid() && src.file == dst.file == Facts
      requires Handed(dst, nextTemp)
      modifies this`names, this`trace, this`faults
      ensures Valid()
      ensures ok ==> src in old(Files()) && Files() == old(Files())[dst := old(Files())[src]]
      ensures ok ==> src in names && dst in names && names[dst] == names[src]
      ensures !ok ==> Files() == old(Files())
      ensures faults >= old(faults)
      ensures ok <==> src in old(Files()) && dst !in old(Files()) && faults == old(faults)
      ensures Ran(old(trace), old(Files()), trace, Files(), {dst.dir})
    {
      Knows(src);
      Knows(dst);
      hide Sound, Handed, ViewOf, Ran;
      StayedPut(trace, Files(), {dst.dir});
      ok := Try();
      if src !in names || dst in names {
        ok := false;
      }
      if ok {
        Linked(names, data, nextIno, nextTemp, src, dst);
        names := names[dst := names[src]];
        OneStep(trace, old(Files()), Files(), dst);
        trace := trace + [Files()];
      }
    }

    /** Replaces `dst` by a temporary file. The file `dst` named before keeps its bytes. */
    method Rename(src: Path, dst: Path) returns (ok: bool)
      requires Valid() && src in names && src.file != Facts && src.dir == dst.dir && Handed(dst, nextTemp)
      modifies this`names, this`trace, this`faults
      ensures Valid()
      ensures ok ==> Files() == (old(Files()) - {src})[dst := old(Files())[src]]
      ensures !ok ==> Files() == old(Files())
      ensures faults == if ok then old(faults) else old(faults) + 1
      ensures Ran(old(trace), old(Files()), trace, Files(), {dst.dir})
    {
      Knows(src);
      hide Sound, Handed, ViewOf, Ran;
      StayedPut(trace, Files(), {dst.dir});
      ok := Try();
      if ok {
        Renamed(names, data, nextIno, nextTemp, src, dst);
        names := (names - {src})[dst := names[src]];
        RenameStep(trace, old(Files()), src, dst);
        trace := trace + [Files()];
      }
    }

    lemma KnowsAll()
      requires Valid()
      ensures forall p :: p in names <==> p in Files()
    {
    }

    lemma Knows(p: Path)
      requires Valid()
      ensures p in names <==> p in Files()
    {
    }

    /** A new directory with a name nothing has used. */
    method MkdirTemp() returns (dir: Option<Dir>)
      requires Valid()
      modifies this`nextTemp, this`faults
      ensures Valid() && Files() == old(Files()) && nextTemp >= old(nextTemp)
      ensures faults == if dir.Some? then old(faults) else old(faults) + 1
      ensures dir.Some? ==>
        && dir.value == Staging(old(nextTemp)) && old(nextTemp) < nextTemp
        && forall p :: p in Files() ==> p.dir != dir.value
    {
      var ok := Try();
      if ok {
        dir := Some(Staging(nextTemp));
        nextTemp := nextTemp + 1;
      } else {
        dir := None;
      }
    }

    method CreateTemp(dir: Dir) returns (p: Option<Path>)
      requires Valid() && !dir.Staging?
      modifies this`nextTemp, this`faults
      ensures Valid() && Files() == old(Files()) && nextTemp >= old(nextTemp)
      ensures faults == if p.Some? then old(faults) else old(faults) + 1
      ensures p.Some? ==> p.value.dir == dir && p.value.file.Unique? && p.value.file.n < nextTemp && p.value !in Files()
    {
      var ok := Try();
      if ok {
        p := Some(Path(dir, Unique(nextTemp)));
        nextTemp := nextTemp + 1;
      } else {
        p := None;
      }
    }

    /** Renames a staging directory to one that does not exist. */
    method RenameDir(src: Dir, dst: Dir) returns (ok: bool)
      requires Valid() && src.Staging? && !dst.Staging?
      requires forall p :: p in Files() ==> p.dir != dst
      modifies this`names, this`trace, this`faults
      ensures Valid()
      ensures ok ==> MovedDir(old(Files()), Files(), src, dst) && trace == old(trace) + [Files()]
      ensures !ok ==> Files() == old(Files()) && trace == old(trace)
      ensures faults == if ok then old(faults) else old(faults) + 1
    {
      ok := Try();
      if ok {
        MovedSound(names, data, nextIno, nextTemp, src, dst);
        MovedView(names, data, nextIno, nextTemp, src, dst);
        hide *;
        names := Moved(names, src, dst);
        trace := trace + [Files()];
      }
    }
  }

  ghost predicate MovedDir(a: View, b: View, src: Dir, dst: Dir) {
    && SameElsewhere(a, b, {src, dst})
    && (forall f: File :: Path(src, f) !in b)
    && (forall f: File :: Path(dst, f) in b <==> Path(src, f) in a)
    && (forall f: File :: Path(dst, f) in b ==> b[Path(dst, f)] == a[Path(src, f)])
  }
}
