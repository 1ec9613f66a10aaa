/** The pruning walk and the per-path ignore test (walkRepo in internal/engine/engine.go,
    ignoredPaths in internal/engine/extractfiles.go, internal/engine/pkgexempt.go). A path is its
    segments; the root is the empty path. */
module Ignore {
  import opened Wrappers

  type Path = seq<string>

  /** A link in the tree is a file here: the walk does not follow it. */
  datatype Node = File | Dir(entries: seq<(string, Node)>, linkedWorktree: bool)

  /** `glob(g, p)`: the glob `g` matches the path `p`. */
  datatype Config = Config(glob: (string, Path) -> bool, ignore: seq<string>)

  const EXEMPT_GLOBS: set<string> := {"**/build/**", "**/tmp/**", "**/dist/**"}
  const EXEMPT_NAMES: set<string> := {"build", "tmp", "dist"}

  // ---- The tree ----

  predicate DistinctNames(entries: seq<(string, Node)>) {
    forall i, j :: 0 <= i < j < |entries| ==> entries[i].0 != entries[j].0
  }

  predicate WellFormed(n: Node) {
    n.Dir? ==> DistinctNames(n.entries) && forall i :: 0 <= i < |n.entries| ==> WellFormed(n.entries[i].1)
  }

  function Entry(entries: seq<(string, Node)>, name: string): (r: Option<Node>)
    ensures r.Some? <==> exists i :: 0 <= i < |entries| && entries[i].0 == name
    ensures r.Some? ==> exists i :: 0 <= i < |entries| && entries[i] == (name, r.value)
  {
    if entries == [] then None
    else if entries[0].0 == name then Some(entries[0].1)
    else
      var r := Entry(entries[1..], name);
      assert r.Some? ==> exists i :: 0 <= i < |entries[1..]| && entries[1..][i] == (name, r.value) && entries[i + 1] == (name, r.value);
      r
  }

  function At(n: Node, p: Path): Option<Node>
    decreases |p|
  {
    if p == [] then Some(n)
    else if n.File? then None
    else
      var e := Entry(n.entries, p[0]);
      if e.None? then None else At(e.value, p[1..])
  }

  predicate IsPython(name: string) {
    |name| >= 3 && name[|name| - 3..] == ".py"
  }

  predicate HoldsPython(entries: seq<(string, Node)>) {
    exists i :: 0 <= i < |entries| && entries[i].1.File? && IsPython(entries[i].0)
  }

  /** A directory that directly holds a Python file. */
  predicate IsPackage(root: Node, dir: Path) {
    var n := At(root, dir);
    n.Some? && n.value.Dir? && HoldsPython(n.value.entries)
  }

  // ---- Ignoring ----

  function FirstMatch(c: Config, globs: seq<string>, p: Path): (r: Option<string>)
    ensures r.None? <==> forall g :: g in globs ==> !c.glob(g, p)
    ensures r.Some? ==> r.value in globs && c.glob(r.value, p)
  {
    if globs == [] then None
    else if c.glob(globs[0], p) then Some(globs[0])
    else FirstMatch(c, globs[1..], p)
  }

  function Rest(globs: seq<string>): (r: seq<string>)
    ensures forall g :: g in r <==> g in globs && g !in EXEMPT_GLOBS
  {
    if globs == [] then []
    else if globs[0] in EXEMPT_GLOBS then Rest(globs[1..])
    else [globs[0]] + Rest(globs[1..])
  }

  /** The segments of `p` that name directories. */
  function Dirs(p: Path, isDir: bool): nat {
    if isDir || p == [] then |p| else |p| - 1
  }

  /** Every directory on the path named like build output is a Python package. */
  predicate AllPackages(root: Node, p: Path, n: nat)
    requires n <= |p|
  {
    forall i :: 0 <= i < n && p[i] in EXEMPT_NAMES ==> IsPackage(root, p[..i + 1])
  }

  predicate Exempt(c: Config, root: Node, p: Path, pattern: string, isDir: bool) {
    && pattern in EXEMPT_GLOBS
    && AllPackages(root, p, Dirs(p, isDir))
    && FirstMatch(c, Rest(c.ignore), p).None?
  }

  /** The ignore check of one entry. */
  predicate Hit(c: Config, root: Node, p: Path, isDir: bool) {
    var m := FirstMatch(c, c.ignore, p);
    m.Some? && !Exempt(c, root, p, m.value, isDir)
  }

  /** The order of the ignore list does not matter: an entry is ignored when a glob other than
      the exemptable ones matches it, or an exemptable one does and some directory on the path
      named like build output holds no Python source. */
  lemma HitExactly(c: Config, root: Node, p: Path, isDir: bool)
    ensures Hit(c, root, p, isDir) <==>
      || (exists g :: g in c.ignore && g !in EXEMPT_GLOBS && c.glob(g, p))
      || (exists g :: g in c.ignore && g in EXEMPT_GLOBS && c.glob(g, p) && !AllPackages(root, p, Dirs(p, isDir)))
  {
    hide AllPackages;
    var m, r := FirstMatch(c, c.ignore, p), FirstMatch(c, Rest(c.ignore), p);
    if m.Some? && r.Some? {
      assert r.value in c.ignore && r.value !in EXEMPT_GLOBS;
    }
  }

  class PackageExemption {
    const c: Config
    const root: Node
    const rest: seq<string>
    var isPkg: map<Path, bool>

    /** The memo agrees with the disk. */
    ghost predicate Valid()
      reads this
    {
      rest == Rest(c.ignore) && forall d :: d in isPkg ==> isPkg[d] == IsPackage(root, d)
    }

    constructor (config: Config, tree: Node)
      ensures Valid() && c == config && root == tree
    {
      c, root, rest, isPkg := config, tree, Rest(config.ignore), map[];
    }

    method Pkg(dir: Path) returns (v: bool)
      requires Valid()
      modifies this
      ensures Valid() && v == IsPackage(root, dir)
    {
      if dir in isPkg {
        return isPkg[dir];
      }
      var n := At(root, dir);
      if n.Some? && n.value.Dir? {
        var entries := n.value.entries;
        for i := 0 to |entries|
          invariant forall j :: 0 <= j < i ==> !(entries[j].1.File? && IsPython(entries[j].0))
          invariant isPkg == old(isPkg)
        {
          if entries[i].1.File? && IsPython(entries[i].0) {
            isPkg := isPkg[dir := true];
            return true;
          }
        }
      }
      isPkg := isPkg[dir := false];
      v := false;
    }

    method Exempts(p: Path, pattern: string, isDir: bool) returns (v: bool)
      requires Valid()
      modifies this
      ensures Valid() && v == Exempt(c, root, p, pattern, isDir)
    {
      if pattern !in EXEMPT_GLOBS {
        return false;
      }
      hide IsPackage;
      var n := Dirs(p, isDir);
      for i := 0 to n
        invariant Valid() && AllPackages(root, p, i)
      {
        if p[i] in EXEMPT_NAMES {
          var pkg := Pkg(p[..i + 1]);
          if !pkg {
            return false;
          }
        }
      }
      v := FirstMatch(c, rest, p).None?;
    }

    method Hits(p: Path, isDir: bool) returns (v: bool)
      requires Valid()
      modifies this
      ensures Valid() && v == Hit(c, root, p, isDir)
    {
      var m := FirstMatch(c, c.ignore, p);
      if m.None? {
        return false;
      }
      var exempt := Exempts(p, m.value, isDir);
      v := !exempt;
    }
  }

  // ---- Path by path ----

  /** Ignored itself, or under a directory the walk would have pruned. */
  predicate Ignored(c: Config, root: Node, p: Path) {
    (exists i :: 1 <= i < |p| && Hit(c, root, p[..i], true)) || Hit(c, root, p, false)
  }

  method IgnoredPath(ex: PackageExemption, p: Path) returns (v: bool)
    requires ex.Valid()
    modifies ex
    ensures ex.Valid() && v == Ignored(ex.c, ex.root, p)
  {
    hide Hit, PackageExemption.Valid;
    var i := 1;
    while i < |p|
      invariant 1 <= i && ex.Valid()
      invariant forall j :: 1 <= j < i && j < |p| ==> !Hit(ex.c, ex.root, p[..j], true)
    {
      var hit := ex.Hits(p[..i], true);
      if hit {
        return true;
      }
      i := i + 1;
    }
    v := ex.Hits(p, false);
  }

  // ---- The walk ----

  /** The path the ignore globs see: the root is a dot. */
  function Seen(p: Path): Path {
    if p == [] then ["."] else p
  }

  predicate Pruned(c: Config, root: Node, n: Node, p: Path) {
    (n.Dir? && p != [] && n.linkedWorktree) || Hit(c, root, Seen(p), n.Dir?)
  }

  /** The files of the walk from this entry on. */
  function Walked(c: Config, root: Node, n: Node, p: Path): seq<Path>
    decreases n, 2
  {
    if Pruned(c, root, n, p) then []
    else if n.File? then [p]
    else WalkedIn(c, root, n, p, |n.entries|)
  }

  function WalkedIn(c: Config, root: Node, n: Node, p: Path, k: nat): seq<Path>
    requires n.Dir? && k <= |n.entries|
    decreases n, 1, k
  {
    if k == 0 then []
    else WalkedIn(c, root, n, p, k - 1) + Walked(c, root, n.entries[k - 1].1, p + [n.entries[k - 1].0])
  }

  method Walk(ex: PackageExemption, n: Node, p: Path) returns (files: seq<Path>)
    requires ex.Valid()
    modifies ex
    ensures ex.Valid() && files == Walked(ex.c, ex.root, n, p)
    decreases n
  {
    hide Hit, PackageExemption.Valid;
    if n.Dir? && p != [] && n.linkedWorktree {
      return [];
    }
    var hit := ex.Hits(Seen(p), n.Dir?);
    if hit {
      return [];
    }
    if n.File? {
      return [p];
    }
    files := [];
    for k := 0 to |n.entries|
      invariant ex.Valid() && files == WalkedIn(ex.c, ex.root, n, p, k)
    {
      var below := Walk(ex, n.entries[k].1, p + [n.entries[k].0]);
      files := files + below;
    }
  }

  // ---- The two agree ----

  /** No entry from `n` down to `n`'s descendant `s` is pruned. */
  predicate Open(c: Config, root: Node, n: Node, p: Path, s: Path)
    decreases |s|
  {
    && !Pruned(c, root, n, p)
    && (s == [] || (n.Dir? && Entry(n.entries, s[0]).Some? && Open(c, root, Entry(n.entries, s[0]).value, p + [s[0]], s[1..])))
  }

  /** The walk of `n` finds the file `s` below it. */
  predicate Finds(c: Config, root: Node, n: Node, p: Path, s: Path) {
    At(n, s) == Some(File) && Open(c, root, n, p, s)
  }

  lemma {:induction false} WalkedFinds(c: Config, root: Node, n: Node, p: Path, q: Path)
    requires WellFormed(n)
    ensures q in Walked(c, root, n, p) <==> p <= q && Finds(c, root, n, p, q[|p|..])
    decreases n, 2
  {
    hide Hit;
    if !Pruned(c, root, n, p) {
      if n.File? {
        assert p <= q && q[|p|..] == [] ==> q == p;
      } else {
        WalkedInFinds(c, root, n, p, |n.entries|, q);
      }
    }
  }

  lemma {:induction false} WalkedInFinds(c: Config, root: Node, n: Node, p: Path, k: nat, q: Path)
    requires WellFormed(n) && n.Dir? && k <= |n.entries|
    ensures q in WalkedIn(c, root, n, p, k) <==>
      exists i :: 0 <= i < k && p + [n.entries[i].0] <= q && Finds(c, root, n.entries[i].1, p + [n.entries[i].0], q[|p| + 1..])
    decreases n, 1, k
  {
    hide Finds;
    if k > 0 {
      WalkedInFinds(c, root, n, p, k - 1, q);
      WalkedFinds(c, root, n.entries[k - 1].1, p + [n.entries[k - 1].0], q);
    }
  }

  lemma {:induction false} AtStep(n: Node, s: Path, i: nat)
    requires At(n, s).Some? && i < |s|
    ensures At(n, s[..i]).Some? && At(n, s[..i]).value.Dir?
    decreases |s|
  {
    if i > 0 {
      AtStep(Entry(n.entries, s[0]).value, s[1..], i - 1);
      assert s[..i][1..] == s[1..][..i - 1];
    }
  }

  lemma {:induction false} OpenMeans(c: Config, root: Node, n: Node, p: Path, s: Path)
    requires At(n, s).Some?
    ensures Open(c, root, n, p, s) <==>
      forall i :: 0 <= i <= |s| ==> At(n, s[..i]).Some? && !Pruned(c, root, At(n, s[..i]).value, p + s[..i])
    decreases |s|
  {
    hide Pruned;
    assert s[..0] == [] && p + s[..0] == p;
    if s != [] {
      var e := Entry(n.entries, s[0]).value;
      OpenMeans(c, root, e, p + [s[0]], s[1..]);
      forall i | 1 <= i <= |s|
        ensures At(n, s[..i]) == At(e, s[1..][..i - 1]) && p + s[..i] == p + [s[0]] + s[1..][..i - 1]
      {
        assert s[..i][1..] == s[1..][..i - 1] && s[..i][0] == s[0];
      }
      forall j | 0 <= j <= |s[1..]|
        ensures At(n, s[..j + 1]) == At(e, s[1..][..j]) && p + s[..j + 1] == p + [s[0]] + s[1..][..j]
      {
        assert s[..j + 1][1..] == s[1..][..j] && s[..j + 1][0] == s[0];
      }
      if Open(c, root, n, p, s) {
        forall i | 0 <= i <= |s| ensures At(n, s[..i]).Some? && !Pruned(c, root, At(n, s[..i]).value, p + s[..i]) {
          if i > 0 {
            assert At(e, s[1..][..i - 1]).Some?;
          }
        }
      }
    }
  }

  /** A worktree of another checkout somewhere above the file. */
  predicate UnderWorktree(root: Node, q: Path) {
    exists i :: 1 <= i < |q| && At(root, q[..i]).Some? && At(root, q[..i]).value.Dir? && At(root, q[..i]).value.linkedWorktree
  }

  /** The walk lists a file exactly when the root is not ignored, no directory above the file is
      another worktree, and the per-path test does not ignore it. */
  lemma WalkIsIgnoredPaths(c: Config, root: Node, q: Path)
    requires root.Dir? && WellFormed(root)
    ensures q in Walked(c, root, root, []) <==>
      && At(root, q) == Some(File)
      && !Hit(c, root, ["."], true) && !UnderWorktree(root, q) && !Ignored(c, root, q)
  {
    hide Hit, WellFormed;
    WalkedFinds(c, root, root, [], q);
    assert q[0..] == q && q[..0] == [] && q[..|q|] == q;
    if At(root, q) == Some(File) {
      OpenMeans(c, root, root, [], q);
      forall i | 0 <= i <= |q|
        ensures At(root, q[..i]).Some? && (i < |q| ==> At(root, q[..i]).value.Dir?) && [] + q[..i] == q[..i]
      {
        if i < |q| {
          AtStep(root, q, i);
        }
      }
      hide Open, At;
      assert Open(c, root, root, [], q) <==> forall i :: 0 <= i <= |q| ==> !Pruned(c, root, At(root, q[..i]).value, q[..i]);
    }
  }

  /** A file the walk keeps although an ignore glob matches it: the match is on one of the globs
      that name build output, every directory so named on its path holds Python source, and
      nothing else in the ignore list matches it. */
  lemma KeptUnderBuild(c: Config, root: Node, q: Path)
    requires root.Dir? && WellFormed(root) && q in Walked(c, root, root, [])
    requires exists g :: g in c.ignore && c.glob(g, q)
    ensures forall g :: g in c.ignore && c.glob(g, q) ==> g in EXEMPT_GLOBS
    ensures forall i :: 0 <= i < |q| - 1 && q[i] in EXEMPT_NAMES ==> IsPackage(root, q[..i + 1])
  {
    hide Walked, UnderWorktree, IsPackage, WellFormed;
    WalkIsIgnoredPaths(c, root, q);
    HitExactly(c, root, q, false);
  }

  // ---- In the words of the globs ----

  /** The directory directly holds a file whose name ends in `.py`. */
  ghost predicate HoldsSource(root: Node, dir: Path) {
    var n := At(root, dir);
    n.Some? && n.value.Dir? && exists i, s: string :: 0 <= i < |n.value.entries| && n.value.entries[i] == (s + ".py", File)
  }

  /** Some glob matches, and is not one of the three that name build output, or is and some directory
      on the path named like build output holds no Python source. */
  ghost predicate Blocked(c: Config, root: Node, p: Path, isDir: bool) {
    exists g :: g in c.ignore && c.glob(g, p) &&
      (g in {"**/build/**", "**/tmp/**", "**/dist/**"} ==> exists i :: 0 <= i < (if isDir then |p| else |p| - 1) && Plain(root, p, i))
  }

  ghost predicate Plain(root: Node, p: Path, i: nat)
    requires i < |p|
  {
    p[i] in {"build", "tmp", "dist"} && !HoldsSource(root, p[..i + 1])
  }

  lemma PythonName(name: string)
    ensures IsPython(name) <==> exists s: string :: name == s + ".py"
  {
    if IsPython(name) {
      assert name == name[..|name| - 3] + ".py";
    }
    if s: string :| name == s + ".py" {
      assert name[|name| - 3..] == ".py";
    }
  }

  lemma PackageMeans(root: Node, dir: Path)
    ensures IsPackage(root, dir) <==> HoldsSource(root, dir)
  {
    hide IsPython;
    var n := At(root, dir);
    if n.Some? && n.value.Dir? {
      var es := n.value.entries;
      forall i | 0 <= i < |es| ensures es[i].1.File? && IsPython(es[i].0) <==> exists s: string :: es[i] == (s + ".py", File) {
        PythonName(es[i].0);
      }
      if i :| 0 <= i < |es| && es[i].1.File? && IsPython(es[i].0) {
        var s: string :| es[i] == (s + ".py", File);
      }
      if i, s: string :| 0 <= i < |es| && es[i] == (s + ".py", File) {
        assert es[i].1.File? && IsPython(es[i].0);
      }
    }
  }

  lemma NotAllPackages(root: Node, p: Path, n: nat)
    requires n <= |p|
    ensures !AllPackages(root, p, n) <==> exists i :: 0 <= i < n && Plain(root, p, i)
  {
    forall i | 0 <= i < n ensures Plain(root, p, i) <==> p[i] in EXEMPT_NAMES && !IsPackage(root, p[..i + 1]) {
      PackageMeans(root, p[..i + 1]);
    }
    hide Plain, IsPackage, HoldsSource;
  }

  /** An entry is ignored exactly when a glob blocks it. */
  lemma HitMeans(c: Config, root: Node, p: Path, isDir: bool)
    requires p != []
    ensures Hit(c, root, p, isDir) <==> Blocked(c, root, p, isDir)
  {
    HitExactly(c, root, p, isDir);
    NotAllPackages(root, p, Dirs(p, isDir));
    hide Hit, AllPackages, Plain;
    assert Dirs(p, isDir) == if isDir then |p| else |p| - 1;
    if Blocked(c, root, p, isDir) {
      var g :| g in c.ignore && c.glob(g, p) &&
        (g in {"**/build/**", "**/tmp/**", "**/dist/**"} ==> exists i :: 0 <= i < (if isDir then |p| else |p| - 1) && Plain(root, p, i));
      assert g in EXEMPT_GLOBS <==> g in {"**/build/**", "**/tmp/**", "**/dist/**"};
    }
  }

  /** The walk lists exactly the files that exist, with no other worktree above them, that no glob
      blocks, and that lie under no directory a glob blocks. */
  lemma WalkMeans(c: Config, root: Node, q: Path)
    requires root.Dir? && WellFormed(root) && q != []
    ensures q in Walked(c, root, root, []) <==>
      && At(root, q) == Some(File)
      && !Blocked(c, root, ["."], true) && !UnderWorktree(root, q)
      && forall n :: 1 <= n <= |q| ==> !Blocked(c, root, q[..n], n < |q|)
  {
    hide Hit, Blocked, Walked, UnderWorktree, WellFormed, At;
    WalkIsIgnoredPaths(c, root, q);
    HitMeans(c, root, ["."], true);
    assert q[..|q|] == q;
    forall n | 1 <= n <= |q| ensures Hit(c, root, q[..n], n < |q|) <==> Blocked(c, root, q[..n], n < |q|) {
      HitMeans(c, root, q[..n], n < |q|);
    }
    if !Ignored(c, root, q) {
      forall n | 1 <= n <= |q| ensures !Blocked(c, root, q[..n], n < |q|) {
        assert !Hit(c, root, q[..n], n < |q|);
      }
    }
    if forall n :: 1 <= n <= |q| ==> !Blocked(c, root, q[..n], n < |q|) {
      forall n | 1 <= n <= |q| ensures !Hit(c, root, q[..n], n < |q|) {
        assert !Blocked(c, root, q[..n], n < |q|);
      }
    }
  }
}
