/** The keys extractor facts are cached under (internal/engine/cache.go): computeExtractorKeys,
    hashFileSet and probedKey, and what a key determines when hashes do not collide. */
module Keys {
  import opened Wrappers
  import opened Text
  import opened Bags
  import opened Slices

  type Sha = string -> string

  const NUL_TEXT: string := [NUL]

  /** Hashes in hex: no NUL among the digits, and no two texts share one. */
  ghost predicate CollisionFree(sha: Sha) {
    && (forall s: string :: NulFree(sha(s)))
    && (forall s: string, t: string :: sha(s) == sha(t) ==> s == t)
  }

  // ---- File sets ----

  datatype Hashed = Hashed(path: string, hash: string)

  /** The hash recorded for a path; a file that could not be read has none. */
  function HashOf(hashes: map<string, string>, path: string): string {
    if path in hashes then hashes[path] else ""
  }

  function WithHashes(files: seq<string>, hashes: map<string, string>): seq<Hashed> {
    seq(|files|, i requires 0 <= i < |files| => Hashed(files[i], HashOf(hashes, files[i])))
  }

  /** What `hashFileSet` feeds to the hash. */
  function SetText(hs: seq<Hashed>): string {
    if hs == [] then "" else SetText(hs[..|hs| - 1]) + (hs[|hs| - 1].path + NUL_TEXT + (hs[|hs| - 1].hash + NUL_TEXT))
  }

  predicate Clean(hs: seq<Hashed>) {
    forall i :: 0 <= i < |hs| ==> NulFree(hs[i].path) && NulFree(hs[i].hash)
  }

  /** The set as pairs of NUL-terminated fields, read from the front. */
  lemma {:induction false} SetTextFront(hs: seq<Hashed>)
    requires hs != []
    ensures SetText(hs) == hs[0].path + NUL_TEXT + (hs[0].hash + NUL_TEXT + SetText(hs[1..]))
    decreases |hs|
  {
    var last := hs[|hs| - 1];
    if |hs| == 1 {
      assert hs[..0] == [] && hs[1..] == [];
      assert SetText(hs) == last.path + NUL_TEXT + (last.hash + NUL_TEXT);
    } else {
      var init := hs[..|hs| - 1];
      SetTextFront(init);
      assert hs[1..][..|hs| - 2] == init[1..];
      var end := last.path + NUL_TEXT + (last.hash + NUL_TEXT);
      var p, h := hs[0].path + NUL_TEXT, hs[0].hash + NUL_TEXT;
      assert p + (h + SetText(init[1..])) + end == p + (h + (SetText(init[1..]) + end));
    }
  }

  lemma {:induction false} SetTextUnique(a: seq<Hashed>, b: seq<Hashed>)
    requires Clean(a) && Clean(b) && SetText(a) == SetText(b)
    ensures a == b
    decreases |a|
  {
    if a != [] && b != [] {
      SetTextFront(a);
      SetTextFront(b);
      FieldUnique(a[0].path, a[0].hash + NUL_TEXT + SetText(a[1..]), b[0].path, b[0].hash + NUL_TEXT + SetText(b[1..]));
      FieldUnique(a[0].hash, SetText(a[1..]), b[0].hash, SetText(b[1..]));
      SetTextUnique(a[1..], b[1..]);
      assert a == [a[0]] + a[1..] && b == [b[0]] + b[1..];
    } else if a != [] {
      SetTextFront(a);
    } else if b != [] {
      SetTextFront(b);
    }
  }

  method HashFileSet(sha: Sha, files: seq<string>, hashes: map<string, string>) returns (h: string)
    ensures h == sha(SetText(WithHashes(Sorted(files), hashes)))
  {
    var sorted := SortSlice(files, (x: string) => x);
    SortedIsSorted(files);
    SortedUnique(sorted, Sorted(files));
    var text := "";
    for i := 0 to |sorted|
      invariant text == SetText(WithHashes(sorted, hashes)[..i])
    {
      var hs := WithHashes(sorted, hashes);
      TakeSnoc(hs, i + 1);
      text := text + (sorted[i] + NUL_TEXT + (HashOf(hashes, sorted[i]) + NUL_TEXT));
    }
    TakeAll(WithHashes(sorted, hashes));
    h := sha(text);
  }

  // ---- Ownership ----

  /** What an extractor says about its files: which it owns, which others change its facts, and
      the configuration it reads, if it says. */
  datatype Owner = Owner(owns: string -> bool, affects: Option<string -> bool>, config: Option<string>)

  type Owners = map<string, Owner>

  predicate InKey(o: Owner, f: string) {
    o.owns(f) || (o.affects.Some? && o.affects.value(f))
  }

  predicate OwnedByAny(owners: Owners, f: string) {
    exists name :: name in owners && owners[name].owns(f)
  }

  function KeyFiles(o: Owner, files: seq<string>): seq<string> {
    if files == [] then []
    else if InKey(o, files[|files| - 1]) then KeyFiles(o, files[..|files| - 1]) + [files[|files| - 1]]
    else KeyFiles(o, files[..|files| - 1])
  }

  function SharedFiles(owners: Owners, files: seq<string>): seq<string> {
    if files == [] then []
    else if OwnedByAny(owners, files[|files| - 1]) then SharedFiles(owners, files[..|files| - 1])
    else SharedFiles(owners, files[..|files| - 1]) + [files[|files| - 1]]
  }

  /** Everything an extractor's facts may depend on, disk probes aside. */
  datatype View = View(own: seq<Hashed>, shared: seq<Hashed>, config: string)

  predicate CleanView(v: View) {
    Clean(v.own) && Clean(v.shared)
  }

  function ConfigOf(o: Owner): string {
    if o.config.Some? then o.config.value else ""
  }

  function ViewOf(owners: Owners, o: Owner, files: seq<string>, hashes: map<string, string>): View {
    View(WithHashes(Sorted(KeyFiles(o, files)), hashes), WithHashes(Sorted(SharedFiles(owners, files)), hashes), ConfigOf(o))
  }

  // ---- Keys ----

  function ConfigText(config: string): string {
    if config == "" then "" else NUL_TEXT + ("config" + (NUL_TEXT + config))
  }

  function KeyText(sha: Sha, version: string, name: string, v: View): string {
    version + NUL_TEXT + (name + NUL_TEXT + (sha(SetText(v.shared)) + NUL_TEXT + (sha(SetText(v.own)) + ConfigText(v.config))))
  }

  function Key(sha: Sha, version: string, name: string, v: View): string {
    sha(KeyText(sha, version, name, v))
  }

  /** A key determines the extractor it is for and everything it was computed from. */
  lemma KeyFixesView(sha: Sha, version: string, n: string, v: View, m: string, w: View)
    requires CollisionFree(sha) && NulFree(version) && NulFree(n) && NulFree(m) && CleanView(v) && CleanView(w)
    requires Key(sha, version, n, v) == Key(sha, version, m, w)
    ensures n == m && v == w
  {
    hide SetText, Clean, NulFree, ConfigText;
    var vs, ws := sha(SetText(v.shared)), sha(SetText(w.shared));
    var vo, wo := sha(SetText(v.own)), sha(SetText(w.own));
    var vr, wr := vo + ConfigText(v.config), wo + ConfigText(w.config);
    FieldUnique(version, n + NUL_TEXT + (vs + NUL_TEXT + vr), version, m + NUL_TEXT + (ws + NUL_TEXT + wr));
    FieldUnique(n, vs + NUL_TEXT + vr, m, ws + NUL_TEXT + wr);
    FieldUnique(vs, vr, ws, wr);
    ConfigUnique(vo, v.config, wo, w.config);
    SetTextUnique(v.own, w.own);
    SetTextUnique(v.shared, w.shared);
  }

  lemma ConfigShows(vo: string, a: string)
    requires NulFree(vo)
    ensures NUL in vo + ConfigText(a) <==> a != ""
  {
    if a == "" {
      assert vo + ConfigText(a) == vo;
    } else {
      assert (vo + ConfigText(a))[|vo|] == NUL;
    }
  }

  lemma ConfigUnique(vo: string, a: string, wo: string, b: string)
    requires NulFree(vo) && NulFree(wo) && vo + ConfigText(a) == wo + ConfigText(b)
    ensures vo == wo && a == b
  {
    ConfigShows(vo, a);
    ConfigShows(wo, b);
    if a == "" {
      assert vo + ConfigText(a) == vo && wo + ConfigText(b) == wo;
    } else {
      hide NulFree, ConfigText;
      ConfigParts(vo, a);
      ConfigParts(wo, b);
      FieldUnique(vo, "config" + (NUL_TEXT + a), wo, "config" + (NUL_TEXT + b));
    }
  }

  lemma ConfigParts(vo: string, a: string)
    requires a != ""
    ensures vo + ConfigText(a) == vo + NUL_TEXT + ("config" + (NUL_TEXT + a))
    ensures ("config" + (NUL_TEXT + a))[7..] == a
  {
  }

  // ---- What a key covers ----

  /** A file may change the extractor's facts: it owns it or reads it, or no extractor owns it. */
  ghost predicate Covers(owners: Owners, name: string, f: string)
    requires name in owners
  {
    || owners[name].owns(f)
    || (owners[name].affects.Some? && owners[name].affects.value(f))
    || forall other :: other in owners ==> !owners[other].owns(f)
  }

  lemma {:induction false} Filtered(owners: Owners, o: Owner, files: seq<string>, f: string)
    ensures f in KeyFiles(o, files) <==> f in files && (o.owns(f) || (o.affects.Some? && o.affects.value(f)))
    ensures f in SharedFiles(owners, files) <==> f in files && forall other :: other in owners ==> !owners[other].owns(f)
    decreases |files|
  {
    if files != [] {
      Filtered(owners, o, files[..|files| - 1], f);
      assert files == files[..|files| - 1] + [files[|files| - 1]];
    }
  }

  lemma InSorted(files: seq<string>, f: string)
    ensures f in Sorted(files) <==> f in files
  {
    SortedIsSorted(files);
    assert f in multiset(Sorted(files)) <==> f in multiset(files);
  }

  /** Equal hashed sets hold the same files with the same recorded hashes. */
  lemma SameHashed(files: seq<string>, hashes: map<string, string>, files': seq<string>, hashes': map<string, string>, f: string)
    requires WithHashes(Sorted(files), hashes) == WithHashes(Sorted(files'), hashes') && f in files
    ensures f in files'
    ensures f in hashes && hashes[f] != "" ==> f in hashes' && hashes'[f] == hashes[f]
  {
    InSorted(files, f);
    InSorted(files', f);
    var s, t := Sorted(files), Sorted(files');
    hide Sorted;
    var i :| 0 <= i < |s| && s[i] == f;
    assert WithHashes(s, hashes)[i] == WithHashes(t, hashes')[i];
  }

  /** Two runs that compute the same key have the same extractor before them, the same files that
      may change its facts, with the same recorded contents, and the same configuration. */
  lemma KeyCoversInputs(sha: Sha, version: string, name: string, owners: Owners, files: seq<string>, hashes: map<string, string>,
                        name': string, owners': Owners, files': seq<string>, hashes': map<string, string>)
    requires CollisionFree(sha) && NulFree(version) && NulFree(name) && NulFree(name') && name in owners && name' in owners'
    requires CleanView(ViewOf(owners, owners[name], files, hashes)) && CleanView(ViewOf(owners', owners'[name'], files', hashes'))
    requires Key(sha, version, name, ViewOf(owners, owners[name], files, hashes))
          == Key(sha, version, name', ViewOf(owners', owners'[name'], files', hashes'))
    ensures name == name'
    ensures forall f :: f in files && Covers(owners, name, f) ==> f in files'
    ensures forall f :: f in files && Covers(owners, name, f) && f in hashes && hashes[f] != "" ==> f in hashes' && hashes'[f] == hashes[f]
    ensures owners[name].config.Some? && owners[name].config.value != "" ==> owners'[name'].config == owners[name].config
    ensures owners[name].config.None? || owners[name].config.value == "" ==>
      owners'[name'].config.None? || owners'[name'].config.value == ""
  {
    hide CollisionFree, NulFree, CleanView, Key;
    var o, o' := owners[name], owners'[name'];
    KeyFixesView(sha, version, name, ViewOf(owners, o, files, hashes), name', ViewOf(owners', o', files', hashes'));
    hide Sorted, WithHashes, KeyFiles, SharedFiles;
    forall f | f in files && Covers(owners, name, f)
      ensures f in files' && (f in hashes && hashes[f] != "" ==> f in hashes' && hashes'[f] == hashes[f])
    {
      Filtered(owners, o, files, f);
      Filtered(owners', o', files', f);
      if f in KeyFiles(o, files) {
        SameHashed(KeyFiles(o, files), hashes, KeyFiles(o', files'), hashes', f);
      } else {
        SameHashed(SharedFiles(owners, files), hashes, SharedFiles(owners', files'), hashes', f);
      }
    }
  }

  /** A change of contents that cannot change the extractor's facts leaves its key alone. */
  lemma KeySpared(sha: Sha, version: string, name: string, owners: Owners, files: seq<string>,
                  hashes: map<string, string>, hashes': map<string, string>)
    requires name in owners
    requires forall f :: f in files && Covers(owners, name, f) ==>
      (f in hashes <==> f in hashes') && (f in hashes ==> hashes'[f] == hashes[f])
    ensures Key(sha, version, name, ViewOf(owners, owners[name], files, hashes))
         == Key(sha, version, name, ViewOf(owners, owners[name], files, hashes'))
  {
    var o := owners[name];
    forall f ensures f in KeyFiles(o, files) || f in SharedFiles(owners, files) ==> f in files && Covers(owners, name, f) {
      Filtered(owners, o, files, f);
    }
    hide KeyFiles, SharedFiles, Covers;
    Unrecorded(KeyFiles(o, files), hashes, hashes');
    Unrecorded(SharedFiles(owners, files), hashes, hashes');
  }

  lemma Unrecorded(files: seq<string>, hashes: map<string, string>, hashes': map<string, string>)
    requires forall f :: f in files ==> (f in hashes <==> f in hashes') && (f in hashes ==> hashes'[f] == hashes[f])
    ensures WithHashes(Sorted(files), hashes) == WithHashes(Sorted(files), hashes')
  {
    var s := Sorted(files);
    forall i | 0 <= i < |s| ensures HashOf(hashes, s[i]) == HashOf(hashes', s[i]) {
      InSorted(files, s[i]);
    }
  }

  /** So does another file that cannot. */
  lemma KeyIgnoresOthers(sha: Sha, version: string, name: string, owners: Owners, files: seq<string>, hashes: map<string, string>, f: string)
    requires name in owners && !Covers(owners, name, f)
    ensures Key(sha, version, name, ViewOf(owners, owners[name], files + [f], hashes))
         == Key(sha, version, name, ViewOf(owners, owners[name], files, hashes))
  {
    assert (files + [f])[..|files|] == files;
  }

  ghost function InKeyFn(o: Owner): string -> bool { f => InKey(o, f) }

  ghost function OwnedFn(owners: Owners): string -> bool { f => OwnedByAny(owners, f) }

  lemma {:induction false} FilteredMembers(owners: Owners, o: Owner, files: seq<string>)
    ensures KeyFiles(o, files) == Members(files, InKeyFn(o), true)
    ensures SharedFiles(owners, files) == Members(files, OwnedFn(owners), false)
    decreases |files|
  {
    hide InKey, OwnedByAny;
    if files != [] {
      FilteredMembers(owners, o, files[..|files| - 1]);
    }
  }

  /** The order in which the files were walked does not show in a key. */
  lemma KeyOrderFree(sha: Sha, version: string, name: string, owners: Owners, files: seq<string>, files': seq<string>, hashes: map<string, string>)
    requires name in owners && multiset(files) == multiset(files')
    ensures Key(sha, version, name, ViewOf(owners, owners[name], files, hashes))
         == Key(sha, version, name, ViewOf(owners, owners[name], files', hashes))
  {
    hide KeyFiles, SharedFiles, WithHashes, Sorted;
    var o := owners[name];
    FilteredMembers(owners, o, files);
    FilteredMembers(owners, o, files');
    MembersPermutation(files, files', InKeyFn(o), true);
    MembersPermutation(files, files', OwnedFn(owners), false);
    SortedSame(KeyFiles(o, files), KeyFiles(o, files'));
    SortedSame(SharedFiles(owners, files), SharedFiles(owners, files'));
  }

  lemma SortedSame(a: seq<string>, b: seq<string>)
    requires multiset(a) == multiset(b)
    ensures Sorted(a) == Sorted(b)
  {
    SortedIsSorted(a);
    SortedIsSorted(b);
    SortedUnique(Sorted(a), Sorted(b));
  }

  /** One file of the partition, for every owner, in whatever order the owners come. */
  method Place(owners: Owners, f: string, keyFiles: map<string, seq<string>>) returns (placed: map<string, seq<string>>, owned: bool)
    requires keyFiles.Keys == owners.Keys
    ensures placed.Keys == owners.Keys
    ensures forall name :: name in owners ==> placed[name] == if InKey(owners[name], f) then keyFiles[name] + [f] else keyFiles[name]
    ensures owned <==> OwnedByAny(owners, f)
  {
    placed, owned := keyFiles, false;
    var todo := owners.Keys;
    while todo != {}
      invariant todo <= owners.Keys && placed.Keys == owners.Keys
      invariant forall name :: name in owners ==>
        placed[name] == if name !in todo && InKey(owners[name], f) then keyFiles[name] + [f] else keyFiles[name]
      invariant owned <==> exists name :: name in owners && name !in todo && owners[name].owns(f)
      decreases todo
    {
      var name :| name in todo;
      todo := todo - {name};
      var o := owners[name];
      if o.owns(f) {
        owned := true;
        placed := placed[name := placed[name] + [f]];
      } else if o.affects.Some? && o.affects.value(f) {
        placed := placed[name := placed[name] + [f]];
      }
    }
  }

  method Partition(owners: Owners, files: seq<string>) returns (keyFiles: map<string, seq<string>>, shared: seq<string>)
    ensures keyFiles.Keys == owners.Keys
    ensures forall name :: name in owners ==> keyFiles[name] == KeyFiles(owners[name], files)
    ensures shared == SharedFiles(owners, files)
  {
    hide InKey, OwnedByAny;
    keyFiles := map name | name in owners :: [];
    shared := [];
    for i := 0 to |files|
      invariant keyFiles.Keys == owners.Keys
      invariant forall name :: name in owners ==> keyFiles[name] == KeyFiles(owners[name], files[..i])
      invariant shared == SharedFiles(owners, files[..i])
    {
      TakeSnoc(files, i + 1);
      var owned;
      keyFiles, owned := Place(owners, files[i], keyFiles);
      if !owned {
        shared := shared + [files[i]];
      }
    }
    TakeAll(files);
  }

  method ComputeKeys(sha: Sha, version: string, owners: Owners, files: seq<string>, hashes: map<string, string>)
    returns (keys: map<string, string>)
    ensures keys.Keys == owners.Keys
    ensures forall name :: name in owners ==> keys[name] == Key(sha, version, name, ViewOf(owners, owners[name], files, hashes))
  {
    hide KeyFiles, SharedFiles, SetText, Sorted, KeyText;
    keys := map[];
    var keyFiles, shared := Partition(owners, files);
    var sharedHash := HashFileSet(sha, shared, hashes);
    var todo := owners.Keys;
    while todo != {}
      invariant todo <= owners.Keys && keys.Keys == owners.Keys - todo
      invariant forall name :: name in keys ==> keys[name] == Key(sha, version, name, ViewOf(owners, owners[name], files, hashes))
      decreases todo
    {
      var name :| name in todo;
      todo := todo - {name};
      var ownHash := HashFileSet(sha, keyFiles[name], hashes);
      var config := "";
      if owners[name].config.Some? && owners[name].config.value != "" {
        config := NUL_TEXT + ("config" + (NUL_TEXT + owners[name].config.value));
      }
      var text := version + NUL_TEXT + (name + NUL_TEXT + (sharedHash + NUL_TEXT + (ownHash + config)));
      KeyTextIs(sha, version, name, ViewOf(owners, owners[name], files, hashes), text);
      keys := keys[name := sha(text)];
    }
  }

  lemma KeyTextIs(sha: Sha, version: string, name: string, v: View, text: string)
    requires text == version + NUL_TEXT + (name + NUL_TEXT + (sha(SetText(v.shared)) + NUL_TEXT + (sha(SetText(v.own)) + ConfigText(v.config))))
    ensures sha(text) == Key(sha, version, name, v)
  {
  }

  // ---- Probes ----

  /** Whether a path exists in the repository. */
  type Disk = string -> bool

  function Answer(b: bool): string {
    if b then "true" else "false"
  }

  function ProbesKey(key: string): string {
    key + NUL_TEXT + "probes"
  }

  function ProbesText(paths: seq<string>, disk: Disk): string {
    if paths == [] then "" else paths[0] + NUL_TEXT + (Answer(disk(paths[0])) + NUL_TEXT + ProbesText(paths[1..], disk))
  }

  function ProbedText(key: string, paths: seq<string>, disk: Disk): string {
    key + NUL_TEXT + ("probed" + (NUL_TEXT + ProbesText(paths, disk)))
  }

  /** The key a result is stored under once its probes are known. */
  function ProbedKey(sha: Sha, key: string, paths: seq<string>, disk: Disk): string {
    if paths == [] then key else sha(ProbedText(key, paths, disk))
  }

  predicate AllClean(paths: seq<string>) {
    forall i :: 0 <= i < |paths| ==> NulFree(paths[i])
  }

  ghost predicate Agree(paths: seq<string>, d: Disk, e: Disk) {
    forall p :: p in paths ==> d(p) == e(p)
  }

  lemma {:induction false} ProbesTextUnique(a: seq<string>, d: Disk, b: seq<string>, e: Disk)
    requires AllClean(a) && AllClean(b) && ProbesText(a, d) == ProbesText(b, e)
    ensures a == b && Agree(a, d, e)
    decreases |a|
  {
    if a != [] && b != [] {
      var ta, tb := Answer(d(a[0])) + NUL_TEXT + ProbesText(a[1..], d), Answer(e(b[0])) + NUL_TEXT + ProbesText(b[1..], e);
      FieldUnique(a[0], ta, b[0], tb);
      FieldUnique(Answer(d(a[0])), ProbesText(a[1..], d), Answer(e(b[0])), ProbesText(b[1..], e));
      assert d(a[0]) == e(b[0]);
      ProbesTextUnique(a[1..], d, b[1..], e);
      assert a == [a[0]] + a[1..] && b == [b[0]] + b[1..];
    }
  }

  lemma {:induction false} SameProbes(paths: seq<string>, d: Disk, e: Disk)
    requires Agree(paths, d, e)
    ensures ProbesText(paths, d) == ProbesText(paths, e)
    decreases |paths|
  {
    if paths != [] {
      SameProbes(paths[1..], d, e);
    }
  }

  /** A probed key determines the key it extends, the paths, and what was found at each. */
  lemma ProbedKeyUnique(sha: Sha, k: string, a: seq<string>, d: Disk, l: string, b: seq<string>, e: Disk)
    requires CollisionFree(sha) && NulFree(k) && NulFree(l) && AllClean(a) && AllClean(b) && a != [] && b != []
    requires ProbedKey(sha, k, a, d) == ProbedKey(sha, l, b, e)
    ensures k == l && a == b && Agree(a, d, e)
  {
    hide ProbesText, NulFree, AllClean;
    var pa, pb := "probed" + (NUL_TEXT + ProbesText(a, d)), "probed" + (NUL_TEXT + ProbesText(b, e));
    FieldUnique(k, pa, l, pb);
    assert pa[7..] == ProbesText(a, d) && pb[7..] == ProbesText(b, e);
    ProbesTextUnique(a, d, b, e);
  }

  /** No plain key is a probed key: a version is not a hash. */
  lemma PlainIsNotProbed(sha: Sha, version: string, n: string, v: View, l: string, b: seq<string>, e: Disk)
    requires CollisionFree(sha) && NulFree(version) && version != l && NulFree(l) && b != []
    ensures Key(sha, version, n, v) != ProbedKey(sha, l, b, e)
  {
    hide ProbesText, SetText, ConfigText, NulFree;
    if Key(sha, version, n, v) == ProbedKey(sha, l, b, e) {
      var rest := n + NUL_TEXT + (sha(SetText(v.shared)) + NUL_TEXT + (sha(SetText(v.own)) + ConfigText(v.config)));
      FieldUnique(version, rest, l, "probed" + (NUL_TEXT + ProbesText(b, e)));
    }
  }
}
