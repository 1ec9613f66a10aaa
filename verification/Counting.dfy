/** `count`: two passes over each source, the join of the two sides, and one more pass for the
    names behind what moved (internal/diff/counts.go). */
module Counting {
  import opened Text
  import opened Bags
  import opened Slices
  import opened Facts
  import opened Diff
  import opened Sides
  import opened Counts
  import opened SideLaws
  import opened HashSets

  /** A reduced side, against the rows it stands for. */
  ghost predicate Shown(rows: SeenRows, flat: seq<FactRec>, groups: map<Word, seq<Member>>, names: seq<string>, shared: set<Word>) {
    && Increasing(flat)
    && (forall r :: r in flat ==> r.key !in shared && r.kind < |names| && Row(rows, r.key) == [RecSeen(names)(r)])
    && (forall h :: h !in shared && Lacks(flat, h) ==> Row(rows, h) == [])
    && ShowsGroups(rows, groups, shared, names)
    && KeysOf(flat, REC_KEY) + groups.Keys == rows.Keys
    && groups.Keys <= shared
  }

  lemma ShownTogether(rb: SeenRows, rc: SeenRows, bf: seq<FactRec>, cf: seq<FactRec>,
                      bg: map<Word, seq<Member>>, cg: map<Word, seq<Member>>, names: seq<string>, shared: set<Word>)
    requires Shown(rb, bf, bg, names, shared) && Shown(rc, cf, cg, names, shared)
    ensures Merging(bf, cf, 0, 0) && Shows(rb, bf, cf, names) && Shows(rc, cf, bf, names)
    ensures ShowsGroups(rb, bg, bg.Keys, names) && ShowsGroups(rb, bg, cg.Keys, names)
    ensures ShowsGroups(rc, cg, bg.Keys, names) && ShowsGroups(rc, cg, cg.Keys, names)
    ensures (KeysOf(bf, REC_KEY) + KeysOf(cf, REC_KEY)) !! shared
  {
    hide Shown, ShowsGroups, Shows, KeysOf, Increasing;
    UnsharedKeys(rb, bf, bg, names, shared);
    UnsharedKeys(rc, cf, cg, names, shared);
    OneShown(rb, bf, bg, cf, cg, names, shared);
    OneShown(rc, cf, cg, bf, bg, names, shared);
  }

  /** A side shows its rows to the join with the other side. */
  lemma OneShown(rows: SeenRows, flat: seq<FactRec>, groups: map<Word, seq<Member>>,
                 otherFlat: seq<FactRec>, otherGroups: map<Word, seq<Member>>, names: seq<string>, shared: set<Word>)
    requires Shown(rows, flat, groups, names, shared)
    requires otherGroups.Keys <= shared && forall r :: r in otherFlat ==> r.key !in shared
    ensures Shows(rows, flat, otherFlat, names)
    ensures ShowsGroups(rows, groups, groups.Keys, names) && ShowsGroups(rows, groups, otherGroups.Keys, names)
  {
    hide KindsNamed, RecSeen, Mapped, Row, KeysOf, Increasing, Lacks;
  }

  lemma UnsharedKeys(rows: SeenRows, flat: seq<FactRec>, groups: map<Word, seq<Member>>, names: seq<string>, shared: set<Word>)
    requires Shown(rows, flat, groups, names, shared)
    ensures KeysOf(flat, REC_KEY) !! shared && groups.Keys <= shared && Increasing(flat)
    ensures forall r :: r in flat ==> r.key !in shared
  {
    hide KindsNamed, RecSeen, Mapped, Row, Increasing, ShowsGroups, Lacks;
    forall h | h in KeysOf(flat, REC_KEY) ensures h !in shared {
      var i :| 0 <= i < |flat| && REC_KEY(flat[i]) == h;
      assert flat[i] in flat;
    }
  }

  /** The keys one loop skips contribute nothing to what it counts. */
  lemma SettledEverywhere(rb: SeenRows, rc: SeenRows, flat: set<Word>,
                          bg: map<Word, seq<Member>>, cg: map<Word, seq<Member>>, names: seq<string>, shared: set<Word>)
    requires ShowsGroups(rb, bg, shared, names) && ShowsGroups(rc, cg, shared, names)
    requires bg.Keys <= shared && cg.Keys <= shared
    ensures var a, r, all := flat + cg.Keys, flat + bg.Keys, flat + bg.Keys + cg.Keys;
      && Bag(a, AddedKinds(rb, rc)) == Bag(all, AddedKinds(rb, rc))
      && Bag(r, AddedKinds(rc, rb)) == Bag(all, AddedKinds(rc, rb))
      && Bag(a, ChangedAt(rb, rc)) == Bag(all, ChangedAt(rb, rc))
      && MovedKeys(a, r, rb, rc) == MovedKeys(all, all, rb, rc)
  {
    hide KindsNamed, Bag, SurplusKinds, PairsDiffering, Mapped;
    var a, r, all := flat + cg.Keys, flat + bg.Keys, flat + bg.Keys + cg.Keys;
    MappedNil(MemberSeen(names));
    forall k | k in all && k !in a ensures AddedKinds(rb, rc)(k) == [] && ChangedAt(rb, rc)(k) == [] {
      assert Row(cg, k) == [] && Row(rc, k) == [];
      NothingMore(Row(rb, k));
    }
    forall k | k in all && k !in r ensures AddedKinds(rc, rb)(k) == [] {
      assert Row(bg, k) == [] && Row(rb, k) == [];
      NothingMore(Row(rc, k));
    }
    BagWiden(a, all, AddedKinds(rb, rc));
    BagWiden(r, all, AddedKinds(rc, rb));
    BagWiden(a, all, ChangedAt(rb, rc));
  }

  lemma NothingMore(b: seq<Seen>)
    ensures SurplusKinds(b, []) == [] && PairsDiffering(b, []) == []
  {
    MappedNil(SEEN_KIND);
  }

  /** The three loops of `countSides` over facts. */
  method JoinSides(c: Counts, base: Side, cur: Side, ghost rb: SeenRows, ghost rc: SeenRows, ghost shared: set<Word>)
    returns (keys: set<Word>)
    requires base.kinds == cur.kinds && c.Settled({}, {}, rb, rc, {})
    requires Shown(rb, base.flat, base.groups, base.kinds.names, shared)
    requires Shown(rc, cur.flat, cur.groups, base.kinds.names, shared)
    modifies c
    ensures var flat := KeysOf(base.flat, REC_KEY) + KeysOf(cur.flat, REC_KEY);
      c.Settled(flat + cur.groups.Keys, flat + base.groups.Keys, rb, rc, keys)
  {
    ghost var flat := KeysOf(base.flat, REC_KEY) + KeysOf(cur.flat, REC_KEY);
    ShownTogether(rb, rc, base.flat, cur.flat, base.groups, cur.groups, base.kinds.names, shared);
    ShownKeys(rb, base.flat, base.groups, base.kinds.names, shared);
    ShownKeys(rc, cur.flat, cur.groups, base.kinds.names, shared);
    hide *;
    keys := MergeFlat(c, base.kinds, base.flat, cur.flat, rb, rc);
    keys := PairShared(c, base.kinds, base.groups, cur.groups, flat, rb, rc, keys);
    keys := DropShared(c, base.kinds, base.groups, cur.groups, flat + cur.groups.Keys, flat, rb, rc, keys);
  }

  method CountSides(base: Side, cur: Side, ghost rb: SeenRows, ghost rc: SeenRows, ghost shared: set<Word>)
    returns (c: Counts, keys: set<Word>)
    requires base.kinds == cur.kinds
    requires Shown(rb, base.flat, base.groups, base.kinds.names, shared)
    requires Shown(rc, cur.flat, cur.groups, base.kinds.names, shared)
    ensures fresh(c) && c.Settled(rb.Keys + rc.Keys, rb.Keys + rc.Keys, rb, rc, keys)
  {
    hide Shown, ShowsGroups, Counts.Valid, Bag, MovedKeys, KeysOf, AddedKinds, ChangedAt;
    c := new Counts();
    NothingSettled(rb, rc);
    keys := JoinSides(c, base, cur, rb, rc, shared);
    ghost var flat := KeysOf(base.flat, REC_KEY) + KeysOf(cur.flat, REC_KEY);
    ShownKeys(rb, base.flat, base.groups, base.kinds.names, shared);
    ShownKeys(rc, cur.flat, cur.groups, base.kinds.names, shared);
    SettledEverywhere(rb, rc, flat, base.groups, cur.groups, base.kinds.names, shared);
    assert flat + base.groups.Keys + cur.groups.Keys == rb.Keys + rc.Keys;
  }

  lemma NothingSettled(rb: SeenRows, rc: SeenRows)
    ensures Bag<Word, string>({}, AddedKinds(rb, rc)) == multiset{}
    ensures Bag<Word, string>({}, AddedKinds(rc, rb)) == multiset{}
    ensures |Bag<Word, nat>({}, ChangedAt(rb, rc))| == 0 && MovedKeys({}, {}, rb, rc) == {}
  {
  }

  lemma ShownKeys(rows: SeenRows, flat: seq<FactRec>, groups: map<Word, seq<Member>>, names: seq<string>, shared: set<Word>)
    requires Shown(rows, flat, groups, names, shared)
    ensures KeysOf(flat, REC_KEY) + groups.Keys == rows.Keys && groups.Keys <= shared
    ensures ShowsGroups(rows, groups, shared, names)
  {
  }

  method CountEdges(baseEdges: seq<Word>, curEdges: seq<Word>) returns (added: nat, removed: nat, moved: set<Word>)
    ensures added == |Elems(curEdges) - Elems(baseEdges)|
    ensures removed == |Elems(baseEdges) - Elems(curEdges)|
    ensures moved == (Elems(baseEdges) - Elems(curEdges)) + (Elems(curEdges) - Elems(baseEdges))
  {
    hide Elems, Up;
    var be := new Word[|baseEdges|](i requires 0 <= i < |baseEdges| => baseEdges[i]);
    var ce := new Word[|curEdges|](i requires 0 <= i < |curEdges| => curEdges[i]);
    assert be[..] == baseEdges && ce[..] == curEdges;
    var m := SortDedup(be);
    var n := SortDedup(ce);
    added, removed := CountSetDelta(be[..m], ce[..n]);
    moved := CollectSetDelta(be[..m], ce[..n], {});
  }

  // ---- the names behind what moved

  function RelationNames(hash: Hash, edges: set<Word>, f: Fact, rs: seq<Relation>): set<string> {
    set r, n | r in rs && hash(EdgeKey(EdgeOf(f, r))) in edges && n in NonEmpty(f.name) + NonEmpty(r.target) :: n
  }

  function MovedNames(pr: Printer, hash: Hash, keys: set<Word>, edges: set<Word>, f: Fact): set<string> {
    (if hash(FactKey(pr, f)) in keys then NonEmpty(f.name) else {})
    + (if IsDocument(f) then {} else RelationNames(hash, edges, f, f.relations))
  }

  ghost function MovedNamesIn(pr: Printer, hash: Hash, keys: set<Word>, edges: set<Word>, fs: seq<Fact>): set<string> {
    set f, n | f in fs && n in MovedNames(pr, hash, keys, edges, f) :: n
  }

  method ResolveFact(pr: Printer, hash: Hash, keys: set<Word>, edges: set<Word>, f: Fact, names0: set<string>)
    returns (names: set<string>)
    ensures names == names0 + MovedNames(pr, hash, keys, edges, f)
  {
    hide FactKey, EdgeKey;
    names := names0;
    if hash(FactKey(pr, f)) in keys {
      names := names + NonEmpty(f.name);
    }
    if IsDocument(f) {
      return;
    }
    ghost var start := names;
    for j := 0 to |f.relations|
      invariant names == start + RelationNames(hash, edges, f, f.relations[..j])
    {
      RelationNamesStep(hash, edges, f, j);
      var r := f.relations[j];
      if hash(EdgeKey(EdgeOf(f, r))) in edges {
        names := names + NonEmpty(f.name) + NonEmpty(r.target);
      }
    }
    TakeAll(f.relations);
  }

  lemma RelationNamesStep(hash: Hash, edges: set<Word>, f: Fact, j: nat)
    requires j < |f.relations|
    ensures var r := f.relations[j];
      RelationNames(hash, edges, f, f.relations[..j + 1]) == RelationNames(hash, edges, f, f.relations[..j])
        + if hash(EdgeKey(EdgeOf(f, r))) in edges then NonEmpty(f.name) + NonEmpty(r.target) else {}
  {
    hide EdgeKey, NonEmpty;
    TakeSnoc(f.relations, j + 1);
  }

  method ResolveSource(pr: Printer, hash: Hash, keys: set<Word>, edges: set<Word>, src: seq<Fact>, names0: set<string>)
    returns (names: set<string>)
    ensures names == names0 + MovedNamesIn(pr, hash, keys, edges, src)
  {
    hide MovedNames;
    names := names0;
    for i := 0 to |src|
      invariant names == names0 + MovedNamesIn(pr, hash, keys, edges, src[..i])
    {
      TakeSnoc(src, i + 1);
      names := ResolveFact(pr, hash, keys, edges, src[i], names);
    }
    TakeAll(src);
  }

  /** Revisits both sources for the identities and edges that moved, and not at all when
      nothing did. */
  method ResolveNames(pr: Printer, hash: Hash, keys: set<Word>, edges: set<Word>, base: seq<Fact>, cur: seq<Fact>)
    returns (names: set<string>)
    ensures names == MovedNamesIn(pr, hash, keys, edges, base) + MovedNamesIn(pr, hash, keys, edges, cur)
  {
    names := {};
    if keys == {} && edges == {} {
      return;
    }
    hide MovedNamesIn;
    names := ResolveSource(pr, hash, keys, edges, base, names);
    names := ResolveSource(pr, hash, keys, edges, cur, names);
  }

  // ---- the two passes

  /** What the program assumes of its input: hashes apart, and kinds in keys. */
  ghost predicate Countable(pr: Printer, hash: Hash, base: seq<Fact>, cur: seq<Fact>) {
    && pr.Valid()
    && KindsFollowKeys(pr, base + cur)
    && KeysHashApart(pr, hash, base + cur) && PropsHashApart(pr, hash, base + cur)
  }

  lemma CountableSides(pr: Printer, hash: Hash, base: seq<Fact>, cur: seq<Fact>)
    requires Countable(pr, hash, base, cur)
    ensures pr.Valid()
    ensures KindsFollowKeys(pr, base) && KeysHashApart(pr, hash, base)
    ensures KindsFollowKeys(pr, cur) && KeysHashApart(pr, hash, cur)
  {
    hide FactKey, PropsJson, PropsHashApart, Printer.Valid;
  }

  /** The kind each kind of the two sources is counted under. */
  ghost function ToldIn(base: seq<Fact>, cur: seq<Fact>): Told {
    ToldBy(KindOrder(base + cur))
  }

  /** One side after its first pass and the sort. */
  ghost predicate Sorted(pr: Printer, hash: Hash, told: Told, fs: seq<Fact>, recs: seq<FactRec>, flat: seq<FactRec>, names: seq<string>) {
    Records(pr, hash, told, fs, recs, names) && multiset(flat) == multiset(recs) && NumbersSorted(flat, REC_KEY)
  }

  /** The first pass over both sources, with one kind table, and the two sorts. */
  method FirstPasses(pr: Printer, hash: Hash, ghost told: Told, baseSrc: seq<Fact>, curSrc: seq<Fact>)
    returns (base: Side, cur: Side, ghost br: seq<FactRec>, ghost cr: seq<FactRec>)
    requires told == ToldIn(baseSrc, curSrc)
    ensures fresh(base) && fresh(cur) && base != cur && fresh(base.kinds) && base.kinds == cur.kinds
    ensures base.groups == map[] && cur.groups == map[]
    ensures base.kinds.Valid(KindOrder(baseSrc + curSrc))
    ensures KindsOf(baseSrc) <= base.kinds.ids.Keys && KindsOf(curSrc) <= base.kinds.ids.Keys
    ensures Sorted(pr, hash, told, baseSrc, br, base.flat, base.kinds.names)
    ensures Sorted(pr, hash, told, curSrc, cr, cur.flat, base.kinds.names)
    ensures EdgeHashes(hash, baseSrc, base.edges) && EdgeHashes(hash, curSrc, cur.edges)
  {
    hide Records, EdgeHashes, KindsOf, NumbersSorted, KindOrder, ToldBy, KindTable.Numbered, Distinct;
    ghost var whole := baseSrc + curSrc;
    var kinds := new KindTable();
    base := new Side(kinds);
    cur := new Side(kinds);
    NoKinds(whole);
    assert whole[0..|baseSrc|] == baseSrc && whole[|baseSrc|..|whole|] == curSrc;
    base.Pass1(pr, hash, told, baseSrc, whole, 0);
    br := base.flat;
    ghost var names := kinds.names;
    cur.Pass1(pr, hash, told, curSrc, whole, |baseSrc|);
    cr := cur.flat;
    RecordsKept(pr, hash, told, baseSrc, br, names, kinds.names);
    base.SortFlat();
    cur.SortFlat();
  }

  lemma NoKinds(whole: seq<Fact>)
    ensures KindOrder(whole[..0]) == [] && Distinct(KindOrder(whole))
  {
    KindsListed(whole);
  }

  /** The second pass over both sources, for the keys either side repeats. */
  method SecondPasses(pr: Printer, hash: Hash, ghost told: Told, base: Side, cur: Side, baseSrc: seq<Fact>, curSrc: seq<Fact>,
                      ghost br: seq<FactRec>, ghost cr: seq<FactRec>)
    returns (shared: set<Word>)
    requires base != cur && base.kinds == cur.kinds
    requires base.groups == map[] && cur.groups == map[]
    requires told == ToldIn(baseSrc, curSrc) && base.kinds.Valid(KindOrder(baseSrc + curSrc))
    requires KindsOf(baseSrc) <= base.kinds.ids.Keys && KindsOf(curSrc) <= base.kinds.ids.Keys
    requires Sorted(pr, hash, told, baseSrc, br, base.flat, base.kinds.names)
    requires Sorted(pr, hash, told, curSrc, cr, cur.flat, base.kinds.names)
    modifies base`flat, base`groups, cur`flat, cur`groups, base.kinds
    ensures SideReduced(pr, hash, told, baseSrc, br, old(base.flat), base.flat, base.groups, base.kinds.names, shared)
    ensures SideReduced(pr, hash, told, curSrc, cr, old(cur.flat), cur.flat, cur.groups, base.kinds.names, shared)
  {
    hide Records, GroupsReady, KindTable.Valid, KindOrder, ToldBy, KindsOf, NumbersSorted, IsShared, Dropped, SideReduced;
    shared := base.DupKeys();
    var more := cur.DupKeys();
    shared := shared + more;
    base.Pass2(pr, hash, told, baseSrc, shared, KindOrder(baseSrc + curSrc));
    cur.Pass2(pr, hash, told, curSrc, shared, KindOrder(baseSrc + curSrc));
    Reduced(pr, hash, told, baseSrc, br, old(base.flat), base.flat, base.groups, base.kinds.names, shared);
    Reduced(pr, hash, told, curSrc, cr, old(cur.flat), cur.flat, cur.groups, base.kinds.names, shared);
  }

  lemma Reduced(pr: Printer, hash: Hash, told: Told, fs: seq<Fact>, recs: seq<FactRec>, flat0: seq<FactRec>, flat: seq<FactRec>,
                groups: map<Word, seq<Member>>, names: seq<string>, shared: set<Word>)
    requires Records(pr, hash, told, fs, recs, names)
    requires multiset(flat0) == multiset(recs) && NumbersSorted(flat0, REC_KEY)
    requires forall h :: IsShared(flat0, h) ==> h in shared
    requires flat == Dropped(flat0, REC_KEY, shared)
    requires GroupsReady(pr, hash, told, fs, shared, groups, names)
    ensures SideReduced(pr, hash, told, fs, recs, flat0, flat, groups, names, shared)
  {
    hide Records, GroupsReady, Dropped, NumbersSorted, IsShared;
  }
}
