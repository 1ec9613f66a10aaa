/** The counts are the sizes of what `Compute` lists, whatever either side did with ties. */
module CountLaws {
  import opened Text
  import opened Bags
  import opened Slices
  import opened Facts
  import opened Diff
  import opened Sides
  import opened Counts
  import opened SideLaws
  import opened HashSets
  import opened Counting

  const KIND: Fact -> string := (f: Fact) => f.kind

  /** The kind a fact is counted under. */
  function ToldFn(told: Told): Fact -> string { (f: Fact) => told(f.kind) }

  /** The positional pairs whose raw props differ although they count as unchanged: they
      differ in non-architectural props only. */
  function Cosmetic(pr: Printer, b: seq<Fact>, c: seq<Fact>, n: nat): seq<FactChange>
    requires n <= |b| && n <= |c|
  {
    if n == 0 then []
    else if b[n - 1].props != c[n - 1].props && !PropsChanged(pr, b[n - 1], c[n - 1]) then
      Cosmetic(pr, b, c, n - 1) + [FactChange(b[n - 1], c[n - 1])]
    else Cosmetic(pr, b, c, n - 1)
  }

  function CosmeticOf(pr: Printer, gb: map<string, seq<Fact>>, gc: map<string, seq<Fact>>): string -> seq<FactChange> {
    k => Cosmetic(pr, Row(gb, k), Row(gc, k), Paired(Row(gb, k), Row(gc, k)))
  }

  /** Every raw difference is a change or a cosmetic one. */
  lemma {:induction false} RawDifferences(pr: Printer, hash: Hash, told: Told, fs: seq<Fact>, b: seq<Fact>, c: seq<Fact>, n: nat)
    requires pr.Valid() && PropsHashApart(pr, hash, fs)
    requires forall f :: f in b || f in c ==> f in fs
    requires n <= |b| && n <= |c|
    ensures |Differing(Mapped(b, SeenFn(pr, hash, told)), Mapped(c, SeenFn(pr, hash, told)), n)|
         == |Changes(pr, b, c, n)| + |Cosmetic(pr, b, c, n)|
  {
    hide PropsHashApart, Printer.Valid, Mapped, SeenFn, PropsChanged;
    if n > 0 {
      RawDifferences(pr, hash, told, fs, b, c, n - 1);
      RawPair(pr, hash, told, fs, b[n - 1], c[n - 1]);
      MappedAt(b, SeenFn(pr, hash, told), n - 1);
      MappedAt(c, SeenFn(pr, hash, told), n - 1);
    }
  }

  lemma RawPair(pr: Printer, hash: Hash, told: Told, fs: seq<Fact>, x: Fact, y: Fact)
    requires pr.Valid() && PropsHashApart(pr, hash, fs) && x in fs && y in fs
    ensures SeenFn(pr, hash, told)(x).props == SeenFn(pr, hash, told)(y).props <==> x.props == y.props
    ensures PropsChanged(pr, x, y) ==> x.props != y.props
  {
    PropsJsonInjective(pr, x.props, y.props);
    ChangedMeansArchitectural(pr, x, y);
  }

  lemma RowsCorrespond(pr: Printer, hash: Hash, told: Told, g: map<string, seq<Fact>>, rows: SeenRows, keys: set<string>, k: string)
    requires HashedRows(pr, hash, told, g, rows) && g.Keys <= keys && k in keys
    requires forall i, j :: i in keys && j in keys && hash(i) == hash(j) ==> i == j
    ensures Row(rows, hash(k)) == Mapped(Row(g, k), SeenFn(pr, hash, told))
  {
    if k !in g && hash(k) in rows {
      var j := Unhash(hash, g.Keys, hash(k));
      assert false;
    }
    MappedNil(SeenFn(pr, hash, told));
  }

  lemma SurplusMapped(pr: Printer, hash: Hash, told: Told, b: seq<Fact>, c: seq<Fact>)
    ensures SurplusKinds(Mapped(b, SeenFn(pr, hash, told)), Mapped(c, SeenFn(pr, hash, told))) == Mapped(Surplus(b, c), ToldFn(told))
  {
    hide PropsJson;
    var sb, sc := Mapped(b, SeenFn(pr, hash, told)), Mapped(c, SeenFn(pr, hash, told));
    var s, t := Surplus(sb, sc), Surplus(b, c);
    assert |s| == |t|;
    forall i | 0 <= i < |t| ensures SEEN_KIND(s[i]) == ToldFn(told)(t[i]) {
    }
  }

  /** The identities of both sides, and that hashing tells them apart. */
  lemma AllKeys(pr: Printer, hash: Hash, base: seq<Fact>, cur: seq<Fact>, gb: map<string, seq<Fact>>, gc: map<string, seq<Fact>>)
    requires KeysHashApart(pr, hash, base + cur)
    requires IsFactGrouping(pr, base, gb) && IsFactGrouping(pr, cur, gc)
    ensures forall i, j :: i in gb.Keys + gc.Keys && j in gb.Keys + gc.Keys && hash(i) == hash(j) ==> i == j
  {
    hide FactKey;
    forall k | k in gb.Keys + gc.Keys ensures k in KeysOf(base + cur, KeyFn(pr)) {
      if k in gb {
        var i :| 0 <= i < |base| && KeyFn(pr)(base[i]) == k;
        assert (base + cur)[i] == base[i];
      } else {
        var i :| 0 <= i < |cur| && KeyFn(pr)(cur[i]) == k;
        assert (base + cur)[|base| + i] == cur[i];
      }
    }
    forall i, j | i in gb.Keys + gc.Keys && j in gb.Keys + gc.Keys && hash(i) == hash(j) ensures i == j {
      KeysApart(pr, hash, base + cur, i, j);
    }
  }

  /** What was added, kind by kind, counted under hashes and listed under identities. */
  lemma KindsTranslate(pr: Printer, hash: Hash, told: Told, gb: map<string, seq<Fact>>, gc: map<string, seq<Fact>>,
                       rb: SeenRows, rc: SeenRows, keys: set<string>, added: seq<Fact>)
    requires keys == gb.Keys + gc.Keys
    requires forall i, j :: i in keys && j in keys && hash(i) == hash(j) ==> i == j
    requires HashedRows(pr, hash, told, gb, rb) && HashedRows(pr, hash, told, gc, rc)
    requires multiset(added) == Bag(keys, SurplusOf(gb, gc))
    ensures Bag(HashImage(hash, keys), AddedKinds(rb, rc)) == multiset(Mapped(added, ToldFn(told)))
  {
    hide Bag, SurplusKinds, Surplus, Mapped, SeenFn, HashedRows;
    var byKind := MappedFn(SurplusOf(gb, gc), ToldFn(told));
    forall k | k in keys ensures AddedKinds(rb, rc)(hash(k)) == byKind(k) {
      RowsCorrespond(pr, hash, told, gb, rb, keys, k);
      RowsCorrespond(pr, hash, told, gc, rc, keys, k);
      SurplusMapped(pr, hash, told, Row(gb, k), Row(gc, k));
    }
    BagImage(keys, HashImage(hash, keys), hash, AddedKinds(rb, rc), byKind);
    BagMapped(keys, SurplusOf(gb, gc), ToldFn(told), byKind, added);
  }

  ghost function PositionsOf(pr: Printer, hash: Hash, told: Told, gb: map<string, seq<Fact>>, gc: map<string, seq<Fact>>): string -> seq<nat> {
    k => PairsDiffering(Mapped(Row(gb, k), SeenFn(pr, hash, told)), Mapped(Row(gc, k), SeenFn(pr, hash, told)))
  }

  lemma PositionsTranslate(pr: Printer, hash: Hash, told: Told, fs: seq<Fact>, b: seq<Fact>, c: seq<Fact>)
    requires pr.Valid() && PropsHashApart(pr, hash, fs)
    requires forall f :: f in b || f in c ==> f in fs
    ensures |PairsDiffering(Mapped(b, SeenFn(pr, hash, told)), Mapped(c, SeenFn(pr, hash, told)))|
         == |Changes(pr, b, c, Paired(b, c))| + |Cosmetic(pr, b, c, Paired(b, c))|
  {
    hide PropsHashApart, Printer.Valid, SeenFn, PropsChanged, Changes, Cosmetic, Differing;
    RawDifferences(pr, hash, told, fs, b, c, Paired(b, c));
  }

  /** The changed count is the listed changes plus the cosmetic pairs. */
  lemma ChangedTranslate(pr: Printer, hash: Hash, told: Told, base: seq<Fact>, cur: seq<Fact>,
                         gb: map<string, seq<Fact>>, gc: map<string, seq<Fact>>,
                         rb: SeenRows, rc: SeenRows, keys: set<string>, changed: seq<FactChange>)
    requires pr.Valid() && PropsHashApart(pr, hash, base + cur) && keys == gb.Keys + gc.Keys
    requires IsFactGrouping(pr, base, gb) && IsFactGrouping(pr, cur, gc)
    requires forall i, j :: i in keys && j in keys && hash(i) == hash(j) ==> i == j
    requires HashedRows(pr, hash, told, gb, rb) && HashedRows(pr, hash, told, gc, rc)
    requires multiset(changed) == Bag(keys, ChangesOf(pr, gb, gc))
    ensures |Bag(HashImage(hash, keys), ChangedAt(rb, rc))| == |changed| + |Bag(keys, CosmeticOf(pr, gb, gc))|
  {
    hide Bag, PairsDiffering, Mapped, SeenFn, HashedRows, IsGrouping, PropsHashApart, Printer.Valid, Changes, Cosmetic;
    forall k | k in keys
      ensures ChangedAt(rb, rc)(hash(k)) == PositionsOf(pr, hash, told, gb, gc)(k)
      ensures |PositionsOf(pr, hash, told, gb, gc)(k)| == |ChangesOf(pr, gb, gc)(k)| + |CosmeticOf(pr, gb, gc)(k)|
    {
      RowsCorrespond(pr, hash, told, gb, rb, keys, k);
      RowsCorrespond(pr, hash, told, gc, rc, keys, k);
      RowMembers(base, KeyFn(pr), OrderFn(pr), gb, k);
      RowMembers(cur, KeyFn(pr), OrderFn(pr), gc, k);
      PositionsTranslate(pr, hash, told, base + cur, Row(gb, k), Row(gc, k));
    }
    BagImage(keys, HashImage(hash, keys), hash, ChangedAt(rb, rc), PositionsOf(pr, hash, told, gb, gc));
    BagSizesAdd(keys, PositionsOf(pr, hash, told, gb, gc), ChangesOf(pr, gb, gc), CosmeticOf(pr, gb, gc));
    assert |multiset(changed)| == |changed|;
  }

  // ---- edges

  ghost predicate EdgesHashApart(hash: Hash, fs: seq<Fact>) {
    forall x, y :: IsEdge(fs, x) && IsEdge(fs, y) && hash(EdgeKey(x)) == hash(EdgeKey(y)) ==> EdgeKey(x) == EdgeKey(y)
  }

  lemma IsEdgeOfBoth(base: seq<Fact>, cur: seq<Fact>, e: Edge)
    ensures IsEdge(base + cur, e) <==> IsEdge(base, e) || IsEdge(cur, e)
  {
    if IsEdge(base, e) {
      var f, r :| f in base && !IsDocument(f) && r in f.relations && e == EdgeOf(f, r);
      assert f in base + cur;
    }
    if IsEdge(cur, e) {
      var f, r :| f in cur && !IsDocument(f) && r in f.relations && e == EdgeOf(f, r);
      assert f in base + cur;
    }
    if IsEdge(base + cur, e) {
      var f, r :| f in base + cur && !IsDocument(f) && r in f.relations && e == EdgeOf(f, r);
      assert f in base || f in cur;
    }
  }

  /** The collected edge hashes are the hashes of the keys of the edge set. */
  lemma HashedEdges(hash: Hash, fs: seq<Fact>, m: map<string, Edge>, hs: seq<Word>)
    requires IsEdgeSet(fs, m) && EdgeHashes(hash, fs, hs)
    ensures Elems(hs) == HashImage(hash, m.Keys)
  {
    hide IsEdge, EdgeKey;
    forall h ensures h in Elems(hs) <==> h in HashImage(hash, m.Keys) {
      if h in HashImage(hash, m.Keys) {
        var k :| k in m.Keys && hash(k) == h;
        assert IsEdge(fs, m[k]);
        assert IsEdgeHash(hash, fs, h);
      }
      if h in hs {
        assert IsEdgeHash(hash, fs, h);
      }
    }
  }

  lemma EdgeKeysApart(hash: Hash, base: seq<Fact>, cur: seq<Fact>, mb: map<string, Edge>, mc: map<string, Edge>)
    requires IsEdgeSet(base, mb) && IsEdgeSet(cur, mc) && EdgesHashApart(hash, base + cur)
    ensures forall i, j :: i in mb.Keys + mc.Keys && j in mb.Keys + mc.Keys && hash(i) == hash(j) ==> i == j
  {
    hide IsEdge, EdgeKey;
    forall k | k in mb.Keys + mc.Keys ensures exists e :: IsEdge(base + cur, e) && EdgeKey(e) == k {
      var e := if k in mb then mb[k] else mc[k];
      IsEdgeOfBoth(base, cur, e);
    }
    forall i, j | i in mb.Keys + mc.Keys && j in mb.Keys + mc.Keys && hash(i) == hash(j) ensures i == j {
      var x :| IsEdge(base + cur, x) && EdgeKey(x) == i;
      var y :| IsEdge(base + cur, y) && EdgeKey(y) == j;
    }
  }

  lemma {:induction false} HashImageSize(hash: Hash, keys: set<string>)
    requires forall i, j :: i in keys && j in keys && hash(i) == hash(j) ==> i == j
    ensures |HashImage(hash, keys)| == |keys|
    decreases |keys|
  {
    if keys != {} {
      var k :| k in keys;
      assert HashImage(hash, keys) == HashImage(hash, keys - {k}) + {hash(k)};
      HashImageSize(hash, keys - {k});
    }
  }

  lemma HashImageMinus(hash: Hash, all: set<string>, s: set<string>, t: set<string>)
    requires s <= all && t <= all
    requires forall i, j :: i in all && j in all && hash(i) == hash(j) ==> i == j
    ensures HashImage(hash, s) - HashImage(hash, t) == HashImage(hash, s - t)
    ensures |HashImage(hash, s) - HashImage(hash, t)| == |s - t|
  {
    HashImageSize(hash, s - t);
  }

  lemma ListedCount(es: seq<Edge>, m: map<string, Edge>, ks: set<string>)
    requires ListsEdges(es, m, ks)
    ensures |es| == |ks|
  {
    assert |multiset(Mapped(es, EDGE_KEY))| == |es|;
  }

  /** Edges counted by hash are the edges listed by key. */
  lemma EdgesTranslate(hash: Hash, base: seq<Fact>, cur: seq<Fact>, mb: map<string, Edge>, mc: map<string, Edge>,
                       be: seq<Word>, ce: seq<Word>, added: seq<Edge>, removed: seq<Edge>)
    requires EdgesHashApart(hash, base + cur)
    requires EdgeHashes(hash, base, be) && EdgeHashes(hash, cur, ce)
    requires EdgeDelta(base, cur, mb, mc, added, removed)
    ensures |Elems(ce) - Elems(be)| == |added| && |Elems(be) - Elems(ce)| == |removed|
    ensures Elems(ce) - Elems(be) == HashImage(hash, mc.Keys - mb.Keys)
    ensures Elems(be) - Elems(ce) == HashImage(hash, mb.Keys - mc.Keys)
  {
    hide IsEdgeSet, EdgesHashApart, EdgeHashes, ListsEdges, HashImage, Elems;
    HashedEdges(hash, base, mb, be);
    HashedEdges(hash, cur, mc, ce);
    EdgeKeysApart(hash, base, cur, mb, mc);
    HashImageMinus(hash, mb.Keys + mc.Keys, mc.Keys, mb.Keys);
    HashImageMinus(hash, mb.Keys + mc.Keys, mb.Keys, mc.Keys);
    ListedCount(added, mc, mc.Keys - mb.Keys);
    ListedCount(removed, mb, mb.Keys - mc.Keys);
  }
}
