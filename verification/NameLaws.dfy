/** The names behind what moved are the names `Compute` calls touched, and beyond them only the
    names of identities with a cosmetic difference. */
module NameLaws {
  import opened Text
  import opened Bags
  import opened Slices
  import opened Facts
  import opened Diff
  import opened DiffLaws
  import opened Sides
  import opened Counts
  import opened SideLaws
  import opened HashSets
  import opened Counting
  import opened CountLaws

  ghost function CosmeticNames(pr: Printer, gb: map<string, seq<Fact>>, gc: map<string, seq<Fact>>): set<string> {
    set k, c | k in gb.Keys + gc.Keys && c in CosmeticOf(pr, gb, gc)(k) && c.after.name != "" :: c.after.name
  }

  /** Something about identity `k` differs, if only cosmetically. */
  ghost predicate Moved(pr: Printer, gb: map<string, seq<Fact>>, gc: map<string, seq<Fact>>, k: string) {
    || SurplusOf(gb, gc)(k) != []
    || SurplusOf(gc, gb)(k) != []
    || ChangesOf(pr, gb, gc)(k) != []
    || CosmeticOf(pr, gb, gc)(k) != []
  }

  ghost predicate MovedAre(pr: Printer, hash: Hash, gb: map<string, seq<Fact>>, gc: map<string, seq<Fact>>, moved: set<Word>) {
    forall k :: k in gb.Keys + gc.Keys ==> (hash(k) in moved <==> Moved(pr, gb, gc, k))
  }

  /** The keys the counters marked are the hashes of the identities that moved. */
  lemma MovedTranslate(pr: Printer, hash: Hash, told: Told, base: seq<Fact>, cur: seq<Fact>,
                       gb: map<string, seq<Fact>>, gc: map<string, seq<Fact>>,
                       rb: SeenRows, rc: SeenRows, keys: set<string>)
    requires pr.Valid() && PropsHashApart(pr, hash, base + cur) && keys == gb.Keys + gc.Keys
    requires IsFactGrouping(pr, base, gb) && IsFactGrouping(pr, cur, gc)
    requires forall i, j :: i in keys && j in keys && hash(i) == hash(j) ==> i == j
    requires HashedRows(pr, hash, told, gb, rb) && HashedRows(pr, hash, told, gc, rc)
    ensures MovedAre(pr, hash, gb, gc, MovedKeys(HashImage(hash, keys), HashImage(hash, keys), rb, rc))
  {
    hide PairsDiffering, SurplusKinds, Surplus, Mapped, SeenFn, HashedRows, IsFactGrouping, PropsHashApart, Printer.Valid, Changes, Cosmetic, Row, Moved, AddedKinds, ChangedAt;
    forall k | k in keys
      ensures hash(k) in MovedKeys(HashImage(hash, keys), HashImage(hash, keys), rb, rc) <==> Moved(pr, gb, gc, k)
    {
      MovedKeyTranslate(pr, hash, told, base, cur, gb, gc, rb, rc, keys, k);
    }
  }

  lemma MovedKeyTranslate(pr: Printer, hash: Hash, told: Told, base: seq<Fact>, cur: seq<Fact>,
                          gb: map<string, seq<Fact>>, gc: map<string, seq<Fact>>,
                          rb: SeenRows, rc: SeenRows, keys: set<string>, k: string)
    requires pr.Valid() && PropsHashApart(pr, hash, base + cur) && keys == gb.Keys + gc.Keys && k in keys
    requires IsFactGrouping(pr, base, gb) && IsFactGrouping(pr, cur, gc)
    requires forall i, j :: i in keys && j in keys && hash(i) == hash(j) ==> i == j
    requires HashedRows(pr, hash, told, gb, rb) && HashedRows(pr, hash, told, gc, rc)
    ensures AddedKinds(rb, rc)(hash(k)) != [] || AddedKinds(rc, rb)(hash(k)) != [] || ChangedAt(rb, rc)(hash(k)) != []
            <==> Moved(pr, gb, gc, k)
  {
    hide AddedKinds, ChangedAt, HashedRows, IsFactGrouping, PropsHashApart, Printer.Valid, SurplusOf, ChangesOf, CosmeticOf;
    KeySizes(pr, hash, told, base, cur, gb, gc, rb, rc, keys, k);
  }

  lemma KeySizes(pr: Printer, hash: Hash, told: Told, base: seq<Fact>, cur: seq<Fact>,
                 gb: map<string, seq<Fact>>, gc: map<string, seq<Fact>>,
                 rb: SeenRows, rc: SeenRows, keys: set<string>, k: string)
    requires pr.Valid() && PropsHashApart(pr, hash, base + cur) && keys == gb.Keys + gc.Keys && k in keys
    requires IsFactGrouping(pr, base, gb) && IsFactGrouping(pr, cur, gc)
    requires forall i, j :: i in keys && j in keys && hash(i) == hash(j) ==> i == j
    requires HashedRows(pr, hash, told, gb, rb) && HashedRows(pr, hash, told, gc, rc)
    ensures |AddedKinds(rb, rc)(hash(k))| == |SurplusOf(gb, gc)(k)|
    ensures |AddedKinds(rc, rb)(hash(k))| == |SurplusOf(gc, gb)(k)|
    ensures |ChangedAt(rb, rc)(hash(k))| == |ChangesOf(pr, gb, gc)(k)| + |CosmeticOf(pr, gb, gc)(k)|
  {
    hide PairsDiffering, SurplusKinds, Surplus, Mapped, SeenFn, HashedRows, IsFactGrouping, PropsHashApart, Printer.Valid, Changes, Cosmetic, FactKey;
    RowsCorrespond(pr, hash, told, gb, rb, keys, k);
    RowsCorrespond(pr, hash, told, gc, rc, keys, k);
    SurplusMapped(pr, hash, told, Row(gb, k), Row(gc, k));
    SurplusMapped(pr, hash, told, Row(gc, k), Row(gb, k));
    RowKeys(pr, base, gb, k);
    RowKeys(pr, cur, gc, k);
    PositionsTranslate(pr, hash, told, base + cur, Row(gb, k), Row(gc, k));
  }

  /** The first four ways a fact's name counts as touched. */
  ghost function FactTouched(pr: Printer, gb: map<string, seq<Fact>>, gc: map<string, seq<Fact>>,
                             added: seq<Fact>, removed: seq<Fact>, changed: seq<FactChange>): set<string> {
    FactNames(added) + FactNames(removed) + AfterNames(changed) + CosmeticNames(pr, gb, gc)
  }

  ghost function NamesOfKeys(pr: Printer, hash: Hash, moved: set<Word>, fs: seq<Fact>): set<string> {
    set f | f in fs && hash(FactKey(pr, f)) in moved && f.name != "" :: f.name
  }

  lemma {:induction false} PairIn(pr: Printer, b: seq<Fact>, c: seq<Fact>, n: nat, x: FactChange)
    requires n <= |b| && n <= |c|
    ensures x in Changes(pr, b, c, n) ==> x.before in b && x.after in c
    ensures x in Cosmetic(pr, b, c, n) ==> x.before in b && x.after in c
  {
    if n > 0 {
      PairIn(pr, b, c, n - 1, x);
    }
  }

  /** Everything listed under an identity carries it. */
  lemma ListedUnder(pr: Printer, base: seq<Fact>, cur: seq<Fact>, gb: map<string, seq<Fact>>, gc: map<string, seq<Fact>>, k: string)
    requires IsFactGrouping(pr, base, gb) && IsFactGrouping(pr, cur, gc)
    ensures forall f :: f in SurplusOf(gb, gc)(k) ==> f in cur && FactKey(pr, f) == k
    ensures forall f :: f in SurplusOf(gc, gb)(k) ==> f in base && FactKey(pr, f) == k
    ensures forall c :: c in ChangesOf(pr, gb, gc)(k) ==> c.after in cur && FactKey(pr, c.after) == k
    ensures forall c :: c in CosmeticOf(pr, gb, gc)(k) ==> c.after in cur && FactKey(pr, c.after) == k
  {
    hide FactKey, IsFactGrouping, Changes, Cosmetic, Row, Members;
    RowKeys(pr, base, gb, k);
    RowKeys(pr, cur, gc, k);
    forall c | c in ChangesOf(pr, gb, gc)(k) || c in CosmeticOf(pr, gb, gc)(k)
      ensures c.after in cur && FactKey(pr, c.after) == k
    {
      PairIn(pr, Row(gb, k), Row(gc, k), Paired(Row(gb, k), Row(gc, k)), c);
    }
  }

  /** With NUL-free fields the names of the marked identities are the touched fact names. */
  lemma FactNamesTranslate(pr: Printer, hash: Hash, base: seq<Fact>, cur: seq<Fact>,
                           gb: map<string, seq<Fact>>, gc: map<string, seq<Fact>>, moved: set<Word>,
                           added: seq<Fact>, removed: seq<Fact>, changed: seq<FactChange>)
    requires forall f :: f in base + cur ==> NulFreeFields(f)
    requires FactDelta(pr, base, cur, gb, gc, added, removed, changed)
    requires MovedAre(pr, hash, gb, gc, moved)
    ensures NamesOfKeys(pr, hash, moved, base) + NamesOfKeys(pr, hash, moved, cur)
         == FactTouched(pr, gb, gc, added, removed, changed)
  {
    hide FactKey, NulFreeFields, FactTouched, MovedAre, FactDelta;
    forall n | n in NamesOfKeys(pr, hash, moved, base) + NamesOfKeys(pr, hash, moved, cur)
      ensures n in FactTouched(pr, gb, gc, added, removed, changed)
    {
      var f :| f in base + cur && hash(FactKey(pr, f)) in moved && f.name != "" && f.name == n;
      MarkedIsTouched(pr, hash, base, cur, gb, gc, moved, added, removed, changed, f);
    }
    hide NamesOfKeys;
    forall n | n in FactTouched(pr, gb, gc, added, removed, changed)
      ensures n in NamesOfKeys(pr, hash, moved, base) + NamesOfKeys(pr, hash, moved, cur)
    {
      TouchedIsMarked(pr, hash, base, cur, gb, gc, moved, added, removed, changed, n);
    }
  }

  lemma MarkedIsTouched(pr: Printer, hash: Hash, base: seq<Fact>, cur: seq<Fact>,
                        gb: map<string, seq<Fact>>, gc: map<string, seq<Fact>>, moved: set<Word>,
                        added: seq<Fact>, removed: seq<Fact>, changed: seq<FactChange>, f: Fact)
    requires forall f :: f in base + cur ==> NulFreeFields(f)
    requires FactDelta(pr, base, cur, gb, gc, added, removed, changed)
    requires MovedAre(pr, hash, gb, gc, moved)
    requires f in base + cur && hash(FactKey(pr, f)) in moved && f.name != ""
    ensures f.name in FactTouched(pr, gb, gc, added, removed, changed)
  {
    var k := FactKey(pr, f);
    KeyIsGrouped(pr, base, cur, gb, gc, f);
    hide FactKey, NulFreeFields, FactDelta, FactTouched, Moved;
    var g := MovedWitness(pr, base, cur, gb, gc, added, removed, changed, k);
    KeyFixesFields(pr, f, g);
  }

  lemma KeyIsGrouped(pr: Printer, base: seq<Fact>, cur: seq<Fact>, gb: map<string, seq<Fact>>, gc: map<string, seq<Fact>>, f: Fact)
    requires IsFactGrouping(pr, base, gb) && IsFactGrouping(pr, cur, gc) && f in base + cur
    ensures FactKey(pr, f) in gb.Keys + gc.Keys
  {
    hide FactKey;
    assert KeyFn(pr)(f) == FactKey(pr, f);
  }

  /** A fact of a moved identity whose name is touched. */
  lemma MovedWitness(pr: Printer, base: seq<Fact>, cur: seq<Fact>,
                     gb: map<string, seq<Fact>>, gc: map<string, seq<Fact>>,
                     added: seq<Fact>, removed: seq<Fact>, changed: seq<FactChange>, k: string) returns (g: Fact)
    requires FactDelta(pr, base, cur, gb, gc, added, removed, changed)
    requires k in gb.Keys + gc.Keys && Moved(pr, gb, gc, k)
    ensures g in base + cur && FactKey(pr, g) == k
    ensures g.name != "" ==> g.name in FactTouched(pr, gb, gc, added, removed, changed)
  {
    hide FactKey, Surplus, Changes, Cosmetic, IsFactGrouping, Bag, Row;
    var keys := gb.Keys + gc.Keys;
    ListedUnder(pr, base, cur, gb, gc, k);
    if SurplusOf(gb, gc)(k) != [] {
      g := SurplusOf(gb, gc)(k)[0];
      BagMember(keys, SurplusOf(gb, gc), g);
      assert g in multiset(added);
    } else if SurplusOf(gc, gb)(k) != [] {
      g := SurplusOf(gc, gb)(k)[0];
      BagMember(keys, SurplusOf(gc, gb), g);
      assert g in multiset(removed);
    } else if ChangesOf(pr, gb, gc)(k) != [] {
      var c := ChangesOf(pr, gb, gc)(k)[0];
      g := c.after;
      BagMember(keys, ChangesOf(pr, gb, gc), c);
      assert c in multiset(changed);
    } else {
      g := CosmeticOf(pr, gb, gc)(k)[0].after;
    }
  }

  lemma TouchedIsMarked(pr: Printer, hash: Hash, base: seq<Fact>, cur: seq<Fact>,
                        gb: map<string, seq<Fact>>, gc: map<string, seq<Fact>>, moved: set<Word>,
                        added: seq<Fact>, removed: seq<Fact>, changed: seq<FactChange>, n: string)
    requires FactDelta(pr, base, cur, gb, gc, added, removed, changed)
    requires MovedAre(pr, hash, gb, gc, moved)
    requires n in FactTouched(pr, gb, gc, added, removed, changed)
    ensures n in NamesOfKeys(pr, hash, moved, base) + NamesOfKeys(pr, hash, moved, cur)
  {
    hide FactKey, Surplus, Changes, Cosmetic, IsFactGrouping, Bag, Row;
    var keys := gb.Keys + gc.Keys;
    var k: string;
    if n in FactNames(added) {
      var f :| f in added && f.name == n && n != "";
      assert f in multiset(added);
      BagMember(keys, SurplusOf(gb, gc), f);
      k :| k in keys && f in SurplusOf(gb, gc)(k);
    } else if n in FactNames(removed) {
      var f :| f in removed && f.name == n && n != "";
      assert f in multiset(removed);
      BagMember(keys, SurplusOf(gc, gb), f);
      k :| k in keys && f in SurplusOf(gc, gb)(k);
    } else if n in AfterNames(changed) {
      var c :| c in changed && c.after.name == n && n != "";
      assert c in multiset(changed);
      BagMember(keys, ChangesOf(pr, gb, gc), c);
      k :| k in keys && c in ChangesOf(pr, gb, gc)(k);
    } else {
      var j, c :| j in keys && c in CosmeticOf(pr, gb, gc)(j) && c.after.name == n && n != "";
      k := j;
    }
    ListedUnder(pr, base, cur, gb, gc, k);
  }

  // ---- edges

  ghost function EndsOfEdges(hash: Hash, edges: set<Word>, fs: seq<Fact>): set<string> {
    set f, n | f in fs && !IsDocument(f) && n in RelationNames(hash, edges, f, f.relations) :: n
  }

  /** The names found by one visit of a source: those of marked identities and marked edges. */
  lemma MovedNamesSplit(pr: Printer, hash: Hash, keys: set<Word>, edges: set<Word>, fs: seq<Fact>)
    ensures MovedNamesIn(pr, hash, keys, edges, fs) == NamesOfKeys(pr, hash, keys, fs) + EndsOfEdges(hash, edges, fs)
  {
    hide FactKey, RelationNames;
    forall n ensures n in MovedNamesIn(pr, hash, keys, edges, fs)
                 <==> n in NamesOfKeys(pr, hash, keys, fs) + EndsOfEdges(hash, edges, fs)
    {
      if n in NamesOfKeys(pr, hash, keys, fs) {
        var f :| f in fs && hash(FactKey(pr, f)) in keys && f.name != "" && f.name == n;
        assert n in MovedNames(pr, hash, keys, edges, f);
      }
      if n in EndsOfEdges(hash, edges, fs) {
        var f :| f in fs && !IsDocument(f) && n in RelationNames(hash, edges, f, f.relations);
        assert n in MovedNames(pr, hash, keys, edges, f);
      }
    }
  }

  lemma EndsByEdge(hash: Hash, edges: set<Word>, fs: seq<Fact>, n: string)
    ensures n in EndsOfEdges(hash, edges, fs) <==>
            exists e :: IsEdge(fs, e) && hash(EdgeKey(e)) in edges && n in NonEmpty(e.source) + NonEmpty(e.target)
  {
    hide EdgeKey;
    if n in EndsOfEdges(hash, edges, fs) {
      var f :| f in fs && !IsDocument(f) && n in RelationNames(hash, edges, f, f.relations);
      var r :| r in f.relations && hash(EdgeKey(EdgeOf(f, r))) in edges && n in NonEmpty(f.name) + NonEmpty(r.target);
      assert IsEdge(fs, EdgeOf(f, r));
    }
    if e :| IsEdge(fs, e) && hash(EdgeKey(e)) in edges && n in NonEmpty(e.source) + NonEmpty(e.target) {
      var f, r :| f in fs && !IsDocument(f) && r in f.relations && e == EdgeOf(f, r);
      assert n in RelationNames(hash, edges, f, f.relations);
    }
  }

  /** An edge whose hash moved is an edge only one side has. */
  lemma MovedEdge(hash: Hash, base: seq<Fact>, cur: seq<Fact>, mb: map<string, Edge>, mc: map<string, Edge>,
                  added: seq<Edge>, removed: seq<Edge>, e: Edge)
    requires NulFreeEdges(base) && NulFreeEdges(cur) && EdgesHashApart(hash, base + cur)
    requires EdgeDelta(base, cur, mb, mc, added, removed)
    requires IsEdge(base, e) || IsEdge(cur, e)
    ensures hash(EdgeKey(e)) in HashImage(hash, mc.Keys - mb.Keys) + HashImage(hash, mb.Keys - mc.Keys)
            <==> e in added || e in removed
  {
    EdgeKeysApart(hash, base, cur, mb, mc);
    EdgesExact(base, cur, mb, mc, added, removed, e);
    KeyOfEdgeIn(base, cur, mb, mc, e);
    KeyOfEdgeIn(cur, base, mc, mb, e);
    hide NulFreeEdges, EdgesHashApart, EdgeDelta, IsEdge, EdgeKey;
    var k, moved := EdgeKey(e), (mc.Keys - mb.Keys) + (mb.Keys - mc.Keys);
    if hash(k) in HashImage(hash, mc.Keys - mb.Keys) + HashImage(hash, mb.Keys - mc.Keys) {
      var j :| j in moved && hash(j) == hash(k);
      assert j == k;
    }
  }

  /** With edges determined by their keys, a side has an edge exactly when it has its key. */
  lemma KeyOfEdgeIn(base: seq<Fact>, cur: seq<Fact>, mb: map<string, Edge>, mc: map<string, Edge>, e: Edge)
    requires NulFreeEdges(base) && NulFreeEdges(cur)
    requires IsEdgeSet(base, mb) && IsEdgeSet(cur, mc)
    requires IsEdge(base, e) || IsEdge(cur, e)
    ensures IsEdge(base, e) <==> EdgeKey(e) in mb
  {
    hide EdgeKey, IsEdge, NulFreeEdges;
    if EdgeKey(e) in mb {
      KeyDeterminesEdge(base, cur, e, mb[EdgeKey(e)]);
    }
  }

  /** With NUL-free fields the ends of the marked edges are the ends of the listed ones. */
  lemma EdgeNamesTranslate(hash: Hash, base: seq<Fact>, cur: seq<Fact>, mb: map<string, Edge>, mc: map<string, Edge>,
                           added: seq<Edge>, removed: seq<Edge>, edges: set<Word>)
    requires NulFreeEdges(base) && NulFreeEdges(cur) && EdgesHashApart(hash, base + cur)
    requires EdgeDelta(base, cur, mb, mc, added, removed)
    requires edges == HashImage(hash, mc.Keys - mb.Keys) + HashImage(hash, mb.Keys - mc.Keys)
    ensures EndsOfEdges(hash, edges, base) + EndsOfEdges(hash, edges, cur) == Ends(added) + Ends(removed)
  {
    hide NulFreeEdges, EdgesHashApart, EdgeDelta, EdgeKey, IsEdge, EndsOfEdges, HashImage;
    forall n ensures n in EndsOfEdges(hash, edges, base) + EndsOfEdges(hash, edges, cur) <==> n in Ends(added) + Ends(removed) {
      EndsByEdge(hash, edges, base, n);
      EndsByEdge(hash, edges, cur, n);
      if n in EndsOfEdges(hash, edges, base) + EndsOfEdges(hash, edges, cur) {
        var e :| (IsEdge(base, e) || IsEdge(cur, e)) && hash(EdgeKey(e)) in edges && n in NonEmpty(e.source) + NonEmpty(e.target);
        MovedEdge(hash, base, cur, mb, mc, added, removed, e);
      }
      if n in Ends(added) + Ends(removed) {
        var e :| (e in added || e in removed) && n in NonEmpty(e.source) + NonEmpty(e.target);
        ListedIsEdge(base, cur, mb, mc, added, removed, e);
        MovedEdge(hash, base, cur, mb, mc, added, removed, e);
      }
    }
  }

  /** Whatever the fields hold, every end of a listed edge is an end of a marked one. */
  lemma EndsAreMarked(hash: Hash, base: seq<Fact>, cur: seq<Fact>, mb: map<string, Edge>, mc: map<string, Edge>,
                      added: seq<Edge>, removed: seq<Edge>, edges: set<Word>)
    requires EdgeDelta(base, cur, mb, mc, added, removed)
    requires edges == HashImage(hash, mc.Keys - mb.Keys) + HashImage(hash, mb.Keys - mc.Keys)
    ensures Ends(added) + Ends(removed) <= EndsOfEdges(hash, edges, base) + EndsOfEdges(hash, edges, cur)
  {
    hide IsEdge, EdgeKey, EndsOfEdges, ListsEdges;
    forall n | n in Ends(added) + Ends(removed) ensures n in EndsOfEdges(hash, edges, base) + EndsOfEdges(hash, edges, cur) {
      var e :| (e in added || e in removed) && n in NonEmpty(e.source) + NonEmpty(e.target);
      ListedKeys(added, mc, mc.Keys - mb.Keys, e);
      ListedKeys(removed, mb, mb.Keys - mc.Keys, e);
      EndsByEdge(hash, edges, base, n);
      EndsByEdge(hash, edges, cur, n);
    }
  }

  lemma ListedIsEdge(base: seq<Fact>, cur: seq<Fact>, mb: map<string, Edge>, mc: map<string, Edge>,
                     added: seq<Edge>, removed: seq<Edge>, e: Edge)
    requires EdgeDelta(base, cur, mb, mc, added, removed) && (e in added || e in removed)
    ensures IsEdge(base, e) || IsEdge(cur, e)
  {
    hide EdgeKey, IsEdge;
  }

  // ---- whatever the fields hold

  /** The names of all facts of the identities about which something differs. */
  ghost function IdentityNames(pr: Printer, fs: seq<Fact>, gb: map<string, seq<Fact>>, gc: map<string, seq<Fact>>): set<string> {
    set f | f in fs && Moved(pr, gb, gc, FactKey(pr, f)) && f.name != "" :: f.name
  }

  /** The ends of all edges under these edge keys. */
  ghost function EndsUnder(fs: seq<Fact>, keys: set<string>): set<string> {
    set f, r, n | f in fs && !IsDocument(f) && r in f.relations && EdgeKey(EdgeOf(f, r)) in keys && n in NonEmpty(f.name) + NonEmpty(r.target) :: n
  }

  lemma IdentitiesMarked(pr: Printer, hash: Hash, base: seq<Fact>, cur: seq<Fact>, fs: seq<Fact>,
                         gb: map<string, seq<Fact>>, gc: map<string, seq<Fact>>, moved: set<Word>)
    requires IsFactGrouping(pr, base, gb) && IsFactGrouping(pr, cur, gc) && (fs == base || fs == cur)
    requires MovedAre(pr, hash, gb, gc, moved)
    ensures NamesOfKeys(pr, hash, moved, fs) == IdentityNames(pr, fs, gb, gc)
  {
    hide FactKey, IsFactGrouping, Moved;
    forall f | f in fs ensures hash(FactKey(pr, f)) in moved <==> Moved(pr, gb, gc, FactKey(pr, f)) {
      KeyIsGrouped(pr, base, cur, gb, gc, f);
    }
  }

  lemma EdgesMarked(hash: Hash, base: seq<Fact>, cur: seq<Fact>, fs: seq<Fact>, mb: map<string, Edge>, mc: map<string, Edge>, edges: set<Word>)
    requires IsEdgeSet(base, mb) && IsEdgeSet(cur, mc) && EdgesHashApart(hash, base + cur) && (fs == base || fs == cur)
    requires edges == HashImage(hash, mc.Keys - mb.Keys) + HashImage(hash, mb.Keys - mc.Keys)
    ensures EndsOfEdges(hash, edges, fs) == EndsUnder(fs, (mc.Keys - mb.Keys) + (mb.Keys - mc.Keys))
  {
    EdgeKeysApart(hash, base, cur, mb, mc);
    hide EdgesHashApart, EdgeKey, EndsOfEdges, EndsUnder, IsEdge, EdgeOf, IsDocument, HashImage;
    var moved := (mc.Keys - mb.Keys) + (mb.Keys - mc.Keys);
    forall f, r | f in fs && !IsDocument(f) && r in f.relations
      ensures hash(EdgeKey(EdgeOf(f, r))) in edges <==> EdgeKey(EdgeOf(f, r)) in moved
    {
      HasEdge(fs, f, r);
      MarkedKey(hash, mc.Keys - mb.Keys, mb.Keys - mc.Keys, mb.Keys + mc.Keys, EdgeKey(EdgeOf(f, r)));
    }
    SameEnds(hash, edges, fs, moved);
  }

  lemma MarkedKey(hash: Hash, a: set<string>, b: set<string>, all: set<string>, k: string)
    requires a <= all && b <= all && k in all && forall i, j :: i in all && j in all && hash(i) == hash(j) ==> i == j
    ensures hash(k) in HashImage(hash, a) + HashImage(hash, b) <==> k in a + b
  {
  }

  lemma HasEdge(fs: seq<Fact>, f: Fact, r: Relation)
    requires f in fs && !IsDocument(f) && r in f.relations
    ensures IsEdge(fs, EdgeOf(f, r))
  {
  }

  lemma SameEnds(hash: Hash, edges: set<Word>, fs: seq<Fact>, keys: set<string>)
    requires forall f, r :: f in fs && !IsDocument(f) && r in f.relations ==>
      (hash(EdgeKey(EdgeOf(f, r))) in edges <==> EdgeKey(EdgeOf(f, r)) in keys)
    ensures EndsOfEdges(hash, edges, fs) == EndsUnder(fs, keys)
  {
    hide EdgeKey, EdgeOf, NonEmpty, IsDocument;
    forall n | n in EndsOfEdges(hash, edges, fs) ensures n in EndsUnder(fs, keys) {
      var f :| f in fs && !IsDocument(f) && n in RelationNames(hash, edges, f, f.relations);
      var r :| r in f.relations && hash(EdgeKey(EdgeOf(f, r))) in edges && n in NonEmpty(f.name) + NonEmpty(r.target);
    }
    forall n | n in EndsUnder(fs, keys) ensures n in EndsOfEdges(hash, edges, fs) {
      var f, r :| f in fs && !IsDocument(f) && r in f.relations && EdgeKey(EdgeOf(f, r)) in keys && n in NonEmpty(f.name) + NonEmpty(r.target);
      assert n in RelationNames(hash, edges, f, f.relations);
    }
  }
}
