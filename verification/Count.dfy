/** `CountFacts`: the summary of a delta without the delta, and how far it is exact. */
module Count {
  import opened Text
  import opened Bags
  import opened Slices
  import opened Facts
  import opened Diff
  import opened DiffLaws
  import opened Sides
  import opened Counts
  import opened SideLaws
  import opened HashSets
  import opened Counting
  import opened CountLaws
  import opened NameLaws

  ghost function CosmeticPairs(pr: Printer, gb: map<string, seq<Fact>>, gc: map<string, seq<Fact>>): multiset<FactChange> {
    Bag(gb.Keys + gc.Keys, CosmeticOf(pr, gb, gc))
  }

  /** Counts of a pair of sources against any delta `Compute` may list for it. */
  ghost predicate CountsFacts(pr: Printer, told: Told, c: Counts, gb: map<string, seq<Fact>>, gc: map<string, seq<Fact>>,
                              added: seq<Fact>, removed: seq<Fact>, changed: seq<FactChange>)
    reads c
  {
    && c.FactsAdded == |added| && IsTally(c.AddedByKind, multiset(Mapped(added, ToldFn(told))))
    && c.FactsRemoved == |removed| && IsTally(c.RemovedByKind, multiset(Mapped(removed, ToldFn(told))))
    && c.FactsChanged == |changed| + |CosmeticPairs(pr, gb, gc)|
  }

  /** The three accumulations of the join, in terms of the lists. */
  lemma JoinTranslates(pr: Printer, hash: Hash, told: Told, base: seq<Fact>, cur: seq<Fact>,
                       gb: map<string, seq<Fact>>, gc: map<string, seq<Fact>>, rb: SeenRows, rc: SeenRows, all: set<Word>,
                       added: seq<Fact>, removed: seq<Fact>, changed: seq<FactChange>)
    requires pr.Valid() && KeysHashApart(pr, hash, base + cur) && PropsHashApart(pr, hash, base + cur)
    requires FactDelta(pr, base, cur, gb, gc, added, removed, changed)
    requires HashedRows(pr, hash, told, gb, rb) && HashedRows(pr, hash, told, gc, rc)
    requires all == HashImage(hash, gb.Keys + gc.Keys)
    ensures Bag(all, AddedKinds(rb, rc)) == multiset(Mapped(added, ToldFn(told)))
    ensures Bag(all, AddedKinds(rc, rb)) == multiset(Mapped(removed, ToldFn(told)))
    ensures |Bag(all, ChangedAt(rb, rc))| == |changed| + |CosmeticPairs(pr, gb, gc)|
    ensures MovedAre(pr, hash, gb, gc, MovedKeys(all, all, rb, rc))
  {
    hide KeysHashApart, PropsHashApart, Printer.Valid, IsFactGrouping, HashedRows, Bag, HashImage, MovedKeys, MovedAre,
      SurplusOf, AddedKinds, ChangedAt, ChangesOf, CosmeticOf, Mapped;
    var keys := gb.Keys + gc.Keys;
    AllKeys(pr, hash, base, cur, gb, gc);
    assert gc.Keys + gb.Keys == keys;
    KindsTranslate(pr, hash, told, gb, gc, rb, rc, keys, added);
    KindsTranslate(pr, hash, told, gc, gb, rc, rb, keys, removed);
    ChangedTranslate(pr, hash, told, base, cur, gb, gc, rb, rc, keys, changed);
    MovedTranslate(pr, hash, told, base, cur, gb, gc, rb, rc, keys);
  }

  lemma HashedKeysTogether(pr: Printer, hash: Hash, told: Told, gb: map<string, seq<Fact>>, gc: map<string, seq<Fact>>, rb: SeenRows, rc: SeenRows)
    requires HashedRows(pr, hash, told, gb, rb) && HashedRows(pr, hash, told, gc, rc)
    ensures rb.Keys + rc.Keys == HashImage(hash, gb.Keys + gc.Keys)
  {
  }

  lemma SettledCounts(pr: Printer, hash: Hash, told: Told, base: seq<Fact>, cur: seq<Fact>,
                      gb: map<string, seq<Fact>>, gc: map<string, seq<Fact>>, rb: SeenRows, rc: SeenRows,
                      added: seq<Fact>, removed: seq<Fact>, changed: seq<FactChange>, c: Counts, moved: set<Word>)
    requires Countable(pr, hash, base, cur)
    requires FactDelta(pr, base, cur, gb, gc, added, removed, changed)
    requires HashedRows(pr, hash, told, gb, rb) && HashedRows(pr, hash, told, gc, rc)
    requires c.Settled(rb.Keys + rc.Keys, rb.Keys + rc.Keys, rb, rc, moved)
    ensures CountsFacts(pr, told, c, gb, gc, added, removed, changed)
    ensures MovedAre(pr, hash, gb, gc, moved)
  {
    hide KindsFollowKeys, KeysHashApart, PropsHashApart, Printer.Valid, FactDelta, HashedRows, Bag, HashImage, MovedKeys, MovedAre, AddedKinds, ChangedAt,
      CosmeticPairs, Mapped, IsTally, KindsOf;
    HashedKeysTogether(pr, hash, told, gb, gc, rb, rc);
    JoinTranslates(pr, hash, told, base, cur, gb, gc, rb, rc, rb.Keys + rc.Keys, added, removed, changed);
    TallySize(added, told);
    TallySize(removed, told);
  }

  lemma TallySize(fs: seq<Fact>, told: Told)
    ensures |multiset(Mapped(fs, ToldFn(told)))| == |fs|
  {
  }

  /** What either side shows, as one predicate. */
  lemma ReducedShown(pr: Printer, hash: Hash, told: Told, base: seq<Fact>, cur: seq<Fact>, g: map<string, seq<Fact>>, fs: seq<Fact>,
                     recs: seq<FactRec>, flat0: seq<FactRec>, flat: seq<FactRec>,
                     groups: map<Word, seq<Member>>, names: seq<string>, shared: set<Word>) returns (rows: SeenRows)
    requires Countable(pr, hash, base, cur) && (fs == base || fs == cur) && IsFactGrouping(pr, fs, g)
    requires SideReduced(pr, hash, told, fs, recs, flat0, flat, groups, names, shared)
    ensures HashedRows(pr, hash, told, g, rows) && Shown(rows, flat, groups, names, shared)
  {
    CountableSides(pr, hash, base, cur);
    hide Countable, KindsFollowKeys, KeysHashApart, Printer.Valid, IsFactGrouping, HashedRows, SideReduced, Increasing, ShowsGroups, RecSeen, KeysOf;
    rows := HashedRowsExist(pr, hash, told, fs, g);
    SideShows(pr, hash, told, fs, g, rows, recs, flat0, flat, groups, names, shared);
  }

  method CountSources(pr: Printer, hash: Hash, ghost told: Told, base: seq<Fact>, cur: seq<Fact>,
                      ghost gb: map<string, seq<Fact>>, ghost gc: map<string, seq<Fact>>)
    returns (c: Counts, keys: set<Word>, baseEdges: seq<Word>, curEdges: seq<Word>, ghost rb: SeenRows, ghost rc: SeenRows)
    requires Countable(pr, hash, base, cur) && told == ToldIn(base, cur)
    requires IsFactGrouping(pr, base, gb) && IsFactGrouping(pr, cur, gc)
    ensures fresh(c) && c.Settled(rb.Keys + rc.Keys, rb.Keys + rc.Keys, rb, rc, keys)
    ensures HashedRows(pr, hash, told, gb, rb) && HashedRows(pr, hash, told, gc, rc)
    ensures EdgeHashes(hash, base, baseEdges) && EdgeHashes(hash, cur, curEdges)
  {
    CountableSides(pr, hash, base, cur);
    hide *;
    var bs, cs, br, cr := FirstPasses(pr, hash, told, base, cur);
    baseEdges, curEdges := bs.edges, cs.edges;
    ghost var b0, c0 := bs.flat, cs.flat;
    ghost var shared := SecondPasses(pr, hash, told, bs, cs, base, cur, br, cr);
    rb := ReducedShown(pr, hash, told, base, cur, gb, base, br, b0, bs.flat, bs.groups, bs.kinds.names, shared);
    rc := ReducedShown(pr, hash, told, base, cur, gc, cur, cr, c0, cs.flat, cs.groups, cs.kinds.names, shared);
    c, keys := CountSides(bs, cs, rb, rc, shared);
  }

  function NumberFn(order: seq<string>): Fact -> nat { (f: Fact) => Position(order, f.kind) % 65536 }

  /** The kinds numbered alike in 16 bits are tallied together, under the one numbered first, and
      none under a kind numbered later. */
  lemma {:induction false} TalliedTogether(order: seq<string>, fs: seq<Fact>, n: nat)
    requires Distinct(order) && n < |order| && forall f :: f in fs ==> f.kind in order
    ensures multiset(Mapped(fs, ToldFn(ToldBy(order))))[order[n]]
         == if n < 65536 then |Members(fs, NumberFn(order), n)| else 0
    decreases |fs|
  {
    hide ToldBy, Position, Mapped, Distinct;
    if fs == [] {
      MappedNil(ToldFn(ToldBy(order)));
    } else {
      var init, last := fs[..|fs| - 1], fs[|fs| - 1];
      assert fs == init + [last];
      TalliedTogether(order, init, n);
      MappedSnoc(init, last, ToldFn(ToldBy(order)));
      AppendMember(init, last, NumberFn(order), n);
      ToldUnder(order, last.kind, n);
    }
  }

  lemma ToldUnder(order: seq<string>, kind: string, n: nat)
    requires Distinct(order) && n < |order| && kind in order
    ensures ToldBy(order)(kind) == order[n] <==> n < MAX_KINDS && Position(order, kind) % MAX_KINDS == n
  {
    hide Position;
    var m :| 0 <= m < |order| && order[m] == kind;
    PositionOf(order, m);
  }

  ghost predicate AllNulFree(base: seq<Fact>, cur: seq<Fact>) {
    && (forall f :: f in base + cur ==> NulFreeFields(f))
    && NulFreeEdges(base) && NulFreeEdges(cur)
  }

  /** The names of every fact whose identity moved and the ends of every edge whose key did. */
  ghost function NamesBehind(pr: Printer, base: seq<Fact>, cur: seq<Fact>, gb: map<string, seq<Fact>>, gc: map<string, seq<Fact>>,
                             mb: map<string, Edge>, mc: map<string, Edge>): set<string> {
    var moved := (mc.Keys - mb.Keys) + (mb.Keys - mc.Keys);
    IdentityNames(pr, base, gb, gc) + EndsUnder(base, moved) + (IdentityNames(pr, cur, gb, gc) + EndsUnder(cur, moved))
  }

  lemma NamesExactly(pr: Printer, hash: Hash, base: seq<Fact>, cur: seq<Fact>,
                     gb: map<string, seq<Fact>>, gc: map<string, seq<Fact>>, mb: map<string, Edge>, mc: map<string, Edge>,
                     keys: set<Word>, edges: set<Word>)
    requires IsFactGrouping(pr, base, gb) && IsFactGrouping(pr, cur, gc)
    requires IsEdgeSet(base, mb) && IsEdgeSet(cur, mc) && EdgesHashApart(hash, base + cur)
    requires MovedAre(pr, hash, gb, gc, keys)
    requires edges == HashImage(hash, mb.Keys - mc.Keys) + HashImage(hash, mc.Keys - mb.Keys)
    ensures MovedNamesIn(pr, hash, keys, edges, base) + MovedNamesIn(pr, hash, keys, edges, cur)
         == NamesBehind(pr, base, cur, gb, gc, mb, mc)
  {
    hide IsFactGrouping, IsEdgeSet, EdgesHashApart, MovedAre, HashImage, MovedNamesIn, NamesOfKeys, EndsOfEdges, IdentityNames, EndsUnder;
    assert edges == HashImage(hash, mc.Keys - mb.Keys) + HashImage(hash, mb.Keys - mc.Keys);
    MovedNamesSplit(pr, hash, keys, edges, base);
    MovedNamesSplit(pr, hash, keys, edges, cur);
    IdentitiesMarked(pr, hash, base, cur, base, gb, gc, keys);
    IdentitiesMarked(pr, hash, base, cur, cur, gb, gc, keys);
    EdgesMarked(hash, base, cur, base, mb, mc, edges);
    EdgesMarked(hash, base, cur, cur, mb, mc, edges);
  }

  /** Two passes, a join and a pass for names give the numbers of every delta `Compute` may
      list: exactly for added, removed and edges, up to the cosmetic pairs for changed. */
  method CountFacts(pr: Printer, hash: Hash, base: seq<Fact>, cur: seq<Fact>,
                    ghost gb: map<string, seq<Fact>>, ghost gc: map<string, seq<Fact>>,
                    ghost mb: map<string, Edge>, ghost mc: map<string, Edge>,
                    ghost added: seq<Fact>, ghost removed: seq<Fact>, ghost changed: seq<FactChange>,
                    ghost edgesAdded: seq<Edge>, ghost edgesRemoved: seq<Edge>)
    returns (c: Counts)
    requires Countable(pr, hash, base, cur) && EdgesHashApart(hash, base + cur)
    requires FactDelta(pr, base, cur, gb, gc, added, removed, changed)
    requires EdgeDelta(base, cur, mb, mc, edgesAdded, edgesRemoved)
    ensures fresh(c)
    ensures CountsFacts(pr, ToldIn(base, cur), c, gb, gc, added, removed, changed)
    ensures |KindsOf(base + cur)| <= 65536 ==>
      IsTally(c.AddedByKind, multiset(Mapped(added, KIND))) && IsTally(c.RemovedByKind, multiset(Mapped(removed, KIND)))
    ensures c.EdgesAdded == |edgesAdded| && c.EdgesRemoved == |edgesRemoved|
    ensures c.TouchedNames == NamesBehind(pr, base, cur, gb, gc, mb, mc)
    ensures Touched(added, removed, changed, edgesAdded, edgesRemoved) + CosmeticNames(pr, gb, gc) <= c.TouchedNames
    ensures AllNulFree(base, cur) ==>
      c.TouchedNames == Touched(added, removed, changed, edgesAdded, edgesRemoved) + CosmeticNames(pr, gb, gc)
  {
    hide Countable, EdgesHashApart, EdgeDelta, IsFactGrouping, IsFactDelta, HashedRows, EdgeHashes, Counts.Settled, AllNulFree, Elems, HashImage, IsEdgeSet, NamesBehind, ToldIn, Mapped, IsTally, CosmeticPairs, KindsOf;
    var keys, be, ce;
    ghost var rb, rc;
    ghost var told := ToldIn(base, cur);
    c, keys, be, ce, rb, rc := CountSources(pr, hash, told, base, cur, gb, gc);
    SettledCounts(pr, hash, told, base, cur, gb, gc, rb, rc, added, removed, changed, c, keys);
    var ea, er, edges := CountEdges(be, ce);
    var names := ResolveNames(pr, hash, keys, edges, base, cur);
    EdgesTranslate(hash, base, cur, mb, mc, be, ce, edgesAdded, edgesRemoved);
    EdgeSetsOf(base, cur, mb, mc, edgesAdded, edgesRemoved);
    NamesExactly(pr, hash, base, cur, gb, gc, mb, mc, keys, edges);
    NamesCovered(pr, hash, base, cur, gb, gc, mb, mc, added, removed, changed, edgesAdded, edgesRemoved, keys, edges);
    if AllNulFree(base, cur) {
      NamesTranslate(pr, hash, base, cur, gb, gc, mb, mc, added, removed, changed, edgesAdded, edgesRemoved, keys, edges);
    }
    if |KindsOf(base + cur)| <= MAX_KINDS {
      EachUnderItself(pr, base, cur, gb, gc, added, removed, changed);
    }
    SetRest(pr, told, c, gb, gc, added, removed, changed, ea, er, names);
  }

  /** With few enough kinds every fact is counted under its own. */
  lemma EachUnderItself(pr: Printer, base: seq<Fact>, cur: seq<Fact>, gb: map<string, seq<Fact>>, gc: map<string, seq<Fact>>,
                        added: seq<Fact>, removed: seq<Fact>, changed: seq<FactChange>)
    requires FactDelta(pr, base, cur, gb, gc, added, removed, changed) && |KindsOf(base + cur)| <= MAX_KINDS
    ensures Mapped(added, ToldFn(ToldIn(base, cur))) == Mapped(added, KIND)
    ensures Mapped(removed, ToldFn(ToldIn(base, cur))) == Mapped(removed, KIND)
  {
    hide IsFactGrouping, Bag, SurplusOf, ToldBy, KindOrder, KindsOf;
    FewKinds(base + cur);
    forall f | f in added || f in removed ensures ToldFn(ToldIn(base, cur))(f) == KIND(f) {
      ListedIsGiven(pr, base, cur, gb, gc, added, removed, changed, f);
      ToldAsItself(base + cur, f);
    }
    MappedSame(added, ToldFn(ToldIn(base, cur)), KIND);
    MappedSame(removed, ToldFn(ToldIn(base, cur)), KIND);
  }

  lemma MappedSame<T, U>(xs: seq<T>, p: T -> U, q: T -> U)
    requires forall x :: x in xs ==> p(x) == q(x)
    ensures Mapped(xs, p) == Mapped(xs, q)
  {
  }

  lemma ListedIsGiven(pr: Printer, base: seq<Fact>, cur: seq<Fact>, gb: map<string, seq<Fact>>, gc: map<string, seq<Fact>>,
                      added: seq<Fact>, removed: seq<Fact>, changed: seq<FactChange>, f: Fact)
    requires FactDelta(pr, base, cur, gb, gc, added, removed, changed) && (f in added || f in removed)
    ensures f in base + cur
  {
    hide IsFactGrouping, Bag, SurplusOf, FactKey;
    var keys := gb.Keys + gc.Keys;
    if f in added {
      assert f in multiset(added);
      BagMember(keys, SurplusOf(gb, gc), f);
      var k :| k in keys && f in SurplusOf(gb, gc)(k);
      ListedUnder(pr, base, cur, gb, gc, k);
    } else {
      assert f in multiset(removed);
      BagMember(keys, SurplusOf(gc, gb), f);
      var k :| k in keys && f in SurplusOf(gc, gb)(k);
      ListedUnder(pr, base, cur, gb, gc, k);
    }
  }

  lemma EdgeSetsOf(base: seq<Fact>, cur: seq<Fact>, mb: map<string, Edge>, mc: map<string, Edge>, added: seq<Edge>, removed: seq<Edge>)
    requires EdgeDelta(base, cur, mb, mc, added, removed)
    ensures IsEdgeSet(base, mb) && IsEdgeSet(cur, mc)
  {
    hide IsEdgeSet, ListsEdges;
  }

  /** The assignments to the remaining fields leave the fact counts alone. */
  method SetRest(ghost pr: Printer, ghost told: Told, c: Counts, ghost gb: map<string, seq<Fact>>, ghost gc: map<string, seq<Fact>>,
                 ghost added: seq<Fact>, ghost removed: seq<Fact>, ghost changed: seq<FactChange>,
                 edgesAdded: nat, edgesRemoved: nat, names: set<string>)
    requires CountsFacts(pr, told, c, gb, gc, added, removed, changed)
    modifies c`EdgesAdded, c`EdgesRemoved, c`TouchedNames
    ensures CountsFacts(pr, told, c, gb, gc, added, removed, changed)
    ensures c.EdgesAdded == edgesAdded && c.EdgesRemoved == edgesRemoved && c.TouchedNames == names
  {
    hide Mapped, Bag, CosmeticPairs;
    c.EdgesAdded, c.EdgesRemoved, c.TouchedNames := edgesAdded, edgesRemoved, names;
  }

  lemma NamesTranslate(pr: Printer, hash: Hash, base: seq<Fact>, cur: seq<Fact>,
                       gb: map<string, seq<Fact>>, gc: map<string, seq<Fact>>, mb: map<string, Edge>, mc: map<string, Edge>,
                       added: seq<Fact>, removed: seq<Fact>, changed: seq<FactChange>,
                       edgesAdded: seq<Edge>, edgesRemoved: seq<Edge>, keys: set<Word>, edges: set<Word>)
    requires AllNulFree(base, cur) && EdgesHashApart(hash, base + cur)
    requires FactDelta(pr, base, cur, gb, gc, added, removed, changed)
    requires EdgeDelta(base, cur, mb, mc, edgesAdded, edgesRemoved)
    requires MovedAre(pr, hash, gb, gc, keys)
    requires edges == HashImage(hash, mb.Keys - mc.Keys) + HashImage(hash, mc.Keys - mb.Keys)
    ensures MovedNamesIn(pr, hash, keys, edges, base) + MovedNamesIn(pr, hash, keys, edges, cur)
         == Touched(added, removed, changed, edgesAdded, edgesRemoved) + CosmeticNames(pr, gb, gc)
  {
    hide FactDelta, EdgeDelta, MovedAre, EdgesHashApart, HashImage, NulFreeFields, NulFreeEdges, MovedNamesIn, NamesOfKeys, EndsOfEdges,
      FactNames, AfterNames, Ends, CosmeticNames;
    assert edges == HashImage(hash, mc.Keys - mb.Keys) + HashImage(hash, mb.Keys - mc.Keys);
    MovedNamesSplit(pr, hash, keys, edges, base);
    MovedNamesSplit(pr, hash, keys, edges, cur);
    FactNamesTranslate(pr, hash, base, cur, gb, gc, keys, added, removed, changed);
    EdgeNamesTranslate(hash, base, cur, mb, mc, edgesAdded, edgesRemoved, edges);
  }

  /** Whatever the fields hold, no touched name is missed. */
  lemma NamesCovered(pr: Printer, hash: Hash, base: seq<Fact>, cur: seq<Fact>,
                     gb: map<string, seq<Fact>>, gc: map<string, seq<Fact>>, mb: map<string, Edge>, mc: map<string, Edge>,
                     added: seq<Fact>, removed: seq<Fact>, changed: seq<FactChange>,
                     edgesAdded: seq<Edge>, edgesRemoved: seq<Edge>, keys: set<Word>, edges: set<Word>)
    requires FactDelta(pr, base, cur, gb, gc, added, removed, changed)
    requires EdgeDelta(base, cur, mb, mc, edgesAdded, edgesRemoved)
    requires MovedAre(pr, hash, gb, gc, keys)
    requires edges == HashImage(hash, mb.Keys - mc.Keys) + HashImage(hash, mc.Keys - mb.Keys)
    ensures Touched(added, removed, changed, edgesAdded, edgesRemoved) + CosmeticNames(pr, gb, gc)
         <= MovedNamesIn(pr, hash, keys, edges, base) + MovedNamesIn(pr, hash, keys, edges, cur)
  {
    hide FactDelta, EdgeDelta, MovedAre, HashImage, MovedNamesIn, NamesOfKeys, EndsOfEdges, FactNames, AfterNames, Ends, CosmeticNames;
    assert edges == HashImage(hash, mc.Keys - mb.Keys) + HashImage(hash, mb.Keys - mc.Keys);
    MovedNamesSplit(pr, hash, keys, edges, base);
    MovedNamesSplit(pr, hash, keys, edges, cur);
    EndsAreMarked(hash, base, cur, mb, mc, edgesAdded, edgesRemoved, edges);
    forall n | n in Touched(added, removed, changed, edgesAdded, edgesRemoved) + CosmeticNames(pr, gb, gc)
      ensures n in MovedNamesIn(pr, hash, keys, edges, base) + MovedNamesIn(pr, hash, keys, edges, cur)
    {
      if n !in Ends(edgesAdded) + Ends(edgesRemoved) {
        TouchedIsMarked(pr, hash, base, cur, gb, gc, keys, added, removed, changed, n);
      }
    }
  }

  // ---- how far the changed count is exact

  /** A cosmetic pair differs in its props and in none of the architectural ones. */
  lemma {:induction false} CosmeticMeans(pr: Printer, b: seq<Fact>, c: seq<Fact>, n: nat, x: FactChange)
    requires pr.Valid() && n <= |b| && n <= |c|
    ensures x in Cosmetic(pr, b, c, n) <==>
      exists i :: 0 <= i < n && x == FactChange(b[i], c[i])
        && b[i].props != c[i].props && ArchitecturalProps(b[i]) == ArchitecturalProps(c[i])
  {
    hide Printer.Valid, PropsChanged, ArchitecturalProps;
    if n > 0 {
      CosmeticMeans(pr, b, c, n - 1, x);
      ChangedMeansArchitectural(pr, b[n - 1], c[n - 1]);
    }
  }

  /** The changed count is that of the list exactly when every positional pair that differs in its
      props differs in the architectural ones. */
  lemma ChangedCountExact(pr: Printer, gb: map<string, seq<Fact>>, gc: map<string, seq<Fact>>)
    requires pr.Valid()
    ensures |CosmeticPairs(pr, gb, gc)| == 0 <==>
      forall k, i :: k in gb && k in gc && 0 <= i < Paired(gb[k], gc[k]) && gb[k][i].props != gc[k][i].props ==>
        ArchitecturalProps(gb[k][i]) != ArchitecturalProps(gc[k][i])
  {
    hide Cosmetic, ArchitecturalProps, Printer.Valid, Bag;
    BagEmpty(gb.Keys + gc.Keys, CosmeticOf(pr, gb, gc));
    assert |CosmeticPairs(pr, gb, gc)| == 0 <==> CosmeticPairs(pr, gb, gc) == multiset{};
    forall k ensures CosmeticOf(pr, gb, gc)(k) == [] <==>
      forall i :: 0 <= i < Paired(Row(gb, k), Row(gc, k)) && Row(gb, k)[i].props != Row(gc, k)[i].props ==>
        ArchitecturalProps(Row(gb, k)[i]) != ArchitecturalProps(Row(gc, k)[i])
    {
      NoneCosmetic(pr, Row(gb, k), Row(gc, k), Paired(Row(gb, k), Row(gc, k)));
    }
  }

  lemma NoneCosmetic(pr: Printer, b: seq<Fact>, c: seq<Fact>, n: nat)
    requires pr.Valid() && n <= |b| && n <= |c|
    ensures Cosmetic(pr, b, c, n) == [] <==>
      forall i :: 0 <= i < n && b[i].props != c[i].props ==> ArchitecturalProps(b[i]) != ArchitecturalProps(c[i])
  {
    hide Cosmetic, ArchitecturalProps, Printer.Valid;
    if Cosmetic(pr, b, c, n) != [] {
      CosmeticMeans(pr, b, c, n, Cosmetic(pr, b, c, n)[0]);
    }
    forall i | 0 <= i < n && b[i].props != c[i].props && ArchitecturalProps(b[i]) == ArchitecturalProps(c[i])
      ensures Cosmetic(pr, b, c, n) != []
    {
      CosmeticMeans(pr, b, c, n, FactChange(b[i], c[i]));
    }
  }

  /** It always is when no fact carries a non-architectural prop. */
  lemma NoCosmeticPairs(pr: Printer, base: seq<Fact>, cur: seq<Fact>, gb: map<string, seq<Fact>>, gc: map<string, seq<Fact>>)
    requires pr.Valid() && IsFactGrouping(pr, base, gb) && IsFactGrouping(pr, cur, gc)
    requires forall f :: f in base + cur ==> !HasNonArchitectural(f)
    ensures |CosmeticPairs(pr, gb, gc)| == 0
  {
    hide Printer.Valid, IsFactGrouping, HasNonArchitectural, ArchitecturalProps, Bag;
    forall k | k in gb.Keys + gc.Keys ensures CosmeticOf(pr, gb, gc)(k) == [] {
      RowKeys(pr, base, gb, k);
      RowKeys(pr, cur, gc, k);
      NoCosmeticRow(pr, Row(gb, k), Row(gc, k), Paired(Row(gb, k), Row(gc, k)));
    }
    BagEmpty(gb.Keys + gc.Keys, CosmeticOf(pr, gb, gc));
  }

  lemma {:induction false} NoCosmeticRow(pr: Printer, b: seq<Fact>, c: seq<Fact>, n: nat)
    requires pr.Valid() && n <= |b| && n <= |c|
    requires forall f :: f in b || f in c ==> !HasNonArchitectural(f)
    ensures Cosmetic(pr, b, c, n) == []
  {
    hide Printer.Valid, HasNonArchitectural, ArchitecturalProps, PropsChanged;
    if n > 0 {
      NoCosmeticRow(pr, b, c, n - 1);
      ChangedMeansArchitectural(pr, b[n - 1], c[n - 1]);
      AllArchitectural(b[n - 1]);
      AllArchitectural(c[n - 1]);
    }
  }

  function Commented(text: string): Fact {
    Fact("symbol", "f", "a.go", 1, "r", map[DOC := Str(text)], [])
  }

  /** A reworded comment: every delta of the two snapshots is empty, and every count of them has
      one changed fact. */
  lemma RewordedCommentCounts(pr: Printer, gb: map<string, seq<Fact>>, gc: map<string, seq<Fact>>,
                              added: seq<Fact>, removed: seq<Fact>, changed: seq<FactChange>)
    requires pr.Valid()
    requires FactDelta(pr, [Commented("old")], [Commented("new")], gb, gc, added, removed, changed)
    ensures added == removed == [] && changed == []
    ensures |CosmeticPairs(pr, gb, gc)| == 1
  {
    var x, y := Commented("old"), Commented("new");
    var k := FactKey(pr, x);
    hide Bag, Printer.Valid, FactKey, Commented, IsFactGrouping, SurplusOf, ChangesOf, CosmeticOf, Changes, Cosmetic;
    OnlyGroup(pr, x, gb);
    OnlyGroup(pr, y, gc);
    CosmeticPair(pr);
    OnePair(pr, k, x, y);
    assert gb.Keys + gc.Keys == {k};
    OneKey(k, SurplusOf(gb, gc));
    OneKey(k, SurplusOf(gc, gb));
    OneKey(k, ChangesOf(pr, gb, gc));
    OneKey(k, CosmeticOf(pr, gb, gc));
    NothingIn(added);
    NothingIn(removed);
    NothingIn(changed);
  }

  lemma OnePair(pr: Printer, k: string, x: Fact, y: Fact)
    ensures
      var gb, gc := map[k := [x]], map[k := [y]];
      && SurplusOf(gb, gc)(k) == [] && SurplusOf(gc, gb)(k) == []
      && ChangesOf(pr, gb, gc)(k) == Changes(pr, [x], [y], 1) && CosmeticOf(pr, gb, gc)(k) == Cosmetic(pr, [x], [y], 1)
  {
    hide Changes, Cosmetic;
  }

  lemma CosmeticPair(pr: Printer)
    requires pr.Valid()
    ensures Changes(pr, [Commented("old")], [Commented("new")], 1) == []
    ensures |Cosmetic(pr, [Commented("old")], [Commented("new")], 1)| == 1
    ensures FactKey(pr, Commented("old")) == FactKey(pr, Commented("new"))
  {
    var x, y := Commented("old"), Commented("new");
    assert x.props[DOC] != y.props[DOC];
    assert ArchitecturalProps(x) == map[] == ArchitecturalProps(y);
    ChangedMeansArchitectural(pr, x, y);
    assert Changes(pr, [x], [y], 0) == [] && Cosmetic(pr, [x], [y], 0) == [];
  }

  lemma OnlyGroup(pr: Printer, x: Fact, g: map<string, seq<Fact>>)
    requires IsFactGrouping(pr, [x], g)
    ensures g == map[FactKey(pr, x) := [x]]
  {
    hide FactKey, IntraGroupOrder, SortedBy, Members;
    var k := FactKey(pr, x);
    MembersOne(x, KeyFn(pr), k);
    AppendKey([], x, KeyFn(pr));
    assert [] + [x] == [x] && KeysOf([], KeyFn(pr)) == {};
    assert g.Keys == {k};
    OnlyMember(g[k], x);
  }

  lemma OnlyMember<T>(xs: seq<T>, x: T)
    requires multiset(xs) == multiset{x}
    ensures xs == [x]
  {
    assert |multiset(xs)| == |xs|;
    assert xs[0] in multiset(xs);
  }

  lemma OneKey<T>(k: string, f: string -> seq<T>)
    ensures Bag({k}, f) == multiset(f(k))
  {
    BagAdd({}, f, k);
    assert {} + {k} == {k};
  }
}
