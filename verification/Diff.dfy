/** The materialised structural delta between two fact lists (internal/diff/diff.go). */
module Diff {
  import opened Text
  import opened Bags
  import opened Slices
  import opened Facts

  function KeyFn(pr: Printer): Fact -> string { f => FactKey(pr, f) }

  function OrderFn(pr: Printer): Fact -> string { f => IntraGroupOrder(pr, f) }

  function SortKeyFn(pr: Printer): Fact -> string { f => FactSortKey(pr, f) }

  function AfterSortKeyFn(pr: Printer): FactChange -> string { (c: FactChange) => FactSortKey(pr, c.after) }

  const EDGE_KEY: Edge -> string := e => EdgeKey(e)

  ghost predicate IsFactGrouping(pr: Printer, fs: seq<Fact>, g: map<string, seq<Fact>>) {
    IsGrouping(fs, KeyFn(pr), OrderFn(pr), g)
  }

  // ---- what the loops over the groups produce, key by key

  function Surplus<T>(b: seq<T>, c: seq<T>): seq<T> {
    if |b| < |c| then c[|b|..] else []
  }

  function Paired<T>(b: seq<T>, c: seq<T>): nat {
    if |b| < |c| then |b| else |c|
  }

  function Changes(pr: Printer, b: seq<Fact>, c: seq<Fact>, n: nat): seq<FactChange>
    requires n <= |b| && n <= |c|
  {
    if n == 0 then []
    else if PropsChanged(pr, b[n - 1], c[n - 1]) then
      Changes(pr, b, c, n - 1) + [FactChange(b[n - 1], c[n - 1])]
    else Changes(pr, b, c, n - 1)
  }

  function SurplusOf<K(==), T(!new)>(gb: map<K, seq<T>>, gc: map<K, seq<T>>): K -> seq<T> {
    k => Surplus(Row(gb, k), Row(gc, k))
  }

  function ChangesOf(pr: Printer, gb: map<string, seq<Fact>>, gc: map<string, seq<Fact>>): string -> seq<FactChange> {
    k => Changes(pr, Row(gb, k), Row(gc, k), Paired(Row(gb, k), Row(gc, k)))
  }

  /** The delta the groups determine: per identity, the members beyond the paired ones on
      either side, and the positional pairs whose props changed. */
  ghost predicate IsFactDelta(pr: Printer, gb: map<string, seq<Fact>>, gc: map<string, seq<Fact>>,
                              added: seq<Fact>, removed: seq<Fact>, changed: seq<FactChange>) {
    && multiset(added) == Bag(gb.Keys + gc.Keys, SurplusOf(gb, gc))
    && multiset(removed) == Bag(gb.Keys + gc.Keys, SurplusOf(gc, gb))
    && multiset(changed) == Bag(gb.Keys + gc.Keys, ChangesOf(pr, gb, gc))
  }

  /** A fact delta of two lists, where `gb` and `gc` group them with ties broken somehow. */
  ghost predicate FactDelta(pr: Printer, base: seq<Fact>, cur: seq<Fact>,
                            gb: map<string, seq<Fact>>, gc: map<string, seq<Fact>>,
                            added: seq<Fact>, removed: seq<Fact>, changed: seq<FactChange>) {
    && IsFactGrouping(pr, base, gb) && IsFactGrouping(pr, cur, gc)
    && IsFactDelta(pr, gb, gc, added, removed, changed)
  }

  // ---- edges

  ghost predicate IsEdge(fs: seq<Fact>, e: Edge) {
    exists f, r :: f in fs && !IsDocument(f) && r in f.relations && e == EdgeOf(f, r)
  }

  /** One edge of `fs` under every edge key of `fs`, and nothing else. */
  ghost predicate IsEdgeSet(fs: seq<Fact>, m: map<string, Edge>) {
    && (forall k :: k in m ==> IsEdge(fs, m[k]) && EdgeKey(m[k]) == k)
    && (forall e :: IsEdge(fs, e) ==> EdgeKey(e) in m)
  }

  /** The edges `m` holds under the keys `ks`, each once. */
  ghost predicate ListsEdges(es: seq<Edge>, m: map<string, Edge>, ks: set<string>) {
    && multiset(Mapped(es, EDGE_KEY)) == multiset(ks)
    && forall e :: e in es ==> EdgeKey(e) in m && m[EdgeKey(e)] == e
  }

  ghost predicate EdgeDelta(base: seq<Fact>, cur: seq<Fact>, mb: map<string, Edge>, mc: map<string, Edge>,
                            added: seq<Edge>, removed: seq<Edge>) {
    && IsEdgeSet(base, mb) && IsEdgeSet(cur, mc)
    && ListsEdges(added, mc, mc.Keys - mb.Keys)
    && ListsEdges(removed, mb, mb.Keys - mc.Keys)
  }

  method EdgeSet(fs: seq<Fact>) returns (m: map<string, Edge>)
    ensures IsEdgeSet(fs, m)
  {
    m := map[];
    for i := 0 to |fs|
      invariant IsEdgeSet(fs[..i], m)
    {
      TakeSnoc(fs, i + 1);
      if IsDocument(fs[i]) {
        DocumentHasNoEdges(fs[..i], fs[i]);
      } else {
        m := AddEdges(fs[..i], fs[i], m);
      }
    }
    TakeAll(fs);
  }

  method AddEdges(ghost older: seq<Fact>, f: Fact, m0: map<string, Edge>) returns (m: map<string, Edge>)
    requires !IsDocument(f) && IsEdgeSet(older, m0)
    ensures IsEdgeSet(older + [f], m)
  {
    hide IsEdgeSet;
    m := m0;
    NoRelations(older, f, m);
    for j := 0 to |f.relations|
      invariant IsEdgeSet(older + [f.(relations := f.relations[..j])], m)
    {
      var e := EdgeOf(f, f.relations[j]);
      EdgeSetStep(older, f, j, m);
      m := m[EdgeKey(e) := e];
    }
    TakeAll(f.relations);
  }

  lemma IsEdgeLast(older: seq<Fact>, f: Fact, e: Edge)
    ensures IsEdge(older + [f], e) <==>
            IsEdge(older, e) || (!IsDocument(f) && exists r :: r in f.relations && e == EdgeOf(f, r))
  {
    if IsEdge(older + [f], e) {
      var g, r :| g in older + [f] && !IsDocument(g) && r in g.relations && e == EdgeOf(g, r);
      assert g in older || g == f;
    }
    if IsEdge(older, e) {
      var g, r :| g in older && !IsDocument(g) && r in g.relations && e == EdgeOf(g, r);
      assert g in older + [f];
    }
    if !IsDocument(f) && exists r :: r in f.relations && e == EdgeOf(f, r) {
      assert f in older + [f];
    }
  }

  lemma DocumentHasNoEdges(older: seq<Fact>, f: Fact)
    requires IsDocument(f)
    ensures forall m :: IsEdgeSet(older, m) ==> IsEdgeSet(older + [f], m)
  {
    forall e ensures IsEdge(older + [f], e) <==> IsEdge(older, e) {
      IsEdgeLast(older, f, e);
    }
  }

  lemma NoRelations(older: seq<Fact>, f: Fact, m: map<string, Edge>)
    requires IsEdgeSet(older, m)
    ensures IsEdgeSet(older + [f.(relations := f.relations[..0])], m)
  {
    forall e ensures IsEdge(older + [f.(relations := [])], e) <==> IsEdge(older, e) {
      IsEdgeLast(older, f.(relations := []), e);
    }
    assert f.relations[..0] == [];
  }

  lemma EdgeSetStep(older: seq<Fact>, f: Fact, j: nat, m: map<string, Edge>)
    requires !IsDocument(f) && j < |f.relations|
    requires IsEdgeSet(older + [f.(relations := f.relations[..j])], m)
    ensures var e := EdgeOf(f, f.relations[j]);
      IsEdgeSet(older + [f.(relations := f.relations[..j + 1])], m[EdgeKey(e) := e])
  {
    var now, next := f.(relations := f.relations[..j]), f.(relations := f.relations[..j + 1]);
    var last := EdgeOf(f, f.relations[j]);
    assert f.relations[..j + 1] == f.relations[..j] + [f.relations[j]];
    forall e ensures IsEdge(older + [next], e) <==> IsEdge(older + [now], e) || e == last {
      IsEdgeLast(older, now, e);
      IsEdgeLast(older, next, e);
      assert forall r :: r in next.relations <==> r in now.relations || r == f.relations[j];
      assert forall r :: EdgeOf(next, r) == EdgeOf(now, r) == EdgeOf(f, r);
    }
  }

  /** The edges of `m` whose key the other side does not have. */
  method EdgesBeyond(m: map<string, Edge>, other: map<string, Edge>) returns (es: seq<Edge>)
    requires forall k :: k in m ==> EdgeKey(m[k]) == k
    ensures ListsEdges(es, m, m.Keys - other.Keys)
  {
    hide ListsEdges, EdgeKey;
    es := [];
    var todo := m.Keys;
    NoEdgesListed(m, m.Keys - todo - other.Keys);
    while todo != {}
      invariant todo <= m.Keys
      invariant ListsEdges(es, m, m.Keys - todo - other.Keys)
      decreases todo
    {
      var k :| k in todo;
      ListEdgeStep(es, m, todo, other, k);
      todo := todo - {k};
      if k !in other {
        es := es + [m[k]];
      }
    }
    assert m.Keys - todo - other.Keys == m.Keys - other.Keys;
  }

  lemma NoEdgesListed(m: map<string, Edge>, ks: set<string>)
    requires ks == {}
    ensures ListsEdges([], m, ks)
  {
  }

  lemma ListEdgeStep(es: seq<Edge>, m: map<string, Edge>, todo: set<string>, other: map<string, Edge>, k: string)
    requires todo <= m.Keys && k in todo && EdgeKey(m[k]) == k
    requires ListsEdges(es, m, m.Keys - todo - other.Keys)
    ensures ListsEdges(if k in other then es else es + [m[k]], m, m.Keys - (todo - {k}) - other.Keys)
  {
    var done := m.Keys - todo - other.Keys;
    if k in other {
      assert m.Keys - (todo - {k}) - other.Keys == done;
    } else {
      ListEdge(es, m, done, k);
      assert m.Keys - (todo - {k}) - other.Keys == done + {k};
    }
  }

  lemma ListEdge(es: seq<Edge>, m: map<string, Edge>, ks: set<string>, k: string)
    requires ListsEdges(es, m, ks)
    requires k in m && EdgeKey(m[k]) == k && k !in ks
    ensures ListsEdges(es + [m[k]], m, ks + {k})
  {
    MappedAppend(es, [m[k]], EDGE_KEY);
    assert Mapped([m[k]], EDGE_KEY) == [k];
  }

  class SnapshotDiff {
    var FactsAdded: seq<Fact>
    var FactsRemoved: seq<Fact>
    var FactsChanged: seq<FactChange>
    var EdgesAdded: seq<Edge>
    var EdgesRemoved: seq<Edge>

    // The groups and edge sets the comparison built.
    ghost var baseGroups: map<string, seq<Fact>>
    ghost var curGroups: map<string, seq<Fact>>
    ghost var baseEdges: map<string, Edge>
    ghost var curEdges: map<string, Edge>

    ghost predicate IsFactDeltaOf(pr: Printer, base: seq<Fact>, cur: seq<Fact>)
      reads this`FactsAdded, this`FactsRemoved, this`FactsChanged, this`baseGroups, this`curGroups
    {
      FactDelta(pr, base, cur, baseGroups, curGroups, FactsAdded, FactsRemoved, FactsChanged)
    }

    ghost predicate IsEdgeDeltaOf(base: seq<Fact>, cur: seq<Fact>)
      reads this`EdgesAdded, this`EdgesRemoved, this`baseEdges, this`curEdges
    {
      EdgeDelta(base, cur, baseEdges, curEdges, EdgesAdded, EdgesRemoved)
    }

    constructor ()
      ensures FactsAdded == FactsRemoved == [] && FactsChanged == [] && EdgesAdded == EdgesRemoved == []
    {
      FactsAdded, FactsRemoved, FactsChanged, EdgesAdded, EdgesRemoved := [], [], [], [], [];
    }

    /** Pairs member i of the baseline group with member i of the current group. */
    method PairGroup(pr: Printer, b: seq<Fact>, c: seq<Fact>)
      modifies this`FactsAdded, this`FactsChanged
      ensures FactsAdded == old(FactsAdded) + Surplus(b, c)
      ensures FactsChanged == old(FactsChanged) + Changes(pr, b, c, Paired(b, c))
    {
      hide PropsChanged;
      for i := 0 to |c|
        invariant FactsAdded == old(FactsAdded) + if |b| < i then c[|b|..i] else []
        invariant FactsChanged == old(FactsChanged) + Changes(pr, b, c, if |b| < i then |b| else i)
      {
        if i >= |b| {
          assert c[|b|..i + 1] == c[|b|..i] + [c[i]];
          FactsAdded := FactsAdded + [c[i]];
        } else if PropsChanged(pr, b[i], c[i]) {
          FactsChanged := FactsChanged + [FactChange(b[i], c[i])];
        }
      }
    }

    /** Every current identity, in whatever order the map yields them. */
    method PairCurrent(pr: Printer, gb: map<string, seq<Fact>>, gc: map<string, seq<Fact>>)
      requires FactsAdded == [] && FactsChanged == []
      modifies this`FactsAdded, this`FactsChanged
      ensures multiset(FactsAdded) == Bag(gc.Keys, SurplusOf(gb, gc))
      ensures multiset(FactsChanged) == Bag(gc.Keys, ChangesOf(pr, gb, gc))
    {
      var todo := gc.Keys;
      BagEmpty({}, SurplusOf(gb, gc));
      assert gc.Keys - todo == {};
      while todo != {}
        invariant todo <= gc.Keys
        invariant multiset(FactsAdded) == Bag(gc.Keys - todo, SurplusOf(gb, gc))
        invariant multiset(FactsChanged) == Bag(gc.Keys - todo, ChangesOf(pr, gb, gc))
        decreases todo
      {
        var k :| k in todo;
        BagStep(gc.Keys, todo, k, SurplusOf(gb, gc), FactsAdded);
        BagStep(gc.Keys, todo, k, ChangesOf(pr, gb, gc), FactsChanged);
        PairGroup(pr, Row(gb, k), gc[k]);
        todo := todo - {k};
      }
      BagDone(gc.Keys, todo, SurplusOf(gb, gc));
      BagDone(gc.Keys, todo, ChangesOf(pr, gb, gc));
    }

    method RemoveGroup(b: seq<Fact>, c: seq<Fact>)
      modifies this`FactsRemoved
      ensures FactsRemoved == old(FactsRemoved) + Surplus(c, b)
    {
      var i := |c|;
      while i < |b|
        invariant |c| <= i
        invariant if |c| < |b| then i <= |b| && FactsRemoved == old(FactsRemoved) + b[|c|..i]
                  else FactsRemoved == old(FactsRemoved)
      {
        assert b[|c|..i + 1] == b[|c|..i] + [b[i]];
        FactsRemoved := FactsRemoved + [b[i]];
        i := i + 1;
      }
    }

    method CollectRemoved(gb: map<string, seq<Fact>>, gc: map<string, seq<Fact>>)
      requires FactsRemoved == []
      modifies this`FactsRemoved
      ensures multiset(FactsRemoved) == Bag(gb.Keys, SurplusOf(gc, gb))
    {
      var todo := gb.Keys;
      assert gb.Keys - todo == {};
      while todo != {}
        invariant todo <= gb.Keys
        invariant multiset(FactsRemoved) == Bag(gb.Keys - todo, SurplusOf(gc, gb))
        decreases todo
      {
        var k :| k in todo;
        BagStep(gb.Keys, todo, k, SurplusOf(gc, gb), FactsRemoved);
        RemoveGroup(gb[k], Row(gc, k));
        todo := todo - {k};
      }
      BagDone(gb.Keys, todo, SurplusOf(gc, gb));
    }

    method DiffFacts(pr: Printer, base: seq<Fact>, cur: seq<Fact>)
      requires FactsAdded == FactsRemoved == [] && FactsChanged == []
      modifies this`FactsAdded, this`FactsRemoved, this`FactsChanged, this`baseGroups, this`curGroups
      ensures IsFactDeltaOf(pr, base, cur)
    {
      var gb := GroupBy(base, KeyFn(pr), OrderFn(pr));
      var gc := GroupBy(cur, KeyFn(pr), OrderFn(pr));
      PairCurrent(pr, gb, gc);
      CollectRemoved(gb, gc);
      DeltaOfLoops(pr, base, cur, gb, gc, FactsAdded, FactsRemoved, FactsChanged);
      baseGroups, curGroups := gb, gc;
    }

    method DiffEdges(base: seq<Fact>, cur: seq<Fact>)
      modifies this`EdgesAdded, this`EdgesRemoved, this`baseEdges, this`curEdges
      ensures IsEdgeDeltaOf(base, cur)
    {
      var mb := EdgeSet(base);
      var mc := EdgeSet(cur);
      EdgesAdded := EdgesBeyond(mc, mb);
      EdgesRemoved := EdgesBeyond(mb, mc);
      baseEdges, curEdges := mb, mc;
    }

    ghost predicate FactsSorted(pr: Printer)
      reads this`FactsAdded, this`FactsRemoved, this`FactsChanged
    {
      && SortedBy(FactsAdded, SortKeyFn(pr))
      && SortedBy(FactsRemoved, SortKeyFn(pr))
      && SortedBy(FactsChanged, AfterSortKeyFn(pr))
    }

    ghost predicate EdgesSorted()
      reads this`EdgesAdded, this`EdgesRemoved
    {
      SortedBy(EdgesAdded, EDGE_KEY) && SortedBy(EdgesRemoved, EDGE_KEY)
    }

    method SortFacts(pr: Printer, ghost base: seq<Fact>, ghost cur: seq<Fact>)
      requires IsFactDeltaOf(pr, base, cur)
      modifies this`FactsAdded, this`FactsRemoved, this`FactsChanged
      ensures IsFactDeltaOf(pr, base, cur)
      ensures FactsSorted(pr)
    {
      hide IsFactGrouping, SurplusOf, ChangesOf, Bag, SortedBy;
      var a := SortSlice(FactsAdded, SortKeyFn(pr));
      var r := SortSlice(FactsRemoved, SortKeyFn(pr));
      var c := SortSlice(FactsChanged, AfterSortKeyFn(pr));
      FactsAdded, FactsRemoved, FactsChanged := a, r, c;
    }

    method SortEdges(ghost base: seq<Fact>, ghost cur: seq<Fact>)
      requires IsEdgeDeltaOf(base, cur)
      modifies this`EdgesAdded, this`EdgesRemoved
      ensures IsEdgeDeltaOf(base, cur)
      ensures EdgesSorted()
    {
      hide ListsEdges, IsEdgeSet, SortedBy;
      var a := SortSlice(EdgesAdded, EDGE_KEY);
      var r := SortSlice(EdgesRemoved, EDGE_KEY);
      ListsEdgesPermuted(EdgesAdded, a, curEdges, curEdges.Keys - baseEdges.Keys);
      ListsEdgesPermuted(EdgesRemoved, r, baseEdges, baseEdges.Keys - curEdges.Keys);
      EdgesAdded, EdgesRemoved := a, r;
    }

    /** The names of the added, removed and changed facts and both ends of every moved edge. */
    method TouchedNames() returns (m: set<string>)
      ensures m == Touched(FactsAdded, FactsRemoved, FactsChanged, EdgesAdded, EdgesRemoved)
    {
      m := {};
      m := AddNames(m, FactsAdded);
      m := AddNames(m, FactsRemoved);
      m := AddAfterNames(m, FactsChanged);
      m := AddEnds(m, EdgesAdded);
      m := AddEnds(m, EdgesRemoved);
    }
  }

  function NonEmpty(n: string): set<string> {
    if n == "" then {} else {n}
  }

  function FactNames(fs: seq<Fact>): set<string> {
    set f | f in fs && f.name != "" :: f.name
  }

  function AfterNames(cs: seq<FactChange>): set<string> {
    set c | c in cs && c.after.name != "" :: c.after.name
  }

  function Ends(es: seq<Edge>): set<string> {
    (set e | e in es && e.source != "" :: e.source) + (set e | e in es && e.target != "" :: e.target)
  }

  function Touched(added: seq<Fact>, removed: seq<Fact>, changed: seq<FactChange>,
                   edgesAdded: seq<Edge>, edgesRemoved: seq<Edge>): set<string> {
    FactNames(added) + FactNames(removed) + AfterNames(changed) + Ends(edgesAdded) + Ends(edgesRemoved)
  }

  method AddNames(m0: set<string>, fs: seq<Fact>) returns (m: set<string>)
    ensures m == m0 + FactNames(fs)
  {
    m := m0;
    for i := 0 to |fs|
      invariant m == m0 + FactNames(fs[..i])
    {
      TakeSnoc(fs, i + 1);
      m := m + NonEmpty(fs[i].name);
    }
    TakeAll(fs);
  }

  method AddAfterNames(m0: set<string>, cs: seq<FactChange>) returns (m: set<string>)
    ensures m == m0 + AfterNames(cs)
  {
    m := m0;
    for i := 0 to |cs|
      invariant m == m0 + AfterNames(cs[..i])
    {
      TakeSnoc(cs, i + 1);
      m := m + NonEmpty(cs[i].after.name);
    }
    TakeAll(cs);
  }

  method AddEnds(m0: set<string>, es: seq<Edge>) returns (m: set<string>)
    ensures m == m0 + Ends(es)
  {
    m := m0;
    for i := 0 to |es|
      invariant m == m0 + Ends(es[..i])
    {
      TakeSnoc(es, i + 1);
      m := m + NonEmpty(es[i].source) + NonEmpty(es[i].target);
    }
    TakeAll(es);
  }

  /** What the two loops over groups produce is the delta over the identities of both sides. */
  lemma DeltaOfLoops(pr: Printer, base: seq<Fact>, cur: seq<Fact>,
                     gb: map<string, seq<Fact>>, gc: map<string, seq<Fact>>,
                     added: seq<Fact>, removed: seq<Fact>, changed: seq<FactChange>)
    requires IsFactGrouping(pr, base, gb) && IsFactGrouping(pr, cur, gc)
    requires multiset(added) == Bag(gc.Keys, SurplusOf(gb, gc))
    requires multiset(removed) == Bag(gb.Keys, SurplusOf(gc, gb))
    requires multiset(changed) == Bag(gc.Keys, ChangesOf(pr, gb, gc))
    ensures FactDelta(pr, base, cur, gb, gc, added, removed, changed)
  {
    hide IsFactGrouping, SurplusOf, ChangesOf, Bag;
    SurplusWiden(gb, gc);
    SurplusWiden(gc, gb);
    assert gc.Keys + gb.Keys == gb.Keys + gc.Keys;
    ChangesWiden(pr, gb, gc);
    assert IsFactDelta(pr, gb, gc, added, removed, changed);
  }

  lemma ChangesWiden(pr: Printer, gb: map<string, seq<Fact>>, gc: map<string, seq<Fact>>)
    ensures Bag(gc.Keys, ChangesOf(pr, gb, gc)) == Bag(gb.Keys + gc.Keys, ChangesOf(pr, gb, gc))
  {
    BagWiden(gc.Keys, gb.Keys + gc.Keys, ChangesOf(pr, gb, gc));
  }

  /** Identities the current side lacks have no surplus. */
  lemma SurplusWiden<T(!new)>(gb: map<string, seq<T>>, gc: map<string, seq<T>>)
    ensures Bag(gc.Keys, SurplusOf(gb, gc)) == Bag(gb.Keys + gc.Keys, SurplusOf(gb, gc))
  {
    BagWiden(gc.Keys, gb.Keys + gc.Keys, SurplusOf(gb, gc));
  }

  /** The structural half of `ComputeChanged`: compare, then sort every collection. */
  method ComputeStructure(pr: Printer, base: seq<Fact>, cur: seq<Fact>) returns (d: SnapshotDiff)
    ensures fresh(d)
    ensures d.IsFactDeltaOf(pr, base, cur) && d.IsEdgeDeltaOf(base, cur)
    ensures d.FactsSorted(pr) && d.EdgesSorted()
  {
    hide *;
    d := new SnapshotDiff();
    d.DiffFacts(pr, base, cur);
    d.SortFacts(pr, base, cur);
    d.DiffEdges(base, cur);
    d.SortEdges(base, cur);
  }

  lemma ListsEdgesPermuted(es: seq<Edge>, es': seq<Edge>, m: map<string, Edge>, ks: set<string>)
    requires multiset(es) == multiset(es') && ListsEdges(es, m, ks)
    ensures ListsEdges(es', m, ks)
  {
    MappedPermutation(es, es', EDGE_KEY);
    forall e | e in es' ensures e in es {
      assert e in multiset(es');
    }
  }
}
