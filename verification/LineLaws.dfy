/** Lines order the members of an identity, and lines alone change nothing (intraGroupOrder in
    internal/diff/diff.go). */
module LineLaws {
  import opened Text
  import opened Bags
  import opened Slices
  import opened Facts
  import opened Diff
  import opened DiffLaws

  /** The range in which the padding keeps numbers in order. */
  predicate LineInRange(f: Fact) {
    0 <= f.line < 1_000_000_000
  }

  function AfterLine(pr: Printer, f: Fact): string {
    [NUL] + (PropsJson(pr, f.props) + [NUL] + RelationsJson(pr, f.relations))
  }

  lemma OrderIs(pr: Printer, f: Fact)
    ensures IntraGroupOrder(pr, f) == Pad9(f.line) + AfterLine(pr, f)
  {
  }

  /** The order within an identity is by line. */
  lemma OrderedByLine(pr: Printer, a: Fact, b: Fact)
    requires LineInRange(a) && LineInRange(b) && a.line < b.line
    ensures Less(IntraGroupOrder(pr, a), IntraGroupOrder(pr, b))
  {
    hide Pad9, AfterLine, IntraGroupOrder;
    OrderIs(pr, a);
    OrderIs(pr, b);
    Pad9Order(a.line, b.line, AfterLine(pr, a), AfterLine(pr, b));
  }

  /** So is the order of the lists a delta shows, within an identity. */
  lemma SortedByLine(pr: Printer, a: Fact, b: Fact)
    requires LineInRange(a) && LineInRange(b) && FactKey(pr, a) == FactKey(pr, b) && a.line < b.line
    ensures Less(FactSortKey(pr, a), FactSortKey(pr, b))
  {
    OrderedByLine(pr, a, b);
    var k := FactKey(pr, a) + [NUL];
    hide FactKey, IntraGroupOrder;
    LessAfter(k, IntraGroupOrder(pr, a), IntraGroupOrder(pr, b));
  }

  ghost predicate ByLine(fs: seq<Fact>, pr: Printer) {
    forall i, j :: 0 <= i < j < |fs| && LineInRange(fs[i]) && LineInRange(fs[j]) && FactKey(pr, fs[i]) == FactKey(pr, fs[j]) ==>
      fs[i].line <= fs[j].line
  }

  const AFTER: FactChange -> Fact := (c: FactChange) => c.after

  /** A delta lists the facts of one identity in the order of their lines, and its changes in the
      order of where they are now. */
  lemma ListedByLine(pr: Printer, d: SnapshotDiff)
    requires d.FactsSorted(pr)
    ensures ByLine(d.FactsAdded, pr) && ByLine(d.FactsRemoved, pr) && ByLine(Mapped(d.FactsChanged, AFTER), pr)
  {
    hide FactKey, FactSortKey, Less;
    InLineOrder(pr, d.FactsAdded);
    InLineOrder(pr, d.FactsRemoved);
    var now := Mapped(d.FactsChanged, AFTER);
    forall i, j | 0 <= i < j < |now| ensures LessEq(SortKeyFn(pr)(now[i]), SortKeyFn(pr)(now[j])) {
      assert LessEq(AfterSortKeyFn(pr)(d.FactsChanged[i]), AfterSortKeyFn(pr)(d.FactsChanged[j]));
    }
    InLineOrder(pr, now);
  }

  lemma InLineOrder(pr: Printer, fs: seq<Fact>)
    requires SortedBy(fs, SortKeyFn(pr))
    ensures ByLine(fs, pr)
  {
    hide FactKey, FactSortKey, Less;
    forall i, j | 0 <= i < j < |fs| && LineInRange(fs[i]) && LineInRange(fs[j]) && FactKey(pr, fs[i]) == FactKey(pr, fs[j])
      ensures fs[i].line <= fs[j].line
    {
      assert LessEq(SortKeyFn(pr)(fs[i]), SortKeyFn(pr)(fs[j]));
      if fs[j].line < fs[i].line {
        SortedByLine(pr, fs[j], fs[i]);
      }
    }
  }

  /** Equal orders are equal lines, props and, where the encoder tells relations apart, relations. */
  lemma OrderFixesRest(pr: Printer, a: Fact, b: Fact)
    requires pr.Valid() && IntraGroupOrder(pr, a) == IntraGroupOrder(pr, b)
    ensures a.line == b.line && a.props == b.props
    ensures (forall p, q :: pr.relations(p) == pr.relations(q) ==> p == q) && (forall p :: pr.relations(p) != "") ==> a.relations == b.relations
  {
    var pa, pb := PropsJson(pr, a.props), PropsJson(pr, b.props);
    FieldUnique(Pad9(a.line), pa + [NUL] + RelationsJson(pr, a.relations), Pad9(b.line), pb + [NUL] + RelationsJson(pr, b.relations));
    FieldUnique(pa, RelationsJson(pr, a.relations), pb, RelationsJson(pr, b.relations));
    OrderFixesProps(pr, a, b);
    Pad9Unique(a.line, b.line);
  }

  /** Every row of every grouping is in the order of its lines. */
  lemma RowsByLine(pr: Printer, fs: seq<Fact>, g: map<string, seq<Fact>>, k: string)
    requires IsFactGrouping(pr, fs, g) && forall f :: f in fs ==> LineInRange(f)
    ensures forall i, j :: 0 <= i < j < |Row(g, k)| ==> Row(g, k)[i].line <= Row(g, k)[j].line
  {
    RowMembers(fs, KeyFn(pr), OrderFn(pr), g, k);
    hide IntraGroupOrder, IsFactGrouping, FactKey;
    var r := Row(g, k);
    forall i, j | 0 <= i < j < |r| ensures r[i].line <= r[j].line {
      assert r[i] in r && r[j] in r;
      assert LessEq(OrderFn(pr)(r[i]), OrderFn(pr)(r[j]));
      if r[j].line < r[i].line {
        OrderedByLine(pr, r[j], r[i]);
      }
    }
  }

  // ---- moving everything by as many lines

  function MoveFn(d: int): Fact -> Fact { (f: Fact) => f.(line := f.line + d) }

  lemma MovedOrder(pr: Printer, d: int, a: Fact, b: Fact)
    requires LineInRange(a) && LineInRange(b) && LineInRange(MoveFn(d)(a)) && LineInRange(MoveFn(d)(b))
    requires LessEq(IntraGroupOrder(pr, a), IntraGroupOrder(pr, b))
    ensures LessEq(IntraGroupOrder(pr, MoveFn(d)(a)), IntraGroupOrder(pr, MoveFn(d)(b)))
  {
    var x, y := MoveFn(d)(a), MoveFn(d)(b);
    assert AfterLine(pr, x) == AfterLine(pr, a) && AfterLine(pr, y) == AfterLine(pr, b);
    hide IntraGroupOrder, AfterLine;
    if a.line < b.line {
      OrderedByLine(pr, x, y);
      LessAsymmetric(IntraGroupOrder(pr, x), IntraGroupOrder(pr, y));
    } else if b.line < a.line {
      OrderedByLine(pr, b, a);
    } else {
      OrderIs(pr, a);
      OrderIs(pr, b);
      OrderIs(pr, x);
      OrderIs(pr, y);
      LessAfter(Pad9(a.line), AfterLine(pr, b), AfterLine(pr, a));
      LessAfter(Pad9(x.line), AfterLine(pr, b), AfterLine(pr, a));
    }
  }

  lemma MovedKey(pr: Printer, d: int, f: Fact)
    ensures FactKey(pr, MoveFn(d)(f)) == FactKey(pr, f)
  {
  }

  lemma MovedKeys(pr: Printer, d: int, fs: seq<Fact>)
    ensures KeysOf(Mapped(fs, MoveFn(d)), KeyFn(pr)) == KeysOf(fs, KeyFn(pr))
  {
    hide FactKey, MoveFn;
    var moved := Mapped(fs, MoveFn(d));
    forall i | 0 <= i < |fs| ensures KeyFn(pr)(moved[i]) == KeyFn(pr)(fs[i]) {
      MovedKey(pr, d, fs[i]);
    }
    forall k ensures k in KeysOf(moved, KeyFn(pr)) <==> k in KeysOf(fs, KeyFn(pr)) {
      if k in KeysOf(moved, KeyFn(pr)) {
        var i :| 0 <= i < |moved| && KeyFn(pr)(moved[i]) == k;
        assert KeyFn(pr)(fs[i]) == k;
      }
      if k in KeysOf(fs, KeyFn(pr)) {
        var i :| 0 <= i < |fs| && KeyFn(pr)(fs[i]) == k;
        assert KeyFn(pr)(moved[i]) == k;
      }
    }
  }

  /** Moving the rows of a grouping groups the moved facts. */
  lemma MovedGrouping(pr: Printer, d: int, fs: seq<Fact>, g: map<string, seq<Fact>>) returns (h: map<string, seq<Fact>>)
    requires IsFactGrouping(pr, fs, g) && forall f :: f in fs ==> LineInRange(f) && LineInRange(MoveFn(d)(f))
    ensures IsFactGrouping(pr, Mapped(fs, MoveFn(d)), h)
    ensures forall k :: Row(h, k) == Mapped(Row(g, k), MoveFn(d))
  {
    hide FactKey, MoveFn, SortedBy, Members, KeysOf, Mapped;
    var moved := Mapped(fs, MoveFn(d));
    h := map k | k in g :: Mapped(g[k], MoveFn(d));
    MovedKeys(pr, d, fs);
    forall k | k in h ensures multiset(h[k]) == multiset(Members(moved, KeyFn(pr), k)) && SortedBy(h[k], OrderFn(pr)) {
      MovedRow(pr, d, fs, g, k);
    }
    MappedNil(MoveFn(d));
  }

  lemma MovedRow(pr: Printer, d: int, fs: seq<Fact>, g: map<string, seq<Fact>>, k: string)
    requires IsFactGrouping(pr, fs, g) && k in g && forall f :: f in fs ==> LineInRange(f) && LineInRange(MoveFn(d)(f))
    ensures multiset(Mapped(g[k], MoveFn(d))) == multiset(Members(Mapped(fs, MoveFn(d)), KeyFn(pr), k))
    ensures SortedBy(Mapped(g[k], MoveFn(d)), OrderFn(pr))
  {
    RowMembers(fs, KeyFn(pr), OrderFn(pr), g, k);
    hide FactKey, IntraGroupOrder, MoveFn, Members, Less;
    forall f | f in fs ensures KeyFn(pr)(MoveFn(d)(f)) == KeyFn(pr)(f) {
      MovedKey(pr, d, f);
    }
    MembersMapped(fs, KeyFn(pr), MoveFn(d), KeyFn(pr), k);
    MappedPermutation(g[k], Members(fs, KeyFn(pr), k), MoveFn(d));
    var r := Mapped(g[k], MoveFn(d));
    forall i, j | 0 <= i < j < |r| ensures LessEq(OrderFn(pr)(r[i]), OrderFn(pr)(r[j])) {
      assert g[k][i] in Row(g, k) && g[k][j] in Row(g, k);
      assert LessEq(OrderFn(pr)(g[k][i]), OrderFn(pr)(g[k][j]));
      MovedOrder(pr, d, g[k][i], g[k][j]);
    }
  }

  /** Inserting or deleting lines above everything changes no fact: a list has no fact delta against
      itself moved by any number of lines, in whatever order it then comes. */
  lemma MovingIsNoChange(pr: Printer, d: int, base: seq<Fact>, cur: seq<Fact>,
                         gb: map<string, seq<Fact>>, gc: map<string, seq<Fact>>,
                         added: seq<Fact>, removed: seq<Fact>, changed: seq<FactChange>)
    requires pr.Valid() && multiset(cur) == multiset(Mapped(base, MoveFn(d)))
    requires forall f :: f in base ==> LineInRange(f) && LineInRange(MoveFn(d)(f))
    requires FactDelta(pr, base, cur, gb, gc, added, removed, changed)
    ensures added == removed == [] && changed == []
  {
    hide Bag, SurplusOf, ChangesOf, IsFactGrouping, Printer.Valid, MoveFn;
    var h := MovedGrouping(pr, d, base, gb);
    forall k ensures SurplusOf(gb, gc)(k) == [] && SurplusOf(gc, gb)(k) == [] && ChangesOf(pr, gb, gc)(k) == [] {
      NoMovedRowDelta(pr, d, base, cur, gb, gc, h, k);
    }
    var keys := gb.Keys + gc.Keys;
    BagEmpty(keys, SurplusOf(gb, gc));
    BagEmpty(keys, SurplusOf(gc, gb));
    BagEmpty(keys, ChangesOf(pr, gb, gc));
    NothingIn(added);
    NothingIn(removed);
    NothingIn(changed);
  }

  lemma NoMovedRowDelta(pr: Printer, d: int, base: seq<Fact>, cur: seq<Fact>,
                        gb: map<string, seq<Fact>>, gc: map<string, seq<Fact>>, h: map<string, seq<Fact>>, k: string)
    requires pr.Valid() && multiset(cur) == multiset(Mapped(base, MoveFn(d)))
    requires IsFactGrouping(pr, Mapped(base, MoveFn(d)), h) && IsFactGrouping(pr, cur, gc)
    requires Row(h, k) == Mapped(Row(gb, k), MoveFn(d))
    ensures SurplusOf(gb, gc)(k) == [] && SurplusOf(gc, gb)(k) == [] && ChangesOf(pr, gb, gc)(k) == []
  {
    hide IsFactGrouping, Printer.Valid, FactKey, IntraGroupOrder, Changes, Row;
    RowsAgree(pr, Mapped(base, MoveFn(d)), cur, h, gc, k);
    var b, c := Row(gb, k), Row(gc, k);
    forall i | 0 <= i < |b| ensures b[i].props == c[i].props {
      assert Row(h, k)[i] == MoveFn(d)(b[i]);
    }
    SamePropsNoChanges(pr, b, c, |b|);
  }
}
