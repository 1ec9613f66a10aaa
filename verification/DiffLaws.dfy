/** What the structural delta means: applying it, reversing it, and what it ignores. */
module DiffLaws {
  import opened Text
  import opened Bags
  import opened Slices
  import opened Facts
  import opened Diff

  /** A fact as far as the diff looks at it: its identity and its architectural props. */
  datatype Image = Image(key: string, props: Props)

  function ImageFn(pr: Printer): Fact -> Image { f => Image(FactKey(pr, f), ArchitecturalProps(f)) }

  function BeforeFn(pr: Printer): FactChange -> Image { (c: FactChange) => ImageFn(pr)(c.before) }

  function AfterFn(pr: Printer): FactChange -> Image { (c: FactChange) => ImageFn(pr)(c.after) }

  /** The baseline members of the pairs that did not change. */
  function Kept(pr: Printer, b: seq<Fact>, c: seq<Fact>, n: nat): seq<Fact>
    requires n <= |b| && n <= |c|
  {
    if n == 0 then []
    else if PropsChanged(pr, b[n - 1], c[n - 1]) then Kept(pr, b, c, n - 1)
    else Kept(pr, b, c, n - 1) + [b[n - 1]]
  }

  function KeptOf(pr: Printer, gb: map<string, seq<Fact>>, gc: map<string, seq<Fact>>): string -> seq<Fact> {
    k => Kept(pr, Row(gb, k), Row(gc, k), Paired(Row(gb, k), Row(gc, k)))
  }

  /** The paired baseline members are the kept ones and the changed ones. */
  lemma {:induction false} PairsBefore(pr: Printer, b: seq<Fact>, c: seq<Fact>, n: nat)
    requires n <= |b| && n <= |c|
    ensures multiset(Mapped(b[..n], ImageFn(pr)))
         == multiset(Mapped(Kept(pr, b, c, n) , ImageFn(pr))) + multiset(Mapped(Changes(pr, b, c, n), BeforeFn(pr)))
  {
    hide Mapped, ImageFn, BeforeFn, AfterFn, PropsChanged, FactKey;
    if n > 0 {
      PairsBefore(pr, b, c, n - 1);
      var x, y := b[n - 1], c[n - 1];
      TakeSnoc(b, n);
      var kept, changes := Kept(pr, b, c, n - 1), Changes(pr, b, c, n - 1);
      PlusOne(multiset(Mapped(b[..n - 1], ImageFn(pr))), multiset(Mapped(kept, ImageFn(pr))),
              multiset(Mapped(changes, BeforeFn(pr))), ImageFn(pr)(x));
      MappedSnoc(b[..n - 1], x, ImageFn(pr));
      ChangeImages(pr, x, y);
      if PropsChanged(pr, x, y) {
        MappedSnoc(changes, FactChange(x, y), BeforeFn(pr));
      } else {
        MappedSnoc(kept, x, ImageFn(pr));
      }
    }
  }

  /** As images, the paired current members are the kept ones and the changed ones: an
      unchanged pair has one image. */
  lemma {:induction false} PairsAfter(pr: Printer, b: seq<Fact>, c: seq<Fact>, n: nat, k: string)
    requires pr.Valid()
    requires n <= |b| && n <= |c|
    requires forall f :: f in b || f in c ==> FactKey(pr, f) == k
    ensures multiset(Mapped(c[..n], ImageFn(pr)))
         == multiset(Mapped(Kept(pr, b, c, n), ImageFn(pr))) + multiset(Mapped(Changes(pr, b, c, n), AfterFn(pr)))
  {
    hide Mapped, ImageFn, BeforeFn, AfterFn, PropsChanged, FactKey;
    if n > 0 {
      PairsAfter(pr, b, c, n - 1, k);
      var x, y := b[n - 1], c[n - 1];
      TakeSnoc(c, n);
      var kept, changes := Kept(pr, b, c, n - 1), Changes(pr, b, c, n - 1);
      PlusOne(multiset(Mapped(c[..n - 1], ImageFn(pr))), multiset(Mapped(kept, ImageFn(pr))),
              multiset(Mapped(changes, AfterFn(pr))), ImageFn(pr)(y));
      MappedSnoc(c[..n - 1], y, ImageFn(pr));
      ChangeImages(pr, x, y);
      if PropsChanged(pr, x, y) {
        MappedSnoc(changes, FactChange(x, y), AfterFn(pr));
      } else {
        UnchangedImage(pr, x, y);
        MappedSnoc(kept, x, ImageFn(pr));
      }
    }
  }

  lemma UnchangedImage(pr: Printer, x: Fact, y: Fact)
    requires pr.Valid() && FactKey(pr, x) == FactKey(pr, y)
    ensures !PropsChanged(pr, x, y) ==> ImageFn(pr)(x) == ImageFn(pr)(y)
  {
    ChangedMeansArchitectural(pr, x, y);
  }

  lemma ChangeImages(pr: Printer, x: Fact, y: Fact)
    ensures BeforeFn(pr)(FactChange(x, y)) == ImageFn(pr)(x)
    ensures AfterFn(pr)(FactChange(x, y)) == ImageFn(pr)(y)
  {
  }

  lemma RowSplit(pr: Printer, b: seq<Fact>, c: seq<Fact>)
    ensures multiset(Mapped(b, ImageFn(pr)))
         == multiset(Mapped(b[..Paired(b, c)], ImageFn(pr))) + multiset(Mapped(Surplus(c, b), ImageFn(pr)))
  {
    var n := Paired(b, c);
    MappedAppend(b[..n], Surplus(c, b), ImageFn(pr));
    assert b == b[..n] + Surplus(c, b);
  }

  /** One baseline row, as images: what is kept, what changed and what is surplus. */
  lemma RowImagesBefore(pr: Printer, gb: map<string, seq<Fact>>, gc: map<string, seq<Fact>>, k: string)
    ensures multiset(MappedFn(Rows(gb), ImageFn(pr))(k))
         == multiset(Joined(MappedFn(KeptOf(pr, gb, gc), ImageFn(pr)),
                            Joined(MappedFn(ChangesOf(pr, gb, gc), BeforeFn(pr)),
                                   MappedFn(SurplusOf(gc, gb), ImageFn(pr))))(k))
  {
    hide Mapped, ImageFn, BeforeFn, Kept, Changes, Surplus;
    var b, c := Row(gb, k), Row(gc, k);
    PairsBefore(pr, b, c, Paired(b, c));
    RowSplit(pr, b, c);
  }

  /** One current row, as images. */
  lemma RowImagesAfter(pr: Printer, gb: map<string, seq<Fact>>, gc: map<string, seq<Fact>>,
                       base: seq<Fact>, cur: seq<Fact>, k: string)
    requires pr.Valid() && IsFactGrouping(pr, base, gb) && IsFactGrouping(pr, cur, gc)
    ensures multiset(MappedFn(Rows(gc), ImageFn(pr))(k))
         == multiset(Joined(MappedFn(KeptOf(pr, gb, gc), ImageFn(pr)),
                            Joined(MappedFn(ChangesOf(pr, gb, gc), AfterFn(pr)),
                                   MappedFn(SurplusOf(gb, gc), ImageFn(pr))))(k))
  {
    RowKeys(pr, base, gb, k);
    RowKeys(pr, cur, gc, k);
    hide Mapped, ImageFn, AfterFn, IsFactGrouping, Kept, Changes, Surplus, FactKey, Printer.Valid;
    var b, c := Row(gb, k), Row(gc, k);
    PairsAfter(pr, b, c, Paired(b, c), k);
    RowSplit(pr, c, b);
    assert Paired(b, c) == Paired(c, b);
  }

  lemma RowKeys(pr: Printer, fs: seq<Fact>, g: map<string, seq<Fact>>, k: string)
    requires IsFactGrouping(pr, fs, g)
    ensures forall f :: f in Row(g, k) ==> f in fs && FactKey(pr, f) == k
  {
    RowMembers(fs, KeyFn(pr), OrderFn(pr), g, k);
  }

  lemma BagOfImages(pr: Printer, fs: seq<Fact>, g: map<string, seq<Fact>>, keys: set<string>)
    requires IsFactGrouping(pr, fs, g) && g.Keys <= keys
    ensures multiset(Mapped(fs, ImageFn(pr))) == Bag(keys, MappedFn(Rows(g), ImageFn(pr)))
  {
    GroupingConserves(fs, KeyFn(pr), OrderFn(pr), g);
    BagWiden(g.Keys, keys, Rows(g));
    BagMapped(keys, Rows(g), ImageFn(pr), MappedFn(Rows(g), ImageFn(pr)), fs);
  }

  /** Both snapshots are the kept facts plus their own side of the delta. */
  lemma DeltaAccounts(pr: Printer, base: seq<Fact>, cur: seq<Fact>,
                      gb: map<string, seq<Fact>>, gc: map<string, seq<Fact>>,
                      added: seq<Fact>, removed: seq<Fact>, changed: seq<FactChange>)
    requires pr.Valid() && FactDelta(pr, base, cur, gb, gc, added, removed, changed)
    ensures var kept := Bag(gb.Keys + gc.Keys, MappedFn(KeptOf(pr, gb, gc), ImageFn(pr)));
      && multiset(Mapped(base, ImageFn(pr)))
         == kept + (multiset(Mapped(changed, BeforeFn(pr))) + multiset(Mapped(removed, ImageFn(pr))))
      && multiset(Mapped(cur, ImageFn(pr)))
         == kept + (multiset(Mapped(changed, AfterFn(pr))) + multiset(Mapped(added, ImageFn(pr))))
  {
    var keys := gb.Keys + gc.Keys;
    var kept, before := MappedFn(KeptOf(pr, gb, gc), ImageFn(pr)), MappedFn(ChangesOf(pr, gb, gc), BeforeFn(pr));
    var after := MappedFn(ChangesOf(pr, gb, gc), AfterFn(pr));
    var less, more := MappedFn(SurplusOf(gc, gb), ImageFn(pr)), MappedFn(SurplusOf(gb, gc), ImageFn(pr));
    BagOfImages(pr, base, gb, keys);
    BagOfImages(pr, cur, gc, keys);
    forall k | k in keys
      ensures multiset(MappedFn(Rows(gb), ImageFn(pr))(k)) == multiset(Joined(kept, Joined(before, less))(k))
      ensures multiset(MappedFn(Rows(gc), ImageFn(pr))(k)) == multiset(Joined(kept, Joined(after, more))(k))
    {
      RowImagesBefore(pr, gb, gc, k);
      RowImagesAfter(pr, gb, gc, base, cur, k);
    }
    BagMapped(keys, ChangesOf(pr, gb, gc), BeforeFn(pr), before, changed);
    BagMapped(keys, ChangesOf(pr, gb, gc), AfterFn(pr), after, changed);
    BagMapped(keys, SurplusOf(gc, gb), ImageFn(pr), less, removed);
    BagMapped(keys, SurplusOf(gb, gc), ImageFn(pr), more, added);
    hide *;
    BagCongruent(keys, MappedFn(Rows(gb), ImageFn(pr)), Joined(kept, Joined(before, less)));
    BagCongruent(keys, MappedFn(Rows(gc), ImageFn(pr)), Joined(kept, Joined(after, more)));
    BagJoined(keys, kept, Joined(before, less));
    BagJoined(keys, kept, Joined(after, more));
    BagJoined(keys, before, less);
    BagJoined(keys, after, more);
  }

  /** Applying the delta to the baseline gives the current snapshot: take away the removed
      facts and the old side of every change, put in the added facts and the new side. */
  lemma DiffThenApply(pr: Printer, base: seq<Fact>, cur: seq<Fact>,
                      gb: map<string, seq<Fact>>, gc: map<string, seq<Fact>>,
                      added: seq<Fact>, removed: seq<Fact>, changed: seq<FactChange>)
    requires pr.Valid() && FactDelta(pr, base, cur, gb, gc, added, removed, changed)
    ensures multiset(Mapped(changed, BeforeFn(pr))) + multiset(Mapped(removed, ImageFn(pr)))
         <= multiset(Mapped(base, ImageFn(pr)))
    ensures multiset(Mapped(cur, ImageFn(pr)))
         == multiset(Mapped(base, ImageFn(pr)))
            - (multiset(Mapped(changed, BeforeFn(pr))) + multiset(Mapped(removed, ImageFn(pr))))
            + (multiset(Mapped(changed, AfterFn(pr))) + multiset(Mapped(added, ImageFn(pr))))
  {
    DeltaAccounts(pr, base, cur, gb, gc, added, removed, changed);
    hide *;
  }

  // ---- reversal

  const FLIP: FactChange -> FactChange := (c: FactChange) => FactChange(c.after, c.before)

  lemma {:induction false} ChangesFlip(pr: Printer, b: seq<Fact>, c: seq<Fact>, n: nat)
    requires n <= |b| && n <= |c|
    ensures Changes(pr, c, b, n) == Mapped(Changes(pr, b, c, n), FLIP)
  {
    if n > 0 {
      ChangesFlip(pr, b, c, n - 1);
      MappedAppend(Changes(pr, b, c, n - 1), [FactChange(b[n - 1], c[n - 1])], FLIP);
    }
  }

  /** A delta read the other way round is a delta of the exchanged snapshots. */
  lemma FlippedDelta(pr: Printer, base: seq<Fact>, cur: seq<Fact>,
                 gb: map<string, seq<Fact>>, gc: map<string, seq<Fact>>,
                 added: seq<Fact>, removed: seq<Fact>, changed: seq<FactChange>)
    requires FactDelta(pr, base, cur, gb, gc, added, removed, changed)
    ensures FactDelta(pr, cur, base, gc, gb, removed, added, Mapped(changed, FLIP))
  {
    hide IsFactGrouping, Bag, Surplus, Changes;
    assert gb.Keys + gc.Keys == gc.Keys + gb.Keys;
    forall k | k in gb.Keys + gc.Keys ensures ChangesOf(pr, gc, gb)(k) == Mapped(ChangesOf(pr, gb, gc)(k), FLIP) {
      ChangesFlip(pr, Row(gb, k), Row(gc, k), Paired(Row(gb, k), Row(gc, k)));
    }
    BagMapped(gb.Keys + gc.Keys, ChangesOf(pr, gb, gc), FLIP, ChangesOf(pr, gc, gb), changed);
  }

  lemma FlippedEdgeDelta(base: seq<Fact>, cur: seq<Fact>, mb: map<string, Edge>, mc: map<string, Edge>,
                     added: seq<Edge>, removed: seq<Edge>)
    requires EdgeDelta(base, cur, mb, mc, added, removed)
    ensures EdgeDelta(cur, base, mc, mb, removed, added)
  {
  }

  // ---- ties, and what reordering the input cannot change

  /** Two rows of one identity in two groupings: same length, same props at each position. */
  lemma RowsAgree(pr: Printer, xs: seq<Fact>, ys: seq<Fact>, g: map<string, seq<Fact>>, h: map<string, seq<Fact>>, k: string)
    requires pr.Valid() && multiset(xs) == multiset(ys)
    requires IsFactGrouping(pr, xs, g) && IsFactGrouping(pr, ys, h)
    ensures |Row(g, k)| == |Row(h, k)|
    ensures forall i :: 0 <= i < |Row(g, k)| ==>
      && IntraGroupOrder(pr, Row(g, k)[i]) == IntraGroupOrder(pr, Row(h, k)[i])
      && Row(g, k)[i].props == Row(h, k)[i].props
      && FactKey(pr, Row(g, k)[i]) == FactKey(pr, Row(h, k)[i]) == k
  {
    RowOrders(xs, ys, KeyFn(pr), OrderFn(pr), g, h, k);
    RowMembers(xs, KeyFn(pr), OrderFn(pr), g, k);
    RowMembers(ys, KeyFn(pr), OrderFn(pr), h, k);
    hide IntraGroupOrder, FactKey, IsFactGrouping;
    forall i | 0 <= i < |Row(g, k)|
      ensures IntraGroupOrder(pr, Row(g, k)[i]) == IntraGroupOrder(pr, Row(h, k)[i])
      ensures Row(g, k)[i].props == Row(h, k)[i].props
    {
      assert Mapped(Row(g, k), OrderFn(pr))[i] == Mapped(Row(h, k), OrderFn(pr))[i];
      OrderFixesProps(pr, Row(g, k)[i], Row(h, k)[i]);
    }
    forall i | 0 <= i < |Row(g, k)| ensures FactKey(pr, Row(g, k)[i]) == FactKey(pr, Row(h, k)[i]) == k {
      assert Row(g, k)[i] in Row(g, k) && Row(h, k)[i] in Row(h, k);
    }
  }

  lemma {:induction false} SamePropsNoChanges(pr: Printer, b: seq<Fact>, c: seq<Fact>, n: nat)
    requires n <= |b| && n <= |c|
    requires forall i :: 0 <= i < n ==> b[i].props == c[i].props
    ensures Changes(pr, b, c, n) == []
  {
    if n > 0 {
      SamePropsNoChanges(pr, b, c, n - 1);
    }
  }

  lemma NoRowDelta(pr: Printer, base: seq<Fact>, cur: seq<Fact>, gb: map<string, seq<Fact>>, gc: map<string, seq<Fact>>, k: string)
    requires pr.Valid() && multiset(base) == multiset(cur)
    requires IsFactGrouping(pr, base, gb) && IsFactGrouping(pr, cur, gc)
    ensures SurplusOf(gb, gc)(k) == [] && SurplusOf(gc, gb)(k) == [] && ChangesOf(pr, gb, gc)(k) == []
  {
    RowsAgree(pr, base, cur, gb, gc, k);
    hide IsFactGrouping, Printer.Valid, FactKey, IntraGroupOrder;
    SamePropsNoChanges(pr, Row(gb, k), Row(gc, k), |Row(gb, k)|);
  }

  /** A snapshot has no delta against any reordering of itself. */
  lemma NoSelfDelta(pr: Printer, base: seq<Fact>, cur: seq<Fact>,
                    gb: map<string, seq<Fact>>, gc: map<string, seq<Fact>>,
                    added: seq<Fact>, removed: seq<Fact>, changed: seq<FactChange>)
    requires pr.Valid() && multiset(base) == multiset(cur)
    requires FactDelta(pr, base, cur, gb, gc, added, removed, changed)
    ensures added == removed == [] && changed == []
  {
    var keys := gb.Keys + gc.Keys;
    forall k | k in keys
      ensures SurplusOf(gb, gc)(k) == [] && SurplusOf(gc, gb)(k) == [] && ChangesOf(pr, gb, gc)(k) == []
    {
      NoRowDelta(pr, base, cur, gb, gc, k);
    }
    hide Bag, IsFactGrouping, SurplusOf, ChangesOf, Printer.Valid;
    BagEmpty(keys, SurplusOf(gb, gc));
    BagEmpty(keys, SurplusOf(gc, gb));
    BagEmpty(keys, ChangesOf(pr, gb, gc));
    NothingIn(added);
    NothingIn(removed);
    NothingIn(changed);
  }

  lemma NothingIn<T>(xs: seq<T>)
    ensures multiset(xs) == multiset{} ==> xs == []
  {
    assert |multiset(xs)| == |xs|;
  }

  lemma NoSelfEdgeDelta(base: seq<Fact>, cur: seq<Fact>, mb: map<string, Edge>, mc: map<string, Edge>,
                        added: seq<Edge>, removed: seq<Edge>)
    requires multiset(base) == multiset(cur)
    requires EdgeDelta(base, cur, mb, mc, added, removed)
    ensures added == removed == []
  {
    forall e ensures IsEdge(base, e) <==> IsEdge(cur, e) {
      IsEdgePermuted(base, cur, e);
      IsEdgePermuted(cur, base, e);
    }
    assert mc.Keys - mb.Keys == {} && mb.Keys - mc.Keys == {};
    NothingIn(Mapped(added, EDGE_KEY));
    NothingIn(Mapped(removed, EDGE_KEY));
  }

  lemma IsEdgePermuted(xs: seq<Fact>, ys: seq<Fact>, e: Edge)
    requires multiset(xs) == multiset(ys)
    ensures IsEdge(xs, e) ==> IsEdge(ys, e)
  {
    if f, r :| f in xs && !IsDocument(f) && r in f.relations && e == EdgeOf(f, r) {
      assert f in multiset(ys);
      assert f in ys;
    }
  }

  /** What a change says, apart from which of two tied members it names. */
  datatype ChangeImage = ChangeImage(key: string, before: Props, after: Props)

  function ChangeImageFn(pr: Printer): FactChange -> ChangeImage {
    (c: FactChange) => ChangeImage(FactKey(pr, c.after), c.before.props, c.after.props)
  }

  lemma {:induction false} ChangesAgree(pr: Printer, b: seq<Fact>, c: seq<Fact>, b': seq<Fact>, c': seq<Fact>, n: nat)
    requires pr.Valid() && n <= |b| == |b'| && n <= |c| == |c'|
    requires forall i :: 0 <= i < n ==> b[i].props == b'[i].props && c[i].props == c'[i].props
    requires forall i :: 0 <= i < n ==> FactKey(pr, c[i]) == FactKey(pr, c'[i])
    ensures Mapped(Changes(pr, b, c, n), ChangeImageFn(pr)) == Mapped(Changes(pr, b', c', n), ChangeImageFn(pr))
  {
    hide FactKey;
    if n > 0 {
      ChangesAgree(pr, b, c, b', c', n - 1);
      ChangedMeansArchitectural(pr, b[n - 1], c[n - 1]);
      ChangedMeansArchitectural(pr, b'[n - 1], c'[n - 1]);
      assert PropsChanged(pr, b[n - 1], c[n - 1]) == PropsChanged(pr, b'[n - 1], c'[n - 1]);
      hide PropsChanged, Mapped;
      MappedSnoc(Changes(pr, b, c, n - 1), FactChange(b[n - 1], c[n - 1]), ChangeImageFn(pr));
      MappedSnoc(Changes(pr, b', c', n - 1), FactChange(b'[n - 1], c'[n - 1]), ChangeImageFn(pr));
    }
  }

  lemma RowChangesAgree(pr: Printer, xb: seq<Fact>, yb: seq<Fact>, xc: seq<Fact>, yc: seq<Fact>,
                        gb: map<string, seq<Fact>>, hb: map<string, seq<Fact>>,
                        gc: map<string, seq<Fact>>, hc: map<string, seq<Fact>>, k: string)
    requires pr.Valid() && multiset(xb) == multiset(yb) && multiset(xc) == multiset(yc)
    requires IsFactGrouping(pr, xb, gb) && IsFactGrouping(pr, yb, hb)
    requires IsFactGrouping(pr, xc, gc) && IsFactGrouping(pr, yc, hc)
    ensures Mapped(ChangesOf(pr, gb, gc)(k), ChangeImageFn(pr)) == Mapped(ChangesOf(pr, hb, hc)(k), ChangeImageFn(pr))
  {
    hide IsFactGrouping, FactKey, IntraGroupOrder, Mapped, Changes, Printer.Valid, Row;
    RowsAgree(pr, xb, yb, gb, hb, k);
    RowsAgree(pr, xc, yc, gc, hc, k);
    ChangesAgree(pr, Row(gb, k), Row(gc, k), Row(hb, k), Row(hc, k), Paired(Row(gb, k), Row(gc, k)));
  }

  lemma RowSurplusAgrees(pr: Printer, xb: seq<Fact>, yb: seq<Fact>, xc: seq<Fact>, yc: seq<Fact>,
                         gb: map<string, seq<Fact>>, hb: map<string, seq<Fact>>,
                         gc: map<string, seq<Fact>>, hc: map<string, seq<Fact>>, k: string)
    requires pr.Valid() && multiset(xb) == multiset(yb) && multiset(xc) == multiset(yc)
    requires IsFactGrouping(pr, xb, gb) && IsFactGrouping(pr, yb, hb)
    requires IsFactGrouping(pr, xc, gc) && IsFactGrouping(pr, yc, hc)
    ensures Mapped(SurplusOf(gb, gc)(k), SortKeyFn(pr)) == Mapped(SurplusOf(hb, hc)(k), SortKeyFn(pr))
  {
    hide IsFactGrouping, FactKey, IntraGroupOrder, Mapped, Printer.Valid, Row;
    RowsAgree(pr, xb, yb, gb, hb, k);
    RowsAgree(pr, xc, yc, gc, hc, k);
    MappedPointwise(Surplus(Row(gb, k), Row(gc, k)), Surplus(Row(hb, k), Row(hc, k)), SortKeyFn(pr));
  }

  lemma AddedKeysAgree(pr: Printer, xb: seq<Fact>, yb: seq<Fact>, xc: seq<Fact>, yc: seq<Fact>,
                               gb: map<string, seq<Fact>>, hb: map<string, seq<Fact>>,
                               gc: map<string, seq<Fact>>, hc: map<string, seq<Fact>>,
                               a: seq<Fact>, r: seq<Fact>, c: seq<FactChange>,
                               a': seq<Fact>, r': seq<Fact>, c': seq<FactChange>)
    requires pr.Valid() && multiset(xb) == multiset(yb) && multiset(xc) == multiset(yc)
    requires FactDelta(pr, xb, xc, gb, gc, a, r, c) && FactDelta(pr, yb, yc, hb, hc, a', r', c')
    requires SortedBy(a, SortKeyFn(pr)) && SortedBy(a', SortKeyFn(pr))
    ensures Mapped(a, SortKeyFn(pr)) == Mapped(a', SortKeyFn(pr))
  {
    hide Printer.Valid, IsGrouping, Bag, Surplus, SortKeyFn, Row;
    GroupKeysAgree(pr, xb, yb, gb, hb);
    GroupKeysAgree(pr, xc, yc, gc, hc);
    var keys := gb.Keys + gc.Keys;
    forall k | k in keys ensures Mapped(SurplusOf(gb, gc)(k), SortKeyFn(pr)) == Mapped(SurplusOf(hb, hc)(k), SortKeyFn(pr)) {
      RowSurplusAgrees(pr, xb, yb, xc, yc, gb, hb, gc, hc, k);
    }
    BagMappedAgree(keys, SurplusOf(gb, gc), SurplusOf(hb, hc), SortKeyFn(pr), a, a');
    SortedUnique(Mapped(a, SortKeyFn(pr)), Mapped(a', SortKeyFn(pr)));
  }

  /** Permuting either fact list leaves the sequences of sort keys of the added and of the removed
      facts as they were, whatever order maps and sorts produced. */
  lemma FactOrderIndependence(pr: Printer, xb: seq<Fact>, yb: seq<Fact>, xc: seq<Fact>, yc: seq<Fact>,
                              gb: map<string, seq<Fact>>, hb: map<string, seq<Fact>>,
                              gc: map<string, seq<Fact>>, hc: map<string, seq<Fact>>,
                              a: seq<Fact>, r: seq<Fact>, c: seq<FactChange>,
                              a': seq<Fact>, r': seq<Fact>, c': seq<FactChange>)
    requires pr.Valid() && multiset(xb) == multiset(yb) && multiset(xc) == multiset(yc)
    requires FactDelta(pr, xb, xc, gb, gc, a, r, c) && FactDelta(pr, yb, yc, hb, hc, a', r', c')
    requires SortedBy(a, SortKeyFn(pr)) && SortedBy(a', SortKeyFn(pr))
    requires SortedBy(r, SortKeyFn(pr)) && SortedBy(r', SortKeyFn(pr))
    ensures Mapped(a, SortKeyFn(pr)) == Mapped(a', SortKeyFn(pr))
    ensures Mapped(r, SortKeyFn(pr)) == Mapped(r', SortKeyFn(pr))
  {
    hide *;
    AddedKeysAgree(pr, xb, yb, xc, yc, gb, hb, gc, hc, a, r, c, a', r', c');
    FlippedDelta(pr, xb, xc, gb, gc, a, r, c);
    FlippedDelta(pr, yb, yc, hb, hc, a', r', c');
    AddedKeysAgree(pr, xc, yc, xb, yb, gc, hc, gb, hb, r, a, Mapped(c, FLIP), r', a', Mapped(c', FLIP));
  }

  /** Nor does it alter the changes, as a multiset of identities with old and new props. */
  lemma ChangedOrderIndependence(pr: Printer, xb: seq<Fact>, yb: seq<Fact>, xc: seq<Fact>, yc: seq<Fact>,
                                 gb: map<string, seq<Fact>>, hb: map<string, seq<Fact>>,
                                 gc: map<string, seq<Fact>>, hc: map<string, seq<Fact>>,
                                 a: seq<Fact>, r: seq<Fact>, c: seq<FactChange>,
                                 a': seq<Fact>, r': seq<Fact>, c': seq<FactChange>)
    requires pr.Valid() && multiset(xb) == multiset(yb) && multiset(xc) == multiset(yc)
    requires FactDelta(pr, xb, xc, gb, gc, a, r, c) && FactDelta(pr, yb, yc, hb, hc, a', r', c')
    ensures multiset(Mapped(c, ChangeImageFn(pr))) == multiset(Mapped(c', ChangeImageFn(pr)))
  {
    hide Printer.Valid, IsGrouping, Bag, Changes, ChangeImageFn, Row;
    GroupKeysAgree(pr, xb, yb, gb, hb);
    GroupKeysAgree(pr, xc, yc, gc, hc);
    var keys := gb.Keys + gc.Keys;
    forall k | k in keys
      ensures Mapped(ChangesOf(pr, gb, gc)(k), ChangeImageFn(pr)) == Mapped(ChangesOf(pr, hb, hc)(k), ChangeImageFn(pr))
    {
      RowChangesAgree(pr, xb, yb, xc, yc, gb, hb, gc, hc, k);
    }
    BagMappedAgree(keys, ChangesOf(pr, gb, gc), ChangesOf(pr, hb, hc), ChangeImageFn(pr), c, c');
  }

  /** Diffing the other way round, with groups and ties of its own, exchanges the sort keys of the
      added and the removed facts and flips every change. */
  lemma Reversal(pr: Printer, base: seq<Fact>, cur: seq<Fact>,
                 gb: map<string, seq<Fact>>, gc: map<string, seq<Fact>>,
                 hb: map<string, seq<Fact>>, hc: map<string, seq<Fact>>,
                 a: seq<Fact>, r: seq<Fact>, c: seq<FactChange>,
                 a': seq<Fact>, r': seq<Fact>, c': seq<FactChange>)
    requires pr.Valid()
    requires FactDelta(pr, base, cur, gb, gc, a, r, c) && FactDelta(pr, cur, base, hc, hb, a', r', c')
    requires SortedBy(a, SortKeyFn(pr)) && SortedBy(a', SortKeyFn(pr))
    requires SortedBy(r, SortKeyFn(pr)) && SortedBy(r', SortKeyFn(pr))
    ensures Mapped(r, SortKeyFn(pr)) == Mapped(a', SortKeyFn(pr))
    ensures Mapped(a, SortKeyFn(pr)) == Mapped(r', SortKeyFn(pr))
    ensures multiset(Mapped(Mapped(c, FLIP), ChangeImageFn(pr))) == multiset(Mapped(c', ChangeImageFn(pr)))
  {
    hide *;
    FlippedDelta(pr, base, cur, gb, gc, a, r, c);
    FactOrderIndependence(pr, cur, cur, base, base, gc, hc, gb, hb, r, a, Mapped(c, FLIP), a', r', c');
    ChangedOrderIndependence(pr, cur, cur, base, base, gc, hc, gb, hb, r, a, Mapped(c, FLIP), a', r', c');
  }

  lemma GroupKeysAgree(pr: Printer, xs: seq<Fact>, ys: seq<Fact>, g: map<string, seq<Fact>>, h: map<string, seq<Fact>>)
    requires multiset(xs) == multiset(ys)
    requires IsFactGrouping(pr, xs, g) && IsFactGrouping(pr, ys, h)
    ensures g.Keys == h.Keys
  {
    KeysPermutation(xs, ys, KeyFn(pr));
  }

  /** The sorted edge lists depend only on which edge keys each side has. */
  lemma EdgeOrderIndependence(xb: seq<Fact>, yb: seq<Fact>, xc: seq<Fact>, yc: seq<Fact>,
                              mb: map<string, Edge>, nb: map<string, Edge>,
                              mc: map<string, Edge>, nc: map<string, Edge>,
                              a: seq<Edge>, r: seq<Edge>, a': seq<Edge>, r': seq<Edge>)
    requires multiset(xb) == multiset(yb) && multiset(xc) == multiset(yc)
    requires EdgeDelta(xb, xc, mb, mc, a, r) && EdgeDelta(yb, yc, nb, nc, a', r')
    requires SortedBy(a, EDGE_KEY) && SortedBy(a', EDGE_KEY) && SortedBy(r, EDGE_KEY) && SortedBy(r', EDGE_KEY)
    ensures Mapped(a, EDGE_KEY) == Mapped(a', EDGE_KEY)
    ensures Mapped(r, EDGE_KEY) == Mapped(r', EDGE_KEY)
  {
    hide IsEdgeSet, ListsEdges, EDGE_KEY, SortedBy, Mapped;
    EdgeKeysPermuted(xb, yb, mb, nb);
    EdgeKeysPermuted(xc, yc, mc, nc);
    SameListing(a, a', mc, nc, mc.Keys - mb.Keys);
    SameListing(r, r', mb, nb, mb.Keys - mc.Keys);
  }

  lemma SameListing(es: seq<Edge>, es': seq<Edge>, m: map<string, Edge>, n: map<string, Edge>, ks: set<string>)
    requires ListsEdges(es, m, ks) && ListsEdges(es', n, ks)
    requires SortedBy(es, EDGE_KEY) && SortedBy(es', EDGE_KEY)
    ensures Mapped(es, EDGE_KEY) == Mapped(es', EDGE_KEY)
  {
    hide EdgeKey;
    SortedUnique(Mapped(es, EDGE_KEY), Mapped(es', EDGE_KEY));
  }

  /** The edge delta reverses too. */
  lemma EdgeReversal(base: seq<Fact>, cur: seq<Fact>,
                     mb: map<string, Edge>, mc: map<string, Edge>, nb: map<string, Edge>, nc: map<string, Edge>,
                     a: seq<Edge>, r: seq<Edge>, a': seq<Edge>, r': seq<Edge>)
    requires EdgeDelta(base, cur, mb, mc, a, r) && EdgeDelta(cur, base, nc, nb, a', r')
    requires SortedBy(a, EDGE_KEY) && SortedBy(a', EDGE_KEY) && SortedBy(r, EDGE_KEY) && SortedBy(r', EDGE_KEY)
    ensures Mapped(r, EDGE_KEY) == Mapped(a', EDGE_KEY)
    ensures Mapped(a, EDGE_KEY) == Mapped(r', EDGE_KEY)
  {
    hide *;
    FlippedEdgeDelta(base, cur, mb, mc, a, r);
    EdgeOrderIndependence(cur, cur, base, base, mc, nc, mb, nb, r, a, a', r');
  }

  lemma EdgeKeysPermuted(xs: seq<Fact>, ys: seq<Fact>, m: map<string, Edge>, n: map<string, Edge>)
    requires multiset(xs) == multiset(ys)
    requires IsEdgeSet(xs, m) && IsEdgeSet(ys, n)
    ensures m.Keys == n.Keys
  {
    forall e ensures IsEdge(xs, e) <==> IsEdge(ys, e) {
      IsEdgePermuted(xs, ys, e);
      IsEdgePermuted(ys, xs, e);
    }
  }

  ghost predicate NulFreeEdges(fs: seq<Fact>) {
    forall f :: f in fs ==> NulFreeRelations(f)
  }

  /** With no NUL in a field, the edge lists are exactly the edges only one side has. */
  lemma EdgesExact(base: seq<Fact>, cur: seq<Fact>, mb: map<string, Edge>, mc: map<string, Edge>,
                   added: seq<Edge>, removed: seq<Edge>, e: Edge)
    requires NulFreeEdges(base) && NulFreeEdges(cur)
    requires EdgeDelta(base, cur, mb, mc, added, removed)
    ensures e in added <==> IsEdge(cur, e) && !IsEdge(base, e)
    ensures e in removed <==> IsEdge(base, e) && !IsEdge(cur, e)
  {
    EdgesExactOneSide(base, cur, mb, mc, added, e);
    EdgesExactOneSide(cur, base, mc, mb, removed, e);
  }

  lemma KeyDeterminesEdge(base: seq<Fact>, cur: seq<Fact>, x: Edge, y: Edge)
    requires NulFreeEdges(base) && NulFreeEdges(cur)
    requires IsEdge(base, x) || IsEdge(cur, x)
    requires IsEdge(base, y) || IsEdge(cur, y)
    requires EdgeKey(x) == EdgeKey(y)
    ensures x == y
  {
    hide EdgeKey;
    EdgeKeyFixesEdge(x, y);
  }

  lemma ListedKeys(es: seq<Edge>, m: map<string, Edge>, ks: set<string>, e: Edge)
    requires ListsEdges(es, m, ks)
    ensures e in es ==> EdgeKey(e) in ks && EdgeKey(e) in m && m[EdgeKey(e)] == e
    ensures EdgeKey(e) in ks && EdgeKey(e) in m && m[EdgeKey(e)] == e ==> e in es
  {
    hide EdgeKey;
    var keys := Mapped(es, EDGE_KEY);
    if e in es {
      var i :| 0 <= i < |es| && es[i] == e;
      assert keys[i] in multiset(keys);
    }
    if EdgeKey(e) in ks && EdgeKey(e) in m && m[EdgeKey(e)] == e {
      assert EdgeKey(e) in multiset(keys);
      var i :| 0 <= i < |keys| && keys[i] == EdgeKey(e);
      assert es[i] in es;
    }
  }

  lemma EdgesExactOneSide(base: seq<Fact>, cur: seq<Fact>, mb: map<string, Edge>, mc: map<string, Edge>,
                          added: seq<Edge>, e: Edge)
    requires NulFreeEdges(base) && NulFreeEdges(cur)
    requires IsEdgeSet(base, mb) && IsEdgeSet(cur, mc)
    requires ListsEdges(added, mc, mc.Keys - mb.Keys)
    ensures e in added <==> IsEdge(cur, e) && !IsEdge(base, e)
  {
    hide EdgeKey, ListsEdges, NulFreeEdges, IsEdge;
    ListedKeys(added, mc, mc.Keys - mb.Keys, e);
    var k := EdgeKey(e);
    if IsEdge(cur, e) {
      KeyDeterminesEdge(base, cur, e, mc[k]);
      if k in mb {
        KeyDeterminesEdge(base, cur, e, mb[k]);
      }
    }
  }

  // ---- what the keys and tests mean, in the fields of a fact

  /** What a prop prints as: a string as itself, any other value by the verb, nothing as nothing. */
  function Printed(pr: Printer, f: Fact, key: string): string {
    if key !in f.props then ""
    else
      match f.props[key]
      case Str(s) => s
      case Other(n) => pr.verb(Other(n))
  }

  function StorageUse(pr: Printer, f: Fact): string {
    Printed(pr, f, "operation") + "|" + Printed(pr, f, "storage_kind")
  }

  /** Two facts are one identity exactly when these agree: kind, repository, file and name, for a
      route its method, and for a storage reference its operation and kind. */
  lemma KeyTells(pr: Printer, a: Fact, b: Fact)
    requires NulFreeFields(a) && NulFreeFields(b)
    ensures FactKey(pr, a) == FactKey(pr, b) <==>
      && a.kind == b.kind && a.repo == b.repo && a.file == b.file && a.name == b.name
      && (a.kind == "route" ==> Printed(pr, a, "method") == Printed(pr, b, "method"))
      && (a.kind == "storage" ==> StorageUse(pr, a) == StorageUse(pr, b))
  {
    FrontOfKey(pr, a);
    FrontOfKey(pr, b);
    SameDiscriminator(pr, a, b);
    if FactKey(pr, a) == FactKey(pr, b) {
      KeyFixesFields(pr, a, b);
    }
    hide FactKey, Discriminator, Printed, StorageUse, NulFree;
    if a.kind == b.kind && a.repo == b.repo && a.file == b.file && a.name == b.name {
      SameFront(a.kind + [NUL] + (a.repo + [NUL] + (a.file + [NUL] + (a.name + [NUL]))), Discriminator(pr, a), Discriminator(pr, b));
    }
  }

  lemma SameDiscriminator(pr: Printer, a: Fact, b: Fact)
    ensures a.kind == b.kind ==> (Discriminator(pr, a) == Discriminator(pr, b) <==>
      && (a.kind == "route" ==> Printed(pr, a, "method") == Printed(pr, b, "method"))
      && (a.kind == "storage" ==> StorageUse(pr, a) == StorageUse(pr, b)))
  {
    forall f: Fact, key: string ensures PropString(pr, f.props, key) == Printed(pr, f, key) {
    }
    hide PropString, Printed;
  }

  /** A sort key tells the identity, and the place within it, when no field holds a NUL. */
  lemma SortKeyTells(pr: Printer, a: Fact, b: Fact)
    requires NulFreeFields(a) && NulFreeFields(b) && NulFree(Discriminator(pr, a)) && NulFree(Discriminator(pr, b))
    ensures FactSortKey(pr, a) == FactSortKey(pr, b) <==>
      FactKey(pr, a) == FactKey(pr, b) && IntraGroupOrder(pr, a) == IntraGroupOrder(pr, b)
  {
    var oa, ob := IntraGroupOrder(pr, a), IntraGroupOrder(pr, b);
    hide IntraGroupOrder, Discriminator, NulFree;
    if FactSortKey(pr, a) == FactSortKey(pr, b) {
      SortKeyParts(pr, a);
      SortKeyParts(pr, b);
      var a3, b3 := Discriminator(pr, a) + [NUL] + oa, Discriminator(pr, b) + [NUL] + ob;
      var a2, b2 := a.name + [NUL] + a3, b.name + [NUL] + b3;
      var a1, b1 := a.file + [NUL] + a2, b.file + [NUL] + b2;
      FieldUnique(a.kind, a.repo + [NUL] + a1, b.kind, b.repo + [NUL] + b1);
      FieldUnique(a.repo, a1, b.repo, b1);
      FieldUnique(a.file, a2, b.file, b2);
      FieldUnique(a.name, a3, b.name, b3);
      FieldUnique(Discriminator(pr, a), oa, Discriminator(pr, b), ob);
    }
  }

  lemma SortKeyParts(pr: Printer, f: Fact)
    ensures FactSortKey(pr, f) ==
      f.kind + [NUL] + (f.repo + [NUL] + (f.file + [NUL] + (f.name + [NUL] + (Discriminator(pr, f) + [NUL] + IntraGroupOrder(pr, f)))))
  {
    hide Discriminator, IntraGroupOrder;
    var d, o := Discriminator(pr, f), IntraGroupOrder(pr, f);
    assert (f.name + [NUL] + d) + ([NUL] + o) == f.name + [NUL] + (d + [NUL] + o);
    assert (f.file + [NUL] + (f.name + [NUL] + d)) + ([NUL] + o) == f.file + [NUL] + (f.name + [NUL] + (d + [NUL] + o));
    assert (f.repo + [NUL] + (f.file + [NUL] + (f.name + [NUL] + d))) + ([NUL] + o)
        == f.repo + [NUL] + (f.file + [NUL] + (f.name + [NUL] + (d + [NUL] + o)));
    assert FactKey(pr, f) + ([NUL] + o)
        == f.kind + [NUL] + (f.repo + [NUL] + (f.file + [NUL] + (f.name + [NUL] + (d + [NUL] + o))));
    assert FactSortKey(pr, f) == FactKey(pr, f) + ([NUL] + o);
  }

  lemma FrontOfKey(pr: Printer, f: Fact)
    ensures FactKey(pr, f) == (f.kind + [NUL] + (f.repo + [NUL] + (f.file + [NUL] + (f.name + [NUL])))) + Discriminator(pr, f)
  {
    hide Discriminator;
  }

  lemma SameFront(a: string, u: string, v: string)
    ensures a + u == a + v <==> u == v
  {
    if a + u == a + v {
      assert (a + u)[|a|..] == u && (a + v)[|a|..] == v;
    }
  }

  predicate DiffersAt(a: Fact, b: Fact, k: string) {
    (k in a.props) != (k in b.props) || (k in a.props && k in b.props && a.props[k] != b.props[k])
  }

  /** A pair counts as changed exactly when some prop other than these five differs. */
  lemma ChangedMeans(pr: Printer, a: Fact, b: Fact)
    requires pr.Valid()
    ensures PropsChanged(pr, a, b) <==>
      exists k: string :: k !in {"doc", "body_hash", "decl_hash", "inner_hash", "span_start"} && DiffersAt(a, b, k)
  {
    ChangedMeansArchitectural(pr, a, b);
    hide PropsChanged, Printer.Valid, ArchitecturalProps, DiffersAt;
    forall k: string ensures ArchitecturalAt(a, b, k) <==>
      k !in {"doc", "body_hash", "decl_hash", "inner_hash", "span_start"} && DiffersAt(a, b, k)
    {
      ArchitecturalIs(a, b, k);
    }
    var p, q := ArchitecturalProps(a), ArchitecturalProps(b);
    if p != q {
      var k := Differ(p, q);
      assert ArchitecturalAt(a, b, k);
    }
  }

  predicate ArchitecturalAt(a: Fact, b: Fact, k: string) {
    var p, q := ArchitecturalProps(a), ArchitecturalProps(b);
    (k in p) != (k in q) || (k in p && k in q && p[k] != q[k])
  }

  lemma ArchitecturalIs(a: Fact, b: Fact, k: string)
    ensures ArchitecturalAt(a, b, k) <==> k !in {"doc", "body_hash", "decl_hash", "inner_hash", "span_start"} && DiffersAt(a, b, k)
  {
    assert k in NON_ARCHITECTURAL <==> k in {"doc", "body_hash", "decl_hash", "inner_hash", "span_start"};
  }

  lemma Differ(p: Props, q: Props) returns (k: string)
    requires p != q
    ensures (k in p) != (k in q) || (k in p && k in q && p[k] != q[k])
  {
    k :| (k in p) != (k in q) || (k in p && k in q && p[k] != q[k]);
  }

  /** Some fact that is neither a document nor a section of one declares the edge. */
  ghost predicate Declares(fs: seq<Fact>, e: Edge) {
    exists f, r ::
      && f in fs && r in f.relations && e == Edge(f.name, r.kind, r.target, f.repo)
      && !(f.kind == "symbol" && "symbol_kind" in f.props && f.props["symbol_kind"] in {Str("document"), Str("section")})
  }

  lemma DeclaresIsEdge(fs: seq<Fact>, e: Edge)
    ensures Declares(fs, e) <==> IsEdge(fs, e)
  {
    forall f: Fact ensures IsDocument(f) <==>
      f.kind == "symbol" && "symbol_kind" in f.props && f.props["symbol_kind"] in {Str("document"), Str("section")}
    {
      DocumentIs(f);
    }
    hide IsDocument;
    if IsEdge(fs, e) {
      var f, r :| f in fs && !IsDocument(f) && r in f.relations && e == EdgeOf(f, r);
    }
    if Declares(fs, e) {
      var f, r :|
        && f in fs && r in f.relations && e == Edge(f.name, r.kind, r.target, f.repo)
        && !(f.kind == "symbol" && "symbol_kind" in f.props && f.props["symbol_kind"] in {Str("document"), Str("section")});
      assert e == EdgeOf(f, r);
    }
  }

  lemma DocumentIs(f: Fact)
    ensures IsDocument(f) <==>
      f.kind == "symbol" && "symbol_kind" in f.props && f.props["symbol_kind"] in {Str("document"), Str("section")}
  {
    var s := StringProp(f, "symbol_kind");
    assert s in ["document", "section"] <==> s == "document" || s == "section";
  }

  /** With no NUL in a field, an edge is listed exactly when one side alone declares it. */
  lemma EdgesDeclared(base: seq<Fact>, cur: seq<Fact>, mb: map<string, Edge>, mc: map<string, Edge>,
                      added: seq<Edge>, removed: seq<Edge>, e: Edge)
    requires NulFreeEdges(base) && NulFreeEdges(cur)
    requires EdgeDelta(base, cur, mb, mc, added, removed)
    ensures e in added <==> Declares(cur, e) && !Declares(base, e)
    ensures e in removed <==> Declares(base, e) && !Declares(cur, e)
  {
    hide *;
    EdgesExact(base, cur, mb, mc, added, removed, e);
    DeclaresIsEdge(base, e);
    DeclaresIsEdge(cur, e);
  }
}
