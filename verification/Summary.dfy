/** A revision summarized twice: by the delta (ComputeChanged in internal/diff/diff.go), and by the
    counters alone (internal/history/recorder.go), each with touched names of its own. */
module Summary {
  import opened Wrappers
  import opened Text
  import opened Bags
  import opened Facts
  import opened Diff
  import opened DiffLaws
  import opened Sides
  import opened SideLaws
  import opened Counts
  import opened Counting
  import opened CountLaws
  import opened NameLaws
  import opened Count
  import opened Findings
  import opened FindingDelta
  import opened FindingNumbers
  import opened FindingLaws

  /** The counters' touched names are the delta's and those of cosmetic pairs, when no field holds
      a NUL; they are the delta's alone when besides no fact carries a non-architectural prop. */
  lemma NoMoreNames(pr: Printer, base: seq<Fact>, cur: seq<Fact>, gb: map<string, seq<Fact>>, gc: map<string, seq<Fact>>)
    requires pr.Valid() && IsFactGrouping(pr, base, gb) && IsFactGrouping(pr, cur, gc)
    requires forall f :: f in base + cur ==> !HasNonArchitectural(f)
    ensures CosmeticNames(pr, gb, gc) == {}
  {
    hide HasNonArchitectural, IsFactGrouping, Bag, Printer.Valid, CosmeticOf;
    NoCosmeticPairs(pr, base, cur, gb, gc);
    BagEmpty(gb.Keys + gc.Keys, CosmeticOf(pr, gb, gc));
    assert CosmeticPairs(pr, gb, gc) == multiset{};
  }

  /** Both summaries of one revision. Where the sorts decide none of the finding counts, the counters
      exceed the delta by the unpaired findings that cite only names the counters alone hold touched;
      when no fact carries a non-architectural prop or a NUL, they are the delta's numbers. */
  method Summarize(pr: Printer, hash: Hash, base: seq<Fact>, cur: seq<Fact>,
                   rd: Reader, baseFindings: seq<Insight>, curFindings: seq<Insight>, changedFiles: Option<set<string>>)
    returns (d: SnapshotDiff, fd: FindingsDelta, c: Counts, fc: FindingCounts,
             ghost touched: set<string>, ghost gb: Groups, ghost gc: Groups)
    requires Countable(pr, hash, base, cur) && EdgesHashApart(hash, base + cur)
    ensures d.IsFactDeltaOf(pr, base, cur) && d.IsEdgeDeltaOf(base, cur) && d.FactsSorted(pr) && d.EdgesSorted()
    ensures touched == Touched(d.FactsAdded, d.FactsRemoved, d.FactsChanged, d.EdgesAdded, d.EdgesRemoved)
    ensures IsFindingGrouping(rd, baseFindings, gb) && IsFindingGrouping(rd, curFindings, gc)
    ensures
      var x := Context(rd, rd.index(base), rd.index(cur), touched, changedFiles);
      fd.CurrentFiled(x, gb, gc, gc.Keys) && fd.BaselineFiled(x, gb, gc, gb.Keys)
    ensures CountsFacts(pr, ToldIn(base, cur), c, d.baseGroups, d.curGroups, d.FactsAdded, d.FactsRemoved, d.FactsChanged)
    ensures c.EdgesAdded == |d.EdgesAdded| && c.EdgesRemoved == |d.EdgesRemoved|
    ensures touched <= c.TouchedNames
    ensures SortsDecideNothing(rd, c.TouchedNames, baseFindings, curFindings) ==>
      CountsFindings(fc, fd, touched, c.TouchedNames, gb, gc)
    ensures AllNulFree(base, cur) && (forall f :: f in base + cur ==> !HasNonArchitectural(f)) ==>
      && c.TouchedNames == touched && c.FactsChanged == |d.FactsChanged|
      && (SortsDecideNothing(rd, touched, baseFindings, curFindings) ==>
            && fc.appeared == |fd.FindingsNew| + |fd.FindingsDeclared|
            && fc.cleared == |fd.FindingsUndeclared| + |fd.FindingsSilenced| + |fd.FindingsUnattributed| + |fd.FindingsResolved|
            && fc.changed == |fd.FindingsChanged|)
  {
    hide *;
    d := ComputeStructure(pr, base, cur);
    var names := d.TouchedNames();
    touched := names;
    DeltasOf(d, pr, base, cur);
    c := CountFacts(pr, hash, base, cur, d.baseGroups, d.curGroups, d.baseEdges, d.curEdges,
                    d.FactsAdded, d.FactsRemoved, d.FactsChanged, d.EdgesAdded, d.EdgesRemoved);
    if AllNulFree(base, cur) && forall f :: f in base + cur ==> !HasNonArchitectural(f) {
      NothingCosmetic(d, pr, hash, base, cur, c);
    }
    var s := new Silencing(rd, base, cur);
    var x := Context(rd, rd.index(base), rd.index(cur), names, changedFiles);
    fd, fc, gb, gc := CountFindings(s, x, baseFindings, curFindings, c.TouchedNames);
  }

  lemma DeltasOf(d: SnapshotDiff, pr: Printer, base: seq<Fact>, cur: seq<Fact>)
    requires d.IsFactDeltaOf(pr, base, cur) && d.IsEdgeDeltaOf(base, cur)
    ensures FactDelta(pr, base, cur, d.baseGroups, d.curGroups, d.FactsAdded, d.FactsRemoved, d.FactsChanged)
    ensures EdgeDelta(base, cur, d.baseEdges, d.curEdges, d.EdgesAdded, d.EdgesRemoved)
  {
    hide FactDelta, EdgeDelta;
  }

  lemma NothingCosmetic(d: SnapshotDiff, pr: Printer, hash: Hash, base: seq<Fact>, cur: seq<Fact>, c: Counts)
    requires Countable(pr, hash, base, cur) && d.IsFactDeltaOf(pr, base, cur)
    requires forall f :: f in base + cur ==> !HasNonArchitectural(f)
    requires CountsFacts(pr, ToldIn(base, cur), c, d.baseGroups, d.curGroups, d.FactsAdded, d.FactsRemoved, d.FactsChanged)
    ensures CosmeticNames(pr, d.baseGroups, d.curGroups) == {}
    ensures c.FactsChanged == |d.FactsChanged|
  {
    hide HasNonArchitectural, IsFactGrouping, IsFactDelta, Printer.Valid, CosmeticPairs, CosmeticNames, IsTally, Mapped,
         KindsFollowKeys, KeysHashApart, PropsHashApart, ToldIn;
    NoMoreNames(pr, base, cur, d.baseGroups, d.curGroups);
    NoCosmeticPairs(pr, base, cur, d.baseGroups, d.curGroups);
  }
}
