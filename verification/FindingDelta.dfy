/** The findings half of a delta (ComputeChanged in internal/diff/diff.go) and its counting twin
    (ClassifyFindings in internal/diff/counts.go). */
module FindingDelta {
  import opened Wrappers
  import opened Text
  import opened Bags
  import opened Slices
  import opened Facts
  import opened Diff
  import opened Findings

  /** Everything the filing of a finding depends on. `changed`: the files version control says
      changed, where it was asked. */
  datatype Context = Context(rd: Reader, base: Index, cur: Index, touched: set<string>, changed: Option<set<string>>)

  function FindingKeyFn(rd: Reader): Insight -> string { f => FindingKey(rd, f) }

  const INSIGHT_ORDER: Insight -> string := f => InsightOrder(f)

  ghost predicate IsFindingGrouping(rd: Reader, fs: seq<Insight>, g: map<string, seq<Insight>>) {
    IsGrouping(fs, FindingKeyFn(rd), INSIGHT_ORDER, g)
  }

  // ---- Where a finding goes ----

  datatype Appeared = New | NewIncidental | Declared

  datatype Cleared = Undeclared | Silenced | Unattributed | Resolved | ResolvedIncidental

  function AppearedAs(x: Context, f: Insight): Appeared {
    if ByNewDeclaration(x.rd, x.base, x.cur, f) then (if WitnessTouched(f, x.touched, x.changed) then New else Declared)
    else if StructuralCause(f, x.touched) then New
    else NewIncidental
  }

  function ClearedAs(x: Context, f: Insight): Cleared {
    if ByDeclarationChange(x.rd, x.base, x.cur, f) then Undeclared
    else if ByMembershipChange(x.rd, x.base, x.cur, f) then Silenced
    else if ByUnattributable(x.rd, x.base, x.cur, f) then Unattributed
    else if StructuralCause(f, x.touched) then Resolved
    else ResolvedIncidental
  }

  /** A finding filed because of a declaration says so in its evidence. */
  function Annotated(f: Insight, bucket: string, reason: string): Insight {
    f.(evidence := f.evidence + [Evidence("", "", "classified: " + bucket, reason, 0, 0, 0, 0)])
  }

  const TOUCHED := "the rule is newly declared and the witness was touched by "
  const UNTOUCHED := "the rule is newly declared and the witness was not touched by the change"

  function Filed(x: Context, f: Insight): Insight {
    var hit := FirstWitness(f.evidence, x.touched, x.changed);
    if !ByNewDeclaration(x.rd, x.base, x.cur, f) then f
    else if hit.Some? then Annotated(f, "new", TOUCHED + hit.value)
    else Annotated(f, "declared", UNTOUCHED)
  }

  // ---- Rows ----

  function AppearedIn(x: Context, fs: seq<Insight>, b: Appeared): seq<Insight> {
    if fs == [] then []
    else if AppearedAs(x, fs[|fs| - 1]) == b then AppearedIn(x, fs[..|fs| - 1], b) + [Filed(x, fs[|fs| - 1])]
    else AppearedIn(x, fs[..|fs| - 1], b)
  }

  function ClearedIn(x: Context, fs: seq<Insight>, b: Cleared): seq<Insight> {
    if fs == [] then []
    else if ClearedAs(x, fs[|fs| - 1]) == b then ClearedIn(x, fs[..|fs| - 1], b) + [fs[|fs| - 1]]
    else ClearedIn(x, fs[..|fs| - 1], b)
  }

  function ChangedIn(b: seq<Insight>, c: seq<Insight>, n: nat): seq<InsightChange>
    requires n <= |b| && n <= |c|
  {
    if n == 0 then []
    else if InsightChanged(b[n - 1], c[n - 1]) then ChangedIn(b, c, n - 1) + [InsightChange(b[n - 1], c[n - 1])]
    else ChangedIn(b, c, n - 1)
  }

  type Groups = map<string, seq<Insight>>

  function AppearedOf(x: Context, gb: Groups, gc: Groups, b: Appeared): string -> seq<Insight> {
    k => AppearedIn(x, Surplus(Row(gb, k), Row(gc, k)), b)
  }

  function ClearedOf(x: Context, gb: Groups, gc: Groups, b: Cleared): string -> seq<Insight> {
    k => ClearedIn(x, Surplus(Row(gc, k), Row(gb, k)), b)
  }

  function ChangedOf(gb: Groups, gc: Groups): string -> seq<InsightChange> {
    k => ChangedIn(Row(gb, k), Row(gc, k), Paired(Row(gb, k), Row(gc, k)))
  }

  lemma AppearedGrows(x: Context, fs: seq<Insight>, n: nat, b: Appeared, before: seq<Insight>)
    requires n < |fs|
    ensures before + AppearedIn(x, fs[..n + 1], b) ==
      if AppearedAs(x, fs[n]) == b then before + AppearedIn(x, fs[..n], b) + [Filed(x, fs[n])] else before + AppearedIn(x, fs[..n], b)
  {
    hide AppearedAs, Filed;
    assert fs[..n + 1][..n] == fs[..n];
    assert before + (AppearedIn(x, fs[..n], b) + [Filed(x, fs[n])]) == before + AppearedIn(x, fs[..n], b) + [Filed(x, fs[n])];
  }

  lemma AppearedNone(x: Context, fs: seq<Insight>, b: Appeared, before: seq<Insight>)
    ensures before + AppearedIn(x, fs[..0], b) == before
  {
    hide AppearedAs, Filed;
  }

  lemma ClearedGrows(x: Context, fs: seq<Insight>, n: nat, b: Cleared, before: seq<Insight>)
    requires n < |fs|
    ensures before + ClearedIn(x, fs[..n + 1], b) ==
      if ClearedAs(x, fs[n]) == b then before + ClearedIn(x, fs[..n], b) + [fs[n]] else before + ClearedIn(x, fs[..n], b)
  {
    hide ClearedAs;
    assert fs[..n + 1][..n] == fs[..n];
    assert before + (ClearedIn(x, fs[..n], b) + [fs[n]]) == before + ClearedIn(x, fs[..n], b) + [fs[n]];
  }

  lemma ClearedNone(x: Context, fs: seq<Insight>, b: Cleared, before: seq<Insight>)
    ensures before + ClearedIn(x, fs[..0], b) == before
  {
    hide ClearedAs;
  }

  class FindingsDelta {
    var FindingsNew: seq<Insight>
    var FindingsNewIncidental: seq<Insight>
    var FindingsDeclared: seq<Insight>
    var FindingsResolved: seq<Insight>
    var FindingsResolvedIncidental: seq<Insight>
    var FindingsUndeclared: seq<Insight>
    var FindingsSilenced: seq<Insight>
    var FindingsUnattributed: seq<Insight>
    var FindingsChanged: seq<InsightChange>

    constructor ()
      ensures FindingsNew == FindingsNewIncidental == FindingsDeclared == [] && FindingsChanged == []
      ensures FindingsResolved == FindingsResolvedIncidental == FindingsUndeclared == FindingsSilenced == FindingsUnattributed == []
    {
      FindingsNew, FindingsNewIncidental, FindingsDeclared, FindingsChanged := [], [], [], [];
      FindingsResolved, FindingsResolvedIncidental, FindingsUndeclared, FindingsSilenced, FindingsUnattributed := [], [], [], [], [];
    }

    ghost predicate CurrentFiled(x: Context, gb: Groups, gc: Groups, done: set<string>)
      reads this`FindingsNew, this`FindingsNewIncidental, this`FindingsDeclared, this`FindingsChanged
    {
      && multiset(FindingsNew) == Bag(done, AppearedOf(x, gb, gc, New))
      && multiset(FindingsNewIncidental) == Bag(done, AppearedOf(x, gb, gc, NewIncidental))
      && multiset(FindingsDeclared) == Bag(done, AppearedOf(x, gb, gc, Declared))
      && multiset(FindingsChanged) == Bag(done, ChangedOf(gb, gc))
    }

    ghost predicate BaselineFiled(x: Context, gb: Groups, gc: Groups, done: set<string>)
      reads this`FindingsUndeclared, this`FindingsSilenced, this`FindingsUnattributed, this`FindingsResolved, this`FindingsResolvedIncidental
    {
      && multiset(FindingsUndeclared) == Bag(done, ClearedOf(x, gb, gc, Undeclared))
      && multiset(FindingsSilenced) == Bag(done, ClearedOf(x, gb, gc, Silenced))
      && multiset(FindingsUnattributed) == Bag(done, ClearedOf(x, gb, gc, Unattributed))
      && multiset(FindingsResolved) == Bag(done, ClearedOf(x, gb, gc, Resolved))
      && multiset(FindingsResolvedIncidental) == Bag(done, ClearedOf(x, gb, gc, ResolvedIncidental))
    }

    method Appear(s: Silencing, x: Context, f: Insight)
      requires s.Valid() && x.rd == s.rd && x.base == s.rd.index(s.baseline) && x.cur == s.rd.index(s.current)
      modifies this`FindingsNew, this`FindingsNewIncidental, this`FindingsDeclared, s
      ensures s.Valid()
      ensures FindingsNew == if AppearedAs(x, f) == New then old(FindingsNew) + [Filed(x, f)] else old(FindingsNew)
      ensures FindingsNewIncidental == if AppearedAs(x, f) == NewIncidental then old(FindingsNewIncidental) + [Filed(x, f)] else old(FindingsNewIncidental)
      ensures FindingsDeclared == if AppearedAs(x, f) == Declared then old(FindingsDeclared) + [Filed(x, f)] else old(FindingsDeclared)
    {
      hide ByNewDeclaration, WitnessTouched, FirstWitness, StructuralCause, Annotated;
      var newly := s.NewlyDeclared(f);
      if newly {
        var hit := FindWitness(f, x.touched, x.changed);
        if hit.Some? {
          FindingsNew := FindingsNew + [Annotated(f, "new", TOUCHED + hit.value)];
        } else {
          FindingsDeclared := FindingsDeclared + [Annotated(f, "declared", UNTOUCHED)];
        }
        return;
      }
      var cause := FindStructuralCause(f, x.touched);
      if cause {
        FindingsNew := FindingsNew + [f];
      } else {
        FindingsNewIncidental := FindingsNewIncidental + [f];
      }
    }

    /** The findings beyond the paired ones, each where it goes. */
    method FileAppeared(s: Silencing, x: Context, fs: seq<Insight>)
      requires s.Valid() && x.rd == s.rd && x.base == s.rd.index(s.baseline) && x.cur == s.rd.index(s.current)
      modifies this`FindingsNew, this`FindingsNewIncidental, this`FindingsDeclared, s
      ensures s.Valid()
      ensures FindingsNew == old(FindingsNew) + AppearedIn(x, fs, New)
      ensures FindingsNewIncidental == old(FindingsNewIncidental) + AppearedIn(x, fs, NewIncidental)
      ensures FindingsDeclared == old(FindingsDeclared) + AppearedIn(x, fs, Declared)
    {
      hide AppearedAs, Filed, AppearedIn;
      AppearedNone(x, fs, New, FindingsNew);
      AppearedNone(x, fs, NewIncidental, FindingsNewIncidental);
      AppearedNone(x, fs, Declared, FindingsDeclared);
      for n := 0 to |fs|
        invariant s.Valid()
        invariant FindingsNew == old(FindingsNew) + AppearedIn(x, fs[..n], New)
        invariant FindingsNewIncidental == old(FindingsNewIncidental) + AppearedIn(x, fs[..n], NewIncidental)
        invariant FindingsDeclared == old(FindingsDeclared) + AppearedIn(x, fs[..n], Declared)
      {
        AppearedGrows(x, fs, n, New, old(FindingsNew));
        AppearedGrows(x, fs, n, NewIncidental, old(FindingsNewIncidental));
        AppearedGrows(x, fs, n, Declared, old(FindingsDeclared));
        Appear(s, x, fs[n]);
      }
      TakeAll(fs);
    }

    method Clear(s: Silencing, x: Context, f: Insight)
      requires s.Valid() && x.rd == s.rd && x.base == s.rd.index(s.baseline) && x.cur == s.rd.index(s.current)
      modifies this`FindingsUndeclared, this`FindingsSilenced, this`FindingsUnattributed, this`FindingsResolved, this`FindingsResolvedIncidental, s
      ensures s.Valid()
      ensures FindingsUndeclared == if ClearedAs(x, f) == Undeclared then old(FindingsUndeclared) + [f] else old(FindingsUndeclared)
      ensures FindingsSilenced == if ClearedAs(x, f) == Silenced then old(FindingsSilenced) + [f] else old(FindingsSilenced)
      ensures FindingsUnattributed == if ClearedAs(x, f) == Unattributed then old(FindingsUnattributed) + [f] else old(FindingsUnattributed)
      ensures FindingsResolved == if ClearedAs(x, f) == Resolved then old(FindingsResolved) + [f] else old(FindingsResolved)
      ensures FindingsResolvedIncidental == if ClearedAs(x, f) == ResolvedIncidental then old(FindingsResolvedIncidental) + [f] else old(FindingsResolvedIncidental)
    {
      hide ByDeclarationChange, ByMembershipChange, ByUnattributable, StructuralCause;
      var v := s.DeclarationChanged(f);
      if v {
        FindingsUndeclared := FindingsUndeclared + [f];
        return;
      }
      v := s.MembershipChanged(f);
      if v {
        FindingsSilenced := FindingsSilenced + [f];
        return;
      }
      v := s.Unattributable(f);
      if v {
        FindingsUnattributed := FindingsUnattributed + [f];
        return;
      }
      v := FindStructuralCause(f, x.touched);
      if v {
        FindingsResolved := FindingsResolved + [f];
      } else {
        FindingsResolvedIncidental := FindingsResolvedIncidental + [f];
      }
    }

    method FileCleared(s: Silencing, x: Context, fs: seq<Insight>)
      requires s.Valid() && x.rd == s.rd && x.base == s.rd.index(s.baseline) && x.cur == s.rd.index(s.current)
      modifies this`FindingsUndeclared, this`FindingsSilenced, this`FindingsUnattributed, this`FindingsResolved, this`FindingsResolvedIncidental, s
      ensures s.Valid()
      ensures FindingsUndeclared == old(FindingsUndeclared) + ClearedIn(x, fs, Undeclared)
      ensures FindingsSilenced == old(FindingsSilenced) + ClearedIn(x, fs, Silenced)
      ensures FindingsUnattributed == old(FindingsUnattributed) + ClearedIn(x, fs, Unattributed)
      ensures FindingsResolved == old(FindingsResolved) + ClearedIn(x, fs, Resolved)
      ensures FindingsResolvedIncidental == old(FindingsResolvedIncidental) + ClearedIn(x, fs, ResolvedIncidental)
    {
      hide ClearedAs, ClearedIn;
      ClearedNone(x, fs, Undeclared, FindingsUndeclared);
      ClearedNone(x, fs, Silenced, FindingsSilenced);
      ClearedNone(x, fs, Unattributed, FindingsUnattributed);
      ClearedNone(x, fs, Resolved, FindingsResolved);
      ClearedNone(x, fs, ResolvedIncidental, FindingsResolvedIncidental);
      for n := 0 to |fs|
        invariant s.Valid()
        invariant FindingsUndeclared == old(FindingsUndeclared) + ClearedIn(x, fs[..n], Undeclared)
        invariant FindingsSilenced == old(FindingsSilenced) + ClearedIn(x, fs[..n], Silenced)
        invariant FindingsUnattributed == old(FindingsUnattributed) + ClearedIn(x, fs[..n], Unattributed)
        invariant FindingsResolved == old(FindingsResolved) + ClearedIn(x, fs[..n], Resolved)
        invariant FindingsResolvedIncidental == old(FindingsResolvedIncidental) + ClearedIn(x, fs[..n], ResolvedIncidental)
      {
        ClearedGrows(x, fs, n, Undeclared, old(FindingsUndeclared));
        ClearedGrows(x, fs, n, Silenced, old(FindingsSilenced));
        ClearedGrows(x, fs, n, Unattributed, old(FindingsUnattributed));
        ClearedGrows(x, fs, n, Resolved, old(FindingsResolved));
        ClearedGrows(x, fs, n, ResolvedIncidental, old(FindingsResolvedIncidental));
        Clear(s, x, fs[n]);
      }
      TakeAll(fs);
    }

    method PairFindings(b: seq<Insight>, c: seq<Insight>)
      modifies this`FindingsChanged
      ensures FindingsChanged == old(FindingsChanged) + ChangedIn(b, c, Paired(b, c))
    {
      for n := 0 to Paired(b, c)
        invariant FindingsChanged == old(FindingsChanged) + ChangedIn(b, c, n)
      {
        if InsightChanged(b[n], c[n]) {
          FindingsChanged := FindingsChanged + [InsightChange(b[n], c[n])];
        }
      }
    }

    method FileCurrentUnder(s: Silencing, x: Context, gb: Groups, gc: Groups, ghost todo: set<string>, k: string)
      requires s.Valid() && x.rd == s.rd && x.base == s.rd.index(s.baseline) && x.cur == s.rd.index(s.current)
      requires k in todo && todo <= gc.Keys && CurrentFiled(x, gb, gc, gc.Keys - todo)
      modifies this`FindingsNew, this`FindingsNewIncidental, this`FindingsDeclared, this`FindingsChanged, s
      ensures s.Valid() && CurrentFiled(x, gb, gc, gc.Keys - (todo - {k}))
    {
      hide Bag, AppearedIn, ChangedIn, Surplus, Paired;
      BagStep(gc.Keys, todo, k, AppearedOf(x, gb, gc, New), FindingsNew);
      BagStep(gc.Keys, todo, k, AppearedOf(x, gb, gc, NewIncidental), FindingsNewIncidental);
      BagStep(gc.Keys, todo, k, AppearedOf(x, gb, gc, Declared), FindingsDeclared);
      BagStep(gc.Keys, todo, k, ChangedOf(gb, gc), FindingsChanged);
      PairFindings(Row(gb, k), Row(gc, k));
      FileAppeared(s, x, Surplus(Row(gb, k), Row(gc, k)));
    }

    method FileClearedUnder(s: Silencing, x: Context, gb: Groups, gc: Groups, ghost todo: set<string>, k: string)
      requires s.Valid() && x.rd == s.rd && x.base == s.rd.index(s.baseline) && x.cur == s.rd.index(s.current)
      requires k in todo && todo <= gb.Keys && BaselineFiled(x, gb, gc, gb.Keys - todo)
      modifies this`FindingsUndeclared, this`FindingsSilenced, this`FindingsUnattributed, this`FindingsResolved, this`FindingsResolvedIncidental, s
      ensures s.Valid() && BaselineFiled(x, gb, gc, gb.Keys - (todo - {k}))
    {
      hide Bag, ClearedIn, Surplus;
      BagStep(gb.Keys, todo, k, ClearedOf(x, gb, gc, Undeclared), FindingsUndeclared);
      BagStep(gb.Keys, todo, k, ClearedOf(x, gb, gc, Silenced), FindingsSilenced);
      BagStep(gb.Keys, todo, k, ClearedOf(x, gb, gc, Unattributed), FindingsUnattributed);
      BagStep(gb.Keys, todo, k, ClearedOf(x, gb, gc, Resolved), FindingsResolved);
      BagStep(gb.Keys, todo, k, ClearedOf(x, gb, gc, ResolvedIncidental), FindingsResolvedIncidental);
      FileCleared(s, x, Surplus(Row(gc, k), Row(gb, k)));
    }

    /** The loop over the current side's groups. */
    method FileCurrent(s: Silencing, x: Context, gb: Groups, gc: Groups)
      requires s.Valid() && x.rd == s.rd && x.base == s.rd.index(s.baseline) && x.cur == s.rd.index(s.current)
      requires CurrentFiled(x, gb, gc, {})
      modifies this`FindingsNew, this`FindingsNewIncidental, this`FindingsDeclared, this`FindingsChanged, s
      ensures s.Valid() && CurrentFiled(x, gb, gc, gc.Keys)
    {
      hide AppearedOf, ChangedOf, Bag, CurrentFiled;
      var todo := gc.Keys;
      assert gc.Keys - todo == {};
      while todo != {}
        invariant s.Valid() && todo <= gc.Keys && CurrentFiled(x, gb, gc, gc.Keys - todo)
        decreases todo
      {
        var k :| k in todo;
        FileCurrentUnder(s, x, gb, gc, todo, k);
        todo := todo - {k};
      }
      assert gc.Keys - todo == gc.Keys;
    }

    /** The loop over the baseline's groups. */
    method FileBaseline(s: Silencing, x: Context, gb: Groups, gc: Groups)
      requires s.Valid() && x.rd == s.rd && x.base == s.rd.index(s.baseline) && x.cur == s.rd.index(s.current)
      requires BaselineFiled(x, gb, gc, {})
      modifies this`FindingsUndeclared, this`FindingsSilenced, this`FindingsUnattributed, this`FindingsResolved, this`FindingsResolvedIncidental, s
      ensures s.Valid() && BaselineFiled(x, gb, gc, gb.Keys)
    {
      hide ClearedOf, Bag, BaselineFiled;
      var todo := gb.Keys;
      assert gb.Keys - todo == {};
      while todo != {}
        invariant s.Valid() && todo <= gb.Keys && BaselineFiled(x, gb, gc, gb.Keys - todo)
        decreases todo
      {
        var k :| k in todo;
        FileClearedUnder(s, x, gb, gc, todo, k);
        todo := todo - {k};
      }
      assert gb.Keys - todo == gb.Keys;
    }

    /** Every collection is sorted; what it holds stays the same. */
    method SortCurrent(rd: Reader, ghost x: Context, ghost gb: Groups, ghost gc: Groups, ghost done: set<string>)
      requires CurrentFiled(x, gb, gc, done)
      modifies this`FindingsNew, this`FindingsNewIncidental, this`FindingsDeclared, this`FindingsChanged
      ensures CurrentFiled(x, gb, gc, done) && CurrentSorted(rd)
    {
      hide AppearedOf, ChangedOf, Bag, SortedBy;
      var n := SortSlice(FindingsNew, SortKeyOf(rd));
      var i := SortSlice(FindingsNewIncidental, SortKeyOf(rd));
      var d := SortSlice(FindingsDeclared, SortKeyOf(rd));
      var c := SortSlice(FindingsChanged, AfterKeyOf(rd));
      FindingsNew, FindingsNewIncidental, FindingsDeclared, FindingsChanged := n, i, d, c;
    }

    method SortBaseline(rd: Reader, ghost x: Context, ghost gb: Groups, ghost gc: Groups, ghost done: set<string>)
      requires BaselineFiled(x, gb, gc, done)
      modifies this`FindingsUndeclared, this`FindingsSilenced, this`FindingsUnattributed, this`FindingsResolved, this`FindingsResolvedIncidental
      ensures BaselineFiled(x, gb, gc, done) && BaselineSorted(rd)
    {
      hide ClearedOf, Bag, SortedBy;
      var d := SortSlice(FindingsUndeclared, SortKeyOf(rd));
      var m := SortSlice(FindingsSilenced, SortKeyOf(rd));
      var u := SortSlice(FindingsUnattributed, SortKeyOf(rd));
      var r := SortSlice(FindingsResolved, SortKeyOf(rd));
      var i := SortSlice(FindingsResolvedIncidental, SortKeyOf(rd));
      FindingsUndeclared, FindingsSilenced, FindingsUnattributed, FindingsResolved, FindingsResolvedIncidental := d, m, u, r, i;
    }

    ghost predicate CurrentSorted(rd: Reader)
      reads this`FindingsNew, this`FindingsNewIncidental, this`FindingsDeclared, this`FindingsChanged
    {
      && SortedBy(FindingsNew, SortKeyOf(rd)) && SortedBy(FindingsNewIncidental, SortKeyOf(rd)) && SortedBy(FindingsDeclared, SortKeyOf(rd))
      && SortedBy(FindingsChanged, AfterKeyOf(rd))
    }

    ghost predicate BaselineSorted(rd: Reader)
      reads this`FindingsUndeclared, this`FindingsSilenced, this`FindingsUnattributed, this`FindingsResolved, this`FindingsResolvedIncidental
    {
      && SortedBy(FindingsUndeclared, SortKeyOf(rd)) && SortedBy(FindingsSilenced, SortKeyOf(rd)) && SortedBy(FindingsUnattributed, SortKeyOf(rd))
      && SortedBy(FindingsResolved, SortKeyOf(rd)) && SortedBy(FindingsResolvedIncidental, SortKeyOf(rd))
    }
  }

  function SortKeyOf(rd: Reader): Insight -> string { f => FindingSortKey(rd, f) }

  function AfterKeyOf(rd: Reader): InsightChange -> string { (c: InsightChange) => FindingSortKey(rd, c.after) }

  /** Changed findings are listed by what they say now. */
  lemma ChangedByNow(rd: Reader, d: FindingsDelta)
    requires d.CurrentSorted(rd)
    ensures forall i, j :: 0 <= i < j < |d.FindingsChanged| ==>
      !Less(FindingSortKey(rd, d.FindingsChanged[j].after), FindingSortKey(rd, d.FindingsChanged[i].after))
  {
    hide FindingSortKey, Less;
    forall i, j | 0 <= i < j < |d.FindingsChanged|
      ensures !Less(FindingSortKey(rd, d.FindingsChanged[j].after), FindingSortKey(rd, d.FindingsChanged[i].after))
    {
      assert LessEq(AfterKeyOf(rd)(d.FindingsChanged[i]), AfterKeyOf(rd)(d.FindingsChanged[j]));
    }
  }

  lemma NothingFiled(x: Context, gb: Groups, gc: Groups, d: FindingsDelta)
    requires d.FindingsNew == d.FindingsNewIncidental == d.FindingsDeclared == [] && d.FindingsChanged == []
    requires d.FindingsResolved == d.FindingsResolvedIncidental == d.FindingsUndeclared == d.FindingsSilenced == d.FindingsUnattributed == []
    ensures d.CurrentFiled(x, gb, gc, {}) && d.BaselineFiled(x, gb, gc, {})
  {
    hide AppearedIn, ClearedIn, ChangedIn;
  }

  /** The findings half of a delta of two lists, grouped by identity as `gb` and `gc`. */
  method ComputeFindings(s: Silencing, x: Context, base: seq<Insight>, cur: seq<Insight>)
    returns (d: FindingsDelta, gb: Groups, gc: Groups)
    requires s.Valid() && x.rd == s.rd && x.base == s.rd.index(s.baseline) && x.cur == s.rd.index(s.current)
    modifies s
    ensures fresh(d)
    ensures IsFindingGrouping(x.rd, base, gb) && IsFindingGrouping(x.rd, cur, gc)
    ensures d.CurrentFiled(x, gb, gc, gc.Keys) && d.BaselineFiled(x, gb, gc, gb.Keys)
    ensures d.CurrentSorted(x.rd) && d.BaselineSorted(x.rd)
  {
    hide AppearedOf, ClearedOf, ChangedOf, Bag, IsGrouping, FindingsDelta.CurrentFiled, FindingsDelta.BaselineFiled, FindingsDelta.CurrentSorted, FindingsDelta.BaselineSorted;
    gb := GroupBy(base, FindingKeyFn(x.rd), INSIGHT_ORDER);
    gc := GroupBy(cur, FindingKeyFn(x.rd), INSIGHT_ORDER);
    d := new FindingsDelta();
    NothingFiled(x, gb, gc, d);
    d.FileCurrent(s, x, gb, gc);
    d.FileBaseline(s, x, gb, gc);
    d.SortCurrent(x.rd, x, gb, gc, gc.Keys);
    d.SortBaseline(x.rd, x, gb, gc, gb.Keys);
  }

  // ---- Counting ----

  function CausedIn(touched: set<string>, fs: seq<Insight>): seq<Insight> {
    if fs == [] then []
    else if StructuralCause(fs[|fs| - 1], touched) then CausedIn(touched, fs[..|fs| - 1]) + [fs[|fs| - 1]]
    else CausedIn(touched, fs[..|fs| - 1])
  }

  function CausedOf(touched: set<string>, gb: Groups, gc: Groups): string -> seq<Insight> {
    k => CausedIn(touched, Surplus(Row(gb, k), Row(gc, k)))
  }

  lemma CausedNext(touched: set<string>, fs: seq<Insight>, n: nat)
    requires n < |fs|
    ensures |CausedIn(touched, fs[..n + 1])| == |CausedIn(touched, fs[..n])| + if StructuralCause(fs[n], touched) then 1 else 0
  {
    hide StructuralCause;
    assert fs[..n + 1][..n] == fs[..n];
  }

  method CountCaused(touched: set<string>, fs: seq<Insight>) returns (n: nat)
    ensures n == |CausedIn(touched, fs)|
  {
    hide StructuralCause;
    n := 0;
    for i := 0 to |fs|
      invariant n == |CausedIn(touched, fs[..i])|
    {
      CausedNext(touched, fs, i);
      var cause := FindStructuralCause(fs[i], touched);
      if cause {
        n := n + 1;
      }
    }
    TakeAll(fs);
  }

  method CountChanged(b: seq<Insight>, c: seq<Insight>) returns (n: nat)
    ensures n == |ChangedIn(b, c, Paired(b, c))|
  {
    n := 0;
    for i := 0 to Paired(b, c)
      invariant n == |ChangedIn(b, c, i)|
    {
      if InsightChanged(b[i], c[i]) {
        n := n + 1;
      }
    }
  }

  datatype FindingCounts = FindingCounts(appeared: nat, cleared: nat, changed: nat)

  method CountAppeared(touched: set<string>, b: Groups, c: Groups) returns (n: nat)
    ensures n == |Bag(c.Keys, CausedOf(touched, b, c))|
  {
    hide Bag, CausedIn, Surplus;
    n := 0;
    var todo := c.Keys;
    EmptyBag(CausedOf(touched, b, c));
    assert c.Keys - todo == {};
    while todo != {}
      invariant todo <= c.Keys && n == |Bag(c.Keys - todo, CausedOf(touched, b, c))|
      decreases todo
    {
      var k :| k in todo;
      BagAdd(c.Keys - todo, CausedOf(touched, b, c), k);
      assert c.Keys - (todo - {k}) == c.Keys - todo + {k};
      todo := todo - {k};
      var m := CountCaused(touched, Surplus(Row(b, k), Row(c, k)));
      n := n + m;
    }
    assert c.Keys - todo == c.Keys;
  }

  method CountChanges(b: Groups, c: Groups) returns (n: nat)
    ensures n == |Bag(c.Keys, ChangedOf(b, c))|
  {
    hide Bag, ChangedIn, Paired;
    n := 0;
    var todo := c.Keys;
    EmptyBag(ChangedOf(b, c));
    assert c.Keys - todo == {};
    while todo != {}
      invariant todo <= c.Keys && n == |Bag(c.Keys - todo, ChangedOf(b, c))|
      decreases todo
    {
      var k :| k in todo;
      BagAdd(c.Keys - todo, ChangedOf(b, c), k);
      assert c.Keys - (todo - {k}) == c.Keys - todo + {k};
      todo := todo - {k};
      var m := CountChanged(Row(b, k), Row(c, k));
      n := n + m;
    }
    assert c.Keys - todo == c.Keys;
  }

  /** The counting twin: it groups for itself and keeps no finding. */
  method ClassifyFindings(rd: Reader, base: seq<Insight>, cur: seq<Insight>, touched: set<string>)
    returns (fc: FindingCounts, gb: Groups, gc: Groups)
    ensures IsFindingGrouping(rd, base, gb) && IsFindingGrouping(rd, cur, gc)
    ensures fc.appeared == |Bag(gc.Keys, CausedOf(touched, gb, gc))|
    ensures fc.cleared == |Bag(gb.Keys, CausedOf(touched, gc, gb))|
    ensures fc.changed == |Bag(gc.Keys, ChangedOf(gb, gc))|
  {
    hide Bag, IsGrouping, CausedOf, ChangedOf;
    gb := GroupBy(base, FindingKeyFn(rd), INSIGHT_ORDER);
    gc := GroupBy(cur, FindingKeyFn(rd), INSIGHT_ORDER);
    var appeared := CountAppeared(touched, gb, gc);
    var changed := CountChanges(gb, gc);
    var cleared := CountAppeared(touched, gc, gb);
    fc := FindingCounts(appeared, cleared, changed);
  }

  lemma EmptyBag<T>(f: string -> seq<T>)
    ensures |Bag({}, f)| == 0
  {
  }
}
