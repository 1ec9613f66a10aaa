/** Every finding is accounted for once, and the counting twin counts what the delta holds. */
module FindingLaws {
  import opened Wrappers
  import opened Text
  import opened Bags
  import opened Slices
  import opened Facts
  import opened Diff
  import opened Findings
  import opened FindingDelta
  import opened FindingTies
  import opened FindingNumbers

  // ---- One row ----

  function FiledFn(x: Context): Insight -> Insight { f => Filed(x, f) }

  lemma {:induction false} AppearedSplit(x: Context, fs: seq<Insight>)
    ensures multiset(AppearedIn(x, fs, New)) + multiset(AppearedIn(x, fs, NewIncidental)) + multiset(AppearedIn(x, fs, Declared))
         == multiset(Mapped(fs, FiledFn(x)))
    decreases |fs|
  {
    hide AppearedAs, Filed;
    if fs != [] {
      var last := |fs| - 1;
      AppearedSplit(x, fs[..last]);
      assert fs == fs[..last] + [fs[last]];
      MappedSnoc(fs[..last], fs[last], FiledFn(x));
      hide Mapped;
    }
  }

  lemma {:induction false} ClearedSplit(x: Context, fs: seq<Insight>)
    ensures multiset(ClearedIn(x, fs, Undeclared)) + multiset(ClearedIn(x, fs, Silenced)) + multiset(ClearedIn(x, fs, Unattributed))
          + multiset(ClearedIn(x, fs, Resolved)) + multiset(ClearedIn(x, fs, ResolvedIncidental))
         == multiset(fs)
    decreases |fs|
  {
    hide ClearedAs;
    if fs != [] {
      var last := |fs| - 1;
      ClearedSplit(x, fs[..last]);
      assert fs == fs[..last] + [fs[last]];
    }
  }

  /** A finding the rule tests file is a constraint's, which is never without a cause. */
  lemma DeclaredHaveCause(x: Context, f: Insight)
    ensures StructuralCause(f, x.touched) <==> AppearedAs(x, f) == New || AppearedAs(x, f) == Declared
    ensures StructuralCause(f, x.touched) <==> ClearedAs(x, f) != ResolvedIncidental
  {
    hide WitnessTouched;
  }

  lemma {:induction false} CausedAppeared(x: Context, fs: seq<Insight>)
    ensures |CausedIn(x.touched, fs)| == |AppearedIn(x, fs, New)| + |AppearedIn(x, fs, Declared)|
    decreases |fs|
  {
    hide AppearedAs, Filed, StructuralCause;
    if fs != [] {
      CausedAppeared(x, fs[..|fs| - 1]);
      DeclaredHaveCause(x, fs[|fs| - 1]);
    }
  }

  lemma {:induction false} CausedCleared(x: Context, fs: seq<Insight>)
    ensures |CausedIn(x.touched, fs)| ==
      |ClearedIn(x, fs, Undeclared)| + |ClearedIn(x, fs, Silenced)| + |ClearedIn(x, fs, Unattributed)| + |ClearedIn(x, fs, Resolved)|
    decreases |fs|
  {
    hide ClearedAs, StructuralCause;
    if fs != [] {
      CausedCleared(x, fs[..|fs| - 1]);
      DeclaredHaveCause(x, fs[|fs| - 1]);
    }
  }

  // ---- The whole delta ----

  function FiledOf(x: Context, gb: Groups, gc: Groups): string -> seq<Insight> {
    k => MappedSeq(x, Surplus(Row(gb, k), Row(gc, k)))
  }

  function MappedSeq(x: Context, fs: seq<Insight>): seq<Insight> {
    seq(|fs|, i requires 0 <= i < |fs| => Filed(x, fs[i]))
  }

  /** Every current finding beyond the paired ones is in exactly one of the three collections. */
  lemma CurrentAccounted(x: Context, gb: Groups, gc: Groups, d: FindingsDelta)
    requires d.CurrentFiled(x, gb, gc, gc.Keys)
    ensures multiset(d.FindingsNew) + multiset(d.FindingsNewIncidental) + multiset(d.FindingsDeclared) == Bag(gc.Keys, FiledOf(x, gb, gc))
    ensures |d.FindingsNew| + |d.FindingsNewIncidental| + |d.FindingsDeclared| == |Bag(gc.Keys, SurplusOf(gb, gc))|
  {
    hide Bag, Surplus, AppearedIn;
    var n, i, c := AppearedOf(x, gb, gc, New), AppearedOf(x, gb, gc, NewIncidental), AppearedOf(x, gb, gc, Declared);
    BagJoined(gc.Keys, n, i);
    BagJoined(gc.Keys, Joined(n, i), c);
    forall k | k in gc.Keys ensures multiset(Joined(Joined(n, i), c)(k)) == multiset(FiledOf(x, gb, gc)(k)) {
      AppearedSplit(x, Surplus(Row(gb, k), Row(gc, k)));
      assert Mapped(Surplus(Row(gb, k), Row(gc, k)), FiledFn(x)) == MappedSeq(x, Surplus(Row(gb, k), Row(gc, k)));
    }
    BagCongruent(gc.Keys, Joined(Joined(n, i), c), FiledOf(x, gb, gc));
    BagSizes(gc.Keys, FiledOf(x, gb, gc), SurplusOf(gb, gc));
    Sizes(d.FindingsNew, d.FindingsNewIncidental, d.FindingsDeclared);
  }

  lemma Sizes<T>(a: seq<T>, b: seq<T>, c: seq<T>)
    ensures |multiset(a) + multiset(b) + multiset(c)| == |a| + |b| + |c|
  {
  }

  /** Every baseline finding beyond the paired ones is in exactly one of the five. */
  lemma BaselineAccounted(x: Context, gb: Groups, gc: Groups, d: FindingsDelta)
    requires d.BaselineFiled(x, gb, gc, gb.Keys)
    ensures multiset(d.FindingsUndeclared) + multiset(d.FindingsSilenced) + multiset(d.FindingsUnattributed) + multiset(d.FindingsResolved) + multiset(d.FindingsResolvedIncidental)
         == Bag(gb.Keys, SurplusOf(gc, gb))
  {
    hide Bag, Surplus, ClearedIn;
    var u, s, a := ClearedOf(x, gb, gc, Undeclared), ClearedOf(x, gb, gc, Silenced), ClearedOf(x, gb, gc, Unattributed);
    var r, i := ClearedOf(x, gb, gc, Resolved), ClearedOf(x, gb, gc, ResolvedIncidental);
    BagJoined(gb.Keys, u, s);
    BagJoined(gb.Keys, Joined(u, s), a);
    BagJoined(gb.Keys, Joined(Joined(u, s), a), r);
    BagJoined(gb.Keys, Joined(Joined(Joined(u, s), a), r), i);
    var all := Joined(Joined(Joined(Joined(u, s), a), r), i);
    forall k | k in gb.Keys ensures multiset(all(k)) == multiset(SurplusOf(gc, gb)(k)) {
      ClearedSplit(x, Surplus(Row(gc, k), Row(gb, k)));
    }
    BagCongruent(gb.Keys, all, SurplusOf(gc, gb));
  }

  /** A constraint's or an intent's finding is never filed as incidental, nor one without
      evidence, nor one that cites a touched name. */
  lemma IncidentalHasNoCause(x: Context, gb: Groups, gc: Groups, d: FindingsDelta, f: Insight)
    requires d.CurrentFiled(x, gb, gc, gc.Keys) && d.BaselineFiled(x, gb, gc, gb.Keys)
    requires f in d.FindingsNewIncidental || f in d.FindingsResolvedIncidental
    ensures !StructuralCause(f, x.touched)
  {
    hide Bag, Surplus, AppearedIn, ClearedIn, StructuralCause;
    if f in d.FindingsNewIncidental {
      assert f in multiset(d.FindingsNewIncidental);
      BagMember(gc.Keys, AppearedOf(x, gb, gc, NewIncidental), f);
      var k :| k in gc.Keys && f in AppearedIn(x, Surplus(Row(gb, k), Row(gc, k)), NewIncidental);
      IncidentalIn(x, Surplus(Row(gb, k), Row(gc, k)), f);
    } else {
      assert f in multiset(d.FindingsResolvedIncidental);
      BagMember(gb.Keys, ClearedOf(x, gb, gc, ResolvedIncidental), f);
      var k :| k in gb.Keys && f in ClearedIn(x, Surplus(Row(gc, k), Row(gb, k)), ResolvedIncidental);
      IncidentalIn(x, Surplus(Row(gc, k), Row(gb, k)), f);
    }
  }

  lemma {:induction false} IncidentalIn(x: Context, fs: seq<Insight>, f: Insight)
    ensures f in AppearedIn(x, fs, NewIncidental) ==> !StructuralCause(f, x.touched)
    ensures f in ClearedIn(x, fs, ResolvedIncidental) ==> !StructuralCause(f, x.touched)
    decreases |fs|
  {
    hide StructuralCause, WitnessTouched, ByNewDeclaration, ByDeclarationChange, ByMembershipChange, ByUnattributable;
    if fs != [] {
      IncidentalIn(x, fs[..|fs| - 1], f);
    }
  }

  // ---- What each collection holds ----

  lemma {:induction false} ClearedMeans(x: Context, fs: seq<Insight>, b: Cleared, f: Insight)
    ensures f in ClearedIn(x, fs, b) <==> f in fs && ClearedAs(x, f) == b
    decreases |fs|
  {
    hide ClearedAs;
    if fs != [] {
      ClearedMeans(x, fs[..|fs| - 1], b, f);
      assert fs == fs[..|fs| - 1] + [fs[|fs| - 1]];
    }
  }

  lemma {:induction false} AppearedMeans(x: Context, fs: seq<Insight>, b: Appeared, f: Insight)
    ensures f in AppearedIn(x, fs, b) <==> exists g :: g in fs && AppearedAs(x, g) == b && f == Filed(x, g)
    decreases |fs|
  {
    hide AppearedAs, Filed;
    if fs != [] {
      AppearedMeans(x, fs[..|fs| - 1], b, f);
      assert fs == fs[..|fs| - 1] + [fs[|fs| - 1]];
    }
  }

  lemma InCleared(x: Context, gb: Groups, gc: Groups, b: Cleared, fs: seq<Insight>, f: Insight)
    requires multiset(fs) == Bag(gb.Keys, ClearedOf(x, gb, gc, b)) && f in fs
    ensures ClearedAs(x, f) == b
  {
    hide Bag, ClearedAs, ClearedIn, Surplus;
    assert f in multiset(fs);
    BagMember(gb.Keys, ClearedOf(x, gb, gc, b), f);
    var k :| k in gb.Keys && f in ClearedIn(x, Surplus(Row(gc, k), Row(gb, k)), b);
    ClearedMeans(x, Surplus(Row(gc, k), Row(gb, k)), b, f);
  }

  lemma InAppeared(x: Context, gb: Groups, gc: Groups, b: Appeared, fs: seq<Insight>, f: Insight) returns (g: Insight)
    requires multiset(fs) == Bag(gc.Keys, AppearedOf(x, gb, gc, b)) && f in fs
    ensures AppearedAs(x, g) == b && f == Filed(x, g) && exists k :: k in gc.Keys && g in Surplus(Row(gb, k), Row(gc, k))
  {
    hide Bag, AppearedAs, Filed, AppearedIn, Surplus;
    assert f in multiset(fs);
    BagMember(gc.Keys, AppearedOf(x, gb, gc, b), f);
    var k :| k in gc.Keys && f in AppearedIn(x, Surplus(Row(gb, k), Row(gc, k)), b);
    AppearedMeans(x, Surplus(Row(gb, k), Row(gc, k)), b, f);
    g :| g in Surplus(Row(gb, k), Row(gc, k)) && AppearedAs(x, g) == b && f == Filed(x, g);
  }

  /** A finding that cleared is resolved only when nothing else explains it: not a changed
      declaration, not a changed membership, not a repository or a rule that is gone. */
  lemma ClearedCollections(x: Context, gb: Groups, gc: Groups, d: FindingsDelta, f: Insight)
    requires d.BaselineFiled(x, gb, gc, gb.Keys)
    ensures f in d.FindingsResolved || f in d.FindingsResolvedIncidental ==>
      && !ByDeclarationChange(x.rd, x.base, x.cur, f)
      && !ByMembershipChange(x.rd, x.base, x.cur, f)
      && !ByUnattributable(x.rd, x.base, x.cur, f)
    ensures f in d.FindingsUndeclared ==> ByDeclarationChange(x.rd, x.base, x.cur, f)
    ensures f in d.FindingsSilenced ==>
      ByMembershipChange(x.rd, x.base, x.cur, f) && !ByDeclarationChange(x.rd, x.base, x.cur, f)
    ensures f in d.FindingsUnattributed ==>
      && ByUnattributable(x.rd, x.base, x.cur, f)
      && !ByMembershipChange(x.rd, x.base, x.cur, f) && !ByDeclarationChange(x.rd, x.base, x.cur, f)
    ensures f in d.FindingsResolved ==> StructuralCause(f, x.touched)
    ensures f in d.FindingsResolvedIncidental ==> !StructuralCause(f, x.touched)
  {
    hide *;
    if f in d.FindingsUndeclared {
      FiledCleared(x, gb, gc, d, Undeclared, d.FindingsUndeclared, f);
    }
    if f in d.FindingsSilenced {
      FiledCleared(x, gb, gc, d, Silenced, d.FindingsSilenced, f);
    }
    if f in d.FindingsUnattributed {
      FiledCleared(x, gb, gc, d, Unattributed, d.FindingsUnattributed, f);
    }
    if f in d.FindingsResolved {
      FiledCleared(x, gb, gc, d, Resolved, d.FindingsResolved, f);
    }
    if f in d.FindingsResolvedIncidental {
      FiledCleared(x, gb, gc, d, ResolvedIncidental, d.FindingsResolvedIncidental, f);
    }
  }

  lemma FiledCleared(x: Context, gb: Groups, gc: Groups, d: FindingsDelta, b: Cleared, fs: seq<Insight>, f: Insight)
    requires d.BaselineFiled(x, gb, gc, gb.Keys) && f in fs
    requires b == Undeclared ==> fs == d.FindingsUndeclared
    requires b == Silenced ==> fs == d.FindingsSilenced
    requires b == Unattributed ==> fs == d.FindingsUnattributed
    requires b == Resolved ==> fs == d.FindingsResolved
    requires b == ResolvedIncidental ==> fs == d.FindingsResolvedIncidental
    ensures b == Resolved || b == ResolvedIncidental ==>
      && !ByDeclarationChange(x.rd, x.base, x.cur, f)
      && !ByMembershipChange(x.rd, x.base, x.cur, f)
      && !ByUnattributable(x.rd, x.base, x.cur, f)
      && (b == Resolved <==> StructuralCause(f, x.touched))
    ensures b == Undeclared ==> ByDeclarationChange(x.rd, x.base, x.cur, f)
    ensures b == Silenced ==> ByMembershipChange(x.rd, x.base, x.cur, f) && !ByDeclarationChange(x.rd, x.base, x.cur, f)
    ensures b == Unattributed ==>
      && ByUnattributable(x.rd, x.base, x.cur, f)
      && !ByMembershipChange(x.rd, x.base, x.cur, f) && !ByDeclarationChange(x.rd, x.base, x.cur, f)
  {
    hide ByDeclarationChange, ByMembershipChange, ByUnattributable, StructuralCause, Bag, ClearedOf;
    InCleared(x, gb, gc, b, fs, f);
  }

  function DeclaredNote(): Evidence {
    Evidence("", "", "classified: declared", "the rule is newly declared and the witness was not touched by the change", 0, 0, 0, 0)
  }

  /** The note that names the first witness the change touched. */
  ghost predicate IsNewNote(x: Context, g: Insight, note: seq<Evidence>) {
    exists how :: FirstWitness(g.evidence, x.touched, x.changed) == Some(how)
      && note == [Evidence("", "", "classified: new", "the rule is newly declared and the witness was touched by " + how, 0, 0, 0, 0)]
  }

  /** A finding that appeared is declared away only when its rule is new and the change left its
      witness alone; it is new when its rule is new and its witness was touched, or when its rule is
      not new and it has a cause. Those the rule decides say so in one more piece of evidence. */
  lemma AppearedCollections(x: Context, gb: Groups, gc: Groups, d: FindingsDelta, f: Insight)
    requires d.CurrentFiled(x, gb, gc, gc.Keys)
    ensures f in d.FindingsDeclared ==> exists g ::
      && ByNewDeclaration(x.rd, x.base, x.cur, g) && !WitnessTouched(g, x.touched, x.changed)
      && f == g.(evidence := f.evidence) && g.evidence < f.evidence && f.evidence[|g.evidence|..] == [DeclaredNote()]
    ensures f in d.FindingsNew ==>
      || (!ByNewDeclaration(x.rd, x.base, x.cur, f) && StructuralCause(f, x.touched))
      || exists g ::
           && ByNewDeclaration(x.rd, x.base, x.cur, g) && WitnessTouched(g, x.touched, x.changed)
           && f == g.(evidence := f.evidence) && g.evidence < f.evidence && IsNewNote(x, g, f.evidence[|g.evidence|..])
    ensures f in d.FindingsNewIncidental ==>
      !ByNewDeclaration(x.rd, x.base, x.cur, f) && !StructuralCause(f, x.touched)
  {
    if f in d.FindingsDeclared {
      var g := InAppeared(x, gb, gc, Declared, d.FindingsDeclared, f);
      FiledAs(x, g);
    }
    if f in d.FindingsNew {
      var g := InAppeared(x, gb, gc, New, d.FindingsNew, f);
      FiledAs(x, g);
    }
    if f in d.FindingsNewIncidental {
      var g := InAppeared(x, gb, gc, NewIncidental, d.FindingsNewIncidental, f);
      FiledAs(x, g);
    }
    hide ByNewDeclaration, WitnessTouched, StructuralCause, Filed, AppearedAs, AppearedOf, Bag;
  }

  lemma LastPart<T>(xs: seq<T>, x: T)
    ensures (xs + [x])[|xs|..] == [x] && xs < xs + [x]
  {
  }

  lemma FiledAs(x: Context, g: Insight)
    ensures AppearedAs(x, g) == Declared ==>
      && ByNewDeclaration(x.rd, x.base, x.cur, g) && !WitnessTouched(g, x.touched, x.changed)
      && var f := Filed(x, g);
         f == g.(evidence := f.evidence) && g.evidence < f.evidence && f.evidence[|g.evidence|..] == [DeclaredNote()]
    ensures AppearedAs(x, g) == New ==>
      if ByNewDeclaration(x.rd, x.base, x.cur, g) then
        && WitnessTouched(g, x.touched, x.changed)
        && var f := Filed(x, g);
           f == g.(evidence := f.evidence) && g.evidence < f.evidence && IsNewNote(x, g, f.evidence[|g.evidence|..])
      else Filed(x, g) == g && StructuralCause(g, x.touched)
    ensures AppearedAs(x, g) == NewIncidental ==>
      !ByNewDeclaration(x.rd, x.base, x.cur, g) && Filed(x, g) == g && !StructuralCause(g, x.touched)
  {
    FirstWitnessMeans(g.evidence, x.touched, x.changed);
    TouchedMeans(g, x.touched, x.changed);
    assert "classified: " + "new" == "classified: new" && "classified: " + "declared" == "classified: declared";
    var hit := FirstWitness(g.evidence, x.touched, x.changed);
    if ByNewDeclaration(x.rd, x.base, x.cur, g) && hit.Some? {
      var note := Evidence("", "", "classified: new", TOUCHED + hit.value, 0, 0, 0, 0);
      LastPart(g.evidence, note);
      assert Filed(x, g).evidence == g.evidence + [note];
      assert IsNewNote(x, g, [note]);
    } else if ByNewDeclaration(x.rd, x.base, x.cur, g) {
      LastPart(g.evidence, DeclaredNote());
      assert Filed(x, g).evidence == g.evidence + [DeclaredNote()];
    }
    hide ByNewDeclaration, WitnessTouched, StructuralCause, FirstWitness, Witness;
  }

  // ---- The counting twin ----

  /** With the same touched names the twin's counts are the sizes of the delta's collections:
      what it calls appeared is New and Declared together, what it calls cleared is everything
      that cleared with a cause, whatever excused it. */
  lemma ClassifyCounts(x: Context, gb: Groups, gc: Groups, d: FindingsDelta, fc: FindingCounts)
    requires d.CurrentFiled(x, gb, gc, gc.Keys) && d.BaselineFiled(x, gb, gc, gb.Keys)
    requires fc.appeared == |Bag(gc.Keys, CausedOf(x.touched, gb, gc))|
    requires fc.cleared == |Bag(gb.Keys, CausedOf(x.touched, gc, gb))|
    requires fc.changed == |Bag(gc.Keys, ChangedOf(gb, gc))|
    ensures fc.appeared == |d.FindingsNew| + |d.FindingsDeclared|
    ensures fc.cleared == |d.FindingsUndeclared| + |d.FindingsSilenced| + |d.FindingsUnattributed| + |d.FindingsResolved|
    ensures fc.changed == |d.FindingsChanged|
  {
    hide Bag, Surplus, AppearedIn, ClearedIn, CausedIn, ChangedOf;
    var n, c := AppearedOf(x, gb, gc, New), AppearedOf(x, gb, gc, Declared);
    BagJoined(gc.Keys, n, c);
    forall k | k in gc.Keys ensures |CausedOf(x.touched, gb, gc)(k)| == |Joined(n, c)(k)| {
      CausedAppeared(x, Surplus(Row(gb, k), Row(gc, k)));
    }
    BagSizes(gc.Keys, CausedOf(x.touched, gb, gc), Joined(n, c));
    var u, s, a, r := ClearedOf(x, gb, gc, Undeclared), ClearedOf(x, gb, gc, Silenced), ClearedOf(x, gb, gc, Unattributed), ClearedOf(x, gb, gc, Resolved);
    BagJoined(gb.Keys, u, s);
    BagJoined(gb.Keys, a, r);
    BagJoined(gb.Keys, Joined(u, s), Joined(a, r));
    forall k | k in gb.Keys ensures |CausedOf(x.touched, gc, gb)(k)| == |Joined(Joined(u, s), Joined(a, r))(k)| {
      CausedCleared(x, Surplus(Row(gc, k), Row(gb, k)));
    }
    BagSizes(gb.Keys, CausedOf(x.touched, gc, gb), Joined(Joined(u, s), Joined(a, r)));
    SeqSizes(d);
  }

  lemma SeqSizes(d: FindingsDelta)
    ensures |multiset(d.FindingsNew) + multiset(d.FindingsDeclared)| == |d.FindingsNew| + |d.FindingsDeclared|
    ensures |(multiset(d.FindingsUndeclared) + multiset(d.FindingsSilenced)) + (multiset(d.FindingsUnattributed) + multiset(d.FindingsResolved))|
         == |d.FindingsUndeclared| + |d.FindingsSilenced| + |d.FindingsUnattributed| + |d.FindingsResolved|
    ensures |multiset(d.FindingsChanged)| == |d.FindingsChanged|
  {
  }

  // ---- With touched names of its own ----

  /** The findings with a cause among `counted` and none among `touched`. */
  function OnlyCounted(touched: set<string>, counted: set<string>, fs: seq<Insight>): seq<Insight> {
    if fs == [] then []
    else
      var f := fs[|fs| - 1];
      if StructuralCause(f, counted) && !StructuralCause(f, touched) then OnlyCounted(touched, counted, fs[..|fs| - 1]) + [f]
      else OnlyCounted(touched, counted, fs[..|fs| - 1])
  }

  function OnlyCountedOf(touched: set<string>, counted: set<string>, gb: Groups, gc: Groups): string -> seq<Insight> {
    k => OnlyCounted(touched, counted, Surplus(Row(gb, k), Row(gc, k)))
  }

  /** They are those that cite names only `counted` has. */
  lemma {:induction false} OnlyCountedMeans(touched: set<string>, counted: set<string>, fs: seq<Insight>, f: Insight)
    requires touched <= counted
    ensures f in OnlyCounted(touched, counted, fs) <==>
      && f in fs && f.evidence != [] && f.source != CONSTRAINTS && f.source != INTENT
      && (exists e, n :: e in f.evidence && n in counted && Cites(e, n))
      && (forall e, n :: e in f.evidence && n in counted && Cites(e, n) ==> n !in touched)
    decreases |fs|
  {
    hide Cites;
    if fs != [] {
      OnlyCountedMeans(touched, counted, fs[..|fs| - 1], f);
      assert fs == fs[..|fs| - 1] + [fs[|fs| - 1]];
    }
  }

  lemma {:induction false} CausedGrows(touched: set<string>, counted: set<string>, fs: seq<Insight>)
    requires touched <= counted
    ensures |CausedIn(counted, fs)| == |CausedIn(touched, fs)| + |OnlyCounted(touched, counted, fs)|
    decreases |fs|
  {
    if fs != [] {
      CausedGrows(touched, counted, fs[..|fs| - 1]);
      CauseKept(touched, counted, fs[|fs| - 1]);
      hide StructuralCause;
    }
  }

  lemma CauseKept(touched: set<string>, counted: set<string>, f: Insight)
    requires touched <= counted
    ensures StructuralCause(f, touched) ==> StructuralCause(f, counted)
  {
    hide Cites;
  }

  lemma CausesGrow(touched: set<string>, counted: set<string>, gb: Groups, gc: Groups)
    requires touched <= counted
    ensures CausesShown(counted, gb, gc) == CausesShown(touched, gb, gc) + |Bag(gc.Keys, OnlyCountedOf(touched, counted, gb, gc))|
    ensures counted == touched ==> |Bag(gc.Keys, OnlyCountedOf(touched, counted, gb, gc))| == 0
  {
    hide Bag, CausedIn, OnlyCounted, Surplus;
    forall k | k in gc.Keys
      ensures |CausedOf(counted, gb, gc)(k)| == |CausedOf(touched, gb, gc)(k)| + |OnlyCountedOf(touched, counted, gb, gc)(k)|
    {
      CausedGrows(touched, counted, Surplus(Row(gb, k), Row(gc, k)));
    }
    BagSizesAdd(gc.Keys, CausedOf(counted, gb, gc), CausedOf(touched, gb, gc), OnlyCountedOf(touched, counted, gb, gc));
  }

  /** The twin's numbers against a delta filed with fewer touched names. */
  ghost predicate CountsFindings(fc: FindingCounts, d: FindingsDelta, touched: set<string>, counted: set<string>, gb: Groups, gc: Groups)
    reads d
  {
    && fc.appeared == |d.FindingsNew| + |d.FindingsDeclared| + |Bag(gc.Keys, OnlyCountedOf(touched, counted, gb, gc))|
    && fc.cleared == |d.FindingsUndeclared| + |d.FindingsSilenced| + |d.FindingsUnattributed| + |d.FindingsResolved|
                     + |Bag(gb.Keys, OnlyCountedOf(touched, counted, gc, gb))|
    && fc.changed == |d.FindingsChanged|
  }

  /** The delta and the twin, each grouping for itself, where the sorts decide nothing: the twin
      exceeds the delta's collections by the unpaired findings that cite only names the twin alone
      was given, and agrees when both are given the same. */
  method CountFindings(s: Silencing, x: Context, base: seq<Insight>, cur: seq<Insight>, counted: set<string>)
    returns (d: FindingsDelta, fc: FindingCounts, ghost gb: Groups, ghost gc: Groups)
    requires s.Valid() && x.rd == s.rd && x.base == s.rd.index(s.baseline) && x.cur == s.rd.index(s.current)
    requires x.touched <= counted
    modifies s
    ensures fresh(d) && IsFindingGrouping(x.rd, base, gb) && IsFindingGrouping(x.rd, cur, gc)
    ensures d.CurrentFiled(x, gb, gc, gc.Keys) && d.BaselineFiled(x, gb, gc, gb.Keys)
    ensures SortsDecideNothing(x.rd, counted, base, cur) ==> CountsFindings(fc, d, x.touched, counted, gb, gc)
    ensures SortsDecideNothing(x.rd, counted, base, cur) && counted == x.touched ==>
      && fc.appeared == |d.FindingsNew| + |d.FindingsDeclared|
      && fc.cleared == |d.FindingsUndeclared| + |d.FindingsSilenced| + |d.FindingsUnattributed| + |d.FindingsResolved|
      && fc.changed == |d.FindingsChanged|
  {
    hide *;
    var g, h;
    d, g, h := ComputeFindings(s, x, base, cur);
    gb, gc := g, h;
    var hb, hc;
    fc, hb, hc := ClassifyFindings(x.rd, base, cur, counted);
    if SortsDecideNothing(x.rd, counted, base, cur) {
      NumbersAgree(x.rd, counted, base, cur, gb, gc, hb, hc);
      CountsGrow(x, counted, gb, gc, hb, hc, d, fc);
    }
  }

  lemma CountsGrow(x: Context, counted: set<string>, gb: Groups, gc: Groups, hb: Groups, hc: Groups, d: FindingsDelta, fc: FindingCounts)
    requires d.CurrentFiled(x, gb, gc, gc.Keys) && d.BaselineFiled(x, gb, gc, gb.Keys)
    requires SameNumbers(counted, gb, gc, hb, hc) && x.touched <= counted
    requires fc.appeared == |Bag(hc.Keys, CausedOf(counted, hb, hc))|
    requires fc.cleared == |Bag(hb.Keys, CausedOf(counted, hc, hb))|
    requires fc.changed == |Bag(hc.Keys, ChangedOf(hb, hc))|
    ensures CountsFindings(fc, d, x.touched, counted, gb, gc)
    ensures counted == x.touched ==>
      && fc.appeared == |d.FindingsNew| + |d.FindingsDeclared|
      && fc.cleared == |d.FindingsUndeclared| + |d.FindingsSilenced| + |d.FindingsUnattributed| + |d.FindingsResolved|
      && fc.changed == |d.FindingsChanged|
  {
    hide Bag, FindingsDelta.CurrentFiled, FindingsDelta.BaselineFiled, CausedOf, ChangedOf, OnlyCountedOf;
    CausesGrow(x.touched, counted, gb, gc);
    CausesGrow(x.touched, counted, gc, gb);
    ClassifyCounts(x, gb, gc, d,
      FindingCounts(CausesShown(x.touched, gb, gc), CausesShown(x.touched, gc, gb), ChangesShown(gb, gc)));
  }

  // ---- Where ties decide ----

  function Twin(description: string): Insight {
    Insight("layers", "t", 1.0, description, [], [], false, map[])
  }

  lemma TiedGrouping<T(!new)>(a: T, b: T, key: T -> string, ord: T -> string, row: seq<T>)
    requires key(a) == key(b) && ord(a) == ord(b) && (row == [a, b] || row == [b, a])
    ensures IsGrouping([a, b], key, ord, map[key(a) := row])
  {
    hide Members, KeysOf, Less;
    var fs, k := [a, b], key(a);
    NoneListed(key, k);
    AppendMember([], a, key, k);
    AppendMember([a], b, key, k);
    AppendKey([], a, key);
    AppendKey([a], b, key);
    assert [] + [a] == [a] && [a] + [b] == fs;
    assert multiset([b, a]) == multiset(fs);
    LessAsymmetric(ord(a), ord(a));
  }

  lemma NoneListed<T(!new)>(key: T -> string, k: string)
    ensures Members([], key, k) == [] && KeysOf([], key) == {}
  {
  }

  lemma PairedRows(a: Insight, b: Insight)
    requires InsightChanged(a, b)
    ensures ChangedIn([a, b], [a, b], 2) == []
    ensures |ChangedIn([a, b], [b, a], 2)| == 2
  {
    var s, t := [a, b], [b, a];
    assert ChangedIn(s, s, 0) == [] && ChangedIn(s, t, 0) == [];
    assert ChangedIn(s, s, 1) == [] && ChangedIn(s, t, 1) == [InsightChange(a, b)];
  }

  lemma OneKeyBag<T>(k: string, f: string -> seq<T>)
    ensures |Bag({k}, f)| == |f(k)|
  {
    EmptyBag(f);
    BagAdd({}, f, k);
    assert {} + {k} == {k};
  }

  /** Two findings that share identity and order but not content: a list compared with itself
      shows no change or two, as the sorts happened to leave the ties. */
  lemma TiesDecide(rd: Reader)
    ensures
      var fs, k := [Twin("a"), Twin("b")], FindingKey(rd, Twin("a"));
      var g, h := map[k := fs], map[k := [fs[1], fs[0]]];
      && IsFindingGrouping(rd, fs, g) && IsFindingGrouping(rd, fs, h)
      && |Bag(g.Keys, ChangedOf(g, g))| == 0 && |Bag(h.Keys, ChangedOf(g, h))| == 2
  {
    var a, b := Twin("a"), Twin("b");
    var k := FindingKey(rd, a);
    var g, h := map[k := [a, b]], map[k := [b, a]];
    assert "a"[0] != "b"[0];
    hide EvidenceEntities, Bag, IsGrouping;
    TiedGrouping(a, b, FindingKeyFn(rd), INSIGHT_ORDER, [a, b]);
    TiedGrouping(a, b, FindingKeyFn(rd), INSIGHT_ORDER, [b, a]);
    PairedRows(a, b);
    hide ChangedIn, Twin;
    assert g.Keys == {k} && h.Keys == {k};
    OneKeyBag(k, ChangedOf(g, g));
    OneKeyBag(k, ChangedOf(g, h));
  }
}
