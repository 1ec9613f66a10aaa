/** Which numbers of a delta of findings the sorts may decide: the unpaired findings with a cause,
    and with the changed ones of `FindingTies` all that the counter keeps. */
module FindingNumbers {
  import opened Text
  import opened Bags
  import opened Slices
  import opened Diff
  import opened Findings
  import opened FindingDelta
  import opened FindingTies

  // ---- Which findings stay unpaired ----

  /** The ties at the end of the paired part leave the number of unpaired findings with a cause
      alone: where they may choose which of an order's findings stay unpaired, all of these have
      a cause or none has. */
  ghost predicate CausesSettled(touched: set<string>, b: seq<Insight>, c: seq<Insight>) {
    0 < |b| < |c| && InsightOrder(c[|b| - 1]) == InsightOrder(c[|b|]) ==>
      forall x, y :: x in c && y in c && InsightOrder(x) == InsightOrder(c[|b|]) == InsightOrder(y) ==>
        (StructuralCause(x, touched) <==> StructuralCause(y, touched))
  }

  function CauseTag(touched: set<string>): Insight -> (string, bool) {
    f => (InsightOrder(f), StructuralCause(f, touched))
  }

  /** The findings of one order among those with a cause. */
  lemma {:induction false} CausedByOrder(touched: set<string>, s: seq<Insight>, o: string)
    ensures multiset(Mapped(CausedIn(touched, s), INSIGHT_ORDER))[o] == |Members(s, CauseTag(touched), (o, true))|
    decreases |s|
  {
    hide InsightOrder, StructuralCause, Mapped;
    if s == [] {
      MappedNil(INSIGHT_ORDER);
    } else {
      var init := s[..|s| - 1];
      CausedByOrder(touched, init, o);
      MappedSnoc(CausedIn(touched, init), s[|s| - 1], INSIGHT_ORDER);
    }
  }

  /** When two arrangements have the same causes at the positions of an order. */
  lemma {:induction false} CausedPointwise(touched: set<string>, s: seq<Insight>, t: seq<Insight>, o: string)
    requires |s| == |t| && forall i :: 0 <= i < |s| ==> InsightOrder(s[i]) == InsightOrder(t[i])
    requires forall i :: 0 <= i < |s| && InsightOrder(s[i]) == o ==> (StructuralCause(s[i], touched) <==> StructuralCause(t[i], touched))
    ensures |Members(s, CauseTag(touched), (o, true))| == |Members(t, CauseTag(touched), (o, true))|
    decreases |s|
  {
    hide InsightOrder, StructuralCause;
    if s != [] {
      CausedPointwise(touched, s[..|s| - 1], t[..|s| - 1], o);
    }
  }

  lemma NoneOfOrder(touched: set<string>, s: seq<Insight>, o: string)
    requires forall x :: x in s ==> InsightOrder(x) != o
    ensures Members(s, CauseTag(touched), (o, true)) == []
  {
    hide InsightOrder, StructuralCause;
    assert forall x :: x !in Members(s, CauseTag(touched), (o, true));
  }

  /** A sorted row keeps an order's findings together. */
  lemma Together(c: seq<Insight>, m: nat, i: nat, j: nat)
    requires SortedBy(c, INSIGHT_ORDER) && i < m <= j < |c| && InsightOrder(c[i]) == InsightOrder(c[j])
    ensures InsightOrder(c[m - 1]) == InsightOrder(c[i]) == InsightOrder(c[m])
  {
    hide InsightOrder, Less;
    forall l | i <= l <= j ensures InsightOrder(c[l]) == InsightOrder(c[i]) {
      if i < l < j {
        assert LessEq(INSIGHT_ORDER(c[i]), INSIGHT_ORDER(c[l])) && LessEq(INSIGHT_ORDER(c[l]), INSIGHT_ORDER(c[j]));
        LessEqAntisymmetric(InsightOrder(c[i]), InsightOrder(c[l]));
      }
    }
  }

  lemma StraddledAgree(touched: set<string>, b: seq<Insight>, c: seq<Insight>, d: seq<Insight>, o: string, i: nat, j: nat)
    requires Redone(c, d) && SortedBy(c, INSIGHT_ORDER) && CausesSettled(touched, b, c)
    requires i < |b| <= j < |c| && InsightOrder(c[i]) == o == InsightOrder(c[j])
    ensures forall x, y :: x in c && y in d && InsightOrder(x) == o == InsightOrder(y) ==>
      (StructuralCause(x, touched) <==> StructuralCause(y, touched))
  {
    hide InsightOrder, StructuralCause, Redone, SortedBy;
    Together(c, |b|, i, j);
    RedoneMembers(c, d);
  }

  lemma CausedTail(touched: set<string>, c: seq<Insight>, d: seq<Insight>, m: nat, o: string)
    requires m <= |c| && Redone(c, d) && forall i :: 0 <= i < m ==> InsightOrder(c[i]) != o
    ensures |Members(c[m..], CauseTag(touched), (o, true))| == |Members(d[m..], CauseTag(touched), (o, true))|
  {
    hide InsightOrder, Redone, Members, CauseTag;
    RedoneAt(c, d);
    SameMembers(c, d);
    NoneOfOrder(touched, c[..m], o);
    NoneOfOrder(touched, d[..m], o);
    MembersSplit(c[..m], c[m..], CauseTag(touched), (o, true));
    MembersSplit(d[..m], d[m..], CauseTag(touched), (o, true));
    assert c == c[..m] + c[m..] && d == d[..m] + d[m..];
    MembersPermutation(c, d, CauseTag(touched), (o, true));
    SameLength(Members(c, CauseTag(touched), (o, true)), Members(d, CauseTag(touched), (o, true)));
  }

  lemma CausesKeepOrder(touched: set<string>, b: seq<Insight>, c: seq<Insight>, d: seq<Insight>, o: string)
    requires |b| < |c| && Redone(c, d) && SortedBy(c, INSIGHT_ORDER) && CausesSettled(touched, b, c)
    ensures |Members(c[|b|..], CauseTag(touched), (o, true))| == |Members(d[|b|..], CauseTag(touched), (o, true))|
  {
    hide InsightOrder, StructuralCause, Redone, SortedBy, Members, CauseTag, CausesSettled;
    var m := |b|;
    RedoneAt(c, d);
    if i :| 0 <= i < m && InsightOrder(c[i]) == o {
      forall l | 0 <= l < |c[m..]| && InsightOrder(c[m..][l]) == o
        ensures StructuralCause(c[m..][l], touched) <==> StructuralCause(d[m..][l], touched)
      {
        StraddledAgree(touched, b, c, d, o, i, m + l);
        assert c[m + l] in c && d[m + l] in d;
      }
      CausedPointwise(touched, c[m..], d[m..], o);
    } else {
      CausedTail(touched, c, d, m, o);
    }
  }

  lemma CausesKeepRow(touched: set<string>, b: seq<Insight>, c: seq<Insight>, b2: seq<Insight>, d: seq<Insight>)
    requires |b2| == |b| && Redone(c, d) && SortedBy(c, INSIGHT_ORDER) && CausesSettled(touched, b, c)
    ensures |CausedIn(touched, Surplus(b, c))| == |CausedIn(touched, Surplus(b2, d))|
  {
    RedoneAt(c, d);
    hide InsightOrder, StructuralCause, Redone, SortedBy, Members, CausedIn, Mapped, CausesSettled;
    if |b| < |c| {
      var s, t := Mapped(CausedIn(touched, c[|b|..]), INSIGHT_ORDER), Mapped(CausedIn(touched, d[|b|..]), INSIGHT_ORDER);
      forall o ensures multiset(s)[o] == multiset(t)[o] {
        CausedByOrder(touched, c[|b|..], o);
        CausedByOrder(touched, d[|b|..], o);
        CausesKeepOrder(touched, b, c, d, o);
      }
      assert multiset(s) == multiset(t);
      SameLength(s, t);
    }
  }

  lemma {:induction false} CausedFirst(touched: set<string>, s: seq<Insight>, t: seq<Insight>)
    requires 0 < |s| == |t| && s[1..] == t[1..] && StructuralCause(s[0], touched) && !StructuralCause(t[0], touched)
    ensures |CausedIn(touched, s)| == |CausedIn(touched, t)| + 1
    decreases |s|
  {
    hide StructuralCause;
    if |s| == 1 {
      assert s[..0] == [] && t[..0] == [];
    } else {
      assert s[|s| - 1] == s[1..][|s| - 2] == t[|s| - 1];
      assert s[..|s| - 1][1..] == s[1..][..|s| - 2] == t[..|s| - 1][1..];
      CausedFirst(touched, s[..|s| - 1], t[..|s| - 1]);
    }
  }

  /** Two arrangements of `c` with different findings just beyond the paired part. */
  lemma CausesUnsettled(touched: set<string>, b: seq<Insight>, c: seq<Insight>) returns (d: seq<Insight>)
    requires !CausesSettled(touched, b, c)
    ensures Redone(c, d) && |d| == |c|
    ensures |CausedIn(touched, Surplus(b, d))| != |CausedIn(touched, Surplus(b, c))|
  {
    hide InsightOrder, StructuralCause, CausedIn, Redone;
    var m, o := |b|, InsightOrder(c[|b|]);
    var f := Straddling(touched, c, m);
    RedoneAt(c, f);
    d := Swapped(f, m - 1, m);
    SwapRedoes(f, m - 1, m);
    RedoneThen(c, f, d);
    assert d[m..][1..] == f[m..][1..];
    CausedFirst(touched, d[m..], f[m..]);
    if |CausedIn(touched, Surplus(b, d))| == |CausedIn(touched, Surplus(b, c))| {
      d := f;
    }
  }

  /** An arrangement with a cause just before a position and none at it. */
  lemma Straddling(touched: set<string>, c: seq<Insight>, m: nat) returns (f: seq<Insight>)
    requires 0 < m < |c| && InsightOrder(c[m - 1]) == InsightOrder(c[m])
    requires exists x, y ::
      && x in c && y in c && InsightOrder(x) == InsightOrder(c[m]) == InsightOrder(y)
      && StructuralCause(x, touched) && !StructuralCause(y, touched)
    ensures Redone(c, f) && StructuralCause(f[m - 1], touched) && !StructuralCause(f[m], touched)
  {
    hide InsightOrder, StructuralCause, Redone;
    var x, y :| x in c && y in c && InsightOrder(x) == InsightOrder(c[m]) == InsightOrder(y)
      && StructuralCause(x, touched) && !StructuralCause(y, touched);
    var p: nat :| p < |c| && c[p] == x;
    var e := Swapped(c, m - 1, p);
    SwapRedoes(c, m - 1, p);
    RedoneMembers(c, e);
    RedoneAt(c, e);
    var q: nat :| q < |e| && e[q] == y;
    f := Swapped(e, m, q);
    SwapRedoes(e, m, q);
    RedoneThen(c, e, f);
    SameLengths(c, f);
  }

  /** The number of unpaired findings with a cause that the groups show on `gc`'s side. */
  ghost function CausesShown(touched: set<string>, gb: Groups, gc: Groups): nat {
    |Bag(gc.Keys, CausedOf(touched, gb, gc))|
  }

  ghost predicate AllCausesSettled(touched: set<string>, gb: Groups, gc: Groups) {
    forall k :: k in gc ==> CausesSettled(touched, Row(gb, k), Row(gc, k))
  }

  /** The number of unpaired findings with a cause is the same however the sorts leave ties,
      exactly when the ties at the end of every identity's paired part are settled. */
  lemma CausesExactly(rd: Reader, touched: set<string>, base: seq<Insight>, cur: seq<Insight>, gb: Groups, gc: Groups)
    requires IsFindingGrouping(rd, base, gb) && IsFindingGrouping(rd, cur, gc)
    ensures AllCausesSettled(touched, gb, gc) <==>
      forall hb: Groups, hc: Groups :: IsFindingGrouping(rd, base, hb) && IsFindingGrouping(rd, cur, hc) ==>
        CausesShown(touched, hb, hc) == CausesShown(touched, gb, gc)
  {
    hide CausesSettled, CausesShown, IsGrouping, Redone, CausedIn;
    if AllCausesSettled(touched, gb, gc) {
      forall hb: Groups, hc: Groups | IsFindingGrouping(rd, base, hb) && IsFindingGrouping(rd, cur, hc)
        ensures CausesShown(touched, hb, hc) == CausesShown(touched, gb, gc)
      {
        CausesKeepAll(rd, touched, base, cur, gb, gc, hb, hc);
      }
    } else {
      var k :| k in gc && !CausesSettled(touched, Row(gb, k), Row(gc, k));
      var d := CausesUnsettled(touched, Row(gb, k), Row(gc, k));
      RedoRow(rd, cur, gc, k, d);
      OtherCauses(touched, gb, gc, k, d);
    }
  }

  lemma CausesKeepAll(rd: Reader, touched: set<string>, base: seq<Insight>, cur: seq<Insight>,
                      gb: Groups, gc: Groups, hb: Groups, hc: Groups)
    requires IsFindingGrouping(rd, base, gb) && IsFindingGrouping(rd, cur, gc)
    requires IsFindingGrouping(rd, base, hb) && IsFindingGrouping(rd, cur, hc)
    requires AllCausesSettled(touched, gb, gc)
    ensures CausesShown(touched, hb, hc) == CausesShown(touched, gb, gc)
  {
    hide CausesSettled, IsGrouping, Redone, CausedIn, Bag, SortedBy, Surplus;
    RowsRedone(rd, cur, gc, hc, "");
    forall k | k in gc ensures |CausedOf(touched, gb, gc)(k)| == |CausedOf(touched, hb, hc)(k)| {
      RowsRedone(rd, base, gb, hb, k);
      RowsRedone(rd, cur, gc, hc, k);
      SameLengths(Row(gb, k), Row(hb, k));
      CausesKeepRow(touched, Row(gb, k), Row(gc, k), Row(hb, k), Row(hc, k));
    }
    BagSizes(gc.Keys, CausedOf(touched, gb, gc), CausedOf(touched, hb, hc));
  }

  lemma OtherCauses(touched: set<string>, gb: Groups, gc: Groups, k: string, d: seq<Insight>)
    requires k in gc && |CausedIn(touched, Surplus(Row(gb, k), d))| != |CausedIn(touched, Surplus(Row(gb, k), Row(gc, k)))|
    ensures CausesShown(touched, gb, gc[k := d]) != CausesShown(touched, gb, gc)
  {
    hide CausedIn, Bag, Surplus;
    var hc := gc[k := d];
    assert hc.Keys == gc.Keys;
    BagPick(gc.Keys, CausedOf(touched, gb, gc), k);
    BagPick(hc.Keys, CausedOf(touched, gb, hc), k);
    BagCongruent(gc.Keys - {k}, CausedOf(touched, gb, gc), CausedOf(touched, gb, hc));
  }

  // ---- The simple case ----

  /** Findings of one identity and order say the same. */
  ghost predicate TiesAgree(rd: Reader, fs: seq<Insight>) {
    forall a, b :: a in fs && b in fs && FindingKey(rd, a) == FindingKey(rd, b) && InsightOrder(a) == InsightOrder(b) ==>
      !InsightChanged(a, b)
  }

  /** Then nothing is left to the sorts. */
  lemma AgreementSettles(rd: Reader, touched: set<string>, base: seq<Insight>, cur: seq<Insight>, gb: Groups, gc: Groups)
    requires IsFindingGrouping(rd, base, gb) && IsFindingGrouping(rd, cur, gc)
    requires TiesAgree(rd, base) && TiesAgree(rd, cur)
    ensures AllChangesSettled(gb, gc) && AllCausesSettled(touched, gb, gc) && AllCausesSettled(touched, gc, gb)
  {
    hide InsightOrder, InsightChanged, FindingKey, IsGrouping, CausesSettled, TiesAgree;
    forall k ensures (forall o :: ChangesSettled(Row(gb, k), Row(gc, k), o))
      ensures CausesSettled(touched, Row(gb, k), Row(gc, k)) && CausesSettled(touched, Row(gc, k), Row(gb, k))
    {
      AgreedRow(rd, touched, base, gb, k);
      AgreedRow(rd, touched, cur, gc, k);
      AlikeCauses(touched, Row(gb, k), Row(gc, k));
      AlikeCauses(touched, Row(gc, k), Row(gb, k));
    }
  }

  lemma AgreedRow(rd: Reader, touched: set<string>, fs: seq<Insight>, g: Groups, k: string)
    requires IsFindingGrouping(rd, fs, g) && TiesAgree(rd, fs)
    ensures forall o :: Alike(Row(g, k), o)
    ensures forall x, y :: x in Row(g, k) && y in Row(g, k) && InsightOrder(x) == InsightOrder(y) ==>
      (StructuralCause(x, touched) <==> StructuralCause(y, touched))
  {
    RowMembers(fs, FindingKeyFn(rd), INSIGHT_ORDER, g, k);
    hide InsightOrder, InsightChanged, FindingKey, IsGrouping, StructuralCause, Members, SortedBy;
    forall x, y | x in Row(g, k) && y in Row(g, k) && InsightOrder(x) == InsightOrder(y)
      ensures StructuralCause(x, touched) <==> StructuralCause(y, touched)
    {
      SameSayingSameCause(rd, touched, x, y);
    }
  }

  lemma AlikeCauses(touched: set<string>, b: seq<Insight>, c: seq<Insight>)
    requires forall x, y :: x in c && y in c && InsightOrder(x) == InsightOrder(y) ==>
      (StructuralCause(x, touched) <==> StructuralCause(y, touched))
    ensures CausesSettled(touched, b, c)
  {
    hide InsightOrder, StructuralCause;
  }

  /** Findings of one identity that say the same have the same cause, even if a NUL lets their
      sources differ. */
  lemma SameSayingSameCause(rd: Reader, touched: set<string>, x: Insight, y: Insight)
    requires FindingKey(rd, x) == FindingKey(rd, y) && !InsightChanged(x, y)
    ensures StructuralCause(x, touched) <==> StructuralCause(y, touched)
  {
    var k, l := FindingKey(rd, x), FindingKey(rd, y);
    assert EvidenceEntities(x) == EvidenceEntities(y);
    hide EvidenceEntities;
    if (x.source == CYCLES) == (y.source == CYCLES) {
      assert k[..|x.source|] == x.source && l[..|y.source|] == y.source;
    } else if x.source == CYCLES {
      NotCycles(k, y.source);
    } else {
      NotCycles(k, x.source);
    }
  }

  lemma NotCycles(k: string, source: string)
    requires source + [NUL] <= k && CYCLES + [NUL] <= k
    ensures source != CONSTRAINTS && source != INTENT
  {
    assert k[0] == 'c' && k[1] == 'y';
    if |source| > 1 {
      assert k[0] == source[0] && k[1] == source[1];
    }
  }

  // ---- A list against itself ----

  /** Findings compared with themselves show no change, however the sorts leave ties, exactly when
      those of one identity and order say the same. */
  lemma SelfExactly(rd: Reader, fs: seq<Insight>)
    ensures TiesAgree(rd, fs) <==>
      forall g: Groups, h: Groups :: IsFindingGrouping(rd, fs, g) && IsFindingGrouping(rd, fs, h) ==>
        Bag(h.Keys, ChangedOf(g, h)) == multiset{}
  {
    hide IsGrouping, ChangesSettled, Bag, ChangedIn, InsightOrder, InsightChanged, FindingKey;
    var g := Grouped(rd, fs);
    ChangesExactly(rd, fs, fs, g, g);
    NoOwnChanges(g);
    forall h: Groups, i: Groups ensures ChangesShown(h, i) == 0 <==> Bag(i.Keys, ChangedOf(h, i)) == multiset{} {
    }
    forall k, o | k in g ensures ChangesSettled(Row(g, k), Row(g, k), o) <==> Alike(Row(g, k), o) {
      OwnTies(Row(g, k), o);
    }
    if TiesAgree(rd, fs) {
      AgreementSettles(rd, {}, fs, fs, g, g);
    }
    if AllChangesSettled(g, g) {
      AlikeAgree(rd, fs, g);
    }
  }

  lemma {:induction false} NoneChanged(r: seq<Insight>, n: nat)
    requires n <= |r|
    ensures ChangedIn(r, r, n) == []
  {
    if n > 0 {
      NoneChanged(r, n - 1);
    }
  }

  lemma NoOwnChanges(g: Groups)
    ensures ChangesShown(g, g) == 0
  {
    hide ChangedIn, Bag;
    forall k | k in g.Keys ensures ChangedOf(g, g)(k) == [] {
      NoneChanged(Row(g, k), |Row(g, k)|);
    }
    BagEmpty(g.Keys, ChangedOf(g, g));
  }

  /** A row is fully paired with itself. */
  lemma OwnTies(r: seq<Insight>, o: string)
    ensures ChangesSettled(r, r, o) <==> Alike(r, o)
  {
    hide InsightOrder;
    if !Alike(r, o) {
      var x, y :| x in r && y in r && InsightOrder(x) == o == InsightOrder(y) && InsightChanged(x, y);
      var i: nat :| i < |r| && r[i] == x;
      assert Meets(r, r, i, o) && !InsightChanged(x, x);
    }
  }

  lemma AlikeAgree(rd: Reader, fs: seq<Insight>, g: Groups)
    requires IsFindingGrouping(rd, fs, g) && forall k, o :: k in g ==> Alike(Row(g, k), o)
    ensures TiesAgree(rd, fs)
  {
    hide InsightOrder, InsightChanged, FindingKey, Less;
    forall a, b | a in fs && b in fs && FindingKey(rd, a) == FindingKey(rd, b) && InsightOrder(a) == InsightOrder(b)
      ensures !InsightChanged(a, b)
    {
      var k := FindingKey(rd, a);
      ListedInRow(rd, fs, g, a);
      ListedInRow(rd, fs, g, b);
      assert Alike(Row(g, k), InsightOrder(a));
    }
  }

  // ---- All three numbers ----

  ghost predicate AreGroups(rd: Reader, base: seq<Insight>, cur: seq<Insight>, gb: Groups, gc: Groups) {
    IsFindingGrouping(rd, base, gb) && IsFindingGrouping(rd, cur, gc)
  }

  /** Whatever groups the two lists are given, their ties are settled. */
  ghost predicate SortsDecideNothing(rd: Reader, touched: set<string>, base: seq<Insight>, cur: seq<Insight>) {
    forall gb: Groups, gc: Groups :: AreGroups(rd, base, cur, gb, gc) ==>
      AllChangesSettled(gb, gc) && AllCausesSettled(touched, gb, gc) && AllCausesSettled(touched, gc, gb)
  }

  ghost predicate SameNumbers(touched: set<string>, gb: Groups, gc: Groups, hb: Groups, hc: Groups) {
    && ChangesShown(hb, hc) == ChangesShown(gb, gc)
    && CausesShown(touched, hb, hc) == CausesShown(touched, gb, gc)
    && CausesShown(touched, hc, hb) == CausesShown(touched, gc, gb)
  }

  /** Two runs that group for themselves come to the same numbers of changed, appeared and cleared
      findings, exactly when all ties are settled. */
  lemma NumbersExactly(rd: Reader, touched: set<string>, base: seq<Insight>, cur: seq<Insight>)
    ensures SortsDecideNothing(rd, touched, base, cur) <==>
      forall gb: Groups, gc: Groups, hb: Groups, hc: Groups ::
        AreGroups(rd, base, cur, gb, gc) && AreGroups(rd, base, cur, hb, hc) ==> SameNumbers(touched, gb, gc, hb, hc)
  {
    hide IsGrouping, AllChangesSettled, AllCausesSettled, ChangesShown, CausesShown;
    forall gb: Groups, gc: Groups | AreGroups(rd, base, cur, gb, gc)
      ensures AllChangesSettled(gb, gc) && AllCausesSettled(touched, gb, gc) && AllCausesSettled(touched, gc, gb) <==>
        forall hb: Groups, hc: Groups :: AreGroups(rd, base, cur, hb, hc) ==> SameNumbers(touched, gb, gc, hb, hc)
    {
      ChangesExactly(rd, base, cur, gb, gc);
      CausesExactly(rd, touched, base, cur, gb, gc);
      CausesExactly(rd, touched, cur, base, gc, gb);
      if forall hb: Groups, hc: Groups :: AreGroups(rd, base, cur, hb, hc) ==> SameNumbers(touched, gb, gc, hb, hc) {
        forall hb: Groups, hc: Groups | IsFindingGrouping(rd, base, hb) && IsFindingGrouping(rd, cur, hc)
          ensures SameNumbers(touched, gb, gc, hb, hc)
        {
          assert AreGroups(rd, base, cur, hb, hc);
        }
      }
    }
  }

  lemma NumbersAgree(rd: Reader, touched: set<string>, base: seq<Insight>, cur: seq<Insight>, gb: Groups, gc: Groups, hb: Groups, hc: Groups)
    requires SortsDecideNothing(rd, touched, base, cur)
    requires IsFindingGrouping(rd, base, gb) && IsFindingGrouping(rd, cur, gc)
    requires IsFindingGrouping(rd, base, hb) && IsFindingGrouping(rd, cur, hc)
    ensures SameNumbers(touched, gb, gc, hb, hc)
  {
    hide SortsDecideNothing, IsGrouping, SameNumbers;
    NumbersExactly(rd, touched, base, cur);
    assert AreGroups(rd, base, cur, gb, gc) && AreGroups(rd, base, cur, hb, hc);
  }
}
