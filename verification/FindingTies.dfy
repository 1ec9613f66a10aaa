/** What the sorts of the finding groups may decide: findings of one identity and one order may
    end up in any order, and the numbers of a delta depend on it in exactly the cases named here. */
module FindingTies {
  import opened Text
  import opened Bags
  import opened Slices
  import opened Diff
  import opened Findings
  import opened FindingDelta

  // ---- What a finding says ----

  /** All that `InsightChanged` compares. */
  function Said(f: Insight): Insight {
    f.(source := "", actions := [], informational := false, metrics := map[])
  }

  lemma ChangedMeansSaid(a: Insight, b: Insight)
    ensures InsightChanged(a, b) <==> Said(a) != Said(b)
    ensures !InsightChanged(a, b) ==> InsightOrder(a) == InsightOrder(b)
  {
  }

  // ---- Two arrangements of one row ----

  /** The same findings with the same orders position by position. */
  ghost predicate Redone(r: seq<Insight>, s: seq<Insight>) {
    multiset(r) == multiset(s) && |r| == |s| && forall i :: 0 <= i < |r| ==> InsightOrder(r[i]) == InsightOrder(s[i])
  }

  function Swapped<T>(r: seq<T>, i: nat, j: nat): (s: seq<T>)
    requires i < |r| && j < |r|
    ensures |s| == |r| && multiset(s) == multiset(r)
    ensures s[i] == r[j] && s[j] == r[i] && forall l :: 0 <= l < |r| && l != i && l != j ==> s[l] == r[l]
  {
    r[i := r[j]][j := r[i]]
  }

  lemma SwapRedoes(r: seq<Insight>, i: nat, j: nat)
    requires i < |r| && j < |r| && InsightOrder(r[i]) == InsightOrder(r[j])
    ensures Redone(r, Swapped(r, i, j))
  {
  }

  lemma RedoneThen(r: seq<Insight>, s: seq<Insight>, t: seq<Insight>)
    requires Redone(r, s) && Redone(s, t)
    ensures Redone(r, t)
  {
    hide InsightOrder;
  }

  lemma RedoneMembers(r: seq<Insight>, s: seq<Insight>)
    requires Redone(r, s)
    ensures forall x :: x in r <==> x in s
  {
    forall x ensures x in r <==> x in s {
      assert x in multiset(r) <==> x in multiset(s);
    }
  }

  /** Two groupings of one list are arrangements of each other, row by row. */
  lemma RowsRedone(rd: Reader, fs: seq<Insight>, g: Groups, h: Groups, k: string)
    requires IsFindingGrouping(rd, fs, g) && IsFindingGrouping(rd, fs, h)
    ensures g.Keys == h.Keys && Redone(Row(g, k), Row(h, k)) && SortedBy(Row(g, k), INSIGHT_ORDER)
  {
    RowOrders(fs, fs, FindingKeyFn(rd), INSIGHT_ORDER, g, h, k);
    RowMembers(fs, FindingKeyFn(rd), INSIGHT_ORDER, g, k);
    RowMembers(fs, FindingKeyFn(rd), INSIGHT_ORDER, h, k);
    hide InsightOrder, Members;
    forall i | 0 <= i < |Row(g, k)| ensures InsightOrder(Row(g, k)[i]) == InsightOrder(Row(h, k)[i]) {
      MappedAt(Row(g, k), INSIGHT_ORDER, i);
      MappedAt(Row(h, k), INSIGHT_ORDER, i);
    }
  }

  /** Any arrangement of a row makes a grouping. */
  lemma RedoRow(rd: Reader, fs: seq<Insight>, g: Groups, k: string, r: seq<Insight>)
    requires IsFindingGrouping(rd, fs, g) && k in g && Redone(g[k], r)
    ensures IsFindingGrouping(rd, fs, g[k := r])
  {
    hide InsightOrder, FindingKey, Less;
  }

  // ---- Which pairs have changed ----

  predicate Meets(b: seq<Insight>, c: seq<Insight>, i: nat, o: string) {
    i < |b| && i < |c| && InsightOrder(b[i]) == o == InsightOrder(c[i])
  }

  /** Every member of `c` of this order is paired with one of `b` of this order. */
  predicate Faced(b: seq<Insight>, c: seq<Insight>, o: string) {
    forall i :: 0 <= i < |c| && InsightOrder(c[i]) == o ==> i < |b| && InsightOrder(b[i]) == o
  }

  /** The members of this order all say the same. */
  ghost predicate Alike(r: seq<Insight>, o: string) {
    forall x, y :: x in r && y in r && InsightOrder(x) == o == InsightOrder(y) ==> !InsightChanged(x, y)
  }

  ghost predicate Sharing(b: seq<Insight>, c: seq<Insight>, o: string) {
    exists x, y :: x in b && y in c && InsightOrder(x) == o == InsightOrder(y) && !InsightChanged(x, y)
  }

  /** The ties of one order leave the number of changed pairs alone: no two of its findings that
      say the same can be paired; or all of one side say the same, and any side that does not is
      paired with the other to the last. */
  ghost predicate ChangesSettled(b: seq<Insight>, c: seq<Insight>, o: string) {
    (exists i: nat :: Meets(b, c, i, o)) && Sharing(b, c, o) ==>
      && (Alike(b, o) || Alike(c, o))
      && (Alike(b, o) || Faced(c, b, o))
      && (Alike(c, o) || Faced(b, c, o))
  }

  lemma RedoneKeeps(b: seq<Insight>, c: seq<Insight>, b2: seq<Insight>, c2: seq<Insight>, o: string)
    requires Redone(b, b2) && Redone(c, c2)
    ensures Alike(b, o) <==> Alike(b2, o)
    ensures Alike(c, o) <==> Alike(c2, o)
    ensures Faced(b, c, o) <==> Faced(b2, c2, o)
    ensures Faced(c, b, o) <==> Faced(c2, b2, o)
    ensures Sharing(b, c, o) <==> Sharing(b2, c2, o)
    ensures forall i: nat :: Meets(b, c, i, o) <==> Meets(b2, c2, i, o)
  {
    hide *;
    RedoneAlike(b, b2, o);
    RedoneAlike(c, c2, o);
    RedoneFaced(b, c, b2, c2, o);
    RedoneFaced(c, b, c2, b2, o);
    RedoneSharing(b, c, b2, c2, o);
  }

  lemma RedoneAlike(r: seq<Insight>, s: seq<Insight>, o: string)
    requires Redone(r, s)
    ensures Alike(r, o) <==> Alike(s, o)
  {
    hide InsightOrder, InsightChanged, Redone;
    RedoneMembers(r, s);
  }

  lemma RedoneFaced(b: seq<Insight>, c: seq<Insight>, b2: seq<Insight>, c2: seq<Insight>, o: string)
    requires Redone(b, b2) && Redone(c, c2)
    ensures Faced(b, c, o) <==> Faced(b2, c2, o)
    ensures forall i: nat :: Meets(b, c, i, o) <==> Meets(b2, c2, i, o)
  {
    hide InsightOrder;
    RedoneAt(b, b2);
    RedoneAt(c, c2);
    hide Redone;
  }

  lemma RedoneAt(r: seq<Insight>, s: seq<Insight>)
    requires Redone(r, s)
    ensures |r| == |s| && forall i :: 0 <= i < |r| ==> InsightOrder(r[i]) == InsightOrder(s[i])
  {
    hide InsightOrder;
  }

  lemma RedoneSharing(b: seq<Insight>, c: seq<Insight>, b2: seq<Insight>, c2: seq<Insight>, o: string)
    requires Redone(b, b2) && Redone(c, c2)
    ensures Sharing(b, c, o) <==> Sharing(b2, c2, o)
  {
    hide InsightOrder, InsightChanged, Redone;
    RedoneMembers(b, b2);
    RedoneMembers(c, c2);
  }

  /** The orders of the unchanged pairs. */
  function Same(b: seq<Insight>, c: seq<Insight>, n: nat): seq<string>
    requires n <= |b| && n <= |c|
  {
    if n == 0 then []
    else if InsightChanged(b[n - 1], c[n - 1]) then Same(b, c, n - 1)
    else Same(b, c, n - 1) + [InsightOrder(b[n - 1])]
  }

  lemma {:induction false} SameOrChanged(b: seq<Insight>, c: seq<Insight>, n: nat)
    requires n <= |b| && n <= |c|
    ensures |ChangedIn(b, c, n)| + |Same(b, c, n)| == n
  {
    hide InsightChanged, InsightOrder;
    if n > 0 {
      SameOrChanged(b, c, n - 1);
    }
  }

  lemma SameLast(b: seq<Insight>, c: seq<Insight>, n: nat, o: string)
    requires 0 < n <= |b| && n <= |c|
    ensures multiset(Same(b, c, n))[o] == multiset(Same(b, c, n - 1))[o]
      + if !InsightChanged(b[n - 1], c[n - 1]) && InsightOrder(b[n - 1]) == o then 1 else 0
  {
    hide InsightChanged, InsightOrder;
  }

  /** When two arrangements are unchanged at the same positions of an order. */
  lemma {:induction false} SamePointwise(b: seq<Insight>, c: seq<Insight>, b2: seq<Insight>, c2: seq<Insight>, n: nat, o: string)
    requires n <= |b| == |b2| && n <= |c| == |c2|
    requires forall i: nat :: Meets(b, c, i, o) <==> Meets(b2, c2, i, o)
    requires forall i: nat :: i < n && Meets(b, c, i, o) ==> (InsightChanged(b[i], c[i]) <==> InsightChanged(b2[i], c2[i]))
    ensures multiset(Same(b, c, n))[o] == multiset(Same(b2, c2, n))[o]
  {
    hide InsightChanged, InsightOrder, Said;
    if n > 0 {
      SamePointwise(b, c, b2, c2, n - 1, o);
      ChangedMeansSaid(b[n - 1], c[n - 1]);
      ChangedMeansSaid(b2[n - 1], c2[n - 1]);
      SameLast(b, c, n, o);
      SameLast(b2, c2, n, o);
      hide Same;
      assert Meets(b, c, n - 1, o) <==> Meets(b2, c2, n - 1, o);
    }
  }

  function Tag(f: Insight): (string, Insight) {
    (InsightOrder(f), Said(f))
  }

  /** When all of one side say the same and every member of the other is paired with it, the
      unchanged pairs are the members of the other that say it too. */
  lemma {:induction false} FacedSame(b: seq<Insight>, c: seq<Insight>, n: nat, o: string, x: Insight)
    requires n <= |c| && Alike(b, o) && Faced(b, c, o) && x in b && InsightOrder(x) == o
    ensures multiset(Same(b, c, if n < |b| then n else |b|))[o] == |Members(c[..n], Tag, (o, Said(x)))|
  {
    hide Members, Tag, InsightOrder, InsightChanged, Said, Alike, Faced, Same;
    if n == 0 {
      NoneTagged(c, (o, Said(x)));
      NoneSame(b, c);
    } else {
      FacedSame(b, c, n - 1, o, x);
      TakeSnoc(c, n);
      AppendMember(c[..n - 1], c[n - 1], Tag, (o, Said(x)));
      FacedAt(b, c, n - 1, o, x);
      if n <= |b| {
        SameLast(b, c, n, o);
      }
    }
  }

  lemma NoneSame(b: seq<Insight>, c: seq<Insight>)
    ensures Same(b, c, 0) == []
  {
  }

  lemma FacedAt(b: seq<Insight>, c: seq<Insight>, i: nat, o: string, x: Insight)
    requires i < |c| && Alike(b, o) && Faced(b, c, o) && x in b && InsightOrder(x) == o
    ensures Tag(c[i]) == (o, Said(x)) <==> i < |b| && !InsightChanged(b[i], c[i]) && InsightOrder(b[i]) == o
  {
    hide InsightOrder, InsightChanged, Said;
    if i < |b| {
      ChangedMeansSaid(b[i], c[i]);
      ChangedMeansSaid(b[i], x);
      assert b[i] in b;
    }
  }

  lemma NoneTagged(c: seq<Insight>, tag: (string, Insight))
    ensures Members(c[..0], Tag, tag) == []
  {
  }

  lemma {:induction false} SameMirrored(b: seq<Insight>, c: seq<Insight>, n: nat)
    requires n <= |b| && n <= |c|
    ensures Same(b, c, n) == Same(c, b, n)
  {
    hide InsightChanged, InsightOrder, Said;
    if n > 0 {
      SameMirrored(b, c, n - 1);
      ChangedMeansSaid(b[n - 1], c[n - 1]);
      ChangedMeansSaid(c[n - 1], b[n - 1]);
    }
  }

  lemma SameWhenFaced(b: seq<Insight>, c: seq<Insight>, b2: seq<Insight>, c2: seq<Insight>, o: string, x: Insight)
    requires Redone(b, b2) && Redone(c, c2) && Alike(b, o) && Faced(b, c, o) && x in b && InsightOrder(x) == o
    ensures multiset(Same(b, c, Paired(b, c)))[o] == multiset(Same(b2, c2, Paired(b, c)))[o]
  {
    hide InsightOrder, InsightChanged, Faced, Alike, Said, Members, Same, Meets, Sharing, Redone;
    RedoneKeeps(b, c, b2, c2, o);
    RedoneMembers(b, b2);
    SameMembers(b, b2);
    SameMembers(c, c2);
    FacedSame(b, c, |c|, o, x);
    FacedSame(b2, c2, |c|, o, x);
    TakeAll(c);
    TakeAll(c2);
    MembersPermutation(c, c2, Tag, (o, Said(x)));
    SameLength(Members(c, Tag, (o, Said(x))), Members(c2, Tag, (o, Said(x))));
  }

  lemma SameMembers(r: seq<Insight>, s: seq<Insight>)
    requires Redone(r, s)
    ensures multiset(r) == multiset(s) && |r| == |s|
  {
    hide InsightOrder;
  }

  lemma SettledKeepsOrder(b: seq<Insight>, c: seq<Insight>, b2: seq<Insight>, c2: seq<Insight>, o: string)
    requires Redone(b, b2) && Redone(c, c2) && ChangesSettled(b, c, o)
    ensures multiset(Same(b, c, Paired(b, c)))[o] == multiset(Same(b2, c2, Paired(b, c)))[o]
  {
    hide InsightOrder, InsightChanged, Same, Meets, Faced, Alike, Redone, Sharing;
    var n := Paired(b, c);
    RedoneKeeps(b, c, b2, c2, o);
    SameMembers(b, b2);
    SameMembers(c, c2);
    if (exists i: nat :: Meets(b, c, i, o)) && Sharing(b, c, o) && !(Alike(b, o) && Alike(c, o)) {
      var x, y := Sharers(b, c, o);
      if Alike(b, o) {
        SameWhenFaced(b, c, b2, c2, o, x);
      } else {
        SameWhenFaced(c, b, c2, b2, o, y);
        SameMirrored(b, c, n);
        SameMirrored(b2, c2, n);
      }
    } else {
      forall i: nat | i < n && Meets(b, c, i, o) ensures InsightChanged(b[i], c[i]) <==> InsightChanged(b2[i], c2[i]) {
        AlikeOrApart(b, c, b2, c2, i, o);
      }
      SamePointwise(b, c, b2, c2, n, o);
    }
  }

  lemma Sharers(b: seq<Insight>, c: seq<Insight>, o: string) returns (x: Insight, y: Insight)
    requires Sharing(b, c, o)
    ensures x in b && y in c && InsightOrder(x) == o == InsightOrder(y) && !InsightChanged(x, y)
  {
    hide InsightOrder, InsightChanged;
    x, y :| x in b && y in c && InsightOrder(x) == o == InsightOrder(y) && !InsightChanged(x, y);
  }

  lemma AlikeOrApart(b: seq<Insight>, c: seq<Insight>, b2: seq<Insight>, c2: seq<Insight>, i: nat, o: string)
    requires Redone(b, b2) && Redone(c, c2) && Meets(b, c, i, o)
    requires !Sharing(b, c, o) || (Alike(b, o) && Alike(c, o))
    ensures InsightChanged(b[i], c[i]) <==> InsightChanged(b2[i], c2[i])
  {
    hide InsightChanged, InsightOrder, Said, Redone;
    RedoneKeeps(b, c, b2, c2, o);
    RedoneMembers(b, b2);
    RedoneMembers(c, c2);
    assert Meets(b2, c2, i, o);
    ChangedMeansSaid(b[i], c[i]);
    ChangedMeansSaid(b2[i], c2[i]);
    ChangedMeansSaid(b[i], b2[i]);
    ChangedMeansSaid(c[i], c2[i]);
    assert b[i] in b && b2[i] in b && c[i] in c && c2[i] in c && b2[i] in b2 && c2[i] in c2;
  }

  lemma SettledKeepsRow(b: seq<Insight>, c: seq<Insight>, b2: seq<Insight>, c2: seq<Insight>)
    requires Redone(b, b2) && Redone(c, c2) && forall o :: ChangesSettled(b, c, o)
    ensures |ChangedIn(b, c, Paired(b, c))| == |ChangedIn(b2, c2, Paired(b2, c2))|
  {
    hide ChangesSettled, InsightOrder, Same, ChangedIn;
    var n := Paired(b, c);
    forall o ensures multiset(Same(b, c, n))[o] == multiset(Same(b2, c2, n))[o] {
      SettledKeepsOrder(b, c, b2, c2, o);
    }
    assert multiset(Same(b, c, n)) == multiset(Same(b2, c2, n));
    SameLength(Same(b, c, n), Same(b2, c2, n));
    SameOrChanged(b, c, n);
    SameOrChanged(b2, c2, n);
  }

  // ---- When they are not settled ----

  function ChangedAt(b: seq<Insight>, c: seq<Insight>, n: nat, i: nat): nat
    requires n <= |b| && n <= |c|
  {
    if i < n && InsightChanged(b[i], c[i]) then 1 else 0
  }

  lemma {:induction false} SwapCounts(b: seq<Insight>, c: seq<Insight>, n: nat, i: nat, j: nat)
    requires n <= |b| && n <= |c| && i < |c| && j < |c| && i != j
    ensures
      var d := Swapped(c, i, j);
      |ChangedIn(b, d, n)| + ChangedAt(b, c, n, i) + ChangedAt(b, c, n, j)
      == |ChangedIn(b, c, n)| + ChangedAt(b, d, n, i) + ChangedAt(b, d, n, j)
  {
    hide InsightChanged;
    if n > 0 {
      SwapCounts(b, c, n - 1, i, j);
    }
  }

  lemma {:induction false} ChangedMirrored(b: seq<Insight>, c: seq<Insight>, n: nat)
    requires n <= |b| && n <= |c|
    ensures |ChangedIn(b, c, n)| == |ChangedIn(c, b, n)|
  {
    hide InsightChanged, InsightOrder, Said;
    if n > 0 {
      ChangedMirrored(b, c, n - 1);
      ChangedMeansSaid(b[n - 1], c[n - 1]);
      ChangedMeansSaid(c[n - 1], b[n - 1]);
    }
  }

  /** A member of this order that says something else than `x`. */
  lemma Differing(r: seq<Insight>, o: string, x: Insight) returns (i: nat)
    requires !Alike(r, o)
    ensures i < |r| && InsightOrder(r[i]) == o && InsightChanged(x, r[i])
  {
    var y, z :| y in r && z in r && InsightOrder(y) == o == InsightOrder(z) && InsightChanged(y, z);
    ChangedMeansSaid(x, y);
    ChangedMeansSaid(x, z);
    ChangedMeansSaid(y, z);
    hide InsightChanged, InsightOrder;
    if InsightChanged(x, y) {
      i :| 0 <= i < |r| && r[i] == y;
    } else {
      i :| 0 <= i < |r| && r[i] == z;
    }
  }

  /** Two arrangements of `c` that differ in their number of changes against `b`. */
  ghost predicate Unsettles(b: seq<Insight>, c: seq<Insight>, b1: seq<Insight>, c1: seq<Insight>, b2: seq<Insight>, c2: seq<Insight>) {
    && Redone(b, b1) && Redone(b, b2) && Redone(c, c1) && Redone(c, c2)
    && |ChangedIn(b1, c1, Paired(b, c))| != |ChangedIn(b2, c2, Paired(b, c))|
  }

  /** An unfaced member can take the place of a paired one that says something else. */
  lemma SwapOut(b: seq<Insight>, c: seq<Insight>, i: nat, o: string) returns (c1: seq<Insight>, c2: seq<Insight>)
    requires Meets(b, c, i, o) && !InsightChanged(b[i], c[i]) && !Alike(c, o) && !Faced(b, c, o)
    ensures Unsettles(b, c, b, c1, b, c2)
  {
    hide InsightOrder, InsightChanged, ChangedIn, Redone, Alike;
    var j: nat :| j < |c| && InsightOrder(c[j]) == o && !(j < |b| && InsightOrder(b[j]) == o);
    var r := Differing(c, o, b[i]);
    c1 := Swapped(c, j, r);
    SwapRedoes(c, j, r);
    RedoneAt(c, c1);
    c2 := Swapped(c1, i, j);
    SwapRedoes(c1, i, j);
    RedoneThen(c, c1, c2);
    RedoneAt(c, c2);
    SameRow(b);
    if j < |b| {
      OtherOrder(b[j], c1[j]);
      OtherOrder(b[j], c2[j]);
    }
    assert c1[i] == c[i] && c1[j] == c[r];
    SwappedOut(b, c1, Paired(b, c), i, j);
  }

  lemma OtherOrder(a: Insight, b: Insight)
    ensures InsightOrder(a) != InsightOrder(b) ==> InsightChanged(a, b)
  {
    ChangedMeansSaid(a, b);
  }

  lemma SwappedOut(b: seq<Insight>, c: seq<Insight>, n: nat, i: nat, j: nat)
    requires n <= |b| && n <= |c| && i < n && j < |c| && i != j
    requires !InsightChanged(b[i], c[i]) && InsightChanged(b[i], c[j])
    requires j < n ==> InsightChanged(b[j], c[j]) && InsightChanged(b[j], c[i])
    ensures |ChangedIn(b, Swapped(c, i, j), n)| != |ChangedIn(b, c, n)|
  {
    hide InsightChanged, ChangedIn;
    SwapCounts(b, c, n, i, j);
  }

  lemma SameRow(r: seq<Insight>)
    ensures Redone(r, r)
  {
  }

  /** Two pairs that can be crossed. */
  lemma Cross(b: seq<Insight>, c: seq<Insight>, i: nat, o: string)
    returns (b1: seq<Insight>, c1: seq<Insight>, c2: seq<Insight>)
    requires Meets(b, c, i, o) && !InsightChanged(b[i], c[i]) && !Alike(b, o) && !Alike(c, o) && Faced(b, c, o)
    ensures Unsettles(b, c, b1, c1, b1, c2)
  {
    hide InsightOrder, InsightChanged, Said, ChangedIn, Redone, Alike;
    var r := Differing(c, o, b[i]);
    assert r < |b| && InsightOrder(b[r]) == o;
    ChangedMeansSaid(b[i], c[i]);
    var s := Differing(b, o, b[i]);
    b1 := Swapped(b, r, s);
    SwapRedoes(b, r, s);
    c1, c2 := c, Swapped(c, i, r);
    SwapRedoes(c, i, r);
    SameRow(c);
    ChangedMeansSaid(b[i], b[s]);
    ChangedMeansSaid(b[s], c[i]);
    ChangedMeansSaid(b[i], c[r]);
    Crossing(b1, c, Paired(b, c), i, r);
  }

  lemma Crossing(b: seq<Insight>, c: seq<Insight>, n: nat, i: nat, r: nat)
    requires n <= |b| && n <= |c| && i < n && r < n && i != r
    requires !InsightChanged(b[i], c[i]) && InsightChanged(b[i], c[r]) && InsightChanged(b[r], c[i])
    ensures |ChangedIn(b, Swapped(c, i, r), n)| != |ChangedIn(b, c, n)|
  {
    hide InsightChanged, ChangedIn;
    SwapCounts(b, c, n, i, r);
  }

  /** Findings of one order that say the same can be paired. */
  lemma FaceOff(b: seq<Insight>, c: seq<Insight>, o: string, i: nat) returns (b1: seq<Insight>, c1: seq<Insight>)
    requires Meets(b, c, i, o) && Sharing(b, c, o)
    ensures Redone(b, b1) && Redone(c, c1) && Meets(b1, c1, i, o) && !InsightChanged(b1[i], c1[i])
  {
    var x, y :| x in b && y in c && InsightOrder(x) == o == InsightOrder(y) && !InsightChanged(x, y);
    var p: nat :| p < |b| && b[p] == x;
    var q: nat :| q < |c| && c[q] == y;
    b1, c1 := Swapped(b, i, p), Swapped(c, i, q);
    SwapRedoes(b, i, p);
    SwapRedoes(c, i, q);
  }

  lemma Unsettled(b: seq<Insight>, c: seq<Insight>, o: string)
    returns (b1: seq<Insight>, c1: seq<Insight>, b2: seq<Insight>, c2: seq<Insight>)
    requires !ChangesSettled(b, c, o)
    ensures Unsettles(b, c, b1, c1, b2, c2)
  {
    hide InsightOrder, InsightChanged, Meets, Sharing, Alike, Faced, Redone, ChangedIn;
    var i: nat :| Meets(b, c, i, o);
    var d, e := FaceOff(b, c, o, i);
    RedoneKeeps(b, c, d, e, o);
    SameLengths(b, d);
    SameLengths(c, e);
    if !Alike(c, o) && !Faced(b, c, o) {
      c1, c2 := SwapOut(d, e, i, o);
      b1, b2 := d, d;
    } else if !Alike(b, o) && !Faced(c, b, o) {
      SwapSides(d, e, i, o);
      b1, b2 := SwapOut(e, d, i, o);
      c1, c2 := e, e;
      SameLengths(d, b1);
      SameLengths(d, b2);
      ChangedMirrored(b1, e, Paired(b, c));
      ChangedMirrored(b2, e, Paired(b, c));
    } else {
      b1, c1, c2 := Cross(d, e, i, o);
      b2 := b1;
    }
    RedoneThen(b, d, b1);
    RedoneThen(b, d, b2);
    RedoneThen(c, e, c1);
    RedoneThen(c, e, c2);
  }

  lemma SameLengths(r: seq<Insight>, s: seq<Insight>)
    requires Redone(r, s)
    ensures |r| == |s|
  {
  }

  lemma SwapSides(b: seq<Insight>, c: seq<Insight>, i: nat, o: string)
    requires Meets(b, c, i, o) && !InsightChanged(b[i], c[i])
    ensures Meets(c, b, i, o) && !InsightChanged(c[i], b[i])
  {
  }

  // ---- Over all groups ----

  /** The number of changes the groups show. */
  ghost function ChangesShown(gb: Groups, gc: Groups): nat {
    |Bag(gc.Keys, ChangedOf(gb, gc))|
  }

  ghost predicate AllChangesSettled(gb: Groups, gc: Groups) {
    forall k, o :: k in gc ==> ChangesSettled(Row(gb, k), Row(gc, k), o)
  }

  lemma OneRow(gb: Groups, gc: Groups, hb: Groups, hc: Groups, k: string)
    requires k in gc && hc.Keys == gc.Keys
    requires forall j :: j in gc && j != k ==> Row(hb, j) == Row(gb, j) && Row(hc, j) == Row(gc, j)
    ensures ChangesShown(hb, hc) - |ChangedOf(hb, hc)(k)| == ChangesShown(gb, gc) - |ChangedOf(gb, gc)(k)|
  {
    hide ChangedIn, Bag;
    BagPick(gc.Keys, ChangedOf(gb, gc), k);
    BagPick(hc.Keys, ChangedOf(hb, hc), k);
    BagCongruent(gc.Keys - {k}, ChangedOf(gb, gc), ChangedOf(hb, hc));
  }

  /** The number of changes is the same however the sorts leave ties, exactly when the ties of
      every identity and order are settled. */
  lemma ChangesExactly(rd: Reader, base: seq<Insight>, cur: seq<Insight>, gb: Groups, gc: Groups)
    requires IsFindingGrouping(rd, base, gb) && IsFindingGrouping(rd, cur, gc)
    ensures AllChangesSettled(gb, gc) <==>
      forall hb: Groups, hc: Groups :: IsFindingGrouping(rd, base, hb) && IsFindingGrouping(rd, cur, hc) ==>
        ChangesShown(hb, hc) == ChangesShown(gb, gc)
  {
    hide ChangesSettled, ChangesShown, IsGrouping, Redone, ChangedIn;
    if AllChangesSettled(gb, gc) {
      forall hb: Groups, hc: Groups | IsFindingGrouping(rd, base, hb) && IsFindingGrouping(rd, cur, hc)
        ensures ChangesShown(hb, hc) == ChangesShown(gb, gc)
      {
        SettledKeepsAll(rd, base, cur, gb, gc, hb, hc);
      }
    } else {
      var k, o :| k in gc && !ChangesSettled(Row(gb, k), Row(gc, k), o);
      var hb, hc := UnsettledGroups(rd, base, cur, gb, gc, k, o);
    }
  }

  lemma SettledKeepsAll(rd: Reader, base: seq<Insight>, cur: seq<Insight>, gb: Groups, gc: Groups, hb: Groups, hc: Groups)
    requires IsFindingGrouping(rd, base, gb) && IsFindingGrouping(rd, cur, gc)
    requires IsFindingGrouping(rd, base, hb) && IsFindingGrouping(rd, cur, hc)
    requires AllChangesSettled(gb, gc)
    ensures ChangesShown(hb, hc) == ChangesShown(gb, gc)
  {
    hide ChangesSettled, IsGrouping, Redone, ChangedIn, Bag;
    RowsRedone(rd, cur, gc, hc, "");
    forall k | k in gc ensures |ChangedOf(gb, gc)(k)| == |ChangedOf(hb, hc)(k)| {
      RowsRedone(rd, base, gb, hb, k);
      RowsRedone(rd, cur, gc, hc, k);
      SettledKeepsRow(Row(gb, k), Row(gc, k), Row(hb, k), Row(hc, k));
    }
    BagSizes(gc.Keys, ChangedOf(gb, gc), ChangedOf(hb, hc));
  }

  /** An identity only one side has settles. */
  lemma NoRowSettled(gb: Groups, gc: Groups, k: string, o: string)
    requires !ChangesSettled(Row(gb, k), Row(gc, k), o)
    ensures k in gb
  {
    hide InsightOrder, Sharing, Alike, Faced;
  }

  lemma OneOf(b: seq<Insight>, c: seq<Insight>, b1: seq<Insight>, c1: seq<Insight>, b2: seq<Insight>, c2: seq<Insight>)
    returns (b3: seq<Insight>, c3: seq<Insight>)
    requires Unsettles(b, c, b1, c1, b2, c2)
    ensures Redone(b, b3) && Redone(c, c3) && |b3| == |b| && |c3| == |c|
    ensures |ChangedIn(b3, c3, Paired(b, c))| != |ChangedIn(b, c, Paired(b, c))|
  {
    hide ChangedIn, InsightOrder;
    if |ChangedIn(b1, c1, Paired(b, c))| == |ChangedIn(b, c, Paired(b, c))| {
      b3, c3 := b2, c2;
    } else {
      b3, c3 := b1, c1;
    }
  }

  lemma UnsettledGroups(rd: Reader, base: seq<Insight>, cur: seq<Insight>, gb: Groups, gc: Groups, k: string, o: string)
    returns (hb: Groups, hc: Groups)
    requires IsFindingGrouping(rd, base, gb) && IsFindingGrouping(rd, cur, gc)
    requires k in gc && !ChangesSettled(Row(gb, k), Row(gc, k), o)
    ensures IsFindingGrouping(rd, base, hb) && IsFindingGrouping(rd, cur, hc)
    ensures ChangesShown(hb, hc) != ChangesShown(gb, gc)
  {
    var b, c := Row(gb, k), Row(gc, k);
    hide ChangesSettled, IsGrouping, Redone, ChangedIn, ChangesShown, Unsettles;
    NoRowSettled(gb, gc, k, o);
    var b1, c1, b2, c2 := Unsettled(b, c, o);
    b1, c1 := OneOf(b, c, b1, c1, b2, c2);
    RedoRow(rd, base, gb, k, b1);
    RedoRow(rd, cur, gc, k, c1);
    hb, hc := gb[k := b1], gc[k := c1];
    OneRow(gb, gc, hb, hc, k);
  }

  // ---- The groups themselves ----

  lemma Grouped(rd: Reader, fs: seq<Insight>) returns (g: Groups)
    ensures IsFindingGrouping(rd, fs, g)
  {
    hide FindingKey, InsightOrder;
    g := map k | k in KeysOf(fs, FindingKeyFn(rd)) :: Arranged(Members(fs, FindingKeyFn(rd), k), INSIGHT_ORDER);
    forall k | k in g ensures multiset(g[k]) == multiset(Members(fs, FindingKeyFn(rd), k)) && SortedBy(g[k], INSIGHT_ORDER) {
      ArrangedSorted(Members(fs, FindingKeyFn(rd), k), INSIGHT_ORDER);
    }
  }

  /** No two findings of one identity and order differ. */
  ghost predicate OrderFixesContent(rd: Reader, fs: seq<Insight>) {
    forall a, b :: a in fs && b in fs && FindingKey(rd, a) == FindingKey(rd, b) && InsightOrder(a) == InsightOrder(b) ==> a == b
  }

  /** Exactly then the groups themselves do not depend on the sorts or on the order of the list. */
  lemma GroupingUnique(rd: Reader, fs: seq<Insight>)
    ensures OrderFixesContent(rd, fs) <==>
      forall gs: seq<Insight>, g: Groups, h: Groups ::
        multiset(fs) == multiset(gs) && IsFindingGrouping(rd, fs, g) && IsFindingGrouping(rd, gs, h) ==> g == h
  {
    hide OrderFixesContent, IsGrouping;
    if OrderFixesContent(rd, fs) {
      forall gs: seq<Insight>, g: Groups, h: Groups |
        multiset(fs) == multiset(gs) && IsFindingGrouping(rd, fs, g) && IsFindingGrouping(rd, gs, h) ensures g == h
      {
        SameGroups(rd, fs, gs, g, h);
      }
    } else {
      var g := Grouped(rd, fs);
      var h := OtherGroups(rd, fs, g);
    }
  }

  lemma SameGroups(rd: Reader, fs: seq<Insight>, gs: seq<Insight>, g: Groups, h: Groups)
    requires OrderFixesContent(rd, fs) && multiset(fs) == multiset(gs)
    requires IsFindingGrouping(rd, fs, g) && IsFindingGrouping(rd, gs, h)
    ensures g == h
  {
    hide IsGrouping, FindingKey, InsightOrder;
    KeysPermutation(fs, gs, FindingKeyFn(rd));
    GroupingKeys(rd, fs, g);
    GroupingKeys(rd, gs, h);
    forall k | k in g ensures g[k] == h[k] {
      RowOrders(fs, gs, FindingKeyFn(rd), INSIGHT_ORDER, g, h, k);
      RowMembers(fs, FindingKeyFn(rd), INSIGHT_ORDER, g, k);
      RowMembers(gs, FindingKeyFn(rd), INSIGHT_ORDER, h, k);
      forall i | 0 <= i < |g[k]| ensures g[k][i] == h[k][i] {
        MappedAt(g[k], INSIGHT_ORDER, i);
        MappedAt(h[k], INSIGHT_ORDER, i);
        assert g[k][i] in Row(g, k) && h[k][i] in Row(h, k);
        assert h[k][i] in multiset(gs);
      }
    }
  }

  lemma GroupingKeys(rd: Reader, fs: seq<Insight>, g: Groups)
    requires IsFindingGrouping(rd, fs, g)
    ensures g.Keys == KeysOf(fs, FindingKeyFn(rd))
  {
  }

  lemma OtherGroups(rd: Reader, fs: seq<Insight>, g: Groups) returns (h: Groups)
    requires IsFindingGrouping(rd, fs, g) && !OrderFixesContent(rd, fs)
    ensures IsFindingGrouping(rd, fs, h) && h != g
  {
    hide IsGrouping, FindingKey, InsightOrder, Redone;
    var a, b :| a in fs && b in fs && FindingKey(rd, a) == FindingKey(rd, b) && InsightOrder(a) == InsightOrder(b) && a != b;
    var k := FindingKey(rd, a);
    ListedInRow(rd, fs, g, a);
    ListedInRow(rd, fs, g, b);
    var i: nat :| i < |g[k]| && g[k][i] == a;
    var j: nat :| j < |g[k]| && g[k][j] == b;
    SwapRedoes(g[k], i, j);
    RedoRow(rd, fs, g, k, Swapped(g[k], i, j));
    h := g[k := Swapped(g[k], i, j)];
    assert h[k][i] != g[k][i];
  }

  lemma ListedInRow(rd: Reader, fs: seq<Insight>, g: Groups, a: Insight)
    requires IsFindingGrouping(rd, fs, g) && a in fs
    ensures FindingKey(rd, a) in g && a in g[FindingKey(rd, a)]
  {
    hide InsightOrder, FindingKey, Less;
    var k := FindingKey(rd, a);
    assert FindingKeyFn(rd)(a) == k;
    var i: nat :| i < |fs| && fs[i] == a;
    assert k in KeysOf(fs, FindingKeyFn(rd));
    assert a in Members(fs, FindingKeyFn(rd), k);
    assert a in multiset(g[k]);
  }
}
