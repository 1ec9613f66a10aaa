/** Sorting and grouping, as `sort.Slice` and the two group-by-key functions do them. */
module Slices {
  import opened Text
  import opened Bags

  ghost predicate SortedBy<T(!new)>(s: seq<T>, ord: T -> string) {
    forall i, j :: 0 <= i < j < |s| ==> LessEq(ord(s[i]), ord(s[j]))
  }

  function Insert<T(!new)>(s: seq<T>, x: T, ord: T -> string): (r: seq<T>)
    ensures multiset(r) == multiset(s) + multiset{x}
  {
    if s == [] then [x]
    else if Less(ord(x), ord(s[0])) then [x] + s
    else
      assert s == [s[0]] + s[1..];
      [s[0]] + Insert(s[1..], x, ord)
  }

  lemma {:induction false} InsertSorted<T(!new)>(s: seq<T>, x: T, ord: T -> string)
    requires SortedBy(s, ord)
    ensures SortedBy(Insert(s, x, ord), ord)
  {
    if s != [] {
      if Less(ord(x), ord(s[0])) {
        forall j | 0 <= j < |s| ensures LessEq(ord(x), ord(s[j])) {
          LessAsymmetric(ord(x), ord(s[0]));
          LessAsymmetric(ord(s[j]), ord(s[j]));
          LessEqTransitive(ord(x), ord(s[0]), ord(s[j]));
        }
      } else {
        var t := Insert(s[1..], x, ord);
        InsertSorted(s[1..], x, ord);
        forall y | y in t ensures LessEq(ord(s[0]), ord(y)) {
          assert y in multiset(t);
          assert y in s[1..] || y == x;
        }
      }
    }
  }

  /** `sort.Slice`: callers learn that the result is a sorted permutation and nothing about
      the order of ties. */
  method SortSlice<T(!new)>(s: seq<T>, ord: T -> string) returns (r: seq<T>)
    ensures multiset(r) == multiset(s)
    ensures SortedBy(r, ord)
  {
    r := [];
    for i := 0 to |s|
      invariant multiset(r) == multiset(s[..i])
      invariant SortedBy(r, ord)
    {
      InsertSorted(r, s[i], ord);
      r := Insert(r, s[i], ord);
      TakeSnoc(s, i + 1);
    }
    TakeAll(s);
  }

  /** One outcome of such a sort. */
  function Arranged<T(!new)>(s: seq<T>, ord: T -> string): seq<T> {
    if s == [] then [] else Insert(Arranged(s[..|s| - 1], ord), s[|s| - 1], ord)
  }

  lemma {:induction false} ArrangedSorted<T(!new)>(s: seq<T>, ord: T -> string)
    ensures SortedBy(Arranged(s, ord), ord)
    ensures multiset(Arranged(s, ord)) == multiset(s)
    decreases |s|
  {
    if s != [] {
      var init, last := s[..|s| - 1], s[|s| - 1];
      ArrangedSorted(init, ord);
      InsertSorted(Arranged(init, ord), last, ord);
      assert s == init + [last];
    }
  }

  predicate SortedStrings(s: seq<string>) {
    forall i, j :: 0 <= i < j < |s| ==> LessEq(s[i], s[j])
  }

  /** The sorted copy of a list of strings. */
  function Sorted(files: seq<string>): seq<string> {
    Arranged(files, (x: string) => x)
  }

  lemma SortedIsSorted(files: seq<string>)
    ensures SortedBy(Sorted(files), (x: string) => x)
    ensures multiset(Sorted(files)) == multiset(files)
  {
    ArrangedSorted(files, (x: string) => x);
  }

  lemma SameHead(a: seq<string>, b: seq<string>)
    requires a != [] && b != [] && multiset(a) == multiset(b)
    requires SortedStrings(a) && SortedStrings(b)
    ensures a[0] == b[0]
  {
    var i := Occurrence(a[0], a, b);
    var j := Occurrence(b[0], b, a);
    LessAsymmetric(a[0], a[0]);
    LessAsymmetric(b[0], b[0]);
    LessEqAntisymmetric(a[0], b[0]);
  }

  lemma {:induction false} SortedUnique(a: seq<string>, b: seq<string>)
    requires multiset(a) == multiset(b)
    requires SortedStrings(a) && SortedStrings(b)
    ensures a == b
    decreases |a|
  {
    SameLength(a, b);
    if a != [] {
      SameHead(a, b);
      DropHead(a, b);
      SortedUnique(a[1..], b[1..]);
      assert a == [a[0]] + a[1..] && b == [b[0]] + b[1..];
    }
  }

  /** Two sorted permutations of one list agree on the sort key at every position. */
  lemma SortedKeysUnique<T(!new)>(s: seq<T>, t: seq<T>, ord: T -> string)
    requires multiset(s) == multiset(t)
    requires SortedBy(s, ord) && SortedBy(t, ord)
    ensures Mapped(s, ord) == Mapped(t, ord)
  {
    MappedPermutation(s, t, ord);
    SortedUnique(Mapped(s, ord), Mapped(t, ord));
  }

  /** The members of a list under one key, in list order. */
  function Members<T(!new), K(==)>(xs: seq<T>, key: T -> K, k: K): (r: seq<T>)
    ensures forall x :: x in r <==> x in xs && key(x) == k
  {
    if xs == [] then []
    else
      assert xs == xs[..|xs| - 1] + [xs[|xs| - 1]];
      var init := Members(xs[..|xs| - 1], key, k);
      if key(xs[|xs| - 1]) == k then init + [xs[|xs| - 1]] else init
  }

  function KeysOf<T(!new), K(==)>(xs: seq<T>, key: T -> K): set<K> {
    set i | 0 <= i < |xs| :: key(xs[i])
  }

  function Row<K(==), T(!new)>(g: map<K, seq<T>>, k: K): seq<T> {
    if k in g then g[k] else []
  }

  function Rows<K(==), T(!new)>(g: map<K, seq<T>>): K -> seq<T> {
    k => Row(g, k)
  }

  /** Every member of `xs` is in the bucket of its key, and every bucket is ordered. */
  ghost predicate IsGrouping<T(!new)>(xs: seq<T>, key: T -> string, ord: T -> string, g: map<string, seq<T>>) {
    && g.Keys == KeysOf(xs, key)
    && forall k :: k in g ==> multiset(g[k]) == multiset(Members(xs, key, k)) && SortedBy(g[k], ord)
  }

  ghost predicate Collected<T(!new), K>(xs: seq<T>, key: T -> K, g: map<K, seq<T>>) {
    && g.Keys == KeysOf(xs, key)
    && forall k :: k in g ==> g[k] == Members(xs, key, k)
  }

  method GroupBy<T(!new)>(xs: seq<T>, key: T -> string, ord: T -> string) returns (g: map<string, seq<T>>)
    ensures IsGrouping(xs, key, ord, g)
  {
    g := map[];
    for i := 0 to |xs|
      invariant Collected(xs[..i], key, g)
    {
      CollectStep(xs[..i], xs[i], key, g);
      TakeSnoc(xs, i + 1);
      g := g[key(xs[i]) := Row(g, key(xs[i])) + [xs[i]]];
    }
    TakeAll(xs);
    g := SortGroups(g, ord);
  }

  method SortGroups<T(!new), K>(groups: map<K, seq<T>>, ord: T -> string) returns (g: map<K, seq<T>>)
    ensures g.Keys == groups.Keys
    ensures forall k :: k in g ==> multiset(g[k]) == multiset(groups[k]) && SortedBy(g[k], ord)
  {
    g := groups;
    var todo := g.Keys;
    while todo != {}
      invariant todo <= g.Keys == groups.Keys
      invariant forall k :: k in g ==> multiset(g[k]) == multiset(groups[k])
      invariant forall k :: k in g && k !in todo ==> SortedBy(g[k], ord)
      decreases todo
    {
      var k :| k in todo;
      todo := todo - {k};
      if |g[k]| > 1 {
        var sorted := SortSlice(g[k], ord);
        g := g[k := sorted];
      }
    }
  }

  lemma CollectStep<T(!new), K>(xs: seq<T>, x: T, key: T -> K, g: map<K, seq<T>>)
    requires Collected(xs, key, g)
    ensures Collected(xs + [x], key, g[key(x) := Row(g, key(x)) + [x]])
  {
    var grown, g' := xs + [x], g[key(x) := Row(g, key(x)) + [x]];
    AppendKey(xs, x, key);
    forall k | k in g' ensures g'[k] == Members(grown, key, k) {
      AppendMember(xs, x, key, k);
    }
  }

  lemma AppendMember<T(!new), K>(xs: seq<T>, x: T, key: T -> K, k: K)
    ensures Members(xs + [x], key, k) == if key(x) == k then Members(xs, key, k) + [x] else Members(xs, key, k)
    ensures k !in KeysOf(xs, key) ==> Members(xs, key, k) == []
  {
    var grown := xs + [x];
    assert grown[..|xs|] == xs && grown[|xs|] == x;
    if k !in KeysOf(xs, key) {
      NoMembers(xs, key, k);
    }
  }

  lemma AppendKey<T(!new), K>(xs: seq<T>, x: T, key: T -> K)
    ensures KeysOf(xs + [x], key) == KeysOf(xs, key) + {key(x)}
  {
    var grown := xs + [x];
    assert grown[|xs|] == x;
    forall k | k in KeysOf(xs, key) ensures k in KeysOf(grown, key) {
      var n :| 0 <= n < |xs| && key(xs[n]) == k;
      assert grown[n] == xs[n];
    }
  }

  lemma NoMembers<T(!new), K>(xs: seq<T>, key: T -> K, k: K)
    requires k !in KeysOf(xs, key)
    ensures Members(xs, key, k) == []
  {
    assert forall x :: x in xs ==> key(x) in KeysOf(xs, key);
    assert forall x :: x !in Members(xs, key, k);
  }

  lemma RowMembers<T(!new)>(xs: seq<T>, key: T -> string, ord: T -> string, g: map<string, seq<T>>, k: string)
    requires IsGrouping(xs, key, ord, g)
    ensures multiset(Row(g, k)) == multiset(Members(xs, key, k))
    ensures SortedBy(Row(g, k), ord)
    ensures forall x :: x in Row(g, k) ==> x in xs && key(x) == k
  {
    if k !in g {
      NoMembers(xs, key, k);
    }
    forall x | x in Row(g, k) ensures x in Members(xs, key, k) {
      assert x in multiset(Row(g, k));
    }
  }

  lemma {:induction false} MembersPermutation<T(!new), K>(xs: seq<T>, ys: seq<T>, key: T -> K, k: K)
    requires multiset(xs) == multiset(ys)
    ensures multiset(Members(xs, key, k)) == multiset(Members(ys, key, k))
    decreases |xs|
  {
    SameLength(xs, ys);
    if xs != [] {
      var last := |xs| - 1;
      var i := Occurrence(xs[last], xs, ys);
      DropAt(xs, last, ys, i);
      assert xs[..last] + xs[last + 1..] == xs[..last];
      MembersWithout(xs, last, key, k);
      MembersWithout(ys, i, key, k);
      MembersPermutation(xs[..last], ys[..i] + ys[i + 1..], key, k);
    }
  }

  lemma MembersWithout<T(!new), K>(ys: seq<T>, i: nat, key: T -> K, k: K)
    requires i < |ys|
    ensures multiset(Members(ys, key, k)) ==
            multiset(Members(ys[..i] + ys[i + 1..], key, k)) + if key(ys[i]) == k then multiset{ys[i]} else multiset{}
  {
    hide Members;
    var a, b := ys[..i], ys[i + 1..];
    assert ys == a + ([ys[i]] + b);
    MembersSplit(a, b, key, k);
    MembersSplit(a, [ys[i]] + b, key, k);
    MembersSplit([ys[i]], b, key, k);
    MembersOne(ys[i], key, k);
  }

  lemma MembersOne<T(!new), K>(x: T, key: T -> K, k: K)
    ensures Members([x], key, k) == if key(x) == k then [x] else []
  {
    assert [x][..0] == [];
  }

  lemma {:induction false} MembersSplit<T(!new), K>(a: seq<T>, b: seq<T>, key: T -> K, k: K)
    ensures Members(a + b, key, k) == Members(a, key, k) + Members(b, key, k)
    decreases |b|
  {
    if b == [] {
      assert a + b == a;
    } else {
      var last := |b| - 1;
      MembersLast(a + b, key, k);
      MembersLast(b, key, k);
      assert (a + b)[..|a| + last] == a + b[..last];
      hide Members;
      MembersSplit(a, b[..last], key, k);
    }
  }

  lemma MembersLast<T(!new), K>(xs: seq<T>, key: T -> K, k: K)
    requires xs != []
    ensures var last := |xs| - 1;
      var init := Members(xs[..last], key, k);
      Members(xs, key, k) == if key(xs[last]) == k then init + [xs[last]] else init
  {
  }

  /** Selecting by key and then mapping is mapping and then selecting by the mapped key. */
  lemma {:induction false} MembersMapped<T(!new), U(!new), K>(xs: seq<T>, key: T -> K, p: T -> U, key': U -> K, k: K)
    requires forall x :: x in xs ==> key'(p(x)) == key(x)
    ensures Mapped(Members(xs, key, k), p) == Members(Mapped(xs, p), key', k)
    decreases |xs|
  {
    if xs != [] {
      var last := |xs| - 1;
      var init := Members(xs[..last], key, k);
      MembersMapped(xs[..last], key, p, key', k);
      assert Mapped(xs, p)[..last] == Mapped(xs[..last], p);
      MappedSnoc(init, xs[last], p);
    }
  }

  /** Two keys that tell the listed elements apart alike select the same members. */
  lemma {:induction false} MembersSameKey<T(!new), K, L>(xs: seq<T>, key: T -> K, k: K, key': T -> L, l: L)
    requires forall x :: x in xs ==> (key(x) == k <==> key'(x) == l)
    ensures Members(xs, key, k) == Members(xs, key', l)
    decreases |xs|
  {
    if xs != [] {
      MembersSameKey(xs[..|xs| - 1], key, k, key', l);
    }
  }

  /** The members under keys outside a set survive dropping the keys of that set. */
  function Dropped<T(!new), K(==)>(xs: seq<T>, key: T -> K, keys: set<K>): (r: seq<T>)
    ensures forall x :: x in r <==> x in xs && key(x) !in keys
  {
    if xs == [] then []
    else
      assert xs == xs[..|xs| - 1] + [xs[|xs| - 1]];
      var init := Dropped(xs[..|xs| - 1], key, keys);
      if key(xs[|xs| - 1]) in keys then init else init + [xs[|xs| - 1]]
  }

  lemma {:induction false} MembersDropped<T(!new), K>(xs: seq<T>, key: T -> K, keys: set<K>, k: K)
    requires k !in keys
    ensures Members(Dropped(xs, key, keys), key, k) == Members(xs, key, k)
    decreases |xs|
  {
    if xs != [] {
      var last := |xs| - 1;
      var init := Dropped(xs[..last], key, keys);
      MembersDropped(xs[..last], key, keys, k);
      if key(xs[last]) !in keys {
        AppendMember(init, xs[last], key, k);
      }
    }
  }

  /** Whatever the sorts did with ties, two groupings of permutations of one list have the
      same order strings at the same positions. */
  lemma RowOrders<T(!new)>(xs: seq<T>, ys: seq<T>, key: T -> string, ord: T -> string,
                     g: map<string, seq<T>>, h: map<string, seq<T>>, k: string)
    requires multiset(xs) == multiset(ys)
    requires IsGrouping(xs, key, ord, g) && IsGrouping(ys, key, ord, h)
    ensures Mapped(Row(g, k), ord) == Mapped(Row(h, k), ord)
    ensures |Row(g, k)| == |Row(h, k)|
  {
    RowMembers(xs, key, ord, g, k);
    RowMembers(ys, key, ord, h, k);
    MembersPermutation(xs, ys, key, k);
    SortedKeysUnique(Row(g, k), Row(h, k), ord);
    SameLength(Row(g, k), Row(h, k));
  }

  lemma KeysPermutation<T(!new)>(xs: seq<T>, ys: seq<T>, key: T -> string)
    requires multiset(xs) == multiset(ys)
    ensures KeysOf(xs, key) == KeysOf(ys, key)
  {
    forall k ensures k in KeysOf(xs, key) <==> k in KeysOf(ys, key) {
      KeyIsMember(xs, key, k);
      KeyIsMember(ys, key, k);
      MembersPermutation(xs, ys, key, k);
      SameLength(Members(xs, key, k), Members(ys, key, k));
    }
  }

  lemma KeyIsMember<T(!new), K>(xs: seq<T>, key: T -> K, k: K)
    ensures k in KeysOf(xs, key) <==> Members(xs, key, k) != []
  {
    if k in KeysOf(xs, key) {
      var i :| 0 <= i < |xs| && key(xs[i]) == k;
      assert xs[i] in Members(xs, key, k);
    } else {
      NoMembers(xs, key, k);
    }
  }

  /** A list is the bag of its buckets: grouping drops nothing and doubles nothing. */
  lemma {:induction false} GroupingConserves<T(!new)>(xs: seq<T>, key: T -> string, ord: T -> string, g: map<string, seq<T>>)
    requires IsGrouping(xs, key, ord, g)
    ensures multiset(xs) == Bag(g.Keys, Rows(g))
  {
    forall k | k in g.Keys ensures multiset(Rows(g)(k)) == multiset(MembersFn(xs, key)(k)) {
    }
    BagCongruent(g.Keys, Rows(g), MembersFn(xs, key));
    MembersConserve(xs, key, g.Keys);
  }

  ghost function MembersFn<T(!new)>(xs: seq<T>, key: T -> string): string -> seq<T> {
    k => Members(xs, key, k)
  }

  lemma {:induction false} MembersConserve<T(!new)>(xs: seq<T>, key: T -> string, s: set<string>)
    requires KeysOf(xs, key) <= s
    ensures multiset(xs) == Bag(s, MembersFn(xs, key))
    decreases |xs|
  {
    if xs == [] {
      BagEmpty(s, MembersFn(xs, key));
    } else {
      var init, last := xs[..|xs| - 1], xs[|xs| - 1];
      var k := key(last);
      assert xs == init + [last];
      assert k in KeysOf(xs, key);
      forall j | j in KeysOf(init, key) ensures j in s {
        var i :| 0 <= i < |init| && key(init[i]) == j;
        assert key(xs[i]) in KeysOf(xs, key);
      }
      MembersConserve(init, key, s);
      BagPick(s, MembersFn(xs, key), k);
      BagPick(s, MembersFn(init, key), k);
      BagCongruent(s - {k}, MembersFn(xs, key), MembersFn(init, key));
    }
  }

  ghost predicate NumbersSorted<T>(s: seq<T>, n: T -> int) {
    forall i, j :: 0 <= i < j < |s| ==> n(s[i]) <= n(s[j])
  }

  function InsertNumber<T>(s: seq<T>, x: T, n: T -> int): (r: seq<T>)
    ensures multiset(r) == multiset(s) + multiset{x}
  {
    if s == [] then [x]
    else if n(x) < n(s[0]) then [x] + s
    else
      assert s == [s[0]] + s[1..];
      [s[0]] + InsertNumber(s[1..], x, n)
  }

  lemma {:induction false} InsertNumberSorted<T>(s: seq<T>, x: T, n: T -> int)
    requires NumbersSorted(s, n)
    ensures NumbersSorted(InsertNumber(s, x, n), n)
  {
    if s != [] && n(x) >= n(s[0]) {
      var t := InsertNumber(s[1..], x, n);
      InsertNumberSorted(s[1..], x, n);
      forall y | y in t ensures n(s[0]) <= n(y) {
        assert y in multiset(t);
        assert y in s[1..] || y == x;
      }
    }
  }

  /** `sort.Slice` by an integer: again any sorted permutation. */
  method SortByNumber<T>(s: seq<T>, n: T -> int) returns (r: seq<T>)
    ensures multiset(r) == multiset(s)
    ensures NumbersSorted(r, n)
  {
    r := [];
    for i := 0 to |s|
      invariant multiset(r) == multiset(s[..i])
      invariant NumbersSorted(r, n)
    {
      InsertNumberSorted(r, s[i], n);
      r := InsertNumber(r, s[i], n);
      TakeSnoc(s, i + 1);
    }
    TakeAll(s);
  }
}
