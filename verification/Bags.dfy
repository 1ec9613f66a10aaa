/** Order-free accumulation: what a loop over the keys of a map appends, whatever order the
    keys come in. `|Bag(s, f)|` is the sum of the lengths of `f(k)` over `k in s`. */
module Bags {

  ghost function Bag<K, T>(s: set<K>, f: K -> seq<T>): multiset<T> {
    if s == {} then multiset{} else var k :| k in s; multiset(f(k)) + Bag(s - {k}, f)
  }

  lemma {:induction false} BagPick<K, T>(s: set<K>, f: K -> seq<T>, k: K)
    requires k in s
    ensures Bag(s, f) == multiset(f(k)) + Bag(s - {k}, f)
    decreases |s|
  {
    var j :| j in s && Bag(s, f) == multiset(f(j)) + Bag(s - {j}, f);
    if j != k {
      BagPick(s - {j}, f, k);
      BagPick(s - {k}, f, j);
      assert s - {j} - {k} == s - {k} - {j};
    }
  }

  lemma BagAdd<K, T>(s: set<K>, f: K -> seq<T>, k: K)
    requires k !in s
    ensures Bag(s + {k}, f) == Bag(s, f) + multiset(f(k))
    ensures |Bag(s + {k}, f)| == |Bag(s, f)| + |f(k)|
  {
    BagPick(s + {k}, f, k);
    assert s + {k} - {k} == s;
  }

  /** One iteration of a loop that has yet to visit the keys `todo`. */
  lemma BagStep<K, T>(all: set<K>, todo: set<K>, k: K, f: K -> seq<T>, xs: seq<T>)
    requires k in todo && todo <= all
    requires multiset(xs) == Bag(all - todo, f)
    ensures multiset(xs + f(k)) == Bag(all - (todo - {k}), f)
  {
    BagAdd(all - todo, f, k);
    assert all - (todo - {k}) == all - todo + {k};
  }

  lemma BagDone<K, T>(all: set<K>, todo: set<K>, f: K -> seq<T>)
    requires todo == {}
    ensures Bag(all - todo, f) == Bag(all, f)
  {
    assert all - todo == all;
  }

  lemma {:induction false} BagCongruent<K, T>(s: set<K>, f: K -> seq<T>, g: K -> seq<T>)
    requires forall k :: k in s ==> multiset(f(k)) == multiset(g(k))
    ensures Bag(s, f) == Bag(s, g)
    decreases |s|
  {
    if s != {} {
      var k :| k in s;
      BagPick(s, f, k);
      BagPick(s, g, k);
      BagCongruent(s - {k}, f, g);
    }
  }

  /** Keys that contribute nothing do not matter. */
  lemma {:induction false} BagWiden<K, T>(s: set<K>, t: set<K>, f: K -> seq<T>)
    requires s <= t
    requires forall k :: k in t && k !in s ==> f(k) == []
    ensures Bag(s, f) == Bag(t, f)
    decreases |t|
  {
    if s != t {
      var k :| k in t && k !in s;
      BagPick(t, f, k);
      BagWiden(s, t - {k}, f);
    }
  }

  lemma {:induction false} BagMember<K, T>(s: set<K>, f: K -> seq<T>, x: T)
    ensures x in Bag(s, f) <==> exists k :: k in s && x in f(k)
    decreases |s|
  {
    if s != {} {
      var k :| k in s;
      BagPick(s, f, k);
      BagMember(s - {k}, f, x);
      assert x in multiset(f(k)) <==> x in f(k);
    }
  }

  /** Re-indexing along a map that is injective on the keys. */
  lemma {:induction false} BagImage<K, J, T>(s: set<K>, image: set<J>, h: K -> J, f: J -> seq<T>, g: K -> seq<T>)
    requires forall a, b :: a in s && b in s && h(a) == h(b) ==> a == b
    requires forall k :: k in s ==> h(k) in image
    requires forall j :: j in image ==> exists k :: k in s && h(k) == j
    requires forall k :: k in s ==> f(h(k)) == g(k)
    ensures Bag(image, f) == Bag(s, g)
    decreases |s|
  {
    if s == {} {
      assert image == {};
    } else {
      var k :| k in s;
      hide Bag;
      BagPick(s, g, k);
      BagPick(image, f, h(k));
      BagImage(s - {k}, image - {h(k)}, h, f, g);
    }
  }

  /** What every key contributes nothing to is empty, and conversely. */
  lemma BagEmpty<K, T>(s: set<K>, f: K -> seq<T>)
    ensures Bag(s, f) == multiset{} <==> forall k :: k in s ==> f(k) == []
  {
    if k :| k in s && f(k) != [] {
      BagMember(s, f, f(k)[0]);
      assert f(k)[0] in Bag(s, f);
    } else {
      BagWiden({}, s, f);
    }
  }

  ghost function Mapped<T, U>(xs: seq<T>, p: T -> U): (r: seq<U>)
    ensures |r| == |xs|
  {
    seq(|xs|, i requires 0 <= i < |xs| => p(xs[i]))
  }

  lemma MappedAppend<T, U>(a: seq<T>, b: seq<T>, p: T -> U)
    ensures Mapped(a + b, p) == Mapped(a, p) + Mapped(b, p)
  {
  }

  lemma MappedAt<T, U>(xs: seq<T>, p: T -> U, i: nat)
    requires i < |xs|
    ensures Mapped(xs, p)[i] == p(xs[i])
  {
  }

  lemma Grown<T>(u: multiset<T>, s: seq<T>, x: T)
    ensures u + multiset(s + [x]) == (u + multiset(s)) + multiset{x}
  {
  }

  lemma MappedNil<T, U>(p: T -> U)
    ensures Mapped([], p) == []
  {
  }

  lemma MappedOne<T, U>(x: T, p: T -> U)
    ensures Mapped([x], p) == [p(x)]
  {
  }

  lemma MappedSnoc<T, U>(xs: seq<T>, x: T, p: T -> U)
    ensures Mapped(xs + [x], p) == Mapped(xs, p) + [p(x)]
    ensures multiset(Mapped(xs + [x], p)) == multiset(Mapped(xs, p)) + multiset{p(x)}
  {
    MappedAppend(xs, [x], p);
    assert Mapped([x], p) == [p(x)];
  }

  lemma TakeSnoc<T>(s: seq<T>, n: nat)
    requires 0 < n <= |s|
    ensures s[..n] == s[..n - 1] + [s[n - 1]]
  {
  }

  lemma TakeAll<T>(s: seq<T>)
    ensures s[..|s|] == s
  {
  }

  lemma Without<T>(b: seq<T>, i: nat)
    requires i < |b|
    ensures multiset(b) == multiset{b[i]} + multiset(b[..i] + b[i + 1..])
  {
    assert b == b[..i] + [b[i]] + b[i + 1..];
  }

  lemma MappedWithout<T, U>(b: seq<T>, i: nat, p: T -> U)
    requires i < |b|
    ensures multiset(Mapped(b, p)) == multiset{p(b[i])} + multiset(Mapped(b[..i] + b[i + 1..], p))
  {
    var m := Mapped(b, p);
    Without(m, i);
    assert m[..i] + m[i + 1..] == Mapped(b[..i] + b[i + 1..], p);
  }

  lemma PlusOne<T>(u: multiset<T>, v: multiset<T>, w: multiset<T>, x: T)
    requires u == v + w
    ensures u + multiset{x} == v + (w + multiset{x})
    ensures u + multiset{x} == (v + multiset{x}) + w
  {
  }

  lemma Cancel<T>(x: T, a: multiset<T>, b: multiset<T>)
    requires multiset{x} + a == multiset{x} + b
    ensures a == b
  {
    assert a == (multiset{x} + a) - multiset{x};
  }

  lemma SameLength<T>(a: seq<T>, b: seq<T>)
    requires multiset(a) == multiset(b)
    ensures |a| == |b|
  {
    assert |a| == |multiset(a)|;
  }

  /** Removing one occurrence of the same element keeps two lists permutations. */
  lemma DropAt<T>(a: seq<T>, i: nat, b: seq<T>, j: nat)
    requires i < |a| && j < |b| && a[i] == b[j]
    requires multiset(a) == multiset(b)
    ensures multiset(a[..i] + a[i + 1..]) == multiset(b[..j] + b[j + 1..])
  {
    Without(a, i);
    Without(b, j);
    Cancel(a[i], multiset(a[..i] + a[i + 1..]), multiset(b[..j] + b[j + 1..]));
  }

  lemma DropHead<T>(a: seq<T>, b: seq<T>)
    requires a != [] && b != [] && a[0] == b[0]
    requires multiset(a) == multiset(b)
    ensures multiset(a[1..]) == multiset(b[1..])
  {
    DropAt(a, 0, b, 0);
    assert a[..0] + a[1..] == a[1..] && b[..0] + b[1..] == b[1..];
  }

  lemma Occurrence<T>(x: T, a: seq<T>, b: seq<T>) returns (i: nat)
    requires multiset(a) == multiset(b) && x in a
    ensures i < |b| && b[i] == x
  {
    assert x in multiset(b);
    i :| 0 <= i < |b| && b[i] == x;
  }

  /** Mapping respects permutation. */
  lemma {:induction false} MappedPermutation<T, U>(a: seq<T>, b: seq<T>, p: T -> U)
    requires multiset(a) == multiset(b)
    ensures multiset(Mapped(a, p)) == multiset(Mapped(b, p))
    decreases |a|
  {
    SameLength(a, b);
    if a != [] {
      var i := Occurrence(a[0], a, b);
      DropAt(a, 0, b, i);
      assert a[..0] + a[1..] == a[1..];
      MappedPermutation(a[1..], b[..i] + b[i + 1..], p);
      MappedWithout(a, 0, p);
      MappedWithout(b, i, p);
    }
  }

  ghost function Listing<T>(m: multiset<T>): (r: seq<T>)
    ensures multiset(r) == m
  {
    if m == multiset{} then [] else var x :| x in m; [x] + Listing(m - multiset{x})
  }

  /** Projecting what a loop accumulated is accumulating the projections. */
  lemma {:induction false} BagMapped<K, T, U>(s: set<K>, f: K -> seq<T>, p: T -> U, g: K -> seq<U>, xs: seq<T>)
    requires multiset(xs) == Bag(s, f)
    requires forall k :: k in s ==> g(k) == Mapped(f(k), p)
    ensures multiset(Mapped(xs, p)) == Bag(s, g)
    decreases |s|
  {
    if s == {} {
      assert |multiset(xs)| == 0;
      assert Mapped(xs, p) == [];
    } else {
      var k :| k in s;
      BagPick(s, f, k);
      BagPick(s, g, k);
      var rest := Listing(Bag(s - {k}, f));
      BagMapped(s - {k}, f, p, g, rest);
      MappedPermutation(xs, f(k) + rest, p);
      MappedAppend(f(k), rest, p);
    }
  }

  ghost function MappedFn<K, T, U>(f: K -> seq<T>, p: T -> U): K -> seq<U> {
    k => Mapped(f(k), p)
  }

  lemma MappedPointwise<T, U>(xs: seq<T>, ys: seq<T>, p: T -> U)
    requires |xs| == |ys|
    requires forall i :: 0 <= i < |xs| ==> p(xs[i]) == p(ys[i])
    ensures Mapped(xs, p) == Mapped(ys, p)
  {
  }

  /** Two accumulations that agree key by key up to a projection agree up to it. */
  lemma BagMappedAgree<K, T, U>(s: set<K>, f: K -> seq<T>, g: K -> seq<T>, p: T -> U, xs: seq<T>, ys: seq<T>)
    requires multiset(xs) == Bag(s, f) && multiset(ys) == Bag(s, g)
    requires forall k :: k in s ==> Mapped(f(k), p) == Mapped(g(k), p)
    ensures multiset(Mapped(xs, p)) == multiset(Mapped(ys, p))
  {
    BagMapped(s, f, p, MappedFn(f, p), xs);
    BagMapped(s, g, p, MappedFn(g, p), ys);
    BagCongruent(s, MappedFn(f, p), MappedFn(g, p));
  }

  /** What two loops over the same keys accumulate together. */
  ghost function Joined<K, T>(f: K -> seq<T>, g: K -> seq<T>): K -> seq<T> { k => f(k) + g(k) }

  lemma {:induction false} BagJoined<K, T>(s: set<K>, f: K -> seq<T>, g: K -> seq<T>)
    ensures Bag(s, Joined(f, g)) == Bag(s, f) + Bag(s, g)
    decreases |s|
  {
    if s != {} {
      var k :| k in s;
      BagPick(s, f, k);
      BagPick(s, g, k);
      BagPick(s, Joined(f, g), k);
      BagJoined(s - {k}, f, g);
    }
  }

  lemma {:induction false} BagSizes<K, T, U>(s: set<K>, f: K -> seq<T>, g: K -> seq<U>)
    requires forall k :: k in s ==> |f(k)| == |g(k)|
    ensures |Bag(s, f)| == |Bag(s, g)|
    decreases |s|
  {
    if s != {} {
      var k :| k in s;
      BagAdd(s - {k}, f, k);
      BagAdd(s - {k}, g, k);
      assert s - {k} + {k} == s;
      BagSizes(s - {k}, f, g);
    }
  }

  lemma {:induction false} BagSizesAdd<K, T, U, V>(s: set<K>, f: K -> seq<T>, g: K -> seq<U>, h: K -> seq<V>)
    requires forall k :: k in s ==> |f(k)| == |g(k)| + |h(k)|
    ensures |Bag(s, f)| == |Bag(s, g)| + |Bag(s, h)|
    decreases |s|
  {
    if s != {} {
      var k :| k in s;
      BagPick(s, f, k);
      BagPick(s, g, k);
      BagPick(s, h, k);
      BagSizesAdd(s - {k}, f, g, h);
    }
  }
}
