/** The delta expressed as counts (internal/diff/counts.go): a merge-join over the two flat
    runs, a positional pairing of the shared groups, and set differences of edge hashes. */
module Counts {
  import opened Text
  import opened Bags
  import opened Slices
  import opened Facts
  import opened Diff
  import opened Sides

  type SeenRows = map<Word, seq<Seen>>

  const SEEN_KIND: Seen -> string := (s: Seen) => s.kind

  /** The positions at which two rows differ in props. */
  function Differing(b: seq<Seen>, c: seq<Seen>, n: nat): seq<nat>
    requires n <= |b| && n <= |c|
  {
    if n == 0 then []
    else if b[n - 1].props != c[n - 1].props then Differing(b, c, n - 1) + [n - 1]
    else Differing(b, c, n - 1)
  }

  ghost function SurplusKinds(b: seq<Seen>, c: seq<Seen>): seq<string> {
    Mapped(Surplus(b, c), SEEN_KIND)
  }

  function PairsDiffering(b: seq<Seen>, c: seq<Seen>): seq<nat> {
    Differing(b, c, Paired(b, c))
  }

  ghost function AddedKinds(rb: SeenRows, rc: SeenRows): Word -> seq<string> {
    k => SurplusKinds(Row(rb, k), Row(rc, k))
  }

  function ChangedAt(rb: SeenRows, rc: SeenRows): Word -> seq<nat> {
    k => PairsDiffering(Row(rb, k), Row(rc, k))
  }

  /** A map of counters holds the multiplicities of a multiset. */
  ghost predicate IsTally(m: map<string, nat>, bag: multiset<string>) {
    forall k :: (k in m <==> k in bag) && (k in m ==> m[k] == bag[k])
  }

  class Counts {
    var FactsAdded: nat
    var FactsRemoved: nat
    var FactsChanged: nat
    var EdgesAdded: nat
    var EdgesRemoved: nat
    var AddedByKind: map<string, nat>
    var RemovedByKind: map<string, nat>
    var TouchedNames: set<string>

    // The kinds of the facts counted so far.
    ghost var addedKinds: multiset<string>
    ghost var removedKinds: multiset<string>

    ghost predicate Valid()
      reads this`FactsAdded, this`FactsRemoved, this`AddedByKind, this`RemovedByKind, this`addedKinds, this`removedKinds
    {
      && FactsAdded == |addedKinds| && IsTally(AddedByKind, addedKinds)
      && FactsRemoved == |removedKinds| && IsTally(RemovedByKind, removedKinds)
    }

    /** Added and changed are settled for the keys `a`, removed for the keys `r`, and `moved`
        holds the keys that contributed anything. */
    ghost predicate Settled(a: set<Word>, r: set<Word>, rb: SeenRows, rc: SeenRows, moved: set<Word>)
      reads this`FactsAdded, this`FactsRemoved, this`AddedByKind, this`RemovedByKind, this`addedKinds, this`removedKinds
      reads this`FactsChanged
    {
      && Valid()
      && addedKinds == Bag(a, AddedKinds(rb, rc))
      && removedKinds == Bag(r, AddedKinds(rc, rb))
      && FactsChanged == |Bag(a, ChangedAt(rb, rc))|
      && moved == MovedKeys(a, r, rb, rc)
    }

    constructor ()
      ensures Valid() && FactsAdded == FactsRemoved == FactsChanged == 0
      ensures addedKinds == removedKinds == multiset{}
    {
      FactsAdded, FactsRemoved, FactsChanged, EdgesAdded, EdgesRemoved := 0, 0, 0, 0, 0;
      AddedByKind, RemovedByKind, TouchedNames := map[], map[], {};
      addedKinds, removedKinds := multiset{}, multiset{};
    }

    method Added(kinds: KindTable, kind: nat)
      requires Valid() && kind < |kinds.names|
      modifies this`FactsAdded, this`AddedByKind, this`addedKinds
      ensures Valid() && addedKinds == old(addedKinds) + multiset{kinds.names[kind]}
    {
      var name := kinds.names[kind];
      FactsAdded := FactsAdded + 1;
      AddedByKind := AddedByKind[name := (if name in AddedByKind then AddedByKind[name] else 0) + 1];
      addedKinds := addedKinds + multiset{name};
    }

    method Removed(kinds: KindTable, kind: nat)
      requires Valid() && kind < |kinds.names|
      modifies this`FactsRemoved, this`RemovedByKind, this`removedKinds
      ensures Valid() && removedKinds == old(removedKinds) + multiset{kinds.names[kind]}
    {
      var name := kinds.names[kind];
      FactsRemoved := FactsRemoved + 1;
      RemovedByKind := RemovedByKind[name := (if name in RemovedByKind then RemovedByKind[name] else 0) + 1];
      removedKinds := removedKinds + multiset{name};
    }
  }

  ghost function MovedKeys(a: set<Word>, r: set<Word>, rb: SeenRows, rc: SeenRows): set<Word> {
    (set k | k in a && (AddedKinds(rb, rc)(k) != [] || ChangedAt(rb, rc)(k) != []))
    + (set k | k in r && AddedKinds(rc, rb)(k) != [])
  }

  /** One more key: what each accumulated bag gains. */
  lemma SettleKey(done: set<Word>, k: Word, rb: SeenRows, rc: SeenRows)
    requires k !in done
    ensures Bag(done + {k}, AddedKinds(rb, rc)) == Bag(done, AddedKinds(rb, rc)) + multiset(AddedKinds(rb, rc)(k))
    ensures Bag(done + {k}, AddedKinds(rc, rb)) == Bag(done, AddedKinds(rc, rb)) + multiset(AddedKinds(rc, rb)(k))
    ensures |Bag(done + {k}, ChangedAt(rb, rc))| == |Bag(done, ChangedAt(rb, rc))| + |ChangedAt(rb, rc)(k)|
    ensures MovedKeys(done + {k}, done + {k}, rb, rc) == MovedKeys(done, done, rb, rc)
      + if AddedKinds(rb, rc)(k) != [] || AddedKinds(rc, rb)(k) != [] || ChangedAt(rb, rc)(k) != [] then {k} else {}
  {
    hide AddedKinds, ChangedAt, Bag;
    BagAdd(done, AddedKinds(rb, rc), k);
    BagAdd(done, AddedKinds(rc, rb), k);
    BagAdd(done, ChangedAt(rb, rc), k);
  }

  /** What a key with at most one member on either side contributes. */
  lemma SingletonRows(k: Word, rb: SeenRows, rc: SeenRows)
    requires |Row(rb, k)| <= 1 && |Row(rc, k)| <= 1
    ensures AddedKinds(rb, rc)(k) == if |Row(rc, k)| > |Row(rb, k)| then [Row(rc, k)[0].kind] else []
    ensures AddedKinds(rc, rb)(k) == if |Row(rb, k)| > |Row(rc, k)| then [Row(rb, k)[0].kind] else []
    ensures |ChangedAt(rb, rc)(k)|
         == if |Row(rb, k)| == |Row(rc, k)| == 1 && Row(rb, k)[0].props != Row(rc, k)[0].props then 1 else 0
  {
    hide SurplusKinds, PairsDiffering;
    SingletonSurplus(Row(rb, k), Row(rc, k));
    SingletonSurplus(Row(rc, k), Row(rb, k));
    SingletonPair(Row(rb, k), Row(rc, k));
  }

  lemma SingletonSurplus(b: seq<Seen>, c: seq<Seen>)
    requires |b| <= 1 && |c| <= 1
    ensures SurplusKinds(b, c) == if |c| > |b| then [c[0].kind] else []
  {
    MappedNil(SEEN_KIND);
    if |c| > |b| {
      MappedOne(c[0], SEEN_KIND);
      assert Surplus(b, c) == [c[0]];
    }
  }

  lemma SingletonPair(b: seq<Seen>, c: seq<Seen>)
    requires |b| <= 1 && |c| <= 1
    ensures |PairsDiffering(b, c)| == if |b| == |c| == 1 && b[0].props != c[0].props then 1 else 0
  {
    if |b| == |c| == 1 {
      assert Differing(b, c, 0) == [];
    }
  }

  /** A run is in strictly increasing key order. */
  ghost predicate Increasing(flat: seq<FactRec>) {
    forall i, j :: 0 <= i < j < |flat| ==> flat[i].key < flat[j].key
  }

  ghost predicate Lacks(flat: seq<FactRec>, k: Word) {
    forall r :: r in flat ==> r.key != k
  }

  /** `rows` shows the records of `flat`, and nothing under the keys only `other` has. */
  ghost predicate Shows(rows: SeenRows, flat: seq<FactRec>, other: seq<FactRec>, names: seq<string>) {
    && (forall r :: r in flat ==> r.kind < |names| && Row(rows, r.key) == [RecSeen(names)(r)])
    && (forall r :: r in other && Lacks(flat, r.key) ==> Row(rows, r.key) == [])
  }

  /** Where a merge-join stands: everything before `i` and `j` is below everything after. */
  ghost predicate Merging(b: seq<FactRec>, c: seq<FactRec>, i: nat, j: nat) {
    && Increasing(b) && Increasing(c) && i <= |b| && j <= |c|
    && (forall p, q :: 0 <= p < i && j <= q < |c| ==> b[p].key < c[q].key)
    && (forall p, q :: i <= p < |b| && 0 <= q < j ==> c[q].key < b[p].key)
  }

  ghost function Done(b: seq<FactRec>, c: seq<FactRec>, i: nat, j: nat): set<Word>
    requires i <= |b| && j <= |c|
  {
    KeysOf(b[..i], REC_KEY) + KeysOf(c[..j], REC_KEY)
  }

  lemma KeysStep(b: seq<FactRec>, i: nat)
    requires i < |b|
    ensures KeysOf(b[..i + 1], REC_KEY) == KeysOf(b[..i], REC_KEY) + {b[i].key}
  {
    TakeSnoc(b, i + 1);
    AppendKey(b[..i], b[i], REC_KEY);
  }

  lemma NotDone(b: seq<FactRec>, c: seq<FactRec>, i: nat, j: nat, k: Word)
    requires Merging(b, c, i, j)
    requires (i < |b| && k == b[i].key) || (j < |c| && k == c[j].key)
    ensures k !in Done(b, c, i, j)
  {
  }

  lemma DoneBoth(b: seq<FactRec>, c: seq<FactRec>, i: nat, j: nat)
    requires i < |b| && j < |c| && b[i].key == c[j].key
    ensures Done(b, c, i + 1, j + 1) == Done(b, c, i, j) + {b[i].key}
  {
    hide KeysOf;
    KeysStep(b, i);
    KeysStep(c, j);
  }

  lemma DoneOne(b: seq<FactRec>, c: seq<FactRec>, i: nat, j: nat)
    requires i < |b| && j <= |c|
    ensures Done(b, c, i + 1, j) == Done(b, c, i, j) + {b[i].key}
  {
    hide KeysOf;
    KeysStep(b, i);
  }

  /** The merge meets a key both runs hold. */
  lemma MeetBoth(b: seq<FactRec>, c: seq<FactRec>, i: nat, j: nat, rb: SeenRows, rc: SeenRows, names: seq<string>)
    requires Merging(b, c, i, j) && Shows(rb, b, c, names) && Shows(rc, c, b, names)
    requires i < |b| && j < |c| && b[i].key == c[j].key
    ensures Merging(b, c, i + 1, j + 1)
    ensures Row(rb, b[i].key) == [RecSeen(names)(b[i])] && Row(rc, b[i].key) == [RecSeen(names)(c[j])]
  {
    hide Row;
    assert b[i] in b && c[j] in c;
  }

  lemma LacksNext(b: seq<FactRec>, c: seq<FactRec>, i: nat, j: nat)
    requires Merging(b, c, i, j)
    requires i < |b| && (j == |c| || b[i].key < c[j].key)
    ensures Lacks(c, b[i].key)
  {
    forall r | r in c ensures r.key != b[i].key {
      var n :| 0 <= n < |c| && c[n] == r;
    }
  }

  /** The merge meets a key only the first run holds. */
  lemma MeetOne(b: seq<FactRec>, c: seq<FactRec>, i: nat, j: nat, rb: SeenRows, rc: SeenRows, names: seq<string>)
    requires Merging(b, c, i, j) && Shows(rb, b, c, names) && Shows(rc, c, b, names)
    requires i < |b| && (j == |c| || b[i].key < c[j].key)
    ensures Merging(b, c, i + 1, j)
    ensures Row(rb, b[i].key) == [RecSeen(names)(b[i])] && Row(rc, b[i].key) == []
    ensures b[i].kind < |names|
  {
    hide Row, Lacks;
    LacksNext(b, c, i, j);
    assert b[i] in b;
  }

  lemma MergingSwap(b: seq<FactRec>, c: seq<FactRec>, i: nat, j: nat)
    requires i <= |b| && j <= |c|
    ensures Merging(b, c, i, j) <==> Merging(c, b, j, i)
    ensures Done(b, c, i, j) == Done(c, b, j, i)
  {
  }

  /** The flat part of `countSides`: a merge-join over two strictly increasing runs. */
  method MergeFlat(c: Counts, kinds: KindTable, base: seq<FactRec>, cur: seq<FactRec>,
                   ghost rb: SeenRows, ghost rc: SeenRows) returns (moved: set<Word>)
    requires c.Settled({}, {}, rb, rc, {})
    requires Merging(base, cur, 0, 0)
    requires Shows(rb, base, cur, kinds.names) && Shows(rc, cur, base, kinds.names)
    modifies c
    ensures var keys := KeysOf(base, REC_KEY) + KeysOf(cur, REC_KEY); c.Settled(keys, keys, rb, rc, moved)
  {
    hide Counts.Settled, Shows, Merging, KeysOf;
    moved := {};
    var i, j := 0, 0;
    NothingDone(base, cur);
    while i < |base| && j < |cur|
      invariant i <= |base| && j <= |cur| && Merging(base, cur, i, j)
      invariant c.Settled(Done(base, cur, i, j), Done(base, cur, i, j), rb, rc, moved)
      decreases |base| - i + |cur| - j
    {
      if base[i].key == cur[j].key {
        moved := CountBoth(c, base, cur, i, j, kinds.names, rb, rc, moved);
        i, j := i + 1, j + 1;
      } else if base[i].key < cur[j].key {
        moved := CountRemoved(c, kinds, base, cur, i, j, rb, rc, moved);
        i := i + 1;
      } else {
        moved := CountAdded(c, kinds, base, cur, i, j, rb, rc, moved);
        j := j + 1;
      }
    }
    while i < |base|
      invariant i <= |base| && j <= |cur| && Merging(base, cur, i, j) && (i == |base| || j == |cur|)
      invariant c.Settled(Done(base, cur, i, j), Done(base, cur, i, j), rb, rc, moved)
    {
      moved := CountRemoved(c, kinds, base, cur, i, j, rb, rc, moved);
      i := i + 1;
    }
    while j < |cur|
      invariant i == |base| && j <= |cur| && Merging(base, cur, i, j)
      invariant c.Settled(Done(base, cur, i, j), Done(base, cur, i, j), rb, rc, moved)
    {
      moved := CountAdded(c, kinds, base, cur, i, j, rb, rc, moved);
      j := j + 1;
    }
    TakeAll(base);
    TakeAll(cur);
  }

  lemma NothingDone(b: seq<FactRec>, c: seq<FactRec>)
    ensures Done(b, c, 0, 0) == {}
  {
  }

  method CountBoth(c: Counts, base: seq<FactRec>, cur: seq<FactRec>, i: nat, j: nat, ghost names: seq<string>,
                   ghost rb: SeenRows, ghost rc: SeenRows, moved0: set<Word>) returns (moved: set<Word>)
    requires Merging(base, cur, i, j) && Shows(rb, base, cur, names) && Shows(rc, cur, base, names)
    requires i < |base| && j < |cur| && base[i].key == cur[j].key
    requires c.Settled(Done(base, cur, i, j), Done(base, cur, i, j), rb, rc, moved0)
    modifies c
    ensures Merging(base, cur, i + 1, j + 1)
    ensures c.Settled(Done(base, cur, i + 1, j + 1), Done(base, cur, i + 1, j + 1), rb, rc, moved)
  {
    hide Merging, Shows, Row, KeysOf, Done, Counts.Valid, Bag, MovedKeys, AddedKinds, ChangedAt;
    var k := base[i].key;
    MeetBoth(base, cur, i, j, rb, rc, names);
    NotDone(base, cur, i, j, k);
    DoneBoth(base, cur, i, j);
    SettleKey(Done(base, cur, i, j), k, rb, rc);
    SingletonRows(k, rb, rc);
    moved := moved0;
    if base[i].props != cur[j].props {
      c.FactsChanged := c.FactsChanged + 1;
      moved := moved + {cur[j].key};
    }
  }

  method CountRemoved(c: Counts, kinds: KindTable, base: seq<FactRec>, cur: seq<FactRec>, i: nat, j: nat,
                      ghost rb: SeenRows, ghost rc: SeenRows, moved0: set<Word>) returns (moved: set<Word>)
    requires Merging(base, cur, i, j) && Shows(rb, base, cur, kinds.names) && Shows(rc, cur, base, kinds.names)
    requires i < |base| && j <= |cur| && (j == |cur| || base[i].key < cur[j].key)
    requires c.Settled(Done(base, cur, i, j), Done(base, cur, i, j), rb, rc, moved0)
    modifies c
    ensures Merging(base, cur, i + 1, j)
    ensures c.Settled(Done(base, cur, i + 1, j), Done(base, cur, i + 1, j), rb, rc, moved)
  {
    hide Merging, Shows, Row, KeysOf, Done, Counts.Valid, Bag, MovedKeys, AddedKinds, ChangedAt;
    var k := base[i].key;
    MeetOne(base, cur, i, j, rb, rc, kinds.names);
    NotDone(base, cur, i, j, k);
    DoneOne(base, cur, i, j);
    SettleKey(Done(base, cur, i, j), k, rb, rc);
    SingletonRows(k, rb, rc);
    c.Removed(kinds, base[i].kind);
    moved := moved0 + {k};
  }

  method CountAdded(c: Counts, kinds: KindTable, base: seq<FactRec>, cur: seq<FactRec>, i: nat, j: nat,
                    ghost rb: SeenRows, ghost rc: SeenRows, moved0: set<Word>) returns (moved: set<Word>)
    requires Merging(base, cur, i, j) && Shows(rb, base, cur, kinds.names) && Shows(rc, cur, base, kinds.names)
    requires i <= |base| && j < |cur| && (i == |base| || cur[j].key < base[i].key)
    requires c.Settled(Done(base, cur, i, j), Done(base, cur, i, j), rb, rc, moved0)
    modifies c
    ensures Merging(base, cur, i, j + 1)
    ensures c.Settled(Done(base, cur, i, j + 1), Done(base, cur, i, j + 1), rb, rc, moved)
  {
    hide Merging, Shows, Row, KeysOf, Done, Counts.Valid, Bag, MovedKeys, AddedKinds, ChangedAt;
    var k := cur[j].key;
    MergingSwap(base, cur, i, j);
    MergingSwap(base, cur, i, j + 1);
    MeetOne(cur, base, j, i, rc, rb, kinds.names);
    NotDone(base, cur, i, j, k);
    DoneOne(cur, base, j, i);
    SettleKey(Done(base, cur, i, j), k, rb, rc);
    SingletonRows(k, rb, rc);
    c.Added(kinds, cur[j].kind);
    moved := moved0 + {k};
  }

  // ---- shared keys

  /** `rows` shows the groups of `g`. */
  ghost predicate ShowsGroups(rows: SeenRows, g: map<Word, seq<Member>>, keys: set<Word>, names: seq<string>) {
    forall k :: k in keys ==> KindsNamed(Row(g, k), names) && Row(rows, k) == Mapped(Row(g, k), MemberSeen(names))
  }

  /** Pairs one group positionally: surplus members are added, pairs with other props changed. */
  method PairMembers(c: Counts, kinds: KindTable, b: seq<Member>, g: seq<Member>) returns (hit: bool)
    requires c.Valid() && KindsNamed(b, kinds.names) && KindsNamed(g, kinds.names)
    modifies c`FactsAdded, c`AddedByKind, c`addedKinds, c`FactsChanged
    ensures c.Valid()
    ensures var rb, rc := Mapped(b, MemberSeen(kinds.names)), Mapped(g, MemberSeen(kinds.names));
      && c.addedKinds == old(c.addedKinds) + multiset(SurplusKinds(rb, rc))
      && c.FactsChanged == old(c.FactsChanged) + |PairsDiffering(rb, rc)|
      && hit == (SurplusKinds(rb, rc) != [] || PairsDiffering(rb, rc) != [])
  {
    hide Counts.Valid, SurplusKinds, PairsDiffering, Mapped;
    hit := false;
    ghost var rb, rc := Mapped(b, MemberSeen(kinds.names)), Mapped(g, MemberSeen(kinds.names));
    NoneYet(rb, rc[..0]);
    for n := 0 to |g|
      invariant c.Valid()
      invariant c.addedKinds == old(c.addedKinds) + multiset(SurplusKinds(rb, rc[..n]))
      invariant c.FactsChanged == old(c.FactsChanged) + |PairsDiffering(rb, rc[..n])|
      invariant hit == (SurplusKinds(rb, rc[..n]) != [] || PairsDiffering(rb, rc[..n]) != [])
    {
      TakeSnoc(rc, n + 1);
      assert g[n] in g;
      MappedAt(g, MemberSeen(kinds.names), n);
      if n >= |b| {
        SurplusSnoc(rb, rc[..n], rc[n]);
        Grown(old(c.addedKinds), SurplusKinds(rb, rc[..n]), rc[n].kind);
        c.Added(kinds, g[n].kind);
        hit := true;
      } else {
        MappedAt(b, MemberSeen(kinds.names), n);
        PairSnoc(rb, rc[..n], rc[n]);
        if b[n].props != g[n].props {
          c.FactsChanged := c.FactsChanged + 1;
          hit := true;
        }
      }
    }
    TakeAll(rc);
  }

  lemma NoneYet(b: seq<Seen>, c: seq<Seen>)
    ensures |c| == 0 ==> PairsDiffering(b, c) == []
    ensures |c| <= |b| ==> SurplusKinds(b, c) == []
  {
    MappedNil(SEEN_KIND);
  }

  lemma SurplusSnoc(b: seq<Seen>, c: seq<Seen>, x: Seen)
    requires |c| >= |b|
    ensures SurplusKinds(b, c + [x]) == SurplusKinds(b, c) + [x.kind]
    ensures PairsDiffering(b, c + [x]) == PairsDiffering(b, c)
  {
    assert Surplus(b, c + [x]) == Surplus(b, c) + [x];
    MappedSnoc(Surplus(b, c), x, SEEN_KIND);
    DifferingPrefix(b, c, x, |b|);
  }

  lemma PairSnoc(b: seq<Seen>, c: seq<Seen>, x: Seen)
    requires |c| < |b|
    ensures SurplusKinds(b, c + [x]) == SurplusKinds(b, c) == []
    ensures |PairsDiffering(b, c + [x])| == |PairsDiffering(b, c)| + if b[|c|].props != x.props then 1 else 0
  {
    DifferingPrefix(b, c, x, |c|);
  }

  lemma {:induction false} DifferingPrefix(b: seq<Seen>, c: seq<Seen>, x: Seen, n: nat)
    requires n <= |b| && n <= |c|
    ensures Differing(b, c + [x], n) == Differing(b, c, n)
  {
    if n > 0 {
      DifferingPrefix(b, c, x, n - 1);
    }
  }

  lemma SurplusGrows(was: multiset<string>, rc: seq<Seen>, rb: seq<Seen>, n: nat)
    requires |rc| <= n < |rb|
    ensures was + multiset(SurplusKinds(rc, rb[..n + 1])) == was + multiset(SurplusKinds(rc, rb[..n])) + multiset{rb[n].kind}
    ensures SurplusKinds(rc, rb[..n + 1]) != []
  {
    hide SurplusKinds;
    TakeSnoc(rb, n + 1);
    SurplusSnoc(rc, rb[..n], rb[n]);
    Grown(was, SurplusKinds(rc, rb[..n]), rb[n].kind);
  }

  method DropMembers(c: Counts, kinds: KindTable, b: seq<Member>, g: seq<Member>) returns (hit: bool)
    requires c.Valid() && KindsNamed(b, kinds.names)
    modifies c`FactsRemoved, c`RemovedByKind, c`removedKinds
    ensures c.Valid()
    ensures var rb, rc := Mapped(b, MemberSeen(kinds.names)), Mapped(g, MemberSeen(kinds.names));
      && c.removedKinds == old(c.removedKinds) + multiset(SurplusKinds(rc, rb))
      && hit == (SurplusKinds(rc, rb) != [])
  {
    hide Counts.Valid, SurplusKinds, Mapped;
    hit := false;
    ghost var rb, rc := Mapped(b, MemberSeen(kinds.names)), Mapped(g, MemberSeen(kinds.names));
    var n := |g|;
    if n >= |b| {
      NoneYet(rc, rb);
      return;
    }
    NoneYet(rc, rb[..n]);
    while n < |b|
      invariant |g| <= n <= |b|
      invariant c.Valid()
      invariant c.removedKinds == old(c.removedKinds) + multiset(SurplusKinds(rc, rb[..n]))
      invariant hit == (SurplusKinds(rc, rb[..n]) != [])
    {
      assert b[n] in b;
      MappedAt(b, MemberSeen(kinds.names), n);
      SurplusGrows(old(c.removedKinds), rc, rb, n);
      c.Removed(kinds, b[n].kind);
      hit := true;
      n := n + 1;
    }
    TakeAll(rb);
  }

  lemma SettleAdded(a: set<Word>, r: set<Word>, k: Word, rb: SeenRows, rc: SeenRows)
    requires k !in a
    ensures Bag(a + {k}, AddedKinds(rb, rc)) == Bag(a, AddedKinds(rb, rc)) + multiset(AddedKinds(rb, rc)(k))
    ensures |Bag(a + {k}, ChangedAt(rb, rc))| == |Bag(a, ChangedAt(rb, rc))| + |ChangedAt(rb, rc)(k)|
    ensures MovedKeys(a + {k}, r, rb, rc) == MovedKeys(a, r, rb, rc)
      + if AddedKinds(rb, rc)(k) != [] || ChangedAt(rb, rc)(k) != [] then {k} else {}
  {
    hide AddedKinds, ChangedAt, Bag;
    BagAdd(a, AddedKinds(rb, rc), k);
    BagAdd(a, ChangedAt(rb, rc), k);
  }

  lemma SettleRemoved(a: set<Word>, r: set<Word>, k: Word, rb: SeenRows, rc: SeenRows)
    requires k !in r
    ensures Bag(r + {k}, AddedKinds(rc, rb)) == Bag(r, AddedKinds(rc, rb)) + multiset(AddedKinds(rc, rb)(k))
    ensures MovedKeys(a, r + {k}, rb, rc) == MovedKeys(a, r, rb, rc)
      + if AddedKinds(rc, rb)(k) != [] then {k} else {}
  {
    hide AddedKinds, ChangedAt, Bag;
    BagAdd(r, AddedKinds(rc, rb), k);
  }

  method PairSharedKey(c: Counts, kinds: KindTable, b: seq<Member>, g: seq<Member>, k: Word,
                       ghost a: set<Word>, ghost r: set<Word>, ghost rb: SeenRows, ghost rc: SeenRows, moved0: set<Word>)
    returns (moved: set<Word>)
    requires k !in a && c.Settled(a, r, rb, rc, moved0)
    requires KindsNamed(b, kinds.names) && Row(rb, k) == Mapped(b, MemberSeen(kinds.names))
    requires KindsNamed(g, kinds.names) && Row(rc, k) == Mapped(g, MemberSeen(kinds.names))
    modifies c`FactsAdded, c`AddedByKind, c`addedKinds, c`FactsChanged
    ensures c.Settled(a + {k}, r, rb, rc, moved)
  {
    hide Counts.Valid, Bag, MovedKeys, KindsNamed, SurplusKinds, PairsDiffering, Mapped;
    SettleAdded(a, r, k, rb, rc);
    var hit := PairMembers(c, kinds, b, g);
    moved := if hit then moved0 + {k} else moved0;
  }

  method DropSharedKey(c: Counts, kinds: KindTable, b: seq<Member>, g: seq<Member>, k: Word,
                       ghost a: set<Word>, ghost r: set<Word>, ghost rb: SeenRows, ghost rc: SeenRows, moved0: set<Word>)
    returns (moved: set<Word>)
    requires k !in r && c.Settled(a, r, rb, rc, moved0)
    requires KindsNamed(b, kinds.names) && Row(rb, k) == Mapped(b, MemberSeen(kinds.names))
    requires Row(rc, k) == Mapped(g, MemberSeen(kinds.names))
    modifies c`FactsRemoved, c`RemovedByKind, c`removedKinds
    ensures c.Settled(a, r + {k}, rb, rc, moved)
  {
    hide Counts.Valid, Bag, MovedKeys, KindsNamed, SurplusKinds, PairsDiffering, Mapped;
    SettleRemoved(a, r, k, rb, rc);
    var hit := DropMembers(c, kinds, b, g);
    moved := if hit then moved0 + {k} else moved0;
  }

  /** The loop over the current side's groups. */
  method PairShared(c: Counts, kinds: KindTable, gb: map<Word, seq<Member>>, gc: map<Word, seq<Member>>,
                    ghost flat: set<Word>, ghost rb: SeenRows, ghost rc: SeenRows, moved0: set<Word>) returns (moved: set<Word>)
    requires flat !! gc.Keys && c.Settled(flat, flat, rb, rc, moved0)
    requires ShowsGroups(rb, gb, gc.Keys, kinds.names) && ShowsGroups(rc, gc, gc.Keys, kinds.names)
    modifies c
    ensures c.Settled(flat + gc.Keys, flat, rb, rc, moved)
  {
    hide Counts.Settled, KindsNamed, Mapped;
    moved := moved0;
    var todo := gc.Keys;
    assert flat + (gc.Keys - todo) == flat;
    while todo != {}
      invariant todo <= gc.Keys
      invariant c.Settled(flat + (gc.Keys - todo), flat, rb, rc, moved)
      decreases todo
    {
      var k :| k in todo;
      ghost var done := flat + (gc.Keys - todo);
      assert flat + (gc.Keys - (todo - {k})) == done + {k};
      todo := todo - {k};
      moved := PairSharedKey(c, kinds, Row(gb, k), gc[k], k, done, flat, rb, rc, moved);
    }
    assert flat + (gc.Keys - todo) == flat + gc.Keys;
  }

  /** The loop over the baseline side's groups. */
  method DropShared(c: Counts, kinds: KindTable, gb: map<Word, seq<Member>>, gc: map<Word, seq<Member>>,
                    ghost a: set<Word>, ghost flat: set<Word>, ghost rb: SeenRows, ghost rc: SeenRows, moved0: set<Word>)
    returns (moved: set<Word>)
    requires flat !! gb.Keys && c.Settled(a, flat, rb, rc, moved0)
    requires ShowsGroups(rb, gb, gb.Keys, kinds.names) && ShowsGroups(rc, gc, gb.Keys, kinds.names)
    modifies c
    ensures c.Settled(a, flat + gb.Keys, rb, rc, moved)
  {
    hide Counts.Settled, KindsNamed, Mapped;
    moved := moved0;
    var todo := gb.Keys;
    assert flat + (gb.Keys - todo) == flat;
    while todo != {}
      invariant todo <= gb.Keys
      invariant c.Settled(a, flat + (gb.Keys - todo), rb, rc, moved)
      decreases todo
    {
      var k :| k in todo;
      ghost var done := flat + (gb.Keys - todo);
      assert flat + (gb.Keys - (todo - {k})) == done + {k};
      todo := todo - {k};
      moved := DropSharedKey(c, kinds, gb[k], Row(gc, k), k, a, done, rb, rc, moved);
    }
    assert flat + (gb.Keys - todo) == flat + gb.Keys;
  }
}
